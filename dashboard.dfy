/**
 * The dashboard's derived data (frontend/src/components/Dashboard.jsx): the
 * filtered record list, the option lists of the four filters over all data,
 * and the faceted ("leave one dimension out") option lists.
 */
module Dashboard {
  import opened Seqs
  import opened Sorting
  import opened Text
  import opened Records
  import opened Filters

  /** The `{ functions, bands, sbus, roles }` option object. */
  datatype FacetOptions = FacetOptions(functions: seq<string>, bands: seq<string>, sbus: seq<string>, roles: seq<string>) {
    function Get(d: Dimension): seq<string> {
      match d
      case Function => functions
      case Band => bands
      case SBU => sbus
      case Role => roles
    }
  }

  const NoOptions := FacetOptions([], [], [], [])

  /** `filteredData`: the records satisfying every dimension's selection, in order. */
  function FilteredData(data: seq<SkillRecord>, f: FilterState): (r: seq<SkillRecord>)
    ensures IsSubsequence(r, data)
    ensures forall i :: 0 <= i < |r| ==> Passes(f, r[i])
  {
    FilterIsSubsequence(data, Keeper(f));
    Filter(data, Keeper(f))
  }

  /** `[...new Set(values)].sort()`. */
  function SortedDistinct(values: seq<string>): (o: seq<string>)
    ensures SortedBy(o, StringLess)
    ensures multiset(o) == multiset(Distinct(values))
  {
    SortStrings(Distinct(values))
  }

  /** `filterOptions`: every distinct value of each dimension over all data, sorted. */
  function FilterOptions(data: seq<SkillRecord>): (o: FacetOptions)
    ensures |data| == 0 ==> o == NoOptions
  {
    if |data| == 0 then NoOptions
    else FacetOptions(
      SortedDistinct(ValuesOf(data, Function)),
      SortedDistinct(ValuesOf(data, Band)),
      SortedDistinct(ValuesOf(data, SBU)),
      SortedDistinct(ValuesOf(data, Role)))
  }

  /** The records that pass every dimension's selection except `d`'s own. */
  function FacetData(data: seq<SkillRecord>, f: FilterState, d: Dimension): seq<SkillRecord> {
    Filter(data, KeeperExcept(f, d))
  }

  /** `getUnique(dData, key)`: the distinct `d`-values of the facet data, first appearance first. */
  function Available(data: seq<SkillRecord>, f: FilterState, d: Dimension): (vs: seq<string>)
    ensures NoDup(vs)
    ensures forall i :: 0 <= i < |vs| ==> vs[i] in ValuesOf(FacetData(data, f, d), d)
  {
    Distinct(ValuesOf(FacetData(data, f, d), d))
  }

  /** `availableOptions`. */
  function AvailableOptions(data: seq<SkillRecord>, f: FilterState): (o: FacetOptions)
    ensures |data| == 0 ==> o == NoOptions
  {
    if |data| == 0 then NoOptions
    else FacetOptions(
      Available(data, f, Function),
      Available(data, f, Band),
      Available(data, f, SBU),
      Available(data, f, Role))
  }

  lemma AvailableOptionsGet(data: seq<SkillRecord>, f: FilterState, d: Dimension)
    requires |data| > 0
    ensures AvailableOptions(data, f).Get(d) == Available(data, f, d)
  {
  }

  /**
   * A record occurs in `filteredData` exactly as often as in `data` when it
   * satisfies all four selections (Role against Job_Role_Name_without_concat),
   * and not at all otherwise.
   */
  lemma FilteredDataMultiplicity(data: seq<SkillRecord>, f: FilterState, r: SkillRecord)
    ensures multiset(FilteredData(data, f))[r] ==
      if && (|Selected(f, Function)| == 0 || r.jobFunction in Selected(f, Function))
         && (|Selected(f, Band)| == 0 || r.band in Selected(f, Band))
         && (|Selected(f, SBU)| == 0 || r.sbu in Selected(f, SBU))
         && (|Selected(f, Role)| == 0 || r.jobRole in Selected(f, Role))
      then multiset(data)[r] else 0
  {
    FilterMultiplicity(data, Keeper(f), r);
  }

  /** With no selection at all, the dashboard shows every record. */
  lemma FilteredDataNoSelection(data: seq<SkillRecord>, f: FilterState)
    requires NoneSelected(f)
    ensures FilteredData(data, f) == data
  {
    assert forall r :: Passes(f, r) by {
      assert Selected(f, Function) == [] && Selected(f, Band) == [];
      assert Selected(f, SBU) == [] && Selected(f, Role) == [];
    }
    FilterAllKept(data, Keeper(f));
  }

  /** Filtering the filtered list again with the same selections changes nothing. */
  lemma FilteredDataIdempotent(data: seq<SkillRecord>, f: FilterState)
    ensures FilteredData(FilteredData(data, f), f) == FilteredData(data, f)
  {
    FilterIdempotent(data, Keeper(f));
  }

  /** `[...new Set(values)].sort()` is strictly ascending and holds exactly the values. */
  lemma SortedDistinctIncreasing(values: seq<string>)
    ensures var o := SortedDistinct(values);
      && (forall i, j :: 0 <= i < j < |o| ==> StringLess(o[i], o[j]))
      && (forall v :: v in o <==> v in values)
  {
    var d := Distinct(values);
    var o := SortStrings(d);
    NoDupPermutation(o, d);
    StringLessIsStrictTotalOrder();
    SortedNoDupIsIncreasing(o, StringLess);
    forall v ensures v in o <==> v in values {
      assert v in o <==> v in multiset(o);
      assert v in d <==> v in multiset(d);
      DistinctMembership(values, v);
    }
  }

  lemma FilterOptionsGet(data: seq<SkillRecord>, d: Dimension)
    requires |data| > 0
    ensures FilterOptions(data).Get(d) == SortedDistinct(ValuesOf(data, d))
  {
  }

  /**
   * Each `filterOptions` list holds, strictly ascending, exactly the values the
   * dimension takes somewhere in `data`; the selections play no part.
   */
  lemma FilterOptionsExact(data: seq<SkillRecord>, d: Dimension, v: string)
    ensures var o := FilterOptions(data).Get(d);
      && (forall i, j :: 0 <= i < j < |o| ==> StringLess(o[i], o[j]))
      && (v in o <==> exists r :: r in data && FieldOf(r, d) == v)
  {
    if |data| > 0 {
      FilterOptionsGet(data, d);
      SortedDistinctIncreasing(ValuesOf(data, d));
      ValuesOfMembership(data, d, v);
    }
  }

  /** A dimension's own selection never changes its available options. */
  lemma AvailableIgnoresOwnSelection(data: seq<SkillRecord>, f: FilterState, d: Dimension, s: seq<string>)
    ensures AvailableOptions(data, f[d := s]).Get(d) == AvailableOptions(data, f).Get(d)
  {
    var g := f[d := s];
    forall e | e != d ensures Selected(g, e) == Selected(f, e) { }
    FilterCongruent(data, KeeperExcept(g, d), KeeperExcept(f, d));
  }

  /**
   * A value is offered for `d` exactly when some record carries it and
   * satisfies the selections of the other three dimensions.
   */
  lemma AvailableExact(data: seq<SkillRecord>, f: FilterState, d: Dimension, v: string)
    ensures v in AvailableOptions(data, f).Get(d) <==>
            exists r :: r in data && PassesExcept(f, d, r) && FieldOf(r, d) == v
  {
    if |data| > 0 {
      var fd := FacetData(data, f, d);
      AvailableOptionsGet(data, f, d);
      DistinctMembership(ValuesOf(fd, d), v);
      ValuesOfMembership(fd, d, v);
      forall r ensures r in fd <==> r in data && PassesExcept(f, d, r) {
        FilterMembership(data, KeeperExcept(f, d), r);
      }
    }
  }

  /**
   * The available options of a dimension are duplicate-free and listed in the
   * order of first appearance among the records that pass the other three
   * selections.
   */
  lemma AvailableFirstAppearance(data: seq<SkillRecord>, f: FilterState, d: Dimension)
    ensures var o := AvailableOptions(data, f).Get(d);
      var vs := ValuesOf(FacetData(data, f, d), d);
      && NoDup(o)
      && (forall v :: v in o ==> v in vs)
      && (forall i, j :: 0 <= i < j < |o| ==> FirstIndex(vs, o[i]) < FirstIndex(vs, o[j]))
  {
    if |data| > 0 {
      var vs := ValuesOf(FacetData(data, f, d), d);
      AvailableOptionsGet(data, f, d);
      forall v ensures v in Distinct(vs) ==> v in vs {
        DistinctMembership(vs, v);
      }
      forall i, j | 0 <= i < j < |Distinct(vs)|
        ensures FirstIndex(vs, Distinct(vs)[i]) < FirstIndex(vs, Distinct(vs)[j])
      {
        DistinctFirstAppearanceOrder(vs, i, j);
      }
    }
  }

  /** Every available option of a dimension is one of its `filterOptions`. */
  lemma AvailableWithinFilterOptions(data: seq<SkillRecord>, f: FilterState, d: Dimension, v: string)
    requires v in AvailableOptions(data, f).Get(d)
    ensures v in FilterOptions(data).Get(d)
  {
    AvailableExact(data, f, d, v);
    FilterOptionsExact(data, d, v);
  }

  /** Every value shown in the filtered list is offered by its own filter. */
  lemma FilteredValuesAreAvailable(data: seq<SkillRecord>, f: FilterState, d: Dimension, r: SkillRecord)
    requires r in FilteredData(data, f)
    ensures FieldOf(r, d) in AvailableOptions(data, f).Get(d)
  {
    var k :| 0 <= k < |FilteredData(data, f)| && FilteredData(data, f)[k] == r;
    assert r in data && Passes(f, r);
    AvailableExact(data, f, d, FieldOf(r, d));
  }

  /**
   * When only `d` has a selection, `d`'s available options are all of its
   * distinct values, and sorting them gives exactly its `filterOptions` list.
   */
  lemma OnlyOwnSelectionOffersEverything(data: seq<SkillRecord>, f: FilterState, d: Dimension)
    requires forall e :: e != d ==> Selected(f, e) == []
    ensures |data| > 0 ==> AvailableOptions(data, f).Get(d) == Distinct(ValuesOf(data, d))
    ensures SortStrings(AvailableOptions(data, f).Get(d)) == FilterOptions(data).Get(d)
  {
    if |data| > 0 {
      forall r ensures PassesExcept(f, d, r) {
        assert forall e :: e != d ==> Admits(f, e, r);
      }
      FilterAllKept(data, KeeperExcept(f, d));
      AvailableOptionsGet(data, f, d);
    }
  }
}

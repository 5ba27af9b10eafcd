/**
 * The filter bar of frontend/src/components/FilterBar.jsx: updating one
 * dimension's selection, clearing all of them, the "has active filters"
 * test, and the option lists handed to the four dropdowns, three of which
 * are sorted in place.
 */
module FilterBar {
  import opened Seqs
  import opened Sorting
  import opened Text
  import opened Records
  import opened Filters
  import opened Dashboard

  /** `handleChange(key, value)`: `{ ...prev, [key]: value }`. */
  function HandleChange(f: FilterState, key: Dimension, value: seq<string>): (r: FilterState)
    ensures Selected(r, key) == value
    ensures forall d :: d != key ==> Selected(r, d) == Selected(f, d)
    ensures forall d :: d in r <==> d in f || d == key
  {
    f[key := value]
  }

  /** The "Clear All" button: all four dimensions present and empty. */
  function ClearAll(): (f: FilterState)
    ensures f.Keys == {Function, Band, SBU, Role}
    ensures forall d :: d in f ==> f[d] == []
  {
    map[Function := [], Band := [], SBU := [], Role := []]
  }

  /** `hasActiveFilters`: some dimension's selection is present and non-empty. */
  predicate HasActiveFilters(f: FilterState): (active: bool)
    ensures active <==> Selected(f, Function) != [] || Selected(f, Band) != [] ||
                        Selected(f, SBU) != [] || Selected(f, Role) != []
  {
    || (Function in f && |f[Function]| > 0)
    || (Band in f && |f[Band]| > 0)
    || (SBU in f && |f[SBU]| > 0)
    || (Role in f && |f[Role]| > 0)
  }

  /** The filters are active exactly when some dimension constrains the records. */
  lemma HasActiveFiltersIff(f: FilterState)
    ensures HasActiveFilters(f) <==> !NoneSelected(f)
  {
    if !NoneSelected(f) {
      var d: Dimension :| Selected(f, d) != [];
      match d
      case Function =>
      case Band =>
      case SBU =>
      case Role =>
    } else {
      assert Selected(f, Function) == [] && Selected(f, Band) == [];
      assert Selected(f, SBU) == [] && Selected(f, Role) == [];
    }
  }

  /** After "Clear All" nothing is active and every record is shown. */
  lemma ClearAllShowsEverything(data: seq<SkillRecord>)
    ensures !HasActiveFilters(ClearAll())
    ensures FilteredData(data, ClearAll()) == data
  {
    FilteredDataNoSelection(data, ClearAll());
  }

  /** Selecting a value in one dropdown makes the filters active. */
  lemma HandleChangeActivates(f: FilterState, key: Dimension, value: seq<string>)
    requires value != []
    ensures HasActiveFilters(HandleChange(f, key, value))
  {
    HasActiveFiltersIff(HandleChange(f, key, value));
  }

  /** `{ value: v, label: v }`. */
  datatype SelectOption = SelectOption(value: string, labelText: string)

  function AsOption(v: string): SelectOption {
    SelectOption(v, v)
  }

  /** `formatOptions`: one option per value, in order, labelled with the value itself. */
  function FormatOptions(values: seq<string>): (r: seq<SelectOption>)
    ensures |r| == |values|
    ensures forall i :: 0 <= i < |values| ==> r[i].value == values[i] && r[i].labelText == values[i]
  {
    Map(values, AsOption)
  }

  /** `values.sort()`: sorts the array in place, in string order. */
  method SortInPlace(a: array<string>)
    modifies a
    ensures a[..] == SortStrings(old(a[..]))
  {
    var i := 0;
    while i < a.Length
      invariant 0 <= i <= a.Length
      invariant SortedBy(a[..i], StringLess)
      invariant multiset(a[..]) == multiset(old(a[..]))
    {
      StartInsertion(a[..], i);
      var j := i;
      while j > 0 && StringLess(a[j], a[j - 1])
        invariant Inserting(a[..], i, j)
        invariant multiset(a[..]) == multiset(old(a[..]))
      {
        ghost var s := a[..];
        a[j - 1], a[j] := a[j], a[j - 1];
        assert a[..] == s[j - 1 := s[j]][j := s[j - 1]];
        SwapStep(s, i, j);
        j := j - 1;
      }
      InsertedInPlace(a[..], i, j);
      i := i + 1;
    }
    assert a[..] == a[..a.Length];
    SortStringsUnique(a[..], old(a[..]));
  }

  /**
   * While the element that started at `i` moves left and sits at `j`: the
   * others of the first `i + 1` are in order, and it goes before all those
   * to its right.
   */
  ghost predicate Inserting(s: seq<string>, i: int, j: int) {
    && 0 <= j <= i < |s|
    && (forall p, q :: 0 <= p < q <= i && p != j && q != j ==> !StringLess(s[q], s[p]))
    && (forall q :: j < q <= i ==> StringLess(s[j], s[q]))
  }

  lemma StartInsertion(s: seq<string>, i: int)
    requires 0 <= i < |s| && SortedBy(s[..i], StringLess)
    ensures Inserting(s, i, i)
  {
    forall p, q | 0 <= p < q <= i && p != i && q != i
      ensures !StringLess(s[q], s[p])
    {
      assert s[q] == s[..i][q] && s[p] == s[..i][p];
    }
  }

  /** Swapping the moving element with its left neighbour, which goes after it. */
  lemma SwapStep(s: seq<string>, i: int, j: int)
    requires Inserting(s, i, j) && j > 0 && StringLess(s[j], s[j - 1])
    ensures Inserting(s[j - 1 := s[j]][j := s[j - 1]], i, j - 1)
    ensures multiset(s[j - 1 := s[j]][j := s[j - 1]]) == multiset(s)
  {
    var t := s[j - 1 := s[j]][j := s[j - 1]];
    forall p, q | 0 <= p < q <= i && p != j - 1 && q != j - 1
      ensures !StringLess(t[q], t[p])
    {
      if q == j {
        if p < j - 1 {
          // t[q] is the old left neighbour, s[j - 1], in order after s[p]
        }
      } else if p == j {
        // t[p] == s[j - 1] and q > j: s[j - 1] is not after s[q]
        assert !StringLess(s[q], s[j - 1]);
      }
    }
    forall q | j - 1 < q <= i
      ensures StringLess(t[j - 1], t[q])
    {
      if q > j {
        assert StringLess(s[j], s[q]);
      }
    }
    assert t == s[..j - 1] + [s[j], s[j - 1]] + s[j + 1..];
    assert s == s[..j - 1] + [s[j - 1], s[j]] + s[j + 1..];
  }

  /** Where the inner loop stops, the first `i + 1` elements are sorted. */
  lemma InsertedInPlace(s: seq<string>, i: int, j: int)
    requires Inserting(s, i, j)
    requires j == 0 || !StringLess(s[j], s[j - 1])
    ensures SortedBy(s[..i + 1], StringLess)
  {
    forall p, q | 0 <= p < q <= i
      ensures !StringLess(s[q], s[p])
    {
      if q == j {
        if p < j - 1 {
          StringNotLessTransitive(s[j], s[j - 1], s[p]);
        }
      } else if p == j {
        StringLessAsymmetric(s[j], s[q]);
      }
    }
  }

  /** A sorted arrangement of a list is its sorted copy. */
  lemma SortStringsUnique(sorted: seq<string>, s: seq<string>)
    requires SortedBy(sorted, StringLess) && multiset(sorted) == multiset(s)
    ensures sorted == SortStrings(s)
  {
    StringLessIsStrictTotalOrder();
    SortedUnique(sorted, SortStrings(s), StringLess);
  }

  /** The four dropdowns' option lists. */
  datatype BarOptions = BarOptions(sbu: seq<SelectOption>, jobFunction: seq<SelectOption>,
                                   band: seq<SelectOption>, role: seq<SelectOption>)

  /**
   * The option lists of the filter bar: SBU, band and role values are sorted
   * in place first; the function values are used as given.
   */
  method OptionLists(functions: array<string>, bands: array<string>, sbus: array<string>, roles: array<string>)
    returns (o: BarOptions)
    requires sbus != bands && sbus != roles && bands != roles
    requires functions != sbus && functions != bands && functions != roles
    modifies sbus, bands, roles
    ensures sbus[..] == SortStrings(old(sbus[..]))
    ensures bands[..] == SortStrings(old(bands[..]))
    ensures roles[..] == SortStrings(old(roles[..]))
    ensures o == BarOptions(FormatOptions(sbus[..]), FormatOptions(functions[..]),
                            FormatOptions(bands[..]), FormatOptions(roles[..]))
  {
    SortInPlace(sbus);
    var sbuOptions := FormatOptions(sbus[..]);
    var functionOptions := FormatOptions(functions[..]);
    SortInPlace(bands);
    var bandOptions := FormatOptions(bands[..]);
    SortInPlace(roles);
    var roleOptions := FormatOptions(roles[..]);
    o := BarOptions(sbuOptions, functionOptions, bandOptions, roleOptions);
  }

  /** The dashboard's option lists are already sorted, so sorting them again changes nothing. */
  lemma SortingFilterOptionsChangesNothing(data: seq<SkillRecord>, d: Dimension)
    ensures SortStrings(FilterOptions(data).Get(d)) == FilterOptions(data).Get(d)
  {
    if |data| > 0 {
      FilterOptionsGet(data, d);
      StringLessIsStrictTotalOrder();
      InsertionSortSorted(Distinct(ValuesOf(data, d)), StringLess);
      var o := FilterOptions(data).Get(d);
      SortStringsUnique(o, o);
    }
  }
}

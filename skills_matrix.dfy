/**
 * The competency matrix of frontend/src/components/SkillsMatrix.jsx: records
 * grouped by band, each band split into functional and leadership skill cards,
 * bands ordered canonically first; and the matrix's view-mode state.
 */
module SkillsMatrix {
  import opened Wrappers
  import opened Seqs
  import opened Sorting
  import opened Text
  import opened Records

  /** `bandOrder`. */
  const BandOrder: seq<string> := ["Band 1A", "Band 1B", "Band 2A", "Band 2B", "Band 3", "Band 4", "Band 5"]

  /** `item.Band || 'Unassigned'`: the empty string is the only falsy band of a validated record. */
  function BandKey(item: SkillRecord): (key: string)
    ensures key != ""
    ensures item.band != "" ==> key == item.band
  {
    if item.band == "" then "Unassigned" else item.band
  }

  /** The two Competency_Type values that mark a leadership skill. */
  predicate IsLeadershipType(competencyType: string) {
    competencyType == "Behavioral" || competencyType == "Raymond Leadership Competency"
  }

  /**
   * A card's id: the record's id when it is truthy, otherwise the random id
   * the component generates, which the model leaves abstract.
   */
  datatype CardId = RecordId(id: int) | Generated

  datatype SkillCard = SkillCard(name: string, definition: string, proficiency: int, role: string, id: CardId)

  /** `skillCard` built from one item. */
  function ToCard(item: SkillRecord): (card: SkillCard)
    ensures card.name == item.skillName && card.definition == item.skillDefinition
    ensures card.proficiency == item.proficiencyLevel && card.role == item.jobRole
    ensures card.id.RecordId? <==> item.id != 0
    ensures card.id.RecordId? ==> card.id.id == item.id
  {
    SkillCard(item.skillName, item.skillDefinition, item.proficiencyLevel, item.jobRole,
              if item.id != 0 then RecordId(item.id) else Generated)
  }

  /** `grouped[band]`: the two card lists of one band. */
  datatype Bucket = Bucket(functional: seq<SkillCard>, leadership: seq<SkillCard>)

  /** `{ bandName, ...grouped[band] }`. */
  datatype BandRow = BandRow(bandName: string, functional: seq<SkillCard>, leadership: seq<SkillCard>)

  /** `a.localeCompare(b)`, approximated by code-point order. */
  function LexCompare(a: string, b: string): (c: int)
    ensures c == 0 <==> a == b
    ensures c < 0 <==> StringLess(a, b)
  {
    StringLessIrreflexive(a);
    if StringLess(a, b) then -1 else if a == b then 0 else 1
  }

  /** The comparator handed to `sort`: negative when `a` goes first. */
  function CompareBands(a: string, b: string): (c: int)
    ensures c == 0 <==> a == b
    ensures a in BandOrder && b !in BandOrder ==> c < 0
    ensures a !in BandOrder && b in BandOrder ==> c > 0
  {
    var ia, ib := IndexOf(BandOrder, a), IndexOf(BandOrder, b);
    if ia != -1 && ib != -1 then ia - ib
    else if ia != -1 then -1
    else if ib != -1 then 1
    else LexCompare(a, b)
  }

  predicate BandBefore(a: string, b: string) {
    CompareBands(a, b) < 0
  }

  /** The comparator defines a strict total order on band names. */
  lemma BandBeforeIsStrictTotalOrder()
    ensures StrictOrder(BandBefore) && Total(BandBefore)
  {
    forall a: string ensures !BandBefore(a, a) {
      StringLessIrreflexive(a);
    }
    forall a: string, b: string, c: string | BandBefore(a, b) && BandBefore(b, c)
      ensures BandBefore(a, c)
    {
      if IndexOf(BandOrder, a) == -1 {
        StringLessTransitive(a, b, c);
      }
    }
    forall a: string, b: string | a != b
      ensures BandBefore(a, b) || BandBefore(b, a)
    {
      if IndexOf(BandOrder, a) == -1 && IndexOf(BandOrder, b) == -1 {
        StringLessTotal(a, b);
      }
    }
  }

  /** `Object.keys(grouped).sort(comparator)`. */
  function SortBands(keys: seq<string>): (r: seq<string>)
    ensures multiset(r) == multiset(keys)
    ensures SortedBy(r, BandBefore)
  {
    BandBeforeIsStrictTotalOrder();
    InsertionSortSorted(keys, BandBefore);
    InsertionSort(keys, BandBefore)
  }

  /** Does an item land in `band`'s leadership (`true`) or functional (`false`) list? */
  function InBucket(band: string, leadership: bool): SkillRecord -> bool {
    r => BandKey(r) == band && IsLeadershipType(r.competencyType) == leadership
  }

  /** The cards of the items of one band and one kind, in input order. */
  function CardsOf(data: seq<SkillRecord>, band: string, leadership: bool): seq<SkillCard> {
    Map(Filter(data, InBucket(band, leadership)), ToCard)
  }

  /** The bucket keys in the order the loop creates them. */
  function BandKeys(data: seq<SkillRecord>): seq<string> {
    Distinct(Map(data, BandKey))
  }

  function RowOf(data: seq<SkillRecord>, band: string): BandRow {
    BandRow(band, CardsOf(data, band, false), CardsOf(data, band, true))
  }

  /** What `matrixData` evaluates to. */
  function Matrix(data: seq<SkillRecord>): seq<BandRow> {
    var bands := SortBands(BandKeys(data));
    seq(|bands|, k requires 0 <= k < |bands| => RowOf(data, bands[k]))
  }

  lemma CardsOfStep(data: seq<SkillRecord>, i: nat, band: string, leadership: bool)
    requires i < |data|
    ensures CardsOf(data[..i + 1], band, leadership) ==
            CardsOf(data[..i], band, leadership) +
            (if InBucket(band, leadership)(data[i]) then [ToCard(data[i])] else [])
  {
    var s := data[..i + 1];
    assert s[..|s| - 1] == data[..i];
    var fs := Filter(data[..i], InBucket(band, leadership));
    if InBucket(band, leadership)(data[i]) {
      var t := fs + [data[i]];
      assert t[..|t| - 1] == fs;
    }
  }

  lemma BandKeysStep(data: seq<SkillRecord>, i: nat)
    requires i < |data|
    ensures BandKeys(data[..i + 1]) ==
            if BandKey(data[i]) in BandKeys(data[..i]) then BandKeys(data[..i])
            else BandKeys(data[..i]) + [BandKey(data[i])]
  {
    var s := data[..i + 1];
    assert s[..|s| - 1] == data[..i];
    var m := Map(s, BandKey);
    assert m[..|m| - 1] == Map(data[..i], BandKey);
  }

  /** A key not yet seen has no cards so far. */
  lemma CardsOfUnseen(data: seq<SkillRecord>, band: string, leadership: bool)
    requires band !in BandKeys(data)
    ensures CardsOf(data, band, leadership) == []
  {
    forall k | 0 <= k < |data| ensures !InBucket(band, leadership)(data[k]) {
      DistinctMembership(Map(data, BandKey), BandKey(data[k]));
    }
    FilterNoneKept(data, InBucket(band, leadership));
  }

  /** The `grouped` dictionary after the items of `data` have been processed. */
  function Grouped(data: seq<SkillRecord>): map<string, Bucket> {
    map b | b in BandKeys(data) :: BucketOf(data, b)
  }

  /** The two card lists of `band`. */
  function BucketOf(data: seq<SkillRecord>, band: string): Bucket {
    Bucket(CardsOf(data, band, false), CardsOf(data, band, true))
  }

  lemma BucketOfStepOther(data: seq<SkillRecord>, i: nat, b: string)
    requires i < |data| && b != BandKey(data[i])
    ensures BucketOf(data[..i + 1], b) == BucketOf(data[..i], b)
  {
    CardsOfStep(data, i, b, false);
    CardsOfStep(data, i, b, true);
  }

  /** Push an item's card onto the leadership or the functional list of a bucket. */
  function Push(b: Bucket, item: SkillRecord): Bucket {
    if IsLeadershipType(item.competencyType)
    then b.(leadership := b.leadership + [ToCard(item)])
    else b.(functional := b.functional + [ToCard(item)])
  }

  /** One step of the loop: create the bucket if need be, then push the card. */
  function PushItem(g: map<string, Bucket>, item: SkillRecord): map<string, Bucket> {
    var band := BandKey(item);
    g[band := Push(if band in g then g[band] else Bucket([], []), item)]
  }

  /** `grouped` has a bucket exactly for the keys seen so far. */
  lemma GroupedAt(data: seq<SkillRecord>, b: string)
    ensures b in Grouped(data) <==> b in BandKeys(data)
    ensures b in Grouped(data) ==> Grouped(data)[b] == BucketOf(data, b)
  {
  }

  /** Pushing an item leaves the other bands' buckets alone. */
  lemma PushItemOther(g: map<string, Bucket>, item: SkillRecord, b: string)
    requires b in g && b != BandKey(item)
    ensures b in PushItem(g, item) && PushItem(g, item)[b] == g[b]
  {
  }

  /** Creating the bucket when missing and then pushing is `PushItem`. */
  lemma PushItemInTwoSteps(g: map<string, Bucket>, item: SkillRecord)
    ensures var band := BandKey(item);
      var created := if band in g then g else g[band := Bucket([], [])];
      created[band := Push(created[band], item)] == PushItem(g, item)
  {
  }

  lemma BucketOfStepOwn(data: seq<SkillRecord>, i: nat)
    requires i < |data|
    ensures BucketOf(data[..i + 1], BandKey(data[i])) == Push(BucketOf(data[..i], BandKey(data[i])), data[i])
  {
    var lead := IsLeadershipType(data[i].competencyType);
    CardsOfStep(data, i, BandKey(data[i]), lead);
    CardsOfStep(data, i, BandKey(data[i]), !lead);
  }

  lemma BucketOfUnseen(data: seq<SkillRecord>, band: string)
    requires band !in BandKeys(data)
    ensures BucketOf(data, band) == Bucket([], [])
  {
    CardsOfUnseen(data, band, false);
    CardsOfUnseen(data, band, true);
  }

  lemma GroupedStepOther(data: seq<SkillRecord>, i: nat, b: string)
    requires i < |data| && b != BandKey(data[i])
    requires b in Grouped(data[..i + 1])
    ensures b in PushItem(Grouped(data[..i]), data[i])
    ensures Grouped(data[..i + 1])[b] == PushItem(Grouped(data[..i]), data[i])[b]
  {
    BandKeysStep(data, i);
    GroupedAt(data[..i + 1], b);
    GroupedAt(data[..i], b);
    PushItemOther(Grouped(data[..i]), data[i], b);
    BucketOfStepOther(data, i, b);
  }

  lemma GroupedStepOwn(data: seq<SkillRecord>, i: nat)
    requires i < |data|
    ensures BandKey(data[i]) in Grouped(data[..i + 1])
    ensures Grouped(data[..i + 1])[BandKey(data[i])] == PushItem(Grouped(data[..i]), data[i])[BandKey(data[i])]
  {
    var band := BandKey(data[i]);
    BandKeysStep(data, i);
    BucketOfStepOwn(data, i);
    if band !in BandKeys(data[..i]) {
      BucketOfUnseen(data[..i], band);
    }
  }

  lemma GroupedStep(data: seq<SkillRecord>, i: nat)
    requires i < |data|
    ensures Grouped(data[..i + 1]) == PushItem(Grouped(data[..i]), data[i])
  {
    var g, g' := Grouped(data[..i]), Grouped(data[..i + 1]);
    var h := PushItem(g, data[i]);
    BandKeysStep(data, i);
    forall b ensures b in g' <==> b in h {
      assert b in g' <==> b in BandKeys(data[..i + 1]);
      assert b in g <==> b in BandKeys(data[..i]);
    }
    forall b | b in g'
      ensures b in h && g'[b] == h[b]
    {
      if b == BandKey(data[i]) {
        GroupedStepOwn(data, i);
      } else {
        GroupedStepOther(data, i, b);
      }
    }
    SameEntries(g', h);
  }

  /**
   * `matrixData`: fills the `grouped` dictionary item by item, creating a
   * bucket on a band's first item and pushing each card onto the leadership
   * or the functional list, then orders the bands and lists the buckets.
   */
  method BuildMatrix(data: seq<SkillRecord>) returns (rows: seq<BandRow>)
    ensures rows == Matrix(data)
  {
    var grouped: map<string, Bucket> := map[];
    var keys: seq<string> := [];
    var i := 0;
    while i < |data|
      invariant 0 <= i <= |data|
      invariant keys == BandKeys(data[..i])
      invariant grouped == Grouped(data[..i])
    {
      var item := data[i];
      var band := BandKey(item);
      BandKeysStep(data, i);
      GroupedStep(data, i);
      assert band in grouped <==> band in keys;
      PushItemInTwoSteps(grouped, item);
      if band !in grouped {
        grouped := grouped[band := Bucket([], [])];
        keys := keys + [band];
      }
      grouped := grouped[band := Push(grouped[band], item)];
      i := i + 1;
    }
    assert data[..i] == data;
    var sorted := SortBands(keys);
    SortedKeysAreGrouped(data);
    rows := seq(|sorted|, k requires 0 <= k < |sorted| =>
                BandRow(sorted[k], grouped[sorted[k]].functional, grouped[sorted[k]].leadership));
    assert forall k :: 0 <= k < |rows| ==> rows[k] == Matrix(data)[k];
  }

  /** Every sorted key has its bucket in `grouped`. */
  lemma SortedKeysAreGrouped(data: seq<SkillRecord>)
    ensures var sorted := SortBands(BandKeys(data));
      forall k :: 0 <= k < |sorted| ==> sorted[k] in Grouped(data) && Grouped(data)[sorted[k]] == BucketOf(data, sorted[k])
  {
    var sorted := SortBands(BandKeys(data));
    forall k | 0 <= k < |sorted| ensures sorted[k] in BandKeys(data) {
      assert sorted[k] in multiset(BandKeys(data));
    }
  }

  lemma MatrixAt(data: seq<SkillRecord>, j: int)
    requires 0 <= j < |Matrix(data)|
    ensures |Matrix(data)| == |SortBands(BandKeys(data))|
    ensures Matrix(data)[j] == RowOf(data, SortBands(BandKeys(data))[j])
  {
  }

  /** The band names of the matrix, in order. */
  function BandNames(rows: seq<BandRow>): (names: seq<string>)
    ensures |names| == |rows|
    ensures forall k :: 0 <= k < |rows| ==> names[k] == rows[k].bandName
  {
    seq(|rows|, k requires 0 <= k < |rows| => rows[k].bandName)
  }

  lemma MatrixNames(data: seq<SkillRecord>)
    ensures BandNames(Matrix(data)) == SortBands(BandKeys(data))
    ensures NoDup(SortBands(BandKeys(data)))
  {
    NoDupPermutation(SortBands(BandKeys(data)), BandKeys(data));
  }

  /**
   * Buckets come strictly in comparator order: canonical bands first, by
   * their position in `bandOrder`; then every other band, in string order.
   */
  lemma MatrixOrder(data: seq<SkillRecord>, i: int, j: int)
    requires 0 <= i < j < |Matrix(data)|
    ensures var a, b := Matrix(data)[i].bandName, Matrix(data)[j].bandName;
      && (a in BandOrder && b in BandOrder ==> IndexOf(BandOrder, a) < IndexOf(BandOrder, b))
      && (b in BandOrder ==> a in BandOrder)
      && (a !in BandOrder && b !in BandOrder ==> StringLess(a, b))
  {
    var bands := SortBands(BandKeys(data));
    MatrixNames(data);
    BandBeforeIsStrictTotalOrder();
    SortedNoDupIsIncreasing(bands, BandBefore);
    assert BandBefore(bands[i], bands[j]);
  }

  /** There is one bucket per distinct band key, and no other. */
  lemma MatrixBuckets(data: seq<SkillRecord>, band: string)
    ensures NoDup(BandNames(Matrix(data)))
    ensures band in BandNames(Matrix(data)) <==> exists r :: r in data && BandKey(r) == band
  {
    MatrixNames(data);
    var keys := BandKeys(data);
    var sorted := SortBands(keys);
    assert band in sorted <==> band in multiset(sorted);
    assert band in keys <==> band in multiset(keys);
    DistinctMembership(Map(data, BandKey), band);
    if band in Map(data, BandKey) {
      var k :| 0 <= k < |data| && Map(data, BandKey)[k] == band;
      assert data[k] in data;
    }
    if exists r :: r in data && BandKey(r) == band {
      var r :| r in data && BandKey(r) == band;
      var k :| 0 <= k < |data| && data[k] == r;
      assert Map(data, BandKey)[k] == band;
    }
  }

  /**
   * Every item is carded into the bucket of its band key: into the
   * leadership list when its Competency_Type is "Behavioral" or
   * "Raymond Leadership Competency", into the functional list otherwise.
   */
  lemma MatrixPlacesEveryItem(data: seq<SkillRecord>, k: int)
    requires 0 <= k < |data|
    ensures exists j :: (0 <= j < |Matrix(data)| && Matrix(data)[j].bandName == BandKey(data[k]) &&
      ToCard(data[k]) in (if IsLeadershipType(data[k].competencyType)
                          then Matrix(data)[j].leadership else Matrix(data)[j].functional))
  {
    var band := BandKey(data[k]);
    var lead := IsLeadershipType(data[k].competencyType);
    assert data[k] in data;
    MatrixBuckets(data, band);
    var names := BandNames(Matrix(data));
    var j :| 0 <= j < |names| && names[j] == band;
    MatrixAt(data, j);
    var row := Matrix(data)[j];
    assert row == RowOf(data, band);
    CardsOfContains(data, band, lead, k);
    assert ToCard(data[k]) in (if lead then row.leadership else row.functional);
  }

  /** An item's card is among the cards of its own band and kind. */
  lemma CardsOfContains(data: seq<SkillRecord>, band: string, leadership: bool, k: int)
    requires 0 <= k < |data| && InBucket(band, leadership)(data[k])
    ensures ToCard(data[k]) in CardsOf(data, band, leadership)
  {
    FilterMembership(data, InBucket(band, leadership), data[k]);
    var fs := Filter(data, InBucket(band, leadership));
    var m :| 0 <= m < |fs| && fs[m] == data[k];
    assert CardsOf(data, band, leadership)[m] == ToCard(data[k]);
  }

  /** The number of cards in a list of rows. */
  function CardCount(rows: seq<BandRow>): nat {
    if rows == [] then 0
    else CardCount(rows[..|rows| - 1]) + |rows[|rows| - 1].functional| + |rows[|rows| - 1].leadership|
  }

  function HasKey(band: string): SkillRecord -> bool {
    r => BandKey(r) == band
  }

  function KeyAmong(bands: seq<string>): SkillRecord -> bool {
    r => BandKey(r) in bands
  }

  /** The items with key in `bands`, counted band by band. */
  function KeyedCount(data: seq<SkillRecord>, bands: seq<string>): nat {
    if bands == [] then 0
    else KeyedCount(data, bands[..|bands| - 1]) + |Filter(data, HasKey(bands[|bands| - 1]))|
  }

  lemma {:induction false} KeyedCountIsFilter(data: seq<SkillRecord>, bands: seq<string>)
    requires NoDup(bands)
    ensures KeyedCount(data, bands) == |Filter(data, KeyAmong(bands))|
  {
    if bands == [] {
      FilterNoneKept(data, KeyAmong(bands));
    } else {
      var bs := bands[..|bands| - 1];
      var b := bands[|bands| - 1];
      KeyedCountIsFilter(data, bs);
      FilterSplitLength(data, KeyAmong(bs), HasKey(b), KeyAmong(bands));
    }
  }

  lemma {:induction false} CardCountOfRows(data: seq<SkillRecord>, bands: seq<string>)
    ensures CardCount(seq(|bands|, k requires 0 <= k < |bands| => RowOf(data, bands[k]))) ==
            KeyedCount(data, bands)
  {
    if bands != [] {
      var bs := bands[..|bands| - 1];
      var b := bands[|bands| - 1];
      var rows := seq(|bands|, k requires 0 <= k < |bands| => RowOf(data, bands[k]));
      assert rows[..|rows| - 1] == seq(|bs|, k requires 0 <= k < |bs| => RowOf(data, bs[k]));
      CardCountOfRows(data, bs);
      FilterSplitLength(data, InBucket(b, false), InBucket(b, true), HasKey(b));
    }
  }

  /** Each item yields exactly one card: the matrix holds as many cards as there are items. */
  lemma MatrixCardCount(data: seq<SkillRecord>)
    ensures CardCount(Matrix(data)) == |data|
  {
    var sorted := SortBands(BandKeys(data));
    MatrixNames(data);
    CardCountOfRows(data, sorted);
    KeyedCountIsFilter(data, sorted);
    forall k | 0 <= k < |data| ensures KeyAmong(sorted)(data[k]) {
      assert data[k] in data;
      MatrixBuckets(data, BandKey(data[k]));
    }
    FilterAllKept(data, KeyAmong(sorted));
  }

  /** Every bucket holds at least one card. */
  lemma MatrixNoEmptyBucket(data: seq<SkillRecord>, j: int)
    requires 0 <= j < |Matrix(data)|
    ensures |Matrix(data)[j].functional| + |Matrix(data)[j].leadership| > 0
  {
    var band := Matrix(data)[j].bandName;
    MatrixBuckets(data, band);
    MatrixNames(data);
    assert band in BandNames(Matrix(data));
    var r :| r in data && BandKey(r) == band;
    var lead := IsLeadershipType(r.competencyType);
    FilterMembership(data, InBucket(band, lead), r);
  }

  /** The example ordering: canonical bands by index, then the rest. */
  lemma ExamplePermutation()
    ensures multiset(["Band 1A", "Band 2A", "Band 3", "Unassigned"]) ==
            multiset(["Band 3", "Band 1A", "Unassigned", "Band 2A"])
  {
  }

  lemma ExampleIndices()
    ensures IndexOf(BandOrder, "Band 1A") == 0 && IndexOf(BandOrder, "Band 2A") == 2
    ensures IndexOf(BandOrder, "Band 3") == 4 && IndexOf(BandOrder, "Unassigned") == -1
  {
    assert BandOrder[0] == "Band 1A" && BandOrder[2] == "Band 2A" && BandOrder[4] == "Band 3";
  }

  lemma ExampleSorted()
    ensures SortedBy(["Band 1A", "Band 2A", "Band 3", "Unassigned"], BandBefore)
  {
    var s := ["Band 1A", "Band 2A", "Band 3", "Unassigned"];
    ExampleIndices();
    forall i, j | 0 <= i < j < 4 ensures !BandBefore(s[j], s[i]) {
      assert CompareBands(s[j], s[i]) > 0;
    }
  }

  lemma SortBandsExample()
    ensures SortBands(["Band 3", "Band 1A", "Unassigned", "Band 2A"]) ==
            ["Band 1A", "Band 2A", "Band 3", "Unassigned"]
  {
    ExamplePermutation();
    ExampleSorted();
    BandBeforeIsStrictTotalOrder();
    SortedUnique(SortBands(["Band 3", "Band 1A", "Unassigned", "Band 2A"]),
                 ["Band 1A", "Band 2A", "Band 3", "Unassigned"], BandBefore);
  }

  /** `viewMode`: 'all', 'functional' or 'leadership'. */
  datatype ViewMode = All | Functional | Leadership

  /** The matrix's view state: the view mode and the skill whose details are shown. */
  class MatrixView {
    var viewMode: ViewMode
    var selectedSkill: Option<SkillCard>

    /** Details are only ever shown in the functional or leadership view. */
    predicate Valid()
      reads this
    {
      viewMode == All ==> selectedSkill == None
    }

    constructor ()
      ensures Valid() && viewMode == All && selectedSkill == None
    {
      viewMode := All;
      selectedSkill := None;
    }

    /** The Functional and Leadership buttons: switch mode and drop the selection. */
    method ShowMode(mode: ViewMode)
      requires mode != All
      modifies this
      ensures Valid() && viewMode == mode && selectedSkill == None
    {
      viewMode := mode;
      selectedSkill := None;
    }

    /** `handleClear`. */
    method HandleClear()
      modifies this
      ensures Valid() && viewMode == All && selectedSkill == None
    {
      viewMode := All;
      selectedSkill := None;
    }

    /** `handleSkillClick`: selects the skill unless the view shows all skills. */
    method HandleSkillClick(skill: SkillCard)
      requires Valid()
      modifies this
      ensures Valid()
      ensures viewMode == old(viewMode)
      ensures selectedSkill == if old(viewMode) != All then Some(skill) else old(selectedSkill)
    {
      if viewMode != All {
        selectedSkill := Some(skill);
      }
    }
  }
}

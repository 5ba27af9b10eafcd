/**
 * The computational part of backend/routers/pdf_export.py: the filter
 * summary line, the grouping of the posted items by band into functional
 * and leadership lists, the rank-based band order, the per-row fields of the
 * skill tables and the error path of the `/export-pdf` endpoint.
 */
module PdfExport {
  import opened Wrappers
  import opened Seqs
  import opened Sorting
  import opened Text
  import SkillsMatrix

  /**
   * One posted item, a JSON object of any shape: each field is `None` when
   * its key is absent, so that `item.get(key, default)` can be told apart
   * from an item carrying the key with an empty value.
   */
  datatype PdfItem = PdfItem(
    band: Option<string>,
    competencyType: Option<string>,
    skillName: Option<string>,
    proficiencyLevel: Option<int>,
    jobRole: Option<string>,
    jobFunction: Option<string>,
    skillDefinition: Option<string>)

  /** A posted filter value: a list of selected values, or any other value shown with `str`. */
  datatype FilterValue = Items(values: seq<string>) | Scalar(text: string)

  /** The posted `filters` dictionary, in its key order. */
  type Filters = seq<(string, FilterValue)>

  /** The body of a `POST /export-pdf` request; `None` for an absent key. */
  datatype PdfRequest = PdfRequest(data: Option<seq<PdfItem>>, filters: Option<Filters>)

  /** `grouped_data[band]`: the items of one band, split by competency type. */
  datatype PdfBucket = PdfBucket(functional: seq<PdfItem>, leadership: seq<PdfItem>)

  /** The four cells of a skill-table row, as the text they show. */
  datatype PdfRow = PdfRow(name: string, proficiency: string, role: string, definition: string)

  /** One band's section of the report; an empty list means no table for that kind. */
  datatype Section = Section(band: string, functional: seq<PdfRow>, leadership: seq<PdfRow>)

  /** What the document shows: the optional filter line and the band sections in order. */
  datatype Report = Report(summary: Option<string>, sections: seq<Section>)

  // ---------------------------------------------------------------------
  // Filter summary
  // ---------------------------------------------------------------------

  /** Python truthiness of a filter value. */
  predicate Truthy(v: FilterValue) {
    match v
    case Items(vs) => vs != []
    case Scalar(t) => t != ""
  }

  predicate Applied(entry: (string, FilterValue)) {
    Truthy(entry.1)
  }

  /** `", ".join(v)` for a list, `str(v)` otherwise. */
  function Rendered(v: FilterValue): string {
    match v
    case Items(vs) => Join(", ", vs)
    case Scalar(t) => t
  }

  /** `f"{k}: {val}"`. */
  function Entry(entry: (string, FilterValue)): string {
    entry.0 + ": " + Rendered(entry.1)
  }

  const SummaryPrefix: string := "<b>Filters Applied:</b> "

  /** The filter line: one entry per applied filter, in key order, joined by " | "; none when nothing is applied. */
  function SummaryOf(filters: Filters): (summary: Option<string>)
    ensures summary == None <==> forall i :: 0 <= i < |filters| ==> !Applied(filters[i])
  {
    var applied := Filter(filters, Applied);
    if applied == [] then None
    else
      assert applied[0] in filters && Applied(applied[0]);
      Some(SummaryPrefix + Join(" | ", Map(applied, Entry)))
  }

  /**
   * The filters block of `create_skills_matrix_pdf`: `any(filters.values())`,
   * then a loop appending `k: val` for each truthy value.
   */
  method FilterSummary(filters: Filters) returns (summary: Option<string>)
    ensures summary == SummaryOf(filters)
  {
    var anyApplied := false;
    var i := 0;
    while i < |filters|
      invariant 0 <= i <= |filters|
      invariant anyApplied <==> exists k :: 0 <= k < i && Applied(filters[k])
    {
      if Applied(filters[i]) {
        anyApplied := true;
      }
      i := i + 1;
    }
    if !anyApplied {
      return None;
    }
    var entries: seq<string> := [];
    i := 0;
    while i < |filters|
      invariant 0 <= i <= |filters|
      invariant entries == Map(Filter(filters[..i], Applied), Entry)
    {
      FilterMapStep(filters, i, Applied, Entry);
      if Applied(filters[i]) {
        entries := entries + [Entry(filters[i])];
      }
      i := i + 1;
    }
    assert filters[..i] == filters;
    summary := Some(SummaryPrefix + Join(" | ", entries));
  }

  /** A single applied list filter reads `Filters Applied: key: v1, v2, ...`. */
  lemma SummaryOfOneFilter(filters: Filters, k: int)
    requires 0 <= k < |filters| && Applied(filters[k])
    requires forall i :: 0 <= i < |filters| && i != k ==> !Applied(filters[i])
    ensures SummaryOf(filters) == Some(SummaryPrefix + Entry(filters[k]))
  {
    var applied := Filter(filters, Applied);
    assert filters == filters[..k] + [filters[k]] + filters[k + 1..];
    FilterAppend(filters[..k] + [filters[k]], filters[k + 1..], Applied);
    FilterAppend(filters[..k], [filters[k]], Applied);
    FilterNoneKept(filters[..k], Applied);
    FilterNoneKept(filters[k + 1..], Applied);
    assert Filter([filters[k]], Applied) == [filters[k]] by {
      assert [filters[k]][..0] == [];
    }
    assert applied == [filters[k]];
  }

  // ---------------------------------------------------------------------
  // Grouping by band
  // ---------------------------------------------------------------------

  /** `get_band_order()`. */
  function GetBandOrder(): (order: seq<string>)
    ensures |order| == 7 && NoDup(order)
  {
    ["Band 1A", "Band 1B", "Band 2A", "Band 2B", "Band 3", "Band 4", "Band 5"]
  }

  /** `item.get('Band', 'Unassigned')`: the default applies only when the key is absent. */
  function BandOf(item: PdfItem): string {
    item.band.GetOr("Unassigned")
  }

  /** `item.get('Competency_Type', '')` is one of the two leadership types. */
  predicate IsLeadership(item: PdfItem) {
    SkillsMatrix.IsLeadershipType(item.competencyType.GetOr(""))
  }

  function InPdfBucket(band: string, leadership: bool): PdfItem -> bool {
    item => BandOf(item) == band && IsLeadership(item) == leadership
  }

  /** The items of one band and one kind, in input order. */
  function ItemsOf(data: seq<PdfItem>, band: string, leadership: bool): seq<PdfItem> {
    Filter(data, InPdfBucket(band, leadership))
  }

  /** The keys of `grouped_data` in insertion order. */
  function PdfKeys(data: seq<PdfItem>): seq<string> {
    Distinct(Map(data, BandOf))
  }

  function BucketOf(data: seq<PdfItem>, band: string): PdfBucket {
    PdfBucket(ItemsOf(data, band, false), ItemsOf(data, band, true))
  }

  /** `grouped_data` after the items of `data` have been processed. */
  function GroupedData(data: seq<PdfItem>): map<string, PdfBucket> {
    map b | b in PdfKeys(data) :: BucketOf(data, b)
  }

  /** Append an item to the leadership or the functional list of a bucket. */
  function Append(b: PdfBucket, item: PdfItem): PdfBucket {
    if IsLeadership(item)
    then b.(leadership := b.leadership + [item])
    else b.(functional := b.functional + [item])
  }

  /** One iteration of the grouping loop. */
  function AddItem(g: map<string, PdfBucket>, item: PdfItem): map<string, PdfBucket> {
    var band := BandOf(item);
    g[band := Append(if band in g then g[band] else PdfBucket([], []), item)]
  }

  lemma AddItemInTwoSteps(g: map<string, PdfBucket>, item: PdfItem)
    ensures var band := BandOf(item);
      var created := if band in g then g else g[band := PdfBucket([], [])];
      created[band := Append(created[band], item)] == AddItem(g, item)
  {
  }

  lemma AddItemOther(g: map<string, PdfBucket>, item: PdfItem, b: string)
    requires b in g && b != BandOf(item)
    ensures b in AddItem(g, item) && AddItem(g, item)[b] == g[b]
  {
  }

  lemma GroupedDataAt(data: seq<PdfItem>, b: string)
    ensures b in GroupedData(data) <==> b in PdfKeys(data)
    ensures b in GroupedData(data) ==> GroupedData(data)[b] == BucketOf(data, b)
  {
  }

  lemma BucketOfStepOther(data: seq<PdfItem>, i: nat, b: string)
    requires i < |data| && b != BandOf(data[i])
    ensures BucketOf(data[..i + 1], b) == BucketOf(data[..i], b)
  {
    FilterStep(data, i, InPdfBucket(b, false));
    FilterStep(data, i, InPdfBucket(b, true));
  }

  lemma BucketOfStepOwn(data: seq<PdfItem>, i: nat)
    requires i < |data|
    ensures BucketOf(data[..i + 1], BandOf(data[i])) == Append(BucketOf(data[..i], BandOf(data[i])), data[i])
  {
    FilterStep(data, i, InPdfBucket(BandOf(data[i]), false));
    FilterStep(data, i, InPdfBucket(BandOf(data[i]), true));
  }

  /** A band not seen yet has no items so far. */
  lemma BucketOfUnseen(data: seq<PdfItem>, band: string)
    requires band !in PdfKeys(data)
    ensures BucketOf(data, band) == PdfBucket([], [])
  {
    forall k | 0 <= k < |data| ensures !InPdfBucket(band, false)(data[k]) && !InPdfBucket(band, true)(data[k]) {
      DistinctMembership(Map(data, BandOf), BandOf(data[k]));
    }
    FilterNoneKept(data, InPdfBucket(band, false));
    FilterNoneKept(data, InPdfBucket(band, true));
  }

  lemma GroupedDataStepOther(data: seq<PdfItem>, i: nat, b: string)
    requires i < |data| && b != BandOf(data[i])
    requires b in GroupedData(data[..i + 1])
    ensures b in AddItem(GroupedData(data[..i]), data[i])
    ensures GroupedData(data[..i + 1])[b] == AddItem(GroupedData(data[..i]), data[i])[b]
  {
    PdfKeysStep(data, i, b);
    GroupedDataAt(data[..i + 1], b);
    GroupedDataAt(data[..i], b);
    AddItemOther(GroupedData(data[..i]), data[i], b);
    BucketOfStepOther(data, i, b);
  }

  lemma PdfKeysStep(data: seq<PdfItem>, i: nat, b: string)
    requires i < |data|
    ensures b in PdfKeys(data[..i + 1]) <==> b in PdfKeys(data[..i]) || b == BandOf(data[i])
  {
    DistinctMapStep(data, i, BandOf);
  }

  lemma GroupedDataStepOwn(data: seq<PdfItem>, i: nat)
    requires i < |data|
    ensures BandOf(data[i]) in GroupedData(data[..i + 1])
    ensures GroupedData(data[..i + 1])[BandOf(data[i])] == AddItem(GroupedData(data[..i]), data[i])[BandOf(data[i])]
  {
    var band := BandOf(data[i]);
    DistinctMapStep(data, i, BandOf);
    BucketOfStepOwn(data, i);
    if band !in PdfKeys(data[..i]) {
      BucketOfUnseen(data[..i], band);
    }
  }

  lemma GroupedDataStep(data: seq<PdfItem>, i: nat)
    requires i < |data|
    ensures GroupedData(data[..i + 1]) == AddItem(GroupedData(data[..i]), data[i])
  {
    var g, g' := GroupedData(data[..i]), GroupedData(data[..i + 1]);
    var h := AddItem(g, data[i]);
    DistinctMapStep(data, i, BandOf);
    forall b ensures b in g' <==> b in h {
      assert b in g' <==> b in PdfKeys(data[..i + 1]);
      assert b in g <==> b in PdfKeys(data[..i]);
    }
    forall b | b in g'
      ensures b in h && g'[b] == h[b]
    {
      if b == BandOf(data[i]) {
        GroupedDataStepOwn(data, i);
      } else {
        GroupedDataStepOther(data, i, b);
      }
    }
    SameEntries(g', h);
  }

  /**
   * The `for item in data` loop: creates a bucket on a band's first item and
   * appends each item to its leadership or functional list; `keys` is the
   * dictionary's key order.
   */
  method GroupByBand(data: seq<PdfItem>) returns (grouped: map<string, PdfBucket>, keys: seq<string>)
    ensures grouped == GroupedData(data)
    ensures keys == PdfKeys(data)
  {
    grouped := map[];
    keys := [];
    var i := 0;
    while i < |data|
      invariant 0 <= i <= |data|
      invariant keys == PdfKeys(data[..i])
      invariant grouped == GroupedData(data[..i])
    {
      var item := data[i];
      var band := BandOf(item);
      DistinctMapStep(data, i, BandOf);
      GroupedDataStep(data, i);
      GroupedDataAt(data[..i], band);
      AddItemInTwoSteps(grouped, item);
      if band !in grouped {
        grouped := grouped[band := PdfBucket([], [])];
        keys := keys + [band];
      }
      grouped := grouped[band := Append(grouped[band], item)];
      i := i + 1;
    }
    assert data[..i] == data;
  }

  /** Each item sits in its own band's bucket, in the list its competency type selects. */
  lemma GroupedDataPlacesItem(data: seq<PdfItem>, k: int)
    requires 0 <= k < |data|
    ensures BandOf(data[k]) in GroupedData(data)
    ensures data[k] in (if IsLeadership(data[k]) then GroupedData(data)[BandOf(data[k])].leadership
                        else GroupedData(data)[BandOf(data[k])].functional)
  {
    var band := BandOf(data[k]);
    PdfKeysHas(data, k);
    GroupedDataAt(data, band);
    FilterMembership(data, InPdfBucket(band, IsLeadership(data[k])), data[k]);
  }

  lemma PdfKeysHas(data: seq<PdfItem>, k: int)
    requires 0 <= k < |data|
    ensures BandOf(data[k]) in PdfKeys(data)
  {
    assert Map(data, BandOf)[k] == BandOf(data[k]);
    DistinctMembership(Map(data, BandOf), BandOf(data[k]));
  }

  /** Every bucket that is created receives at least one item, so no band section is ever skipped. */
  lemma GroupedDataNoEmptyBucket(data: seq<PdfItem>, b: string)
    requires b in GroupedData(data)
    ensures GroupedData(data)[b].functional != [] || GroupedData(data)[b].leadership != []
  {
    GroupedDataAt(data, b);
    DistinctMembership(Map(data, BandOf), b);
    var k :| 0 <= k < |data| && Map(data, BandOf)[k] == b;
    GroupedDataPlacesItem(data, k);
  }

  // ---------------------------------------------------------------------
  // Band order
  // ---------------------------------------------------------------------

  /** The sort key: the band's position in the band order, or 999 for any other band. */
  function Rank(band: string): (r: nat)
    ensures band in GetBandOrder() ==> r < 7 && GetBandOrder()[r] == band
    ensures band !in GetBandOrder() ==> r == 999
  {
    if band in GetBandOrder() then FirstIndex(GetBandOrder(), band) else 999
  }

  predicate RankLess(a: string, b: string) {
    Rank(a) < Rank(b)
  }

  lemma RankLessIsStrictOrder()
    ensures StrictOrder(RankLess)
  {
  }

  /** `sorted(grouped_data.keys(), key=...)`: a stable sort by rank. */
  function SortByRank(keys: seq<string>): (r: seq<string>)
    ensures multiset(r) == multiset(keys)
    ensures SortedBy(r, RankLess)
  {
    RankLessIsStrictOrder();
    InsertionSortSorted(keys, RankLess);
    InsertionSort(keys, RankLess)
  }

  predicate Canonical(band: string) {
    band in GetBandOrder()
  }

  predicate NonCanonical(band: string) {
    band !in GetBandOrder()
  }

  /**
   * Canonical bands come first, in band-order position; a band after a
   * canonical one is never ahead of it in the band order.
   */
  lemma SortByRankCanonicalFirst(keys: seq<string>, i: int, j: int)
    requires NoDup(keys) && 0 <= i < j < |SortByRank(keys)|
    ensures var s := SortByRank(keys);
      && (Canonical(s[j]) ==> Canonical(s[i]))
      && (Canonical(s[i]) && Canonical(s[j]) ==> FirstIndex(GetBandOrder(), s[i]) < FirstIndex(GetBandOrder(), s[j]))
  {
    var s := SortByRank(keys);
    NoDupPermutation(s, keys);
    assert !RankLess(s[j], s[i]);
    assert s[i] != s[j];
  }

  /** The bands outside the band order keep the order in which they first appeared. */
  lemma SortByRankKeepsOtherBandsInPlace(keys: seq<string>)
    ensures Filter(SortByRank(keys), NonCanonical) == Filter(keys, NonCanonical)
  {
    forall x, y ensures NonCanonical(x) ==> !RankLess(x, y) {
    }
    InsertionSortKeepsGreatest(keys, RankLess, NonCanonical);
  }

  // ---------------------------------------------------------------------
  // Skill-table rows and sections
  // ---------------------------------------------------------------------

  /** The definition cell: at most 100 characters, followed by "..." when cut. */
  function Truncate(d: string): (r: string)
    ensures |d| <= 100 ==> r == d
    ensures |d| > 100 ==> |r| == 103 && r[..100] == d[..100] && r[100..] == "..."
  {
    if |d| > 100 then d[..100] + "..." else d
  }

  /** Truncating twice is truncating once, and a cell is never longer than 103 characters. */
  lemma TruncateIdempotent(d: string)
    ensures Truncate(Truncate(d)) == Truncate(d)
    ensures |Truncate(d)| <= 103
  {
    if |d| > 100 {
      var r := Truncate(d);
      assert r[..100] == d[..100];
    }
  }

  /** The role cell: the job role, or the function when the job role is empty or missing. */
  function RoleOf(item: PdfItem): (role: string)
    ensures item.jobRole.Some? && item.jobRole.value != "" ==> role == item.jobRole.value
    ensures (item.jobRole.None? || item.jobRole.value == "") ==> role == item.jobFunction.GetOr("")
  {
    var r := item.jobRole.GetOr("");
    if r != "" then r else item.jobFunction.GetOr("")
  }

  /** The four cells of one skill row. */
  function DeriveRow(item: PdfItem): (row: PdfRow)
    ensures row.name == item.skillName.GetOr("")
    ensures row.role == RoleOf(item)
    ensures row.definition == Truncate(item.skillDefinition.GetOr("")) && |row.definition| <= 103
  {
    PdfRow(item.skillName.GetOr(""),
           IntToString(item.proficiencyLevel.GetOr(0)),
           RoleOf(item),
           Truncate(item.skillDefinition.GetOr("")))
  }

  /** The proficiency cell reads back as the level, and as 0 when it is missing. */
  lemma DeriveRowProficiency(item: PdfItem)
    requires item.proficiencyLevel.None? || item.proficiencyLevel.value >= 0
    ensures AllDigits(DeriveRow(item).proficiency)
    ensures DigitsValue(DeriveRow(item).proficiency) == item.proficiencyLevel.GetOr(0)
  {
    NatToStringRoundTrip(item.proficiencyLevel.GetOr(0));
  }

  /** The `for skill in skills` loop of `create_skill_table`: one row per skill, in order. */
  method DeriveRows(skills: seq<PdfItem>) returns (rows: seq<PdfRow>)
    ensures rows == Map(skills, DeriveRow)
  {
    rows := [];
    var j := 0;
    while j < |skills|
      invariant 0 <= j <= |skills|
      invariant rows == Map(skills[..j], DeriveRow)
    {
      assert skills[..j + 1][..j] == skills[..j];
      rows := rows + [DeriveRow(skills[j])];
      j := j + 1;
    }
    assert skills[..j] == skills;
  }

  /** A band's heading with the rows of its functional and its leadership table. */
  function SectionOf(band: string, content: PdfBucket): (s: Section)
    ensures s.band == band
    ensures |s.functional| == |content.functional| && |s.leadership| == |content.leadership|
    ensures forall m :: 0 <= m < |content.functional| ==> s.functional[m] == DeriveRow(content.functional[m])
    ensures forall m :: 0 <= m < |content.leadership| ==> s.leadership[m] == DeriveRow(content.leadership[m])
  {
    Section(band, Map(content.functional, DeriveRow), Map(content.leadership, DeriveRow))
  }

  /** Does `band` have a bucket with at least one item? The loop skips the others. */
  function HasContent(grouped: map<string, PdfBucket>): string -> bool {
    band => band in grouped && (grouped[band].functional != [] || grouped[band].leadership != [])
  }

  /** The section of `band` in `grouped`. */
  function SectionIn(grouped: map<string, PdfBucket>): string -> Section {
    band => if band in grouped then SectionOf(band, grouped[band]) else Section(band, [], [])
  }

  /** The section loop's output for `bands`: a section per band with content, in order. */
  function SectionsOf(grouped: map<string, PdfBucket>, bands: seq<string>): seq<Section> {
    Map(Filter(bands, HasContent(grouped)), SectionIn(grouped))
  }

  /** The `for band in sorted_bands` loop of `create_skills_matrix_pdf`. */
  method CreateSections(grouped: map<string, PdfBucket>, bands: seq<string>) returns (sections: seq<Section>)
    requires forall k :: 0 <= k < |bands| ==> bands[k] in grouped
    ensures sections == SectionsOf(grouped, bands)
  {
    sections := [];
    var i := 0;
    while i < |bands|
      invariant 0 <= i <= |bands|
      invariant sections == SectionsOf(grouped, bands[..i])
    {
      FilterMapStep(bands, i, HasContent(grouped), SectionIn(grouped));
      var band := bands[i];
      var content := grouped[band];
      if content.functional == [] && content.leadership == [] {
        i := i + 1;
        continue;
      }
      var functionalRows := DeriveRows(content.functional);
      var leadershipRows := DeriveRows(content.leadership);
      sections := sections + [Section(band, functionalRows, leadershipRows)];
      i := i + 1;
    }
    assert bands[..i] == bands;
  }

  /** When every band has content, there is one section per band, in the given order. */
  lemma SectionsOfNonEmpty(grouped: map<string, PdfBucket>, bands: seq<string>)
    requires forall k :: 0 <= k < |bands| ==> HasContent(grouped)(bands[k])
    ensures |SectionsOf(grouped, bands)| == |bands|
    ensures forall k :: 0 <= k < |bands| ==> SectionsOf(grouped, bands)[k].band == bands[k]
    ensures forall k :: 0 <= k < |bands| ==> SectionsOf(grouped, bands)[k] == SectionOf(bands[k], grouped[bands[k]])
  {
    FilterAllKept(bands, HasContent(grouped));
  }

  /** The sorted bands of the report. */
  function ReportBands(data: seq<PdfItem>): seq<string> {
    SortByRank(PdfKeys(data))
  }

  lemma ReportBandsAreGrouped(data: seq<PdfItem>)
    ensures forall k :: 0 <= k < |ReportBands(data)| ==> ReportBands(data)[k] in GroupedData(data)
  {
    var bands := ReportBands(data);
    forall k | 0 <= k < |bands| ensures bands[k] in GroupedData(data) {
      assert bands[k] in multiset(PdfKeys(data));
      GroupedDataAt(data, bands[k]);
    }
  }

  /** What `create_skills_matrix_pdf` lays out for `data` and `filters`. */
  function ReportOf(data: seq<PdfItem>, filters: Filters): Report {
    Report(SummaryOf(filters), SectionsOf(GroupedData(data), ReportBands(data)))
  }

  /**
   * Every distinct band of the posted items gets exactly one section, in rank
   * order, whose tables hold one row per item of that band's bucket, in order.
   */
  lemma ReportSections(data: seq<PdfItem>, filters: Filters)
    ensures |ReportOf(data, filters).sections| == |ReportBands(data)|
    ensures forall k :: 0 <= k < |ReportBands(data)| ==> ReportOf(data, filters).sections[k].band == ReportBands(data)[k]
    ensures forall k :: 0 <= k < |ReportBands(data)| ==>
              ReportBands(data)[k] in GroupedData(data) &&
              ReportOf(data, filters).sections[k].functional == Map(GroupedData(data)[ReportBands(data)[k]].functional, DeriveRow) &&
              ReportOf(data, filters).sections[k].leadership == Map(GroupedData(data)[ReportBands(data)[k]].leadership, DeriveRow)
  {
    var bands := ReportBands(data);
    ReportBandsAreGrouped(data);
    forall k | 0 <= k < |bands|
      ensures HasContent(GroupedData(data))(bands[k])
    {
      GroupedDataNoEmptyBucket(data, bands[k]);
    }
    SectionsOfNonEmpty(GroupedData(data), bands);
  }

  /** An item of a table's list has its row in the table. */
  lemma RowOfMember(items: seq<PdfItem>, item: PdfItem)
    requires item in items
    ensures DeriveRow(item) in Map(items, DeriveRow)
  {
    var m :| 0 <= m < |items| && items[m] == item;
    assert Map(items, DeriveRow)[m] == DeriveRow(item);
  }

  /** Every posted item's row is in the table of its band's section that its competency type selects. */
  lemma ReportHasItemRow(data: seq<PdfItem>, filters: Filters, i: int)
    requires 0 <= i < |data|
    ensures exists k :: 0 <= k < |ReportOf(data, filters).sections| &&
              ReportOf(data, filters).sections[k].band == BandOf(data[i]) &&
              DeriveRow(data[i]) in (if IsLeadership(data[i]) then ReportOf(data, filters).sections[k].leadership
                                     else ReportOf(data, filters).sections[k].functional)
  {
    var bands := ReportBands(data);
    var sections := ReportOf(data, filters).sections;
    var band := BandOf(data[i]);
    GroupedDataPlacesItem(data, i);
    PdfKeysHas(data, i);
    assert band in multiset(bands);
    var k :| 0 <= k < |bands| && bands[k] == band;
    ReportSections(data, filters);
    var content := GroupedData(data)[band];
    if IsLeadership(data[i]) {
      RowOfMember(content.leadership, data[i]);
      assert sections[k].leadership == Map(GroupedData(data)[bands[k]].leadership, DeriveRow);
      assert DeriveRow(data[i]) in sections[k].leadership;
    } else {
      RowOfMember(content.functional, data[i]);
      assert sections[k].functional == Map(GroupedData(data)[bands[k]].functional, DeriveRow);
      assert DeriveRow(data[i]) in sections[k].functional;
    }
    assert sections[k].band == band;
  }

  /** `create_skills_matrix_pdf` without the rendering: summary, grouping, band order, sections. */
  method CreateReport(data: seq<PdfItem>, filters: Filters) returns (report: Report)
    ensures report == ReportOf(data, filters)
  {
    var summary := FilterSummary(filters);
    var grouped, keys := GroupByBand(data);
    var bands := SortByRank(keys);
    ReportBandsAreGrouped(data);
    assert bands == ReportBands(data);
    var sections := CreateSections(grouped, bands);
    report := Report(summary, sections);
  }

  const NoDataError: HttpError := HttpError(500, "PDF generation failed: 400: No data provided")

  /**
   * `export_skills_matrix_pdf`: missing or empty data raises a 400, which the
   * surrounding `except Exception` turns into a 500 carrying its text.
   */
  method ExportPdf(request: PdfRequest) returns (response: Result<Report, HttpError>)
    ensures request.data.GetOr([]) == [] <==> response.Err?
    ensures response.Err? ==> response.error == NoDataError
    ensures response.Ok? ==> response.value == ReportOf(request.data.value, request.filters.GetOr([]))
  {
    var data := request.data.GetOr([]);
    var filters := request.filters.GetOr([]);
    if data == [] {
      return Err(NoDataError);
    }
    var report := CreateReport(data, filters);
    return Ok(report);
  }

  // ---------------------------------------------------------------------
  // The two band orders side by side
  // ---------------------------------------------------------------------

  /**
   * On canonical bands the report's order and the matrix's order are the
   * same: both follow the band order.
   */
  lemma CanonicalOrdersAgree(keys: seq<string>)
    requires NoDup(keys)
    requires forall k :: 0 <= k < |keys| ==> Canonical(keys[k])
    ensures SortByRank(keys) == SkillsMatrix.SortBands(keys)
  {
    var s := SortByRank(keys);
    assert GetBandOrder() == SkillsMatrix.BandOrder;
    forall i, j | 0 <= i < j < |s| ensures !SkillsMatrix.BandBefore(s[j], s[i]) {
      assert s[i] in multiset(keys) && s[j] in multiset(keys);
      assert !RankLess(s[j], s[i]);
    }
    SkillsMatrix.BandBeforeIsStrictTotalOrder();
    SortedUnique(s, SkillsMatrix.SortBands(keys), SkillsMatrix.BandBefore);
  }

  /** Bands outside the band order: the report keeps first appearance... */
  lemma ReportOrderExample()
    ensures SortByRank(["Zeta", "Alpha"]) == ["Zeta", "Alpha"]
  {
    var keys := ["Zeta", "Alpha"];
    assert NonCanonical("Zeta") && NonCanonical("Alpha");
    FilterAllKept(keys, NonCanonical);
    SortByRankKeepsOtherBandsInPlace(keys);
    var s := SortByRank(keys);
    forall k | 0 <= k < |s| ensures NonCanonical(s[k]) {
      assert s[k] in multiset(keys);
    }
    FilterAllKept(s, NonCanonical);
  }

  lemma OtherBandsNotInOrder()
    ensures IndexOf(SkillsMatrix.BandOrder, "Alpha") == -1 && IndexOf(SkillsMatrix.BandOrder, "Zeta") == -1
  {
  }

  /** ...while the matrix puts them in string order. */
  lemma MatrixOrderExample()
    ensures SkillsMatrix.SortBands(["Zeta", "Alpha"]) == ["Alpha", "Zeta"]
  {
    OtherBandsNotInOrder();
    assert StringLess("Alpha", "Zeta");
    assert !SkillsMatrix.BandBefore("Zeta", "Alpha");
    assert SortedBy(["Alpha", "Zeta"], SkillsMatrix.BandBefore);
    assert multiset(["Alpha", "Zeta"]) == multiset(["Zeta", "Alpha"]);
    SkillsMatrix.BandBeforeIsStrictTotalOrder();
    SortedUnique(SkillsMatrix.SortBands(["Zeta", "Alpha"]), ["Alpha", "Zeta"], SkillsMatrix.BandBefore);
  }
}

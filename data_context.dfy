/**
 * The report store of the dashboard: the list of uploaded report records,
 * appended to and filtered by id, and the two read-outs computed from it,
 * the six headline metric cards and the weekly entries of one department.
 */
module DataContext {
  import opened Wrappers
  import opened Lists
  import opened Text

  /** One objective of a department: a title, a target, the current value and its unit. */
  datatype Okr = Okr(title: string, target: int, current: int, unit: string)

  /** What a report says about one department. */
  datatype DepartmentSection = DepartmentSection(highlights: seq<string>, lowlights: seq<string>, okrs: seq<Okr>)

  /** The four department slots a report may fill, each optional. */
  datatype DepartmentSections = DepartmentSections(
    operations: Option<DepartmentSection>,
    businessDev: Option<DepartmentSection>,
    marketing: Option<DepartmentSection>,
    product: Option<DepartmentSection>)

  /** The six optional headline figures of a report. */
  datatype Metrics = Metrics(
    totalItemsDonated: Option<int>,
    estimatedFmv: Option<int>,
    totalRevenue: Option<int>,
    quarterlyProgress: Option<int>,
    activeRetailers: Option<int>,
    nonprofitReach: Option<int>)

  /** One uploaded report. */
  datatype PdfData = PdfData(
    id: string,
    fileName: string,
    timePeriod: string,
    uploadDate: string,
    metrics: Metrics,
    departmentData: DepartmentSections)

  function IdOf(p: PdfData): string {
    p.id
  }

  /** The store: the records in upload order, appended to and filtered in place. */
  class ReportStore {
    var pdfData: seq<PdfData>

    constructor()
      ensures pdfData == []
    {
      pdfData := [];
    }

    /** `addPdfData`: the record goes to the end; the earlier ones stay as they were. */
    method AddPdfData(data: PdfData)
      modifies this
      ensures pdfData == old(pdfData) + [data]
    {
      pdfData := pdfData + [data];
    }

    /** `removePdfData`: every record with this id goes; the others keep their order. */
    method RemovePdfData(id: string)
      modifies this
      ensures pdfData == RemoveAll(old(pdfData), id, IdOf)
    {
      pdfData := RemoveAll(pdfData, id, IdOf);
    }
  }

  /** Adding a record with a new id and then removing that id gives back the old list. */
  lemma {:induction false} AddThenRemoveRestores(records: seq<PdfData>, data: PdfData)
    requires forall p :: p in records ==> p.id != data.id
    ensures RemoveAll(records + [data], data.id, IdOf) == records
  {
    RemoveAllUndoesAppend(records, data, IdOf);
  }

  /** Removing an id passes the id-free records before and after the affected block through, in place. */
  lemma {:induction false} RemoveKeepsSurroundings(records: seq<PdfData>, id: string, before: seq<PdfData>, after: seq<PdfData>)
    requires forall p :: p in before ==> p.id != id
    requires forall p :: p in after ==> p.id != id
    ensures RemoveAll(before + records + after, id, IdOf) == before + RemoveAll(records, id, IdOf) + after
  {
    RemoveAllConcat(before + records, after, id, IdOf);
    RemoveAllConcat(before, records, id, IdOf);
    RemoveAllAbsent(before, id, IdOf);
    RemoveAllAbsent(after, id, IdOf);
  }

  // ---------------------------------------------------------------------------
  // Headline metrics
  // ---------------------------------------------------------------------------

  /** The three figures that are summed over the reports. */
  datatype SummedMetric = ItemsDonated | EstimatedFmv | TotalRevenue

  function Select(m: Metrics, which: SummedMetric): Option<int> {
    match which
    case ItemsDonated => m.totalItemsDonated
    case EstimatedFmv => m.estimatedFmv
    case TotalRevenue => m.totalRevenue
  }

  /** A figure is added only when it is present and non-zero (JavaScript truthiness). */
  function Contribution(v: Option<int>): int {
    if v.Some? && v.value != 0 then v.value else 0
  }

  /** The accumulator of the fold: three running sums and three fixed figures. */
  datatype Totals = Totals(
    totalItemsDonated: int,
    estimatedFmv: int,
    totalRevenue: int,
    quarterlyProgress: nat,
    activeRetailers: nat,
    nonprofitReach: nat)

  const StartTotals := Totals(0, 0, 0, 67, 23, 89)

  /** One step of the fold over the reports. */
  function Step(acc: Totals, pdf: PdfData): Totals {
    acc.(totalItemsDonated := acc.totalItemsDonated + Contribution(pdf.metrics.totalItemsDonated),
         estimatedFmv := acc.estimatedFmv + Contribution(pdf.metrics.estimatedFmv),
         totalRevenue := acc.totalRevenue + Contribution(pdf.metrics.totalRevenue))
  }

  /** `Array.prototype.reduce`: a left fold from the first record to the last. */
  function Reduce(records: seq<PdfData>, acc: Totals): Totals
    decreases |records|
  {
    if records == [] then acc else Reduce(records[1..], Step(acc, records[0]))
  }

  /** The sum of one figure over the reports, counting only present, non-zero values. */
  function SumOf(records: seq<PdfData>, which: SummedMetric): int {
    if records == [] then 0 else Contribution(Select(records[0].metrics, which)) + SumOf(records[1..], which)
  }

  /** The fold adds each summed figure to its start value and leaves the other three alone. */
  lemma {:induction false} ReduceSums(records: seq<PdfData>, acc: Totals)
    ensures Reduce(records, acc) ==
              acc.(totalItemsDonated := acc.totalItemsDonated + SumOf(records, ItemsDonated),
                   estimatedFmv := acc.estimatedFmv + SumOf(records, EstimatedFmv),
                   totalRevenue := acc.totalRevenue + SumOf(records, TotalRevenue))
    decreases |records|
  {
    if records != [] {
      ReduceSums(records[1..], Step(acc, records[0]));
    }
  }

  /** A record appended to the store adds its own present, non-zero figure to each sum. */
  lemma {:induction false} SumOfAppend(records: seq<PdfData>, data: PdfData, which: SummedMetric)
    ensures SumOf(records + [data], which) == SumOf(records, which) + Contribution(Select(data.metrics, which))
    decreases |records|
  {
    if records == [] {
      assert [] + [data] == [data];
    } else {
      assert (records + [data])[1..] == records[1..] + [data];
      SumOfAppend(records[1..], data, which);
    }
  }

  /** How a computed figure is rendered; locale and floating-point formatting stay symbolic. */
  datatype Format =
    | Grouped    // toLocaleString()
    | Millions   // `$${(n / 1000000).toFixed(1)}M`
    | Thousands  // `$${(n / 1000).toFixed(0)}K`

  datatype Shown = Literal(text: string) | Formatted(format: Format, amount: int)

  datatype Trend = Up | Down

  datatype MetricCard = MetricCard(value: Shown, change: real, trend: Trend)

  datatype MetricsSummary = MetricsSummary(
    totalItemsDonated: MetricCard,
    estimatedFmv: MetricCard,
    totalRevenue: MetricCard,
    quarterlyProgress: MetricCard,
    activeRetailers: MetricCard,
    nonprofitReach: MetricCard)

  /** The figures shown while the store is empty. */
  const Baseline := MetricsSummary(
    MetricCard(Literal("125,430"), 12.5, Up),
    MetricCard(Literal("$2.4M"), 8.3, Up),
    MetricCard(Literal("$340K"), -15.2, Down),
    MetricCard(Literal("67%"), 5.8, Up),
    MetricCard(Literal("23"), 2.0, Up),
    MetricCard(Literal("89%"), -3.1, Down))

  function Percent(n: nat): string {
    DecimalString(n) + "%"
  }

  /** `getAggregatedMetrics`. */
  function AggregatedMetrics(records: seq<PdfData>): MetricsSummary {
    if records == [] then Baseline
    else
      var t := Reduce(records, StartTotals);
      MetricsSummary(
        MetricCard(Formatted(Grouped, t.totalItemsDonated), 12.5, Up),
        MetricCard(Formatted(Millions, t.estimatedFmv), 8.3, Up),
        MetricCard(Formatted(Thousands, t.totalRevenue), -15.2, Down),
        MetricCard(Literal(Percent(t.quarterlyProgress)), 5.8, Up),
        MetricCard(Literal(DecimalString(t.activeRetailers)), 2.0, Up),
        MetricCard(Literal(Percent(t.nonprofitReach)), -3.1, Down))
  }

  /** With at least one report, the first three cards show the sums over all reports. */
  lemma {:induction false} SummedCards(records: seq<PdfData>)
    requires records != []
    ensures AggregatedMetrics(records).totalItemsDonated.value == Formatted(Grouped, SumOf(records, ItemsDonated))
    ensures AggregatedMetrics(records).estimatedFmv.value == Formatted(Millions, SumOf(records, EstimatedFmv))
    ensures AggregatedMetrics(records).totalRevenue.value == Formatted(Thousands, SumOf(records, TotalRevenue))
  {
    ReduceSums(records, StartTotals);
  }

  /** The empty store shows the fixed baseline figures. */
  lemma {:induction false} EmptyStoreShowsBaseline()
    ensures AggregatedMetrics([]).totalItemsDonated.value == Literal("125,430")
    ensures AggregatedMetrics([]).estimatedFmv.value == Literal("$2.4M")
    ensures AggregatedMetrics([]).totalRevenue.value == Literal("$340K")
  {
  }

  /**
   * The quarterly-progress, retailer and reach cards are placeholders: the
   * same texts "67%", "23" and "89%" whatever the store holds.
   */
  lemma {:induction false} PlaceholdersAreFixed(records: seq<PdfData>)
    ensures AggregatedMetrics(records).quarterlyProgress == Baseline.quarterlyProgress
    ensures AggregatedMetrics(records).activeRetailers == Baseline.activeRetailers
    ensures AggregatedMetrics(records).nonprofitReach == Baseline.nonprofitReach
  {
    if records != [] {
      ReduceSums(records, StartTotals);
      assert DecimalString(67) == "67" && DecimalString(23) == "23" && DecimalString(89) == "89";
      assert Percent(67) == "67" + "%" == "67%";
      assert Percent(89) == "89" + "%" == "89%";
    }
  }

  /** The change and trend annotations of every card are the same fixed values in both cases. */
  lemma {:induction false} AnnotationsAreFixed(records: seq<PdfData>)
    ensures var m := AggregatedMetrics(records);
            && m.totalItemsDonated.change == 12.5 && m.totalItemsDonated.trend == Up
            && m.estimatedFmv.change == 8.3 && m.estimatedFmv.trend == Up
            && m.totalRevenue.change == -15.2 && m.totalRevenue.trend == Down
            && m.quarterlyProgress.change == 5.8 && m.quarterlyProgress.trend == Up
            && m.activeRetailers.change == 2.0 && m.activeRetailers.trend == Up
            && m.nonprofitReach.change == -3.1 && m.nonprofitReach.trend == Down
  {
  }

  /** The order of the reports does not matter to the sums: appending in either order gives the same figure. */
  lemma {:induction false} SumOfSwap(records: seq<PdfData>, a: PdfData, b: PdfData, which: SummedMetric)
    ensures SumOf(records + [a] + [b], which) == SumOf(records + [b] + [a], which)
  {
    SumOfAppend(records, a, which);
    SumOfAppend(records + [a], b, which);
    SumOfAppend(records, b, which);
    SumOfAppend(records + [b], a, which);
  }

  // ---------------------------------------------------------------------------
  // Department read-out
  // ---------------------------------------------------------------------------

  /** The lookup key: lower case, then the first space removed. */
  function DepartmentKey(department: string): string {
    ReplaceFirst(ToLower(department), " ", "")
  }

  /** The section a record holds under a key; keys other than the four slot names find nothing. */
  function SectionFor(d: DepartmentSections, key: string): Option<DepartmentSection> {
    if key == "operations" then d.operations
    else if key == "businessDev" then d.businessDev
    else if key == "marketing" then d.marketing
    else if key == "product" then d.product
    else None
  }

  /**
   * `pdf.departmentData[key]` is truthy: the record fills the slot, or the key
   * names a member every object inherits.
   */
  predicate Holds(p: PdfData, key: string) {
    SectionFor(p.departmentData, key).Some? || IsInheritedKey(key)
  }

  function HasSection(key: string): PdfData -> bool {
    (p: PdfData) => Holds(p, key)
  }

  /** One weekly entry of the read-out. */
  datatype WeeklyEntry = WeeklyEntry(week: string, date: string, highlights: seq<string>, lowlights: seq<string>, okrs: seq<Okr>)

  /** The entry of one record; a missing section (or an inherited member, which has no lists) falls back to empty lists. */
  function EntryFor(p: PdfData, key: string): WeeklyEntry {
    var sec := SectionFor(p.departmentData, key);
    WeeklyEntry(p.timePeriod, p.uploadDate,
                if sec.Some? then sec.value.highlights else [],
                if sec.Some? then sec.value.lowlights else [],
                if sec.Some? then sec.value.okrs else [])
  }

  function MapEntries(relevant: seq<PdfData>, key: string): seq<WeeklyEntry> {
    seq(|relevant|, i requires 0 <= i < |relevant| => EntryFor(relevant[i], key))
  }

  /** `getDepartmentData`: null when no record has the department, otherwise one entry per such record. */
  function GetDepartmentData(records: seq<PdfData>, department: string): Option<seq<WeeklyEntry>> {
    var key := DepartmentKey(department);
    var relevant := Filter(records, HasSection(key));
    if |relevant| == 0 then None else Some(MapEntries(relevant, key))
  }

  /** The entries of the records that have the section, in store order, defined record by record. */
  function EntriesFor(records: seq<PdfData>, key: string): seq<WeeklyEntry> {
    if records == [] then []
    else (if Holds(records[0], key) then [EntryFor(records[0], key)] else [])
         + EntriesFor(records[1..], key)
  }

  lemma {:induction false} MapEntriesFilter(records: seq<PdfData>, key: string)
    ensures MapEntries(Filter(records, HasSection(key)), key) == EntriesFor(records, key)
  {
    if records != [] {
      MapEntriesFilter(records[1..], key);
      var head := if HasSection(key)(records[0]) then [records[0]] else [];
      var tail := Filter(records[1..], HasSection(key));
      assert Filter(records, HasSection(key)) == head + tail;
      MapEntriesConcat(head, tail, key);
    }
  }

  lemma {:induction false} MapEntriesConcat(a: seq<PdfData>, b: seq<PdfData>, key: string)
    ensures MapEntries(a + b, key) == MapEntries(a, key) + MapEntries(b, key)
  {
  }

  lemma {:induction false} EntriesForEmpty(records: seq<PdfData>, key: string)
    ensures EntriesFor(records, key) == [] <==> forall p :: p in records ==> !Holds(p, key)
  {
    if records != [] {
      EntriesForEmpty(records[1..], key);
      assert forall p :: p in records <==> p == records[0] || p in records[1..] by {
        assert records == [records[0]] + records[1..];
      }
    }
  }

  /**
   * The read-out is null exactly when no record holds anything under the
   * department's key; otherwise it lists, in store order, one entry for
   * each record that does, with that record's period, date and lists.
   */
  lemma {:induction false} DepartmentDataSpec(records: seq<PdfData>, department: string)
    ensures var key := DepartmentKey(department);
            GetDepartmentData(records, department).None? <==>
              forall p :: p in records ==> !Holds(p, key)
    ensures var key := DepartmentKey(department);
            GetDepartmentData(records, department).Some? ==>
              GetDepartmentData(records, department).value == EntriesFor(records, key)
  {
    var key := DepartmentKey(department);
    MapEntriesFilter(records, key);
    EntriesForEmpty(records, key);
  }

  /** A record appended to the store adds its entry at the end of the read-out, if it has the section. */
  lemma {:induction false} EntriesForAppend(records: seq<PdfData>, data: PdfData, key: string)
    ensures EntriesFor(records + [data], key) ==
              EntriesFor(records, key) + (if Holds(data, key) then [EntryFor(data, key)] else [])
  {
    if records == [] {
      assert [] + [data] == [data];
      assert [data][1..] == [];
    } else {
      var rest := records[1..];
      var head := if Holds(records[0], key) then [EntryFor(records[0], key)] else [];
      var last := if Holds(data, key) then [EntryFor(data, key)] else [];
      assert (records + [data])[0] == records[0];
      assert (records + [data])[1..] == rest + [data];
      EntriesForAppend(rest, data, key);
      assert EntriesFor(records + [data], key) == head + (EntriesFor(rest, key) + last);
      assert EntriesFor(records, key) == head + EntriesFor(rest, key);
    }
  }

  /** A key holds no upper-case letter: lower-casing removes them and the space removal adds none. */
  lemma {:induction false} NoUpperInKey(department: string)
    ensures forall c :: c in DepartmentKey(department) ==> !IsUpper(c)
  {
    var lower := ToLower(department);
    assert forall c :: c in ReplaceFirst(lower, " ", "") ==> c in lower || c in "";
  }

  /** A lower-cased key with one space removed never names the `businessDev` slot. */
  lemma {:induction false} DepartmentKeyNotBusinessDev(department: string)
    ensures DepartmentKey(department) != "businessDev"
  {
    NoUpperInKey(department);
    assert "businessDev"[8] == 'D' && IsUpper('D');
  }

  /**
   * Business-development sections are therefore never read. On a store whose
   * records hold only those, the read-out is null, except for a key naming an
   * inherited member, where every entry has empty lists.
   */
  lemma {:induction false} BusinessDevUnreachable(records: seq<PdfData>, department: string)
    requires forall p :: p in records ==> p.departmentData.operations.None? && p.departmentData.marketing.None? && p.departmentData.product.None?
    ensures !IsInheritedKey(DepartmentKey(department)) ==> GetDepartmentData(records, department).None?
    ensures var r := GetDepartmentData(records, department);
            r.Some? ==> forall e :: e in r.value ==> e.highlights == [] && e.lowlights == [] && e.okrs == []
  {
    var key := DepartmentKey(department);
    DepartmentKeyNotBusinessDev(department);
    var relevant := Filter(records, HasSection(key));
    forall p | p in records ensures SectionFor(p.departmentData, key).None? { }
    if !IsInheritedKey(key) {
      FilterKeepsNone(records, HasSection(key));
    }
    var entries := MapEntries(relevant, key);
    forall e | e in entries ensures e.highlights == [] && e.lowlights == [] && e.okrs == [] {
      var i :| 0 <= i < |entries| && entries[i] == e;
      assert relevant[i] in records;
    }
  }

  /**
   * A key naming an inherited member is truthy on every record, so the
   * read-out lists every record, in store order, with its period and date
   * and empty lists; only the empty store gives null.
   */
  lemma {:induction false} InheritedKeyListsEveryRecord(records: seq<PdfData>, department: string)
    requires IsInheritedKey(DepartmentKey(department))
    ensures GetDepartmentData(records, department).None? <==> records == []
    ensures GetDepartmentData(records, department).Some? ==>
              var entries := GetDepartmentData(records, department).value;
              && |entries| == |records|
              && forall i :: 0 <= i < |records| ==>
                   entries[i] == WeeklyEntry(records[i].timePeriod, records[i].uploadDate, [], [], [])
  {
    var key := DepartmentKey(department);
    FilterKeepsAll(records, HasSection(key));
  }

  /** The name "Constructor" keys as "constructor", an inherited member. */
  lemma {:induction false} ConstructorKeyIsInherited(department: string)
    requires department == "Constructor"
    ensures DepartmentKey(department) == "constructor"
    ensures IsInheritedKey(DepartmentKey(department))
  {
    var lower := ToLower(department);
    assert lower == "constructor";
    ReplaceFirstMissingChar(lower, " ", "", ' ');
  }
}

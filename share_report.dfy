/**
 * The plain-text report shared through messaging and e-mail: a header, the total, one
 * numbered section per record kind and a footer; and the short statistical summary.
 * Calendar dates and date-times are formatted by parameters (`toLocaleDateString` and
 * `formatDateTime`).
 */
module ShareReport {
  import opened Wrappers
  import opened Text
  import opened Lists
  import opened RecordTypes

  const ReportTitle: string := "📊 *Relatório BabyCare Log*\n\n"
  const ChildLabel: string := "👶 *Criança:* "
  const PeriodLabel: string := "📅 *Período:* "
  const DateLabel: string := "📅 *Data:* "
  const TotalLabel: string := "📝 *Total de registros:* "
  const NotesLabel: string := "   💬 "
  const Rule: string := "──────────────────────────────"
  const Footer: string := "\n_Gerado pelo BabyCare Log_"

  /** The lines before the total: title, child and, when given, the period or the single date. */
  function HeaderText(childName: string, startDate: Option<int>, endDate: Option<int>, formatDate: int -> string): string {
    ReportTitle + ChildLabel + childName + "\n" + DateLine(startDate, endDate, formatDate)
  }

  function DateLine(startDate: Option<int>, endDate: Option<int>, formatDate: int -> string): string {
    if startDate.Some? && endDate.Some? then
      PeriodLabel + formatDate(startDate.value) + " a " + formatDate(endDate.value) + "\n"
    else if startDate.Some? then DateLabel + formatDate(startDate.value) + "\n"
    else ""
  }

  function TotalLine(n: nat): string {
    TotalLabel + NatToString(n) + "\n\n"
  }

  function NotesLine(r: Record): string {
    if HasNotes(r) then NotesLabel + r.body.notes.value + "\n" else ""
  }

  /** The shown title of a symptom: its type's label when it has a type, else its title. */
  function SymptomTitle(r: Record): string {
    if r.body.symptomType.Some? then SymptomLabel(r.body.symptomType.value) else r.body.title
  }

  /** The shown details of a symptom: the temperature in degrees when it is truthy, else its details. */
  function SymptomDetails(r: Record): string {
    if HasTemperature(r) then TenthsToString(r.body.temperature.value) + "°C" else r.body.details
  }

  datatype Section = SymptomsSection | MedicationsSection

  /** The title and details lines of an entry: the symptom rules for symptoms, the stored texts for medications. */
  function EntryTitle(sec: Section, r: Record): string {
    if sec == SymptomsSection then SymptomTitle(r) else r.body.title
  }

  function EntryDetails(sec: Section, r: Record): string {
    if sec == SymptomsSection then SymptomDetails(r) else r.body.details
  }

  /** The entry numbered `n`: number and date-time, title, details, the notes when there are any, a blank line. */
  function Entry(sec: Section, n: nat, r: Record, formatDateTime: int -> string): string {
    NatToString(n) + ". " + formatDateTime(r.createdAt) + "\n"
      + "   " + EntryTitle(sec, r) + "\n"
      + "   " + EntryDetails(sec, r) + "\n"
      + NotesLine(r) + "\n"
  }

  /** The entries of a section, numbered from 1 in list order. */
  function Entries(sec: Section, rs: seq<Record>, formatDateTime: int -> string): string {
    if rs == [] then ""
    else Entries(sec, rs[..|rs| - 1], formatDateTime) + Entry(sec, |rs|, rs[|rs| - 1], formatDateTime)
  }

  function SectionHead(sec: Section, n: nat): string {
    (if sec == SymptomsSection then "🌡️ *Sintomas* (" else "💊 *Medicações* (")
      + NatToString(n) + ")\n" + Rule + "\n"
  }

  /** A section: nothing for an empty list, else its head with the count and the entries. */
  function SectionText(sec: Section, rs: seq<Record>, formatDateTime: int -> string): string {
    if |rs| > 0 then SectionHead(sec, |rs|) + Entries(sec, rs, formatDateTime) else ""
  }

  /** `generateReportText`. */
  function ReportText(records: seq<Record>, childName: string, startDate: Option<int>, endDate: Option<int>,
                      formatDate: int -> string, formatDateTime: int -> string): string {
    HeaderText(childName, startDate, endDate, formatDate) + TotalLine(|records|)
      + SectionText(SymptomsSection, OfKind(records, Symptom), formatDateTime)
      + SectionText(MedicationsSection, OfKind(records, Medication), formatDateTime)
      + Footer
  }

  lemma Assoc(a: string, b: string, c: string)
    ensures a + (b + c) == (a + b) + c
  {
  }

  /** `generateReportText`, appending to the text line by line as the source does. */
  method GenerateReportText(records: seq<Record>, childName: string, startDate: Option<int>, endDate: Option<int>,
                            formatDate: int -> string, formatDateTime: int -> string)
    returns (text: string)
    ensures text == ReportText(records, childName, startDate, endDate, formatDate, formatDateTime)
  {
    text := ReportTitle;
    text := text + ChildLabel + childName + "\n";
    var dateLine := "";
    if startDate.Some? && endDate.Some? {
      dateLine := PeriodLabel + formatDate(startDate.value) + " a " + formatDate(endDate.value) + "\n";
    } else if startDate.Some? {
      dateLine := DateLabel + formatDate(startDate.value) + "\n";
    }
    text := text + dateLine;
    text := text + TotalLine(|records|);
    var symptoms := OfKind(records, Symptom);
    var medications := OfKind(records, Medication);
    text := AppendSection(text, SymptomsSection, symptoms, formatDateTime);
    text := AppendSection(text, MedicationsSection, medications, formatDateTime);
    text := text + Footer;
  }

  /** A section, appended when its list is non-empty. */
  method AppendSection(text0: string, sec: Section, rs: seq<Record>, formatDateTime: int -> string)
    returns (text: string)
    ensures text == text0 + SectionText(sec, rs, formatDateTime)
  {
    text := text0;
    if |rs| > 0 {
      var head := SectionHead(sec, |rs|);
      text := text + head;
      text := AppendEntries(text, sec, rs, formatDateTime);
      Assoc(text0, head, Entries(sec, rs, formatDateTime));
    }
  }

  /** The `forEach((record, index) => ...)` of a section. */
  method AppendEntries(text0: string, sec: Section, rs: seq<Record>, formatDateTime: int -> string)
    returns (text: string)
    ensures text == text0 + Entries(sec, rs, formatDateTime)
  {
    text := text0;
    for index := 0 to |rs|
      invariant text == text0 + Entries(sec, rs[..index], formatDateTime)
    {
      var record := rs[index];
      var date := formatDateTime(record.createdAt);
      var entry := NatToString(index + 1) + ". " + date + "\n";
      entry := entry + "   " + EntryTitle(sec, record) + "\n";
      entry := entry + "   " + EntryDetails(sec, record) + "\n";
      if HasNotes(record) {
        entry := entry + (NotesLabel + record.body.notes.value + "\n");
      }
      entry := entry + "\n";
      assert entry == Entry(sec, index + 1, record, formatDateTime);
      assert rs[..index + 1][..index] == rs[..index];
      Assoc(text0, Entries(sec, rs[..index], formatDateTime), entry);
      text := text + entry;
    }
    assert rs[..|rs|] == rs;
  }

  // ---------------------------------------------------------------------------------
  // Properties of the report text
  // ---------------------------------------------------------------------------------

  predicate EndsWith(s: string, suffix: string) {
    |suffix| <= |s| && s[|s| - |suffix|..] == suffix
  }

  /** The text opens with the title and the child's name and always closes with the footer. */
  lemma ReportFrame(records: seq<Record>, childName: string, startDate: Option<int>, endDate: Option<int>,
                    formatDate: int -> string, formatDateTime: int -> string)
    ensures var text := ReportText(records, childName, startDate, endDate, formatDate, formatDateTime);
      StartsWith(text, ReportTitle + ChildLabel + childName + "\n") && EndsWith(text, Footer)
  {
    Framed(HeaderText(childName, startDate, endDate, formatDate), TotalLine(|records|),
      SectionText(SymptomsSection, OfKind(records, Symptom), formatDateTime),
      SectionText(MedicationsSection, OfKind(records, Medication), formatDateTime), Footer);
    PrefixOfConcat(ReportTitle + ChildLabel + childName + "\n", DateLine(startDate, endDate, formatDate));
    PrefixTrans(ReportText(records, childName, startDate, endDate, formatDate, formatDateTime),
      HeaderText(childName, startDate, endDate, formatDate), ReportTitle + ChildLabel + childName + "\n");
  }

  /** A concatenation starts with its first part and ends with its last. */
  lemma Framed(a: string, b: string, c: string, d: string, e: string)
    ensures StartsWith(a + b + c + d + e, a) && EndsWith(a + b + c + d + e, e)
  {
    var s := a + b + c + d + e;
    assert s[..|a|] == a;
    assert s[|s| - |e|..] == e;
  }

  lemma PrefixTrans(a: string, b: string, c: string)
    requires StartsWith(a, b) && StartsWith(b, c)
    ensures StartsWith(a, c)
  {
    assert a[..|c|] == b[..|b|][..|c|];
  }

  lemma PrefixOfConcat(a: string, b: string)
    ensures StartsWith(a + b, a)
  {
    assert (a + b)[..|a|] == a;
  }

  /** The period line appears only with both dates, and the single-date line only with the start alone. */
  lemma DateLineCases(startDate: Option<int>, endDate: Option<int>, formatDate: int -> string)
    ensures var line := DateLine(startDate, endDate, formatDate);
      && (startDate.Some? && endDate.Some? <==> StartsWith(line, PeriodLabel))
      && (startDate.Some? && endDate.None? <==> StartsWith(line, DateLabel))
      && (startDate.None? <==> line == "")
  {
    var line := DateLine(startDate, endDate, formatDate);
    assert PeriodLabel[3] == 'P' && DateLabel[3] == 'D';
    if startDate.Some? && endDate.Some? {
      PrefixOfConcat(PeriodLabel, formatDate(startDate.value) + " a " + formatDate(endDate.value) + "\n");
      assert line == PeriodLabel + (formatDate(startDate.value) + " a " + formatDate(endDate.value) + "\n");
      assert line[3] == 'P';
    } else if startDate.Some? {
      PrefixOfConcat(DateLabel, formatDate(startDate.value) + "\n");
      assert line == DateLabel + (formatDate(startDate.value) + "\n");
      assert line[3] == 'D';
    }
  }

  /** A section is there exactly when its list is non-empty, and its head shows the count. */
  lemma SectionPresence(sec: Section, rs: seq<Record>, formatDateTime: int -> string)
    ensures SectionText(sec, rs, formatDateTime) == "" <==> |rs| == 0
    ensures |rs| > 0 ==> StartsWith(SectionText(sec, rs, formatDateTime), SectionHead(sec, |rs|))
  {
  }

  /**
   * Entries are numbered 1..n in list order: the entries of the first `k` records are
   * followed by the entry of record `k`, numbered `k + 1`.
   */
  lemma {:induction false} EntryNumbering(sec: Section, rs: seq<Record>, k: nat, formatDateTime: int -> string)
    requires k < |rs|
    ensures StartsWith(Entries(sec, rs, formatDateTime),
      Entries(sec, rs[..k], formatDateTime) + Entry(sec, k + 1, rs[k], formatDateTime))
  {
    var upto := rs[..k + 1];
    assert upto[..|upto| - 1] == rs[..k] && upto[|upto| - 1] == rs[k];
    assert Entries(sec, upto, formatDateTime)
      == Entries(sec, rs[..k], formatDateTime) + Entry(sec, k + 1, rs[k], formatDateTime);
    EntriesPrefix(sec, rs, k + 1, formatDateTime);
  }

  /** The entries of the first `m` records begin the entries of all of them. */
  lemma {:induction false} EntriesPrefix(sec: Section, rs: seq<Record>, m: nat, formatDateTime: int -> string)
    requires m <= |rs|
    ensures StartsWith(Entries(sec, rs, formatDateTime), Entries(sec, rs[..m], formatDateTime))
    decreases |rs|
  {
    if m == |rs| {
      assert rs[..m] == rs;
      var w := Entries(sec, rs, formatDateTime);
      assert w[..|w|] == w;
    } else {
      var init := rs[..|rs| - 1];
      EntriesPrefix(sec, init, m, formatDateTime);
      assert init[..m] == rs[..m];
      PrefixOfConcat(Entries(sec, init, formatDateTime), Entry(sec, |rs|, rs[|rs| - 1], formatDateTime));
      PrefixTrans(Entries(sec, rs, formatDateTime), Entries(sec, init, formatDateTime), Entries(sec, rs[..m], formatDateTime));
    }
  }

  /** Every entry starts with its number and date-time, and has a notes line exactly when the record has notes. */
  lemma EntryLayout(sec: Section, n: nat, r: Record, formatDateTime: int -> string)
    ensures StartsWith(Entry(sec, n, r, formatDateTime), NatToString(n) + ". " + formatDateTime(r.createdAt) + "\n")
    ensures NotesLine(r) != "" <==> HasNotes(r)
  {
  }

  /** A symptom shows its label when typed and its temperature when truthy. */
  lemma SymptomLines(r: Record)
    ensures r.body.symptomType.Some? ==> SymptomTitle(r) == SymptomLabel(r.body.symptomType.value)
    ensures r.body.symptomType.None? ==> SymptomTitle(r) == r.body.title
    ensures HasTemperature(r) ==> EndsWith(SymptomDetails(r), "°C")
    ensures !HasTemperature(r) ==> SymptomDetails(r) == r.body.details
  {
  }

  // ---------------------------------------------------------------------------------
  // E-mail subject and summary
  // ---------------------------------------------------------------------------------

  /** The e-mail subject: the child's name, and the period only when both dates are given. */
  function EmailSubject(childName: string, startDate: Option<int>, endDate: Option<int>, formatDate: int -> string): (s: string)
    ensures StartsWith(s, "Relatório BabyCare - " + childName)
    ensures startDate.None? || endDate.None? ==> s == "Relatório BabyCare - " + childName
  {
    var base := "Relatório BabyCare - " + childName;
    if startDate.Some? && endDate.Some? then
      base + " (" + formatDate(startDate.value) + " a " + formatDate(endDate.value) + ")"
    else base
  }

  predicate IsFeverSymptom(r: Record) {
    r.body.symptomType == Some(Febre)
  }

  /** The fever records among the symptoms. */
  function Fevers(records: seq<Record>): (fs: seq<Record>)
    ensures forall r :: r in fs <==> r in records && r.body.kind == Symptom && r.body.symptomType == Some(Febre)
  {
    Filter(OfKind(records, Symptom), IsFeverSymptom)
  }

  /** The sum of the fever temperatures, absent ones counting as 0. */
  function FeverSum(fs: seq<Record>): int {
    if fs == [] then 0 else FeverSum(fs[..|fs| - 1]) + fs[|fs| - 1].body.temperature.GetOr(0)
  }

  /**
   * `generateReportSummary`: the three counts, then the fever block when there is a fever.
   * The mean's `toFixed(1)` text is a parameter of the sum and the count.
   */
  function ReportSummary(records: seq<Record>, formatMean: (int, nat) -> string): string {
    SummaryCounts(records) + FeverBlock(Fevers(records), formatMean)
  }

  /** The heading and the three counts of the summary. */
  function SummaryCounts(records: seq<Record>): string {
    "📊 *Resumo*\n\n"
      + "Total: " + NatToString(|records|) + " registros\n"
      + "Sintomas: " + NatToString(|OfKind(records, Symptom)|) + "\n"
      + "Medicações: " + NatToString(|OfKind(records, Medication)|) + "\n"
  }

  /** The fever count and the mean temperature, when there is a fever. */
  function FeverBlock(fevers: seq<Record>, formatMean: (int, nat) -> string): string {
    if |fevers| > 0 then
      "\n🌡️ Febres: " + NatToString(|fevers|) + "\n"
        + "Temperatura média: " + formatMean(FeverSum(fevers), |fevers|) + "°C\n"
    else ""
  }

  lemma EndsWithConcat(a: string, b: string, suffix: string)
    requires EndsWith(b, suffix)
    ensures EndsWith(a + b, suffix)
  {
    assert (a + b)[|a + b| - |suffix|..] == b[|b| - |suffix|..];
  }

  /** A text whose last line ends with a digit does not end with "°C". */
  lemma DigitLineNotCelsius(a: string, m: string)
    requires |m| > 0 && AllDigits(m)
    ensures !EndsWith(a + m + "\n", "°C\n")
  {
    var t := a + m + "\n";
    assert t[|t| - 2] == m[|m| - 1];
    assert IsDigit(m[|m| - 1]);
  }

  /** The summary's counts add up, and the fever block is there exactly when some symptom is a fever. */
  lemma SummaryMeaning(records: seq<Record>, formatMean: (int, nat) -> string)
    ensures |OfKind(records, Symptom)| + |OfKind(records, Medication)| == |records|
    ensures EndsWith(ReportSummary(records, formatMean), "°C\n") <==>
      exists r :: r in records && r.body.kind == Symptom && r.body.symptomType == Some(Febre)
  {
    OfKindSplit(records);
    var fevers := Fevers(records);
    var counts := SummaryCounts(records);
    if |fevers| > 0 {
      assert fevers[0] in fevers;
      var m := "\n🌡️ Febres: " + NatToString(|fevers|) + "\n" + "Temperatura média: " + formatMean(FeverSum(fevers), |fevers|);
      PrefixOfConcat(m, "°C\n");
      assert EndsWith(m + "°C\n", "°C\n") by {
        var b := m + "°C\n";
        assert b[|b| - 3..] == "°C\n";
      }
      EndsWithConcat(counts, FeverBlock(fevers, formatMean), "°C\n");
    } else {
      var m := NatToString(|OfKind(records, Medication)|);
      DigitLineNotCelsius("📊 *Resumo*\n\n"
        + "Total: " + NatToString(|records|) + " registros\n"
        + "Sintomas: " + NatToString(|OfKind(records, Symptom)|) + "\n"
        + "Medicações: ", m);
      assert ReportSummary(records, formatMean) == counts;
    }
  }

}

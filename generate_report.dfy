/**
 * The report generator: which records a report of each kind lists, the texts of the PDF
 * summary and child box, and the CSV export: an RFC 4180-style format with the field
 * quoting of section 2, but with LF line ends and no quoting of a carriage return. The
 * reader below, for that LF-only variant, recovers every field.
 */
module GenerateReport {
  import opened Wrappers
  import opened Text
  import opened Lists
  import opened RecordTypes

  datatype ReportType = All | MedicalReport | SymptomsReport | MedicationsReport | IncidentReport

  datatype Partition = Partition(symptoms: seq<Record>, medications: seq<Record>)

  // ---------------------------------------------------------------------------------
  // Which records a report lists
  // ---------------------------------------------------------------------------------

  predicate KeepsSymptoms(rt: ReportType) {
    rt != MedicationsReport
  }

  predicate KeepsMedications(rt: ReportType) {
    rt != SymptomsReport
  }

  /** The symptoms and the medications of the report, each in input order. */
  function PartitionRecords(records: seq<Record>, rt: ReportType): (p: Partition)
    ensures rt in {All, MedicalReport, IncidentReport} ==>
      p == Partition(OfKind(records, Symptom), OfKind(records, Medication))
    ensures rt == SymptomsReport ==> p == Partition(OfKind(records, Symptom), [])
    ensures rt == MedicationsReport ==> p == Partition([], OfKind(records, Medication))
  {
    if rt == All || rt == MedicalReport || rt == IncidentReport then
      Partition(OfKind(records, Symptom), OfKind(records, Medication))
    else if rt == SymptomsReport then
      Partition(OfKind(records, Symptom), [])
    else
      Partition([], OfKind(records, Medication))
  }

  /**
   * A section lists exactly the records of its kind when the report shows that section,
   * and nothing otherwise; together the two lists never hold more than the input.
   */
  lemma PartitionMeaning(records: seq<Record>, rt: ReportType)
    ensures var p := PartitionRecords(records, rt);
      && (forall r :: r in p.symptoms <==> KeepsSymptoms(rt) && r in records && r.body.kind == Symptom)
      && (forall r :: r in p.medications <==> KeepsMedications(rt) && r in records && r.body.kind == Medication)
      && |p.symptoms| + |p.medications| <= |records|
      && (KeepsSymptoms(rt) && KeepsMedications(rt) ==> |p.symptoms| + |p.medications| == |records|)
  {
    OfKindSplit(records);
  }

  // ---------------------------------------------------------------------------------
  // Peak temperature and the summary box
  // ---------------------------------------------------------------------------------

  /** The temperatures of the symptoms whose temperature is truthy, in order. */
  function Temperatures(symptoms: seq<Record>): (ts: seq<int>)
    ensures forall t :: t in ts <==> exists r :: r in symptoms && HasTemperature(r) && r.body.temperature.value == t
  {
    if symptoms == [] then []
    else
      var rest := Temperatures(symptoms[1..]);
      assert forall r :: r in symptoms <==> r == symptoms[0] || r in symptoms[1..];
      if HasTemperature(symptoms[0]) then [symptoms[0].body.temperature.value] + rest else rest
  }

  function Max(ts: seq<int>): (m: int)
    requires |ts| > 0
    ensures m in ts && forall t :: t in ts ==> t <= m
  {
    if |ts| == 1 then ts[0]
    else
      var m := Max(ts[1..]);
      assert forall t :: t in ts ==> t == ts[0] || t in ts[1..];
      if ts[0] > m then ts[0] else m
  }

  /** `Math.max(...temperatures)`, or `null` when no symptom has a truthy temperature. */
  function PeakTemp(symptoms: seq<Record>): (p: Option<int>)
    ensures p.None? <==> forall r :: r in symptoms ==> !HasTemperature(r)
    ensures p.Some? ==> p.value != 0
    ensures p.Some? ==> (exists r :: r in symptoms && HasTemperature(r) && r.body.temperature.value == p.value)
    ensures p.Some? ==> forall r :: r in symptoms && HasTemperature(r) ==> r.body.temperature.value <= p.value
  {
    var ts := Temperatures(symptoms);
    if |ts| > 0 then
      var m := Max(ts);
      assert forall r :: r in symptoms && HasTemperature(r) ==> r.body.temperature.value in ts;
      Some(m)
    else
      assert forall r :: r in symptoms && HasTemperature(r) ==> r.body.temperature.value in ts;
      None
  }

  /** The fever mark of the medical summary: 37.8 °C. */
  const FebrileTenths: int := 378

  function PeakSuffix(rt: ReportType, peak: Option<int>): string {
    if peak.None? then ""
    else if rt == MedicalReport then
      " Temperatura máxima registrada: " + Fixed1(peak.value) + "°C"
        + (if peak.value >= FebrileTenths then " (estado febril)" else "")
    else " Pico de temperatura: " + Fixed1(peak.value) + "°C"
  }

  /** The summary text of the PDF's summary box. */
  function SummaryText(rt: ReportType, p: Partition): string {
    var s, m := |p.symptoms|, |p.medications|;
    var head :=
      if rt == MedicalReport then
        "Período de observação: " + NatToString(m) + " administrações medicamentosas e "
          + NatToString(s) + " manifestações sintomáticas."
      else
        "Foram registrados " + NatToString(m) + " medicações e " + NatToString(s)
          + " sintoma" + (if s != 1 then "s" else "") + ".";
    head + PeakSuffix(rt, PeakTemp(p.symptoms))
  }

  predicate EndsWith(s: string, suffix: string) {
    |suffix| <= |s| && s[|s| - |suffix|..] == suffix
  }

  /**
   * The summary ends with the fever remark exactly for a medical report whose peak
   * temperature is at least 37.8 °C.
   */
  lemma FebrileRemark(rt: ReportType, p: Partition)
    ensures var peak := PeakTemp(p.symptoms);
      EndsWith(SummaryText(rt, p), " (estado febril)") <==>
        rt == MedicalReport && peak.Some? && peak.value >= FebrileTenths
  {
    var text := SummaryText(rt, p);
    var peak := PeakTemp(p.symptoms);
    if rt == MedicalReport && peak.Some? && peak.value >= FebrileTenths {
      var pre := "Período de observação: " + NatToString(|p.medications|) + " administrações medicamentosas e "
          + NatToString(|p.symptoms|) + " manifestações sintomáticas." + " Temperatura máxima registrada: "
          + Fixed1(peak.value) + "°C";
      assert text == pre + " (estado febril)";
    } else {
      assert text[|text| - 1] != ')';
    }
  }

  /** Outside a medical report the summary counts both kinds and says "sintoma" only for exactly one. */
  lemma SymptomPlural(rt: ReportType, p: Partition)
    requires rt != MedicalReport
    ensures var s := |p.symptoms|;
      StartsWith(SummaryText(rt, p),
        "Foram registrados " + NatToString(|p.medications|) + " medicações e " + NatToString(s)
          + (if s == 1 then " sintoma." else " sintomas."))
  {
  }

  // ---------------------------------------------------------------------------------
  // Child box and table cells
  // ---------------------------------------------------------------------------------

  /** A text cut to `n` characters and marked with "..." when it is longer than `n`. */
  function Truncate(s: string, n: nat): (r: string)
    ensures |s| <= n ==> r == s
    ensures |s| > n ==> |r| == n + 3 && r[..n] == s[..n] && r[n..] == "..."
  {
    if |s| > n then s[..n] + "..." else s
  }

  /** The `||` fallback of a nullable text: absent and empty both give `default`. */
  function OrDefault(s: Option<string>, default: string): string {
    if s.Some? && s.value != "" then s.value else default
  }

  function AllergiesText(c: Child): string {
    Truncate(OrDefault(c.allergies, "Não informado"), 60)
  }

  function ConditionsText(c: Child): string {
    Truncate(OrDefault(c.medicalConditions, "Não informado"), 50)
  }

  /** The notes cell of a table row: the first 60 characters, "..." when cut; nothing without notes. */
  function NotesCell(r: Record): (cell: Option<string>)
    ensures cell.None? <==> !HasNotes(r)
    ensures cell.Some? ==> cell.value == Truncate(r.body.notes.value, 60)
  {
    if HasNotes(r) then
      var n := r.body.notes.value;
      Some(n[..if |n| < 60 then |n| else 60] + (if |n| > 60 then "..." else ""))
    else None
  }

  /** The child box's texts are never longer than their limit plus the three dots, and short ones are intact. */
  lemma ChildBoxBounds(c: Child)
    ensures |AllergiesText(c)| <= 63 && |ConditionsText(c)| <= 53
    ensures c.allergies.Some? && 0 < |c.allergies.value| <= 60 ==> AllergiesText(c) == c.allergies.value
    ensures c.medicalConditions.Some? && 0 < |c.medicalConditions.value| <= 50 ==>
      ConditionsText(c) == c.medicalConditions.value
  {
  }

  /** The details cell: the formatted temperature when it is truthy, else the details text. */
  function DetailsCell(r: Record, formatTemperature: int -> string): string {
    if HasTemperature(r) then formatTemperature(r.body.temperature.value) else r.body.details
  }

  // ---------------------------------------------------------------------------------
  // Age
  // ---------------------------------------------------------------------------------

  function Months(n: int): string {
    if n == 1 then "mês" else "meses"
  }

  /**
   * The age text of the child box, from the calendar year and month of the birth date and
   * of today; the day of the month is not taken into account.
   */
  function CalculateAge(birth: Option<CalendarDate>, today: CalendarDate): string {
    if birth.None? then "Não informado"
    else
      var years := today.year - birth.value.year;
      var months := today.month - birth.value.month;
      if years < 1 then
        var total := months + years * 12;
        if total == 1 then "1 mês" else IntToString(total) + " meses"
      else if years == 1 && months == 0 then "1 ano"
      else if years == 1 then "1 ano e " + IntToString(months) + " " + Months(months)
      else if months == 0 then IntToString(years) + " anos"
      else IntToString(years) + " anos e " + IntToString(months) + " " + Months(months)
  }

  /**
   * Under one calendar year of difference the age is a number of months ("1 mês" for exactly
   * one); one year and no months is "1 ano"; otherwise the text starts with the years.
   */
  lemma AgeCases(birth: CalendarDate, today: CalendarDate)
    ensures var years, months := today.year - birth.year, today.month - birth.month;
      var total := months + years * 12;
      var age := CalculateAge(Some(birth), today);
      && (years < 1 && total == 1 ==> age == "1 mês")
      && (years < 1 && total != 1 ==> age == IntToString(total) + " meses")
      && (years == 1 && months == 0 ==> age == "1 ano")
      && (years == 1 && months != 0 ==> StartsWith(age, "1 ano e "))
      && (years >= 2 ==> StartsWith(age, IntToString(years) + " anos"))
  {
  }

  // ---------------------------------------------------------------------------------
  // File names
  // ---------------------------------------------------------------------------------

  /** The name in lower case with every run of white space replaced by one '-' (`/\s+/g`). */
  function Slug(s: string): (r: string)
    ensures forall i :: 0 <= i < |r| ==> !IsWhitespace(r[i])
    ensures |r| <= |s|
    decreases |s|
  {
    if s == [] then []
    else if IsWhitespace(s[0]) then
      var n := WhitespaceRun(s);
      "-" + Slug(s[n..])
    else [ToLowerChar(s[0])] + Slug(s[1..])
  }

  /** The length of the run of white space that starts `s`. */
  function WhitespaceRun(s: string): (n: nat)
    requires s != [] && IsWhitespace(s[0])
    ensures 1 <= n <= |s| && (n < |s| ==> !IsWhitespace(s[n]))
    ensures forall k :: 0 <= k < n ==> IsWhitespace(s[k])
  {
    if |s| > 1 && IsWhitespace(s[1]) then 1 + WhitespaceRun(s[1..]) else 1
  }

  /** A name without white space is only lowered. */
  lemma {:induction false} SlugLowers(s: string)
    requires forall i :: 0 <= i < |s| ==> !IsWhitespace(s[i])
    ensures Slug(s) == ToLower(s)
  {
    if s != [] {
      SlugLowers(s[1..]);
    }
  }

  lemma {:induction false} ToLowerKeepsNonWhitespace(s: string)
    requires forall i :: 0 <= i < |s| ==> !IsWhitespace(s[i])
    ensures forall i :: 0 <= i < |s| ==> ToLower(s)[i] == ToLowerChar(s[i])
  {
  }

  /** Slugging a slug changes nothing. */
  lemma SlugIdempotent(s: string)
    ensures Slug(Slug(s)) == Slug(s)
  {
    var r := Slug(s);
    SlugLowers(r);
    SlugIsLower(s);
  }

  /** A slug has no upper-case ASCII letter, so lowering it is the identity. */
  lemma {:induction false} SlugIsLower(s: string)
    ensures ToLower(Slug(s)) == Slug(s)
    decreases |s|
  {
    if s != [] {
      if IsWhitespace(s[0]) {
        SlugIsLower(s[WhitespaceRun(s)..]);
      } else {
        SlugIsLower(s[1..]);
      }
    }
  }

  /** `cubbi-<slug>-<date>.pdf`, with the date (`YYYY-MM-DD`) as a parameter. */
  function PdfFileName(childName: Option<string>, isoDate: string): string {
    "cubbi-" + Slug(childName.GetOr("Criança")) + "-" + isoDate + ".pdf"
  }

  function CsvFileName(isoDate: string): string {
    "cubbi-" + isoDate + ".csv"
  }

  // ---------------------------------------------------------------------------------
  // CSV
  // ---------------------------------------------------------------------------------

  const CsvHeader: seq<string> := ["Data/Hora", "Tipo", "Título", "Detalhes", "Observações"]

  predicate NeedsQuoting(f: string) {
    ',' in f || '"' in f || '\n' in f
  }

  /** `field.replace(/"/g, '""')`. */
  function DoubleQuotes(f: string): string {
    if f == [] then [] else (if f[0] == '"' then "\"\"" else [f[0]]) + DoubleQuotes(f[1..])
  }

  /** A field that contains a comma, a double quote or a newline is quoted, with its quotes doubled. */
  function EscapeField(f: string): (r: string)
    ensures !NeedsQuoting(f) ==> r == f
  {
    if NeedsQuoting(f) then "\"" + DoubleQuotes(f) + "\"" else f
  }

  /** One line of the CSV: the escaped fields joined by commas, then a newline. */
  function CsvLine(fields: seq<string>): string
    requires |fields| >= 1
  {
    Join(Map(fields, EscapeField), ',') + "\n"
  }

  /** The lines of several rows, one after another. */
  predicate NoEmptyRow(rows: seq<seq<string>>) {
    forall k :: 0 <= k < |rows| ==> |rows[k]| >= 1
  }

  function CsvLines(rows: seq<seq<string>>): string
    requires NoEmptyRow(rows)
  {
    if rows == [] then "" else CsvLines(rows[..|rows| - 1]) + CsvLine(rows[|rows| - 1])
  }

  /** The five fields of a record's row, with the date and temperature formatters as parameters. */
  function CsvFields(r: Record, formatDateTime: int -> string, formatTemperature: int -> string): (fs: seq<string>)
    ensures |fs| == 5
  {
    [formatDateTime(r.createdAt),
     if r.body.kind == Symptom then "Sintoma" else "Medicação",
     r.body.title,
     DetailsCell(r, formatTemperature),
     OrDefault(r.body.notes, "")]
  }

  function CsvRows(records: seq<Record>, formatDateTime: int -> string, formatTemperature: int -> string): (rows: seq<seq<string>>)
    ensures |rows| == |records|
    ensures forall k :: 0 <= k < |records| ==> rows[k] == CsvFields(records[k], formatDateTime, formatTemperature)
  {
    if records == [] then []
    else [CsvFields(records[0], formatDateTime, formatTemperature)] + CsvRows(records[1..], formatDateTime, formatTemperature)
  }

  /** The header row, then one five-field row per record, in input order. */
  function CsvTable(records: seq<Record>, formatDateTime: int -> string, formatTemperature: int -> string): (t: seq<seq<string>>)
    ensures NoEmptyRow(t) && |t| == |records| + 1 && t[0] == CsvHeader
    ensures forall k :: 0 <= k < |records| ==> t[k + 1] == CsvFields(records[k], formatDateTime, formatTemperature)
  {
    [CsvHeader] + CsvRows(records, formatDateTime, formatTemperature)
  }

  /**
   * `generateCSVReport`'s text: the header line, then one line per record in input order.
   * Reading it back with the LF-only reader below gives the header and exactly those rows.
   */
  method GenerateCsv(records: seq<Record>, formatDateTime: int -> string, formatTemperature: int -> string)
    returns (csv: string)
    ensures NoEmptyRow(CsvTable(records, formatDateTime, formatTemperature))
    ensures csv == CsvLines(CsvTable(records, formatDateTime, formatTemperature))
    ensures ReadRows(csv) == CsvTable(records, formatDateTime, formatTemperature)
  {
    ghost var all := CsvTable(records, formatDateTime, formatTemperature);
    csv := "Data/Hora,Tipo,Título,Detalhes,Observações\n";
    HeaderLine();
    LinesPrefix(all, 0);
    for i := 0 to |records|
      invariant NoEmptyRow(all[..i + 1]) && csv == CsvLines(all[..i + 1])
    {
      var row := [formatDateTime(records[i].createdAt),
                  if records[i].body.kind == Symptom then "Sintoma" else "Medicação",
                  records[i].body.title,
                  if HasTemperature(records[i]) then formatTemperature(records[i].body.temperature.value)
                  else records[i].body.details,
                  OrDefault(records[i].body.notes, "")];
      assert row == all[i + 1];
      var escaped := EscapeRow(row);
      AppendLine(all, i + 1, csv, escaped);
      csv := csv + Join(escaped, ',') + "\n";
    }
    assert all[..|records| + 1] == all;
    ReadRowsLines(all);
    assert ReadRows(csv) == all;
  }

  lemma AppendLine(all: seq<seq<string>>, i: nat, prev: string, escaped: seq<string>)
    requires NoEmptyRow(all) && 0 < i < |all|
    requires NoEmptyRow(all[..i]) && prev == CsvLines(all[..i]) && escaped == Map(all[i], EscapeField)
    ensures NoEmptyRow(all[..i + 1]) && prev + Join(escaped, ',') + "\n" == CsvLines(all[..i + 1])
  {
    LinesPrefix(all, i);
  }

  /** The lines of the first `i + 1` rows are those of the first `i` rows followed by row `i`. */
  lemma LinesPrefix(all: seq<seq<string>>, i: nat)
    requires NoEmptyRow(all) && i < |all|
    ensures NoEmptyRow(all[..i + 1])
    ensures CsvLines(all[..i + 1]) == (if i == 0 then "" else CsvLines(all[..i])) + CsvLine(all[i])
  {
    assert all[..i + 1][..i] == all[..i];
  }

  /** `row.map(escape)`. */
  method EscapeRow(row: seq<string>) returns (escaped: seq<string>)
    ensures escaped == Map(row, EscapeField)
  {
    escaped := [];
    for i := 0 to |row|
      invariant escaped == Map(row[..i], EscapeField)
    {
      escaped := escaped + [EscapeField(row[i])];
    }
    assert row[..|row|] == row;
  }

  /** The header literal is the header row's line. */
  lemma HeaderLine()
    ensures CsvLine(CsvHeader) == "Data/Hora,Tipo,Título,Detalhes,Observações\n"
  {
    HeaderPlain();
    HeaderJoin();
  }

  lemma HeaderPlain()
    ensures Map(CsvHeader, EscapeField) == CsvHeader
  {
    assert !NeedsQuoting(CsvHeader[0]) && !NeedsQuoting(CsvHeader[1]) && !NeedsQuoting(CsvHeader[2]);
    assert !NeedsQuoting(CsvHeader[3]) && !NeedsQuoting(CsvHeader[4]);
    PlainFields(CsvHeader);
  }

  lemma HeaderJoin()
    ensures Join(CsvHeader, ',') == "Data/Hora,Tipo,Título,Detalhes,Observações"
  {
    var j4 := Join(["Observações"], ',');
    var j3 := Join(["Detalhes", "Observações"], ',');
    var j2 := Join(["Título", "Detalhes", "Observações"], ',');
    var j1 := Join(["Tipo", "Título", "Detalhes", "Observações"], ',');
    assert ["Detalhes", "Observações"][1..] == ["Observações"];
    assert ["Título", "Detalhes", "Observações"][1..] == ["Detalhes", "Observações"];
    assert ["Tipo", "Título", "Detalhes", "Observações"][1..] == ["Título", "Detalhes", "Observações"];
    assert CsvHeader[1..] == ["Tipo", "Título", "Detalhes", "Observações"];
  }

  /** Fields that need no quoting are written as they are. */
  lemma {:induction false} PlainFields(fs: seq<string>)
    requires forall k :: 0 <= k < |fs| ==> !NeedsQuoting(fs[k])
    ensures Map(fs, EscapeField) == fs
  {
  }

  // ---------------------------------------------------------------------------------
  // Reading CSV back (RFC 4180-style quoting, LF line ends), the partner of the writer above
  // ---------------------------------------------------------------------------------

  /** An unquoted field: everything up to a comma, a newline or the end. */
  function ReadPlain(s: string): (p: (string, string))
    ensures |p.1| <= |s|
  {
    if s == [] || s[0] == ',' || s[0] == '\n' then ("", s)
    else
      var q := ReadPlain(s[1..]);
      ([s[0]] + q.0, q.1)
  }

  /** The inside of a quoted field, after its opening quote: a doubled quote is one quote, a single quote ends it. */
  function ReadQuoted(s: string): (p: (string, string))
    ensures |p.1| <= |s|
  {
    if s == [] then ("", [])
    else if s[0] == '"' then
      if |s| >= 2 && s[1] == '"' then
        var q := ReadQuoted(s[2..]);
        ("\"" + q.0, q.1)
      else ("", s[1..])
    else
      var q := ReadQuoted(s[1..]);
      ([s[0]] + q.0, q.1)
  }

  function ReadField(s: string): (p: (string, string))
    ensures |p.1| <= |s|
    ensures s != [] && s[0] == '"' ==> |p.1| < |s|
  {
    if s != [] && s[0] == '"' then ReadQuoted(s[1..]) else ReadPlain(s)
  }

  /** One record: fields separated by commas, up to a newline (consumed) or the end of the text. */
  function ReadRow(s: string): (p: (seq<string>, string))
    ensures |p.0| >= 1 && |p.1| <= |s|
    decreases |s|
  {
    var (f, rest) := ReadField(s);
    if rest != [] && rest[0] == ',' then
      var (fs, after) := ReadRow(rest[1..]);
      ([f] + fs, after)
    else if rest != [] && rest[0] == '\n' then ([f], rest[1..])
    else ([f], rest)
  }

  /** All records of a text. */
  function ReadRows(s: string): seq<seq<string>>
    decreases |s|
  {
    if s == [] then []
    else
      var (row, rest) := ReadRow(s);
      if |rest| < |s| then [row] + ReadRows(rest) else [row]
  }

  predicate FieldEnd(t: string) {
    t == [] || t[0] == ',' || t[0] == '\n'
  }

  lemma {:induction false} ReadPlainField(f: string, t: string)
    requires !NeedsQuoting(f) && FieldEnd(t)
    ensures ReadPlain(f + t) == (f, t)
  {
    if f != [] {
      assert (f + t)[1..] == f[1..] + t;
      assert f[0] in f;
      assert forall c :: c in f[1..] ==> c in f;
      ReadPlainField(f[1..], t);
      assert f == [f[0]] + f[1..];
    } else {
      assert f + t == t;
    }
  }

  lemma {:induction false} ReadQuotedField(f: string, t: string)
    requires t == [] || t[0] != '"'
    ensures ReadQuoted(DoubleQuotes(f) + "\"" + t) == (f, t)
  {
    if f == [] {
      assert DoubleQuotes(f) + "\"" + t == "\"" + t;
      assert ("\"" + t)[1..] == t;
    } else {
      var u := DoubleQuotes(f[1..]) + "\"" + t;
      ReadQuotedField(f[1..], t);
      var head := if f[0] == '"' then "\"\"" else [f[0]];
      assert DoubleQuotes(f) + "\"" + t == head + u;
      ReadQuotedStep(f[0], u);
      assert f == [f[0]] + f[1..];
    }
  }

  /** One character of a field, written with its quote doubled, is read back before the rest. */
  lemma ReadQuotedStep(c: char, u: string)
    ensures var head := if c == '"' then "\"\"" else [c];
      ReadQuoted(head + u) == ([c] + ReadQuoted(u).0, ReadQuoted(u).1)
  {
    if c == '"' {
      assert ("\"\"" + u)[2..] == u;
    } else {
      assert ([c] + u)[1..] == u;
    }
  }

  /** Reading an escaped field gives the field back and stops at the separator after it. */
  lemma ReadEscapedField(f: string, t: string)
    requires FieldEnd(t)
    ensures ReadField(EscapeField(f) + t) == (f, t)
  {
    if NeedsQuoting(f) {
      var s := EscapeField(f) + t;
      assert s == "\"" + (DoubleQuotes(f) + "\"" + t);
      assert s[1..] == DoubleQuotes(f) + "\"" + t;
      ReadQuotedField(f, t);
    } else {
      ReadPlainField(f, t);
      if f == [] {
        assert EscapeField(f) + t == t;
      } else {
        assert f[0] in f;
      }
    }
  }

  /** Reading a line written by `CsvLine` gives its fields back and stops after its newline. */
  lemma {:induction false} ReadRowLine(fields: seq<string>, t: string)
    requires |fields| >= 1
    ensures ReadRow(CsvLine(fields) + t) == (fields, t)
    decreases |fields|
  {
    var m := Map(fields, EscapeField);
    if |fields| == 1 {
      assert Join(m, ',') == EscapeField(fields[0]);
      assert CsvLine(fields) + t == EscapeField(fields[0]) + ("\n" + t);
      ReadRowField(fields[0], '\n', t);
      assert fields == [fields[0]];
    } else {
      var tail := fields[1..];
      assert Map(tail, EscapeField) == m[1..];
      var rest := CsvLine(tail) + t;
      assert CsvLine(fields) + t == EscapeField(fields[0]) + ("," + rest);
      ReadRowField(fields[0], ',', rest);
      ReadRowLine(tail, t);
      assert fields == [fields[0]] + tail;
    }
  }

  /** An escaped field and a separator: a newline ends the row, a comma goes on with the next field. */
  lemma ReadRowField(f: string, sep: char, rest: string)
    requires sep == ',' || sep == '\n'
    ensures sep == '\n' ==> ReadRow(EscapeField(f) + ([sep] + rest)) == ([f], rest)
    ensures sep == ',' ==>
      ReadRow(EscapeField(f) + ([sep] + rest)) == ([f] + ReadRow(rest).0, ReadRow(rest).1)
  {
    ReadEscapedField(f, [sep] + rest);
    assert ([sep] + rest)[1..] == rest;
  }

  lemma {:induction false} CsvLinesFront(rows: seq<seq<string>>)
    requires |rows| >= 1 && NoEmptyRow(rows)
    ensures NoEmptyRow(rows[1..])
    ensures CsvLines(rows) == CsvLine(rows[0]) + CsvLines(rows[1..])
  {
    if |rows| > 1 {
      var init := rows[..|rows| - 1];
      CsvLinesFront(init);
      assert init[1..] == rows[1..][..|rows[1..]| - 1];
      assert init[0] == rows[0];
    }
  }

  /** Every text written by `CsvLines` reads back as exactly its rows. */
  lemma {:induction false} ReadRowsLines(rows: seq<seq<string>>)
    requires NoEmptyRow(rows)
    ensures ReadRows(CsvLines(rows)) == rows
    decreases |rows|
  {
    if rows != [] {
      CsvLinesFront(rows);
      var rest := CsvLines(rows[1..]);
      ReadRowLine(rows[0], rest);
      ReadRowsLines(rows[1..]);
      assert rows == [rows[0]] + rows[1..];
    }
  }

  /** Every line of the export has five fields, so every record's row does too. */
  lemma CsvRowShape(records: seq<Record>, formatDateTime: int -> string, formatTemperature: int -> string)
    ensures var rows := CsvRows(records, formatDateTime, formatTemperature);
      forall k :: 0 <= k < |rows| ==> (
        && |rows[k]| == 5
        && rows[k][1] == (if records[k].body.kind == Symptom then "Sintoma" else "Medicação")
        && rows[k][3] == (if HasTemperature(records[k]) then formatTemperature(records[k].body.temperature.value) else records[k].body.details)
        && (rows[k][4] == "" <==> !HasNotes(records[k])))
  {
  }
}

/**
 * The rule engine that turns a child's records into insights: seven independent rules, each
 * of which yields at most one insight, then ordered by priority, plus weekly statistics.
 * The clock is the parameter `now`; the fever threshold and the fever test belong to the
 * shared record definitions and are the parameter `rule`.
 */
module IntelligentAnalysis {
  import opened Wrappers
  import opened Text
  import opened Time
  import opened Sorting
  import opened Lists
  import opened RecordTypes
  import opened ConsecutiveDays
  import opened SymptomTally

  datatype InsightType = Alert | Info | Success | Warning

  /** `priority` runs from 1 to 5, 5 being the most important. */
  datatype Insight = Insight(
    id: string, kind: InsightType, title: string, description: string, icon: string, priority: int)

  /** Temperatures in tenths of a degree; the average is exact here (see the README). */
  datatype Statistics = Statistics(
    totalRecords: nat,
    symptomsThisWeek: nat,
    medicationsThisWeek: nat,
    averageTemperature: Option<real>,
    daysWithFever: nat)

  datatype AnalysisResult = AnalysisResult(insights: seq<Insight>, statistics: Statistics)

  /** `FEVER_THRESHOLD` (in tenths) and `isFever`. */
  datatype FeverRule = FeverRule(threshold: int, isFever: int -> bool)

  function CreatedAt(r: Record): int {
    r.createdAt
  }

  function InsightPriority(i: Insight): int {
    i.priority
  }

  /** `childName || 'A criança'`. */
  function NameOr(childName: Option<string>): string {
    if childName.Some? && childName.value != "" then childName.value else "A criança"
  }

  /** Records created after the instant one week before `now`. */
  function Recent(records: seq<Record>, now: int): (r: seq<Record>)
    ensures forall x :: x in r <==> x in records && x.createdAt > now - WeekMs
  {
    Filter(records, (x: Record) => x.createdAt > now - WeekMs)
  }

  // ---- 1. Fever on consecutive days -------------------------------------------------------

  /** `r.temperature && isFever(r.temperature)`: a reading of 0 does not count. */
  predicate IsFeverRecord(rule: FeverRule, r: Record) {
    HasTemperature(r) && rule.isFever(r.body.temperature.value)
  }

  function FeverRecords(rule: FeverRule, records: seq<Record>): (r: seq<Record>)
    ensures forall x :: x in r <==> x in records && IsFeverRecord(rule, x)
  {
    Filter(records, (x: Record) => IsFeverRecord(rule, x))
  }

  function FeverTimes(rule: FeverRule, records: seq<Record>): seq<int> {
    Map(FeverRecords(rule, records), CreatedAt)
  }

  /** The days on which a fever was recorded. */
  function FeverDays(rule: FeverRule, records: seq<Record>): set<int> {
    DaySet(DaysOf(FeverTimes(rule, records)))
  }

  /** A day has a fever exactly when some fever record was created on it. */
  lemma FeverDaysMembers(rule: FeverRule, records: seq<Record>)
    ensures forall d :: d in FeverDays(rule, records) <==>
      exists r :: r in records && IsFeverRecord(rule, r) && DayOf(r.createdAt) == d
  {
    var fs := FeverRecords(rule, records);
    var days := DaysOf(FeverTimes(rule, records));
    forall d
      ensures d in FeverDays(rule, records) <==>
        exists r :: r in records && IsFeverRecord(rule, r) && DayOf(r.createdAt) == d
    {
      if d in FeverDays(rule, records) {
        var i :| 0 <= i < |days| && days[i] == d;
        assert fs[i] in fs;
      }
      if exists r :: r in records && IsFeverRecord(rule, r) && DayOf(r.createdAt) == d {
        var r :| r in records && IsFeverRecord(rule, r) && DayOf(r.createdAt) == d;
        var i :| 0 <= i < |fs| && fs[i] == r;
        assert days[i] == d;
      }
    }
  }

  /** Lists with the same elements have the same fever days. */
  lemma FeverDaysSameElements(rule: FeverRule, a: seq<Record>, b: seq<Record>)
    requires forall x :: x in a <==> x in b
    ensures FeverDays(rule, a) == FeverDays(rule, b)
  {
    FeverDaysMembers(rule, a);
    FeverDaysMembers(rule, b);
  }

  /**
   * `countDaysWithFever`: the number of distinct days with a fever record; 0 exactly when
   * there is no fever record, and never more than there are fever records.
   */
  function CountDaysWithFever(rule: FeverRule, records: seq<Record>): (n: nat)
    ensures n == 0 <==> forall r :: r in records ==> !IsFeverRecord(rule, r)
    ensures n <= |FeverRecords(rule, records)|
  {
    FeverDaysMembers(rule, records);
    SetOfSeqBound(DaysOf(FeverTimes(rule, records)));
    var D := FeverDays(rule, records);
    if exists r :: r in records && IsFeverRecord(rule, r) then
      var r :| r in records && IsFeverRecord(rule, r);
      assert DayOf(r.createdAt) in D;
      |D|
    else
      assert D == {};
      |D|
  }

  /**
   * The fever insight for a longest run of `consecutive` days and `size` fever days: the
   * alert from two consecutive days on, else the warning from three days on.
   */
  function FeverInsight(rule: FeverRule, consecutive: nat, size: nat): (o: Option<Insight>)
    ensures o.Some? <==> consecutive >= 2 || size >= 3
    ensures o.Some? ==> (o.value.id == "fever-consecutive" <==> consecutive >= 2)
    ensures o.Some? ==> (o.value.id == "fever-multiple" <==> consecutive < 2)
    ensures o.Some? ==> o.value.priority == (if consecutive >= 2 then 5 else 4)
  {
    if consecutive >= 2 then
      Some(Insight("fever-consecutive", Alert,
        "Febre por " + NatToString(consecutive) + " dias seguidos",
        "Foi detectada febre (≥ " + TenthsToString(rule.threshold) + "°C) em " + NatToString(consecutive)
          + " dias consecutivos. Considere consultar um médico se a febre persistir.",
        "🌡️", 5))
    else if size >= 3 then
      Some(Insight("fever-multiple", Warning,
        "Febre registrada em " + NatToString(size) + " dias",
        "Foram detectados episódios de febre em " + NatToString(size) + " dias diferentes. Acompanhe a evolução.",
        "🌡️", 4))
    else None
  }

  /** What `analyzeFeverPattern` yields, in terms of the longest run of fever days. */
  ghost function FeverPattern(rule: FeverRule, records: seq<Record>): Option<Insight> {
    var times := FeverTimes(rule, records);
    if |times| == 0 then None
    else FeverInsight(rule, LongestRun(DaysOf(times)), |FeverDays(rule, records)|)
  }

  /**
   * The fever rule fires with an alert exactly when fevers were recorded on two adjacent
   * days, and otherwise with a warning exactly when they were recorded on three or more days.
   */
  lemma FeverPatternMeaning(rule: FeverRule, records: seq<Record>)
    ensures var p, D := FeverPattern(rule, records), FeverDays(rule, records);
      var adjacent := exists d :: d in D && d - 1 in D;
      && (p.Some? && p.value.id == "fever-consecutive" <==> adjacent)
      && (p.Some? && p.value.id == "fever-multiple" <==> !adjacent && |D| >= 3)
      && (p.Some? ==> p.value.priority == (if adjacent then 5 else 4))
  {
    var times := FeverTimes(rule, records);
    if |times| > 0 {
      LongestRunAtLeastTwo(DaysOf(times));
    } else {
      assert DaysOf(times) == [];
      assert FeverDays(rule, records) == {};
    }
  }

  /** `analyzeFeverPattern`. */
  method AnalyzeFeverPattern(rule: FeverRule, records: seq<Record>) returns (r: Option<Insight>)
    ensures r == FeverPattern(rule, records)
  {
    var feverRecords := FeverRecords(rule, records);
    if |feverRecords| == 0 {
      return None;
    }
    var feverDays := FeverDays(rule, records);
    var consecutive := FindConsecutiveDays(FeverTimes(rule, records));
    return FeverInsight(rule, consecutive, |feverDays|);
  }

  // ---- 2. Frequent medication -------------------------------------------------------------

  /**
   * `analyzeMedicationFrequency`: a warning from five doses on, a notice from three, nothing
   * below three.
   */
  function MedicationFrequency(records: seq<Record>, childName: Option<string>): (r: Option<Insight>)
    ensures var n := |OfKind(records, Medication)|;
      && (r.Some? <==> n >= 3)
      && (r.Some? ==> (r.value.kind == Warning <==> n >= 5))
      && (r.Some? ==> r.value.priority == (if n >= 5 then 3 else 2))
  {
    var n := |OfKind(records, Medication)|;
    if n == 0 then None
    else if n >= 5 then
      Some(Insight("medication-frequent", Warning,
        NatToString(n) + " medicações esta semana",
        NameOr(childName) + " recebeu " + NatToString(n)
          + " doses de medicamento nos últimos 7 dias. Certifique-se de seguir as orientações médicas.",
        "💊", 3))
    else if n >= 3 then
      Some(Insight("medication-moderate", Info,
        NatToString(n) + " medicações esta semana",
        "Foram administradas " + NatToString(n) + " doses de medicamento nos últimos 7 dias.",
        "💊", 2))
    else None
  }

  // ---- 3. Recurrent symptoms --------------------------------------------------------------

  predicate IsTypedSymptom(r: Record) {
    r.body.kind == Symptom && r.body.symptomType.Some?
  }

  function SymptomOf(r: Record): SymptomType
    requires IsTypedSymptom(r)
  {
    r.body.symptomType.value
  }

  /** The symptom types of the symptom records that have one, in record order. */
  function SymptomTypesOf(records: seq<Record>): (ts: seq<SymptomType>)
    ensures forall t :: t in ts <==> exists r :: r in records && IsTypedSymptom(r) && SymptomOf(r) == t
  {
    if records == [] then []
    else
      var rest := SymptomTypesOf(records[1..]);
      assert forall r :: r in records <==> r == records[0] || r in records[1..];
      if IsTypedSymptom(records[0]) then [SymptomOf(records[0])] + rest else rest
  }

  /**
   * The name used in the recurrent-symptom text. The label table of the rule has no entry for
   * `febre` and `outro` (it has one for a `temperatura` key no record carries), so those two
   * fall back to their column value.
   */
  function SymptomName(t: SymptomType): string {
    match t
    case Tosse => "tosse"
    case CongestaoNasal => "congestão nasal"
    case Diarreia => "diarreia"
    case Vomito => "vômito"
    case DorCabeca => "dor de cabeça"
    case DorBarriga => "dor de barriga"
    case Irritacao => "irritação"
    case FaltaApetite => "falta de apetite"
    case Febre => SymptomKey(Febre)
    case Outro => SymptomKey(Outro)
  }

  function RecurrentInsight(childName: Option<string>, m: Tally): Insight {
    Insight("symptom-recurrent", Warning,
      "Sintoma recorrente: " + SymptomName(m.symptom),
      NameOr(childName) + " apresentou " + SymptomName(m.symptom) + " " + NatToString(m.count)
        + " vezes esta semana. Monitore a evolução.",
      "⚠️", 3)
  }

  /** What `analyzeRecurrentSymptoms` yields: the most frequent type, when it occurred three times. */
  function RecurrentPattern(records: seq<Record>, childName: Option<string>): Option<Insight> {
    var ts := SymptomTypesOf(records);
    if |ts| < 3 then None
    else
      var m := MostFrequent(ts);
      if m.count >= 3 then Some(RecurrentInsight(childName, m)) else None
  }

  /**
   * The recurrent-symptom rule fires exactly when some symptom type occurs three times or
   * more, and it names a type that no other type outnumbers.
   */
  lemma RecurrentPatternMeaning(records: seq<Record>, childName: Option<string>)
    ensures var ts, p := SymptomTypesOf(records), RecurrentPattern(records, childName);
      && (p.Some? <==> exists t :: t in ts && Occurrences(ts, t) >= 3)
      && (p.Some? ==> exists t :: t in ts && p.value == RecurrentInsight(childName, Tally(t, Occurrences(ts, t)))
                                && forall u :: u in ts ==> Occurrences(ts, u) <= Occurrences(ts, t))
  {
    var ts := SymptomTypesOf(records);
    if |ts| < 3 {
      assert forall t :: t in ts ==> Occurrences(ts, t) < 3;
    } else {
      MostFrequentIsMostFrequent(ts);
      var m := MostFrequent(ts);
      assert m == Tally(m.symptom, Occurrences(ts, m.symptom));
      if m.count < 3 {
        assert forall t :: t in ts ==> Occurrences(ts, t) < 3;
      } else {
        assert RecurrentPattern(records, childName) == Some(RecurrentInsight(childName, m));
      }
    }
  }

  /**
   * `analyzeRecurrentSymptoms`: counts the symptom types into entries kept in first-seen
   * order, sorts them by descending count and reports the first.
   */
  method AnalyzeRecurrentSymptoms(records: seq<Record>, childName: Option<string>) returns (r: Option<Insight>)
    ensures r == RecurrentPattern(records, childName)
  {
    var symptoms := SymptomTypesOf(records);
    if |symptoms| < 3 {
      return None;
    }
    var symptomCount: seq<Tally> := [];
    for i := 0 to |symptoms|
      invariant symptomCount == Tallies(symptoms[..i])
    {
      var t := symptoms[i];
      var j := FindTally(symptomCount, t);
      if j < |symptomCount| {
        symptomCount := symptomCount[j := Tally(t, symptomCount[j].count + 1)];
      } else {
        symptomCount := symptomCount + [Tally(t, 1)];
      }
      TalliesStep(symptoms[..i], t);
      assert symptoms[..i + 1] == symptoms[..i] + [t];
    }
    assert symptoms[..|symptoms|] == symptoms;
    DistinctElements(symptoms);
    assert symptoms[0] in Distinct(symptoms);
    var sorted := SortDescBy(symptomCount, TallyCount);
    var mostFrequent := sorted[0];
    FirstMostIsSortHead(symptomCount);
    if mostFrequent.count >= 3 {
      return Some(RecurrentInsight(childName, mostFrequent));
    }
    return None;
  }

  // ---- 4. Temperature trend ---------------------------------------------------------------

  /** The records with a temperature (0 included), newest first. */
  function Readings(records: seq<Record>): (rs: seq<Record>)
    ensures forall x :: x in rs <==> x in records && x.body.temperature.Some?
  {
    var rs := SortDescBy(Filter(records, (x: Record) => x.body.temperature.Some?), CreatedAt);
    MultisetSameElements(rs, Filter(records, (x: Record) => x.body.temperature.Some?));
    rs
  }

  function Temp(r: Record): int
    requires r.body.temperature.Some?
  {
    r.body.temperature.value
  }

  /** `analyzeTemperature`, on the three newest readings `t0` (newest), `t1`, `t2`. */
  function TemperatureTrend(rule: FeverRule, records: seq<Record>): Option<Insight> {
    var rs := Readings(records);
    if |rs| < 3 then None
    else
      var t0, t1, t2 := Temp(rs[0]), Temp(rs[1]), Temp(rs[2]);
      var isImproving := t1 <= t0 && t2 <= t1;
      if isImproving && t0 < rule.threshold && t2 >= rule.threshold then
        Some(Insight("temperature-improving", Success, "Temperatura normalizando",
          "A temperatura está diminuindo progressivamente. Última medição: " + Fixed1(t0) + "°C.",
          "✅", 2))
      else
        var isIncreasing := t1 >= t0 && t2 >= t1;
        if isIncreasing && t0 >= rule.threshold then
          Some(Insight("temperature-increasing", Alert, "Temperatura em elevação",
            "A temperatura está aumentando. Última medição: " + Fixed1(t0) + "°C. Considere medidas antitérmicas.",
            "📈", 4))
        else None
  }

  /**
   * The "normalising" insight is never produced: it needs `t2 >= threshold > t0 >= t1 >= t2`.
   * The "rising" alert fires exactly when the newest reading is at least the threshold and no
   * reading of the three is higher than the one before it in time, i.e. when the readings,
   * oldest first, do not rise.
   */
  lemma TemperatureTrendMeaning(rule: FeverRule, records: seq<Record>)
    ensures var p, rs := TemperatureTrend(rule, records), Readings(records);
      && (p.Some? ==> p.value.id == "temperature-increasing" && p.value.priority == 4)
      && (p.Some? <==> |rs| >= 3 && rule.threshold <= Temp(rs[0]) <= Temp(rs[1]) <= Temp(rs[2]))
      && (|rs| >= 3 ==> rs[0].createdAt >= rs[1].createdAt >= rs[2].createdAt)
  {
  }

  // ---- 5. Severe symptoms -----------------------------------------------------------------

  /** A temperature reading of 39.5 °C or more (a reading of 0 does not count). */
  predicate IsHighFever(r: Record) {
    HasTemperature(r) && r.body.temperature.value >= 395
  }

  predicate IsSevere(r: Record) {
    r.body.kind == Symptom
    && (r.body.symptomType == Some(Vomito) || r.body.symptomType == Some(Diarreia) || IsHighFever(r))
  }

  function SevereInsight(childName: Option<string>, hasHighFever: bool): Insight {
    Insight("severe-symptoms", Alert, "Sintomas que requerem atenção",
      if hasHighFever then
        NameOr(childName) + " apresentou febre alta (≥ 39.5°C). Considere procurar atendimento médico."
      else
        NameOr(childName) + " apresentou sintomas que podem indicar desidratação. Mantenha a hidratação e consulte um médico se necessário.",
      "🚨", 5)
  }

  /** Some symptom record is a high-fever reading. */
  predicate HasHighFeverSymptom(records: seq<Record>) {
    exists s :: s in records && s.body.kind == Symptom && IsHighFever(s)
  }

  /** Among the severe records, the high-fever ones are exactly the high-fever symptom records. */
  lemma SevereHighFever(records: seq<Record>)
    ensures (exists s :: s in Filter(records, IsSevere) && IsHighFever(s)) <==> HasHighFeverSymptom(records)
  {
  }

  /**
   * `checkSevereSymptoms`: an alert when two or more symptom records are vomiting, diarrhoea
   * or a high fever; its text speaks of high fever exactly when one of them is a high fever.
   */
  function SevereSymptoms(records: seq<Record>, childName: Option<string>): (r: Option<Insight>)
    ensures r.Some? <==> |Filter(records, IsSevere)| >= 2
    ensures r.Some? ==> r.value == SevereInsight(childName, HasHighFeverSymptom(records))
  {
    var severe := Filter(records, IsSevere);
    if |severe| >= 2 then
      var hasHighFever := exists s :: s in severe && IsHighFever(s);
      SevereHighFever(records);
      assert hasHighFever == HasHighFeverSymptom(records);
      Some(SevereInsight(childName, hasHighFever))
    else None
  }

  // ---- 6. Improvement ---------------------------------------------------------------------

  function RecentSymptoms(records: seq<Record>, now: int): seq<Record> {
    Filter(records, (x: Record) => x.body.kind == Symptom && x.createdAt > now - 3 * DayMs)
  }

  function OlderSymptoms(records: seq<Record>, now: int): seq<Record> {
    Filter(records, (x: Record) => x.body.kind == Symptom && x.createdAt > now - WeekMs && !(x.createdAt > now - 3 * DayMs))
  }

  /**
   * `analyzeImprovement`: a success when no symptom was recorded in the last three days but at
   * least three were in the four days before.
   */
  function Improvement(records: seq<Record>, childName: Option<string>, now: int): (r: Option<Insight>)
    ensures r.Some? <==>
      (forall x :: x in records && x.body.kind == Symptom ==> x.createdAt <= now - 3 * DayMs)
      && |OlderSymptoms(records, now)| >= 3
  {
    var recentSymptoms := RecentSymptoms(records, now);
    var olderSymptoms := OlderSymptoms(records, now);
    if |olderSymptoms| >= 3 && |recentSymptoms| == 0 then
      Some(Insight("improvement", Success, "Sinais de melhora",
        NameOr(childName) + " não apresentou novos sintomas nos últimos 3 dias. Continue monitorando.",
        "🎉", 2))
    else
      assert |recentSymptoms| != 0 ==> recentSymptoms[0] in recentSymptoms;
      None
  }

  // ---- 7. Inactivity ----------------------------------------------------------------------

  /** What `checkInactivity` yields: a notice when the newest record is a week old or more. */
  function Inactivity(records: seq<Record>, now: int): Option<Insight> {
    if |records| == 0 then None
    else
      var lastRecord := SortDescBy(records, CreatedAt)[0];
      var daysSinceLastRecord := DifferenceInDays(now, lastRecord.createdAt);
      if daysSinceLastRecord >= 7 then Some(InactivityInsight(daysSinceLastRecord)) else None
  }

  function InactivityInsight(days: int): Insight {
    Insight("inactivity", Info, "Nenhum registro recente",
      "Não há registros nos últimos " + IntToString(days)
        + " dias. Tudo bem? Continue registrando para melhor acompanhamento.",
      "📝", 1)
  }

  /** The inactivity rule fires exactly when there are records and every one is at least seven days old. */
  lemma InactivityMeaning(records: seq<Record>, now: int)
    ensures Inactivity(records, now).Some? <==>
      |records| > 0 && forall r :: r in records ==> DifferenceInDays(now, r.createdAt) >= 7
  {
    if |records| > 0 {
      var sorted := SortDescBy(records, CreatedAt);
      SortDescByHead(records, CreatedAt);
      var k :| 0 <= k < |records| && sorted[0] == records[k] &&
        (forall i :: 0 <= i < |records| ==> CreatedAt(records[i]) <= CreatedAt(records[k])) &&
        (forall i :: 0 <= i < k ==> CreatedAt(records[i]) < CreatedAt(records[k]));
      DifferenceAtLeast(now, records[k].createdAt, 7);
      forall r | r in records
        ensures DifferenceInDays(now, records[k].createdAt) >= 7 ==> DifferenceInDays(now, r.createdAt) >= 7
      {
        var i :| 0 <= i < |records| && records[i] == r;
        assert CreatedAt(records[i]) <= CreatedAt(records[k]);
        DifferenceAtLeast(now, r.createdAt, 7);
      }
    }
  }

  /**
   * `checkInactivity`: sorts the caller's array in place, newest first (the source sorts the
   * array it was given), and looks at its first record.
   */
  method CheckInactivity(records: array<Record>, now: int) returns (r: Option<Insight>)
    modifies records
    ensures records[..] == SortDescBy(old(records[..]), CreatedAt)
    ensures r == Inactivity(old(records[..]), now)
  {
    if records.Length == 0 {
      return None;
    }
    var sorted := SortDescBy(records[..], CreatedAt);
    for i := 0 to records.Length
      invariant forall k :: 0 <= k < i ==> records[k] == sorted[k]
    {
      records[i] := sorted[i];
    }
    assert records[..] == sorted;
    var lastRecord := records[0];
    var daysSinceLastRecord := DifferenceInDays(now, lastRecord.createdAt);
    if daysSinceLastRecord >= 7 {
      return Some(InactivityInsight(daysSinceLastRecord));
    }
    return None;
  }

  // ---- The analysis -----------------------------------------------------------------------

  function Present(o: Option<Insight>): seq<Insight> {
    if o.Some? then [o.value] else []
  }

  /** The insights of the seven rules, in the order the rules run. */
  ghost function Candidates(rule: FeverRule, records: seq<Record>, childName: Option<string>, now: int): seq<Insight> {
    var recent := Recent(records, now);
    Present(FeverPattern(rule, records))
    + Present(MedicationFrequency(recent, childName))
    + Present(RecurrentPattern(recent, childName))
    + Present(TemperatureTrend(rule, records))
    + Present(SevereSymptoms(recent, childName))
    + Present(Improvement(records, childName, now))
    + Present(Inactivity(records, now))
  }

  /** The rule, numbered in running order, that produces an insight with this id. */
  function RuleOf(id: string): nat {
    if id == "fever-consecutive" || id == "fever-multiple" then 1
    else if id == "medication-frequent" || id == "medication-moderate" then 2
    else if id == "symptom-recurrent" then 3
    else if id == "temperature-improving" || id == "temperature-increasing" then 4
    else if id == "severe-symptoms" then 5
    else if id == "improvement" then 6
    else if id == "inactivity" then 7
    else 0
  }

  /** Rule numbers grow along the list, none exceeds `n`, and every priority is between 1 and 5. */
  ghost predicate RulesUpTo(c: seq<Insight>, n: nat) {
    && (forall i, j :: 0 <= i < j < |c| ==> RuleOf(c[i].id) < RuleOf(c[j].id))
    && (forall i :: 0 <= i < |c| ==> RuleOf(c[i].id) <= n && 1 <= c[i].priority <= 5)
  }

  ghost predicate FromRule(o: Option<Insight>, n: nat) {
    o.Some? ==> RuleOf(o.value.id) == n && 1 <= o.value.priority <= 5
  }

  lemma RuleNumbers()
    ensures RuleOf("fever-consecutive") == 1 && RuleOf("fever-multiple") == 1
    ensures RuleOf("medication-frequent") == 2 && RuleOf("medication-moderate") == 2
    ensures RuleOf("symptom-recurrent") == 3
    ensures RuleOf("temperature-improving") == 4 && RuleOf("temperature-increasing") == 4
    ensures RuleOf("severe-symptoms") == 5
    ensures RuleOf("improvement") == 6
    ensures RuleOf("inactivity") == 7
  {
  }

  // The ids and priorities each rule can produce.

  lemma FeverOutputs(rule: FeverRule, records: seq<Record>)
    ensures var o := FeverPattern(rule, records);
      o.Some? ==> (o.value.id == "fever-consecutive" || o.value.id == "fever-multiple") && 4 <= o.value.priority <= 5
  {
    var times := FeverTimes(rule, records);
    if |times| > 0 {
      var o := FeverInsight(rule, LongestRun(DaysOf(times)), |FeverDays(rule, records)|);
      assert o.Some? ==> o.value.id == "fever-consecutive" || o.value.id == "fever-multiple";
    }
  }

  lemma MedicationOutputs(records: seq<Record>, childName: Option<string>)
    ensures var o := MedicationFrequency(records, childName);
      o.Some? ==> (o.value.id == "medication-frequent" || o.value.id == "medication-moderate") && 2 <= o.value.priority <= 3
  {
  }

  lemma RecurrentOutputs(records: seq<Record>, childName: Option<string>)
    ensures var o := RecurrentPattern(records, childName);
      o.Some? ==> o.value.id == "symptom-recurrent" && o.value.priority == 3
  {
  }

  lemma TemperatureOutputs(rule: FeverRule, records: seq<Record>)
    ensures var o := TemperatureTrend(rule, records);
      o.Some? ==> (o.value.id == "temperature-improving" || o.value.id == "temperature-increasing") && 2 <= o.value.priority <= 4
  {
  }

  lemma SevereOutputs(records: seq<Record>, childName: Option<string>)
    ensures var o := SevereSymptoms(records, childName);
      o.Some? ==> o.value.id == "severe-symptoms" && o.value.priority == 5
  {
  }

  lemma ImprovementOutputs(records: seq<Record>, childName: Option<string>, now: int)
    ensures var o := Improvement(records, childName, now);
      o.Some? ==> o.value.id == "improvement" && o.value.priority == 2
  {
  }

  lemma InactivityOutputs(records: seq<Record>, now: int)
    ensures var o := Inactivity(records, now);
      o.Some? ==> o.value.id == "inactivity" && o.value.priority == 1
  {
  }

  /** Each rule produces only its own ids, with priorities between 1 and 5. */
  lemma RuleIds(rule: FeverRule, records: seq<Record>, childName: Option<string>, now: int)
    ensures FromRule(FeverPattern(rule, records), 1)
    ensures FromRule(MedicationFrequency(records, childName), 2)
    ensures FromRule(RecurrentPattern(records, childName), 3)
    ensures FromRule(TemperatureTrend(rule, records), 4)
    ensures FromRule(SevereSymptoms(records, childName), 5)
    ensures FromRule(Improvement(records, childName, now), 6)
    ensures FromRule(Inactivity(records, now), 7)
  {
    FeverOutputs(rule, records);
    MedicationOutputs(records, childName);
    RecurrentOutputs(records, childName);
    TemperatureOutputs(rule, records);
    SevereOutputs(records, childName);
    ImprovementOutputs(records, childName, now);
    InactivityOutputs(records, now);
    RuleNumbers();
  }

  lemma AppendRule(c: seq<Insight>, o: Option<Insight>, n: nat)
    requires n > 0 && RulesUpTo(c, n - 1) && |c| <= n - 1 && FromRule(o, n)
    ensures RulesUpTo(c + Present(o), n) && |c + Present(o)| <= n
  {
  }

  ghost predicate WellShaped(c: seq<Insight>) {
    && |c| <= 7
    && (forall i, j :: 0 <= i < j < |c| ==> c[i].id != c[j].id)
    && (forall i :: 0 <= i < |c| ==> 1 <= c[i].priority <= 5)
  }

  lemma ShapeOfRules(o1: Option<Insight>, o2: Option<Insight>, o3: Option<Insight>, o4: Option<Insight>,
                     o5: Option<Insight>, o6: Option<Insight>, o7: Option<Insight>)
    requires FromRule(o1, 1) && FromRule(o2, 2) && FromRule(o3, 3) && FromRule(o4, 4)
    requires FromRule(o5, 5) && FromRule(o6, 6) && FromRule(o7, 7)
    ensures WellShaped(Present(o1) + Present(o2) + Present(o3) + Present(o4) + Present(o5) + Present(o6) + Present(o7))
  {
    var c1 := Present(o1);
    AppendRule([], o1, 1);
    assert [] + c1 == c1;
    var c3 := c1 + Present(o2) + Present(o3);
    AppendTwoRules(c1, o2, o3, 3);
    var c5 := c3 + Present(o4) + Present(o5);
    AppendTwoRules(c3, o4, o5, 5);
    var c7 := c5 + Present(o6) + Present(o7);
    AppendTwoRules(c5, o6, o7, 7);
    IncreasingRulesShaped(c7);
  }

  lemma AppendTwoRules(c: seq<Insight>, a: Option<Insight>, b: Option<Insight>, n: nat)
    requires n > 1 && RulesUpTo(c, n - 2) && |c| <= n - 2 && FromRule(a, n - 1) && FromRule(b, n)
    ensures RulesUpTo(c + Present(a) + Present(b), n) && |c + Present(a) + Present(b)| <= n
  {
    AppendRule(c, a, n - 1);
    AppendRule(c + Present(a), b, n);
  }

  lemma IncreasingRulesShaped(c: seq<Insight>)
    requires RulesUpTo(c, 7) && |c| <= 7
    ensures WellShaped(c)
  {
  }

  /**
   * Each rule contributes at most one insight, so there are at most seven; no two share an
   * id, and every priority lies between 1 and 5.
   */
  lemma CandidatesShape(rule: FeverRule, records: seq<Record>, childName: Option<string>, now: int)
    ensures WellShaped(Candidates(rule, records, childName, now))
  {
    var recent := Recent(records, now);
    RuleIds(rule, records, childName, now);
    RuleIds(rule, recent, childName, now);
    ShapeOfRules(FeverPattern(rule, records), MedicationFrequency(recent, childName),
      RecurrentPattern(recent, childName), TemperatureTrend(rule, records),
      SevereSymptoms(recent, childName), Improvement(records, childName, now), Inactivity(records, now));
  }

  /** The temperatures of the records that have one (0 included). */
  function Temperatures(records: seq<Record>): (ts: seq<int>)
    ensures |ts| <= |records|
  {
    if records == [] then []
    else
      var t := if records[0].body.temperature.Some? then [records[0].body.temperature.value] else [];
      t + Temperatures(records[1..])
  }

  function Sum(ts: seq<int>): int {
    if ts == [] then 0 else ts[0] + Sum(ts[1..])
  }

  /** The mean temperature, or none when no record has one. */
  function AverageTemperature(records: seq<Record>): (a: Option<real>)
    ensures a.None? <==> Temperatures(records) == []
    ensures a.Some? ==> a.value * |Temperatures(records)| as real == Sum(Temperatures(records)) as real
  {
    var ts := Temperatures(records);
    if |ts| > 0 then Some(Sum(ts) as real / |ts| as real) else None
  }

  /**
   * `analyzeRecords`: the insights of the seven rules ordered by descending priority (ties in
   * rule order) and the statistics. As in the source, the inactivity rule leaves the caller's
   * array sorted newest first, and the average is taken over that order.
   */
  method AnalyzeRecords(records: array<Record>, childName: Option<string>, rule: FeverRule, now: int)
    returns (result: AnalysisResult)
    modifies records
    ensures records[..] == SortDescBy(old(records[..]), CreatedAt)
    ensures result.insights == SortDescBy(Candidates(rule, old(records[..]), childName, now), InsightPriority)
    ensures result.statistics == Statistics(
      records.Length,
      |OfKind(Recent(old(records[..]), now), Symptom)|,
      |OfKind(Recent(old(records[..]), now), Medication)|,
      AverageTemperature(records[..]),
      CountDaysWithFever(rule, old(records[..])))
  {
    var rs := records[..];
    var recentRecords := Recent(rs, now);
    var symptomsThisWeek := |OfKind(recentRecords, Symptom)|;
    var medicationsThisWeek := |OfKind(recentRecords, Medication)|;
    var feverAnalysis := AnalyzeFeverPattern(rule, rs);
    var insights := Present(feverAnalysis);
    var medicationAnalysis := MedicationFrequency(recentRecords, childName);
    insights := insights + Present(medicationAnalysis);
    var symptomAnalysis := AnalyzeRecurrentSymptoms(recentRecords, childName);
    insights := insights + Present(symptomAnalysis);
    var temperatureAnalysis := TemperatureTrend(rule, rs);
    insights := insights + Present(temperatureAnalysis);
    var severeSymptomAlert := SevereSymptoms(recentRecords, childName);
    insights := insights + Present(severeSymptomAlert);
    var improvementPattern := Improvement(rs, childName, now);
    insights := insights + Present(improvementPattern);
    var inactivityAlert := CheckInactivity(records, now);
    insights := insights + Present(inactivityAlert);
    assert insights == Candidates(rule, rs, childName, now);

    var averageTemperature := AverageTemperature(records[..]);
    var daysWithFever := CountDaysWithFever(rule, records[..]);
    MultisetSameElements(records[..], rs);
    FeverDaysSameElements(rule, records[..], rs);
    FeverRecordsSameElements(rule, records[..], rs);

    insights := SortDescBy(insights, InsightPriority);
    result := AnalysisResult(insights,
      Statistics(records.Length, symptomsThisWeek, medicationsThisWeek, averageTemperature, daysWithFever));
  }

  lemma FeverRecordsSameElements(rule: FeverRule, a: seq<Record>, b: seq<Record>)
    requires forall x :: x in a <==> x in b
    ensures CountDaysWithFever(rule, a) == CountDaysWithFever(rule, b)
  {
    FeverDaysSameElements(rule, a, b);
  }
}

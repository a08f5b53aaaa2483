/**
 * The health meter: a classification of the insights produced by the analysis into one of
 * four health states, each with a fixed score, label and colours.
 */
module HealthMeter {
  import opened Text
  import opened IntelligentAnalysis

  datatype HealthStatus = Excellent | Good | Attention | AlertStatus

  datatype HealthData = HealthData(
    status: HealthStatus,
    score: int,
    heading: string,
    description: string,
    color: string,
    bgColor: string)

  /** The number of insights of one kind. */
  function CountKind(insights: seq<Insight>, k: InsightType): (n: nat)
    ensures n <= |insights|
  {
    if insights == [] then 0
    else CountKind(insights[..|insights| - 1], k) + (if insights[|insights| - 1].kind == k then 1 else 0)
  }

  /** `""` for exactly one, `"s"` for any other count. */
  function Plural(n: int): string {
    if n != 1 then "s" else ""
  }

  /** The classifier: two or more alerts, then one alert or two warnings, then any insight at all. */
  function StatusOf(alerts: nat, warnings: nat, total: nat): HealthStatus {
    if alerts >= 2 then AlertStatus
    else if alerts == 1 || warnings >= 2 then Attention
    else if total > 0 then Good
    else Excellent
  }

  function ScoreOf(st: HealthStatus): int {
    match st
    case AlertStatus => 40
    case Attention => 65
    case Good => 85
    case Excellent => 100
  }

  function Heading(st: HealthStatus): string {
    match st
    case AlertStatus => "Requer Atenção"
    case Attention => "Atenção Necessária"
    case Good => "Está Bem"
    case Excellent => "Excelente"
  }

  function Description(st: HealthStatus, alerts: nat, warnings: nat, goodNews: nat): string {
    match st
    case AlertStatus => NatToString(alerts) + " alerta" + Plural(alerts) + " importante" + Plural(alerts)
    case Attention => NatToString(alerts + warnings) + " ponto" + Plural(alerts + warnings) + " de atenção"
    case Good => if goodNews > 0 then "Sinais de melhora detectados" else "Situação controlada"
    case Excellent => "Nenhum problema detectado"
  }

  function Colors(st: HealthStatus): (string, string) {
    match st
    case AlertStatus => ("text-red-600 dark:text-red-400", "from-red-500 to-orange-500")
    case Attention => ("text-yellow-600 dark:text-yellow-400", "from-yellow-500 to-orange-500")
    case Good => ("text-green-600 dark:text-green-400", "from-green-500 to-emerald-500")
    case Excellent => ("text-emerald-600 dark:text-emerald-400", "from-emerald-500 to-green-500")
  }

  /** `getHealthStatus`: the state of the insight counts, with its score, texts and colours. */
  function GetHealthStatus(insights: seq<Insight>): (h: HealthData)
    ensures h.score in {40, 65, 85, 100}
  {
    var alerts := CountKind(insights, Alert);
    var warnings := CountKind(insights, Warning);
    var goodNews := CountKind(insights, Success);
    var st := StatusOf(alerts, warnings, |insights|);
    var (color, bg) := Colors(st);
    HealthData(st, ScoreOf(st), Heading(st), Description(st, alerts, warnings, goodNews), color, bg)
  }

  /** Each status, with its score, holds exactly under its condition. */
  lemma HealthStatusMeaning(insights: seq<Insight>)
    ensures var h := GetHealthStatus(insights);
      var alerts, warnings := CountKind(insights, Alert), CountKind(insights, Warning);
      && (h.status == AlertStatus <==> alerts >= 2)
      && (h.status == Attention <==> alerts == 1 || (alerts == 0 && warnings >= 2))
      && (h.status == Good <==> alerts == 0 && warnings < 2 && |insights| > 0)
      && (h.status == Excellent <==> |insights| == 0)
      && (h.score == 40 <==> h.status == AlertStatus)
      && (h.score == 65 <==> h.status == Attention)
      && (h.score == 85 <==> h.status == Good)
      && (h.score == 100 <==> h.status == Excellent)
  {
    if |insights| == 0 {
      assert CountKind(insights, Alert) == 0;
    }
  }

  /** The attention description leads with the number of alerts plus warnings, pluralised unless that is one. */
  lemma AttentionDescription(insights: seq<Insight>)
    requires GetHealthStatus(insights).status == Attention
    ensures var n := CountKind(insights, Alert) + CountKind(insights, Warning);
      && GetHealthStatus(insights).description == NatToString(n) + (if n == 1 then " ponto" else " pontos") + " de atenção"
      && n >= 1
  {
    var alerts, warnings := CountKind(insights, Alert), CountKind(insights, Warning);
    var n := alerts + warnings;
    assert StatusOf(alerts, warnings, |insights|) == Attention;
    assert GetHealthStatus(insights).description == NatToString(n) + " ponto" + Plural(n) + " de atenção";
    PointsText(NatToString(n), n);
  }

  lemma PointsText(a: string, n: int)
    ensures a + " ponto" + Plural(n) + " de atenção" == a + (if n == 1 then " ponto" else " pontos") + " de atenção"
  {
    if n == 1 {
      assert " ponto" + Plural(n) == " ponto";
    } else {
      assert " ponto" + Plural(n) == " pontos";
    }
  }

  /** One more insight, of any kind, never raises the score. */
  lemma ScoreNeverRises(insights: seq<Insight>, i: Insight)
    ensures GetHealthStatus(insights + [i]).score <= GetHealthStatus(insights).score
  {
    var s := insights + [i];
    assert s[..|s| - 1] == insights;
    var a, w := CountKind(insights, Alert), CountKind(insights, Warning);
    var a', w' := CountKind(s, Alert), CountKind(s, Warning);
    assert a' >= a && w' >= w;
    assert GetHealthStatus(insights).score == ScoreOf(StatusOf(a, w, |insights|));
    assert GetHealthStatus(s).score == ScoreOf(StatusOf(a', w', |s|));
    StatusScoreMonotone(a, w, |insights|, a', w', |s|);
  }

  /** More alerts, warnings or insights never give a higher score. */
  lemma StatusScoreMonotone(a: nat, w: nat, t: nat, a': nat, w': nat, t': nat)
    requires a <= a' && w <= w' && t <= t'
    ensures ScoreOf(StatusOf(a', w', t')) <= ScoreOf(StatusOf(a, w, t))
  {
  }
}

/**
 * The medication reminders card: which doses are due, how late each one is, and the
 * record inserted when a dose is marked as given. The clock, the records table and the
 * requests' outcomes are parameters.
 */
module MedicationReminders {
  import opened Wrappers
  import opened Text
  import opened Lists
  import opened Sorting
  import opened Time
  import opened RecordTypes

  /** The query's filter: the child's medications with the reminder on and the next dose at or before `now`. */
  predicate IsDue(r: Record, childId: string, now: int) {
    r.body.kind == Medication && r.body.reminderEnabled == Some(true) && r.body.childId == Some(childId)
    && r.body.nextDoseAt.Some? && r.body.nextDoseAt.value <= now
  }

  function NextDose(r: Record): int {
    r.body.nextDoseAt.GetOr(0)
  }

  /**
   * The rows the query returns: the due ones, ascending by `next_dose_at`. Equal doses come
   * out in table order here; `ORDER BY next_dose_at` leaves their order open, so nothing
   * else in the model depends on it.
   */
  function DueReminders(table: seq<Record>, childId: string, now: int): seq<Record> {
    SortBy(Filter(table, (r: Record) => IsDue(r, childId, now)), NextDose)
  }

  /** A reminder is listed iff it is due, as often as it is in the table, and the list is in dose order. */
  lemma DueRemindersMeaning(table: seq<Record>, childId: string, now: int)
    ensures forall r :: r in DueReminders(table, childId, now) <==> r in table && IsDue(r, childId, now)
    ensures multiset(DueReminders(table, childId, now)) == multiset(Filter(table, (r: Record) => IsDue(r, childId, now)))
    ensures forall r :: multiset(DueReminders(table, childId, now))[r] == if IsDue(r, childId, now) then multiset(table)[r] else 0
    ensures SortedBy(DueReminders(table, childId, now), NextDose)
    ensures forall i :: 0 <= i < |DueReminders(table, childId, now)| ==>
      DueReminders(table, childId, now)[i].body.nextDoseAt.Some?
      && DueReminders(table, childId, now)[i].body.nextDoseAt.value <= now
  {
    var f := Filter(table, (r: Record) => IsDue(r, childId, now));
    var d := DueReminders(table, childId, now);
    assert multiset(d) == multiset(f);
    forall r ensures r in d <==> r in f {
      assert r in d <==> r in multiset(d);
      assert r in f <==> r in multiset(f);
    }
    forall r ensures multiset(d)[r] == if IsDue(r, childId, now) then multiset(table)[r] else 0 {
      FilterCount(table, (r: Record) => IsDue(r, childId, now), r);
    }
    forall i | 0 <= i < |d| ensures d[i].body.nextDoseAt.Some? && d[i].body.nextDoseAt.value <= now {
      assert d[i] in d;
    }
  }

  /**
   * `fetchReminders` for a child: the due reminders on success; a failed query keeps the
   * previous list. Either way loading ends.
   */
  function Refreshed(current: seq<Record>, table: seq<Record>, childId: string, now: int, queryFails: bool): seq<Record> {
    if queryFails then current else DueReminders(table, childId, now)
  }

  /** The card renders nothing while loading or with no due reminder. */
  predicate RendersCard(isLoading: bool, reminders: seq<Record>) {
    !isLoading && |reminders| > 0
  }

  /** Once a fetch succeeds and loading ends, the card shows exactly when the table holds a due dose of the child. */
  lemma CardShowsWhenDue(table: seq<Record>, childId: string, now: int)
    ensures RendersCard(false, Refreshed([], table, childId, now, false)) <==> exists r :: r in table && IsDue(r, childId, now)
    ensures forall rs :: !RendersCard(true, rs)
  {
    var d := DueReminders(table, childId, now);
    DueRemindersMeaning(table, childId, now);
    if |d| > 0 {
      assert d[0] in d;
    }
  }

  /** How late a dose is, in the card's three bands. */
  datatype Band = Now | Minutes | Hours

  datatype TimeStatus = TimeStatus(text: string, color: string, bgColor: string, band: Band)

  /** `Math.floor((now - doseTime) / 60000)`: whole minutes elapsed, rounded down also when negative. */
  function ElapsedMinutes(now: int, doseAt: int): int {
    FloorDiv(now - doseAt, MinuteMs)
  }

  /** `getTimeStatus`. */
  function GetTimeStatus(now: int, doseAt: int): TimeStatus {
    var m := ElapsedMinutes(now, doseAt);
    if m < 30 then TimeStatus("Agora!", "text-red-600", "bg-red-50 border-red-200", Now)
    else if m < 60 then TimeStatus("Há " + IntToString(m) + " min", "text-orange-600", "bg-orange-50 border-orange-200", Minutes)
    else TimeStatus("Há " + IntToString(m / 60) + "h", "text-yellow-600", "bg-yellow-50 border-yellow-200", Hours)
  }

  /**
   * Under 30 elapsed minutes (a dose still in the future included) the text is "Agora!";
   * from 30 to 59 it counts minutes; from 60 on it counts whole hours, rounded down.
   */
  lemma TimeStatusBands(now: int, doseAt: int)
    ensures var m := ElapsedMinutes(now, doseAt);
      && (m < 30 <==> GetTimeStatus(now, doseAt).band == Now)
      && (m < 30 ==> GetTimeStatus(now, doseAt).text == "Agora!" && GetTimeStatus(now, doseAt).color == "text-red-600")
      && (30 <= m < 60 ==> GetTimeStatus(now, doseAt).text == "Há " + IntToString(m) + " min")
      && (m >= 60 ==> exists h: nat :: h * 60 <= m < h * 60 + 60 && h >= 1
                                     && GetTimeStatus(now, doseAt).text == "Há " + IntToString(h) + "h")
  {
    var m := ElapsedMinutes(now, doseAt);
    if m >= 60 {
      var h: nat := m / 60;
      assert h * 60 <= m < h * 60 + 60;
    }
  }

  /** A dose due in the future is shown as due now. */
  lemma FutureDoseIsNow(now: int, doseAt: int)
    requires doseAt > now
    ensures GetTimeStatus(now, doseAt).text == "Agora!"
  {
    assert ElapsedMinutes(now, doseAt) < 0;
  }

  function BandRank(b: Band): nat {
    match b
    case Now => 0
    case Minutes => 1
    case Hours => 2
  }

  /** The later the dose was due, the lower the band: an earlier dose never shows as less late. */
  lemma BandMonotone(now: int, earlier: int, later: int)
    requires earlier <= later
    ensures BandRank(GetTimeStatus(now, later).band) <= BandRank(GetTimeStatus(now, earlier).band)
  {
    assert now - later <= now - earlier;
    assert ElapsedMinutes(now, later) <= ElapsedMinutes(now, earlier);
  }

  const DoseNote := "Dose aplicada via lembrete"

  /**
   * `handleMarkAsDone`: a new medication with the reminder's title, details and reminder
   * settings, the fixed note and the saved child selection (`null` when none or empty).
   */
  function DosePayload(reminder: Record, selectedChildId: Option<string>): (p: RecordPatch)
    ensures p.kind == Some(Medication)
    ensures p.title == Some(reminder.body.title) && p.details == Some(reminder.body.details)
    ensures p.notes == Some(Some(DoseNote))
    ensures p.reminderEnabled == Some(reminder.body.reminderEnabled)
    ensures p.reminderIntervalHours == Some(reminder.body.reminderIntervalHours)
    ensures p.childId == Some(if selectedChildId.Some? && selectedChildId.value != "" then selectedChildId else None)
    ensures p.id.None? && p.createdAt.None? && p.nextDoseAt.None? && p.symptomType.None? && p.temperature.None?
  {
    EmptyPatch.(kind := Some(Medication), title := Some(reminder.body.title), details := Some(reminder.body.details),
      notes := Some(Some(DoseNote)),
      childId := Some(if selectedChildId.Some? && selectedChildId.value != "" then selectedChildId else None),
      reminderEnabled := Some(reminder.body.reminderEnabled),
      reminderIntervalHours := Some(reminder.body.reminderIntervalHours))
  }

  /** `{n} dose pendente` / `{n} doses pendentes`. */
  function PendingText(n: nat): string {
    NatToString(n) + (if n == 1 then " dose pendente" else " doses pendentes")
  }

  /** The count line starts with the number's digits, which read back as the number, and uses the singular exactly for one dose. */
  lemma PendingTextMeaning(n: nat)
    ensures var d := NatToString(n); |d| < |PendingText(n)| && PendingText(n)[..|d|] == d && ParseDigits(d) == n
    ensures PendingText(n)[|NatToString(n)|..] == " dose pendente" <==> n == 1
    ensures n != 1 ==> PendingText(n)[|NatToString(n)|..] == " doses pendentes"
  {
    var d := NatToString(n);
    ParseNatToString(n);
    assert PendingText(n)[..|d|] == d;
    if n != 1 {
      assert PendingText(n)[|d|..] == " doses pendentes";
      assert |" doses pendentes"| != |" dose pendente"|;
    }
  }
}

/**
 * The card of one incident: the look of its severity and status, the records linked to
 * it and their counts, the status update it sends, which buttons it shows and the
 * arguments of its PDF export. The clock and the update's outcome are parameters.
 */
module IncidentCard {
  import opened Wrappers
  import opened Text
  import opened Lists
  import opened RecordTypes

  /** The styling of a severity: text colour, background, badge classes and label. */
  datatype SeverityConfig = SeverityConfig(color: string, bg: string, badge: string, name: string)

  /** The styling of a status: label and badge classes. */
  datatype StatusConfig = StatusConfig(name: string, badge: string)

  const HighConfig := SeverityConfig("text-red-600 dark:text-red-400", "bg-red-50 dark:bg-red-950/20",
    "bg-red-100 text-red-700 dark:bg-red-900/50 dark:text-red-300", "Alta")
  const MediumConfig := SeverityConfig("text-yellow-600 dark:text-yellow-400", "bg-yellow-50 dark:bg-yellow-950/20",
    "bg-yellow-100 text-yellow-700 dark:bg-yellow-900/50 dark:text-yellow-300", "Média")
  const LowConfig := SeverityConfig("text-blue-600 dark:text-blue-400", "bg-blue-50 dark:bg-blue-950/20",
    "bg-blue-100 text-blue-700 dark:bg-blue-900/50 dark:text-blue-300", "Baixa")

  const ResolvedConfig := StatusConfig("Resolvido", "bg-green-100 text-green-700 dark:bg-green-900/50 dark:text-green-300")
  const MonitoringConfig := StatusConfig("Monitorando", "bg-purple-100 text-purple-700 dark:bg-purple-900/50 dark:text-purple-300")
  const ActiveConfig := StatusConfig("Ativo", "bg-orange-100 text-orange-700 dark:bg-orange-900/50 dark:text-orange-300")

  /** `getSeverityConfig`: `high` and `medium` have their own look; every other value, `low` included, looks low. */
  function GetSeverityConfig(severity: string): (c: SeverityConfig)
    ensures severity == "high" <==> c == HighConfig
    ensures severity == "medium" <==> c == MediumConfig
    ensures severity != "high" && severity != "medium" <==> c == LowConfig
  {
    if severity == "high" then HighConfig
    else if severity == "medium" then MediumConfig
    else LowConfig
  }

  /** `getStatusConfig`: `resolved` and `monitoring` have their own; every other value, `active` included, looks active. */
  function GetStatusConfig(status: string): (c: StatusConfig)
    ensures status == "resolved" <==> c == ResolvedConfig
    ensures status == "monitoring" <==> c == MonitoringConfig
    ensures status != "resolved" && status != "monitoring" <==> c == ActiveConfig
  {
    if status == "resolved" then ResolvedConfig
    else if status == "monitoring" then MonitoringConfig
    else ActiveConfig
  }

  predicate LinkedTo(r: Record, incident: Incident) {
    r.body.incidentId == Some(incident.id)
  }

  /** The records whose `incident_id` is the incident's id, in the given order. */
  function IncidentRecords(incident: Incident, records: seq<Record>): seq<Record> {
    Filter(records, (r: Record) => LinkedTo(r, incident))
  }

  /** The linked records are exactly those of the list that carry the incident's id, and they split into symptoms and medications. */
  lemma IncidentCounts(incident: Incident, records: seq<Record>)
    ensures forall r :: r in IncidentRecords(incident, records) <==> r in records && LinkedTo(r, incident)
    ensures |OfKind(IncidentRecords(incident, records), Symptom)| + |OfKind(IncidentRecords(incident, records), Medication)|
      == |IncidentRecords(incident, records)| <= |records|
  {
    OfKindSplit(IncidentRecords(incident, records));
  }

  const MedicationOne := "medicação"
  const MedicationMany := "medicações"

  /** `{symptomsCount} sintoma(s)`, `{medicationsCount} medicação(ões)` and the expanded list's heading. */
  function SymptomsWord(n: nat): string {
    if n != 1 then "sintomas" else "sintoma"
  }

  function MedicationsWord(n: nat): string {
    if n != 1 then MedicationMany else MedicationOne
  }

  function LinkedHeading(n: nat): string {
    var s := if n != 1 then "s" else "";
    NatToString(n) + " registro" + s + " associado" + s
  }

  /** The singular is used exactly for one. */
  lemma SymptomsWordPlural(n: nat)
    ensures SymptomsWord(n) == "sintoma" <==> n == 1
  {
    assert |"sintomas"| == 8;
  }

  lemma MedicationsWordPlural(n: nat)
    ensures MedicationsWord(n) == MedicationOne <==> n == 1
  {
    assert |MedicationMany| == 10 && |MedicationOne| == 9;
  }

  lemma LinkedHeadingPlural(n: nat)
    ensures LinkedHeading(n) == NatToString(n) + (if n == 1 then " registro associado" else " registros associados")
  {
  }

  /** The update sent to the incident's row. */
  datatype StatusUpdate = StatusUpdate(status: string, resolvedAt: Option<int>)

  /** The row after an update: the new status, and `resolved_at` when the update carries one. */
  function Applied(incident: Incident, u: StatusUpdate): Incident {
    incident.(status := u.status, resolvedAt := if u.resolvedAt.Some? then u.resolvedAt else incident.resolvedAt)
  }

  /** The update `handleStatusChange(newStatus)` builds; `now` is the time of the click. */
  function UpdateFor(incident: Incident, newStatus: string, now: int): (u: StatusUpdate)
    ensures u.status == newStatus
    ensures u.resolvedAt.Some? <==> newStatus == "resolved" && incident.resolvedAt.None?
    ensures u.resolvedAt.Some? ==> u.resolvedAt.value == now
  {
    if newStatus == "resolved" && incident.resolvedAt.None? then StatusUpdate(newStatus, Some(now))
    else StatusUpdate(newStatus, None)
  }

  /** Resolving stamps the first resolution time only: resolving again keeps it. */
  lemma ResolveKeepsFirstTime(incident: Incident, t1: int, t2: int)
    ensures var once := Applied(incident, UpdateFor(incident, "resolved", t1));
      once.status == "resolved" && once.resolvedAt == (if incident.resolvedAt.Some? then incident.resolvedAt else Some(t1))
      && Applied(once, UpdateFor(once, "resolved", t2)) == once
  {
  }

  /** Which buttons the card shows. */
  datatype Buttons = Buttons(resolve: bool, pdfInGrid: bool, exportRow: bool)

  function ButtonsOf(incident: Incident, records: seq<Record>): Buttons {
    var n := |IncidentRecords(incident, records)|;
    if incident.status != "resolved" then Buttons(true, false, n > 0)
    else Buttons(false, n > 0, false)
  }

  /** Resolve shows iff the incident is not resolved; some PDF export shows iff it has records, and never two at once. */
  lemma ButtonsRule(incident: Incident, records: seq<Record>)
    ensures ButtonsOf(incident, records).resolve <==> incident.status != "resolved"
    ensures ButtonsOf(incident, records).pdfInGrid || ButtonsOf(incident, records).exportRow
      <==> |IncidentRecords(incident, records)| > 0
    ensures !(ButtonsOf(incident, records).pdfInGrid && ButtonsOf(incident, records).exportRow)
    ensures ButtonsOf(incident, records).pdfInGrid ==> incident.status == "resolved"
  {
  }

  /** The arguments of `generatePDFReport` from the card. */
  datatype ExportArgs = ExportArgs(records: seq<Record>, childName: string, startDate: int, endDate: int)

  function ExportArgsOf(incident: Incident, records: seq<Record>, now: int): (a: ExportArgs)
    ensures a.records == IncidentRecords(incident, records)
    ensures a.childName == "Incidente: " + incident.title
    ensures a.startDate == incident.startedAt
    ensures incident.resolvedAt.Some? ==> a.endDate == incident.resolvedAt.value
    ensures incident.resolvedAt.None? ==> a.endDate == now
  {
    ExportArgs(IncidentRecords(incident, records), "Incidente: " + incident.title, incident.startedAt,
      if incident.resolvedAt.Some? then incident.resolvedAt.value else now)
  }

  const UpdateFailed := "Erro ao atualizar status do incidente"

  /** The card's state. */
  class Card {
    var incident: Incident
    var isExpanded: bool
    var isUpdating: bool

    constructor (incident: Incident)
      ensures this.incident == incident && !isExpanded && !isUpdating
    {
      this.incident := incident;
      isExpanded := false;
      isUpdating := false;
    }

    method ToggleExpanded()
      modifies this
      ensures isExpanded == !old(isExpanded) && incident == old(incident) && isUpdating == old(isUpdating)
    {
      isExpanded := !isExpanded;
    }

    /**
     * `handleStatusChange`: the update is built, then extended with the resolution time;
     * on failure the alert, on success the parent's refresh. Updating ends cleared
     * either way. The card's own incident is the parent's to refresh, so it stays.
     */
    method HandleStatusChange(newStatus: string, now: int, updateFails: bool)
      returns (sent: StatusUpdate, alert: Option<string>, refreshed: bool)
      modifies this
      ensures sent == UpdateFor(old(incident), newStatus, now)
      ensures alert.Some? <==> updateFails
      ensures alert.Some? ==> alert.value == UpdateFailed
      ensures refreshed <==> !updateFails
      ensures !isUpdating && incident == old(incident) && isExpanded == old(isExpanded)
    {
      isUpdating := true;
      sent := StatusUpdate(newStatus, None);
      if newStatus == "resolved" && incident.resolvedAt.None? {
        sent := sent.(resolvedAt := Some(now));
      }
      if updateFails {
        alert, refreshed := Some(UpdateFailed), false;
      } else {
        alert, refreshed := None, true;
      }
      isUpdating := false;
    }
  }
}

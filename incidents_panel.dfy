/**
 * The panel listing a child's incidents: the fetched list (empty on any error), its
 * split into active and resolved incidents, and what the panel shows.
 */
module IncidentsPanel {
  import opened Wrappers
  import opened Lists
  import opened Remote
  import opened RecordTypes

  /**
   * `fetchIncidents`: the rows on success, `[]` for no data; a failed request, whether
   * the table is missing or anything else went wrong, also leaves the list empty.
   */
  function Fetched(reply: Reply<seq<Incident>>): (incidents: seq<Incident>)
    ensures reply.Failed? ==> incidents == []
    ensures reply.Succeeded? && reply.data.None? ==> incidents == []
    ensures reply.Succeeded? && reply.data.Some? ==> incidents == reply.data.value
  {
    if reply.Succeeded? && reply.data.Some? then reply.data.value else []
  }

  predicate IsResolved(i: Incident) {
    i.status == "resolved"
  }

  function Active(incidents: seq<Incident>): seq<Incident> {
    Filter(incidents, (i: Incident) => !IsResolved(i))
  }

  function Resolved(incidents: seq<Incident>): seq<Incident> {
    Filter(incidents, (i: Incident) => IsResolved(i))
  }

  /** Every incident is in exactly one of the two lists, as often as in the fetched list. */
  lemma PartitionIncidents(incidents: seq<Incident>)
    ensures multiset(Active(incidents)) + multiset(Resolved(incidents)) == multiset(incidents)
    ensures |Active(incidents)| + |Resolved(incidents)| == |incidents|
    ensures forall i :: i in Active(incidents) <==> i in incidents && i.status != "resolved"
    ensures forall i :: i in Resolved(incidents) <==> i in incidents && i.status == "resolved"
  {
    FilterPartition(incidents, (i: Incident) => !IsResolved(i), (i: Incident) => IsResolved(i));
    FilterSplit(incidents, (i: Incident) => !IsResolved(i), (i: Incident) => IsResolved(i));
  }

  /** Both lists keep the fetched order: splitting the input splits each list the same way. */
  lemma PartitionKeepsOrder(a: seq<Incident>, b: seq<Incident>)
    ensures Active(a + b) == Active(a) + Active(b)
    ensures Resolved(a + b) == Resolved(a) + Resolved(b)
  {
    FilterAppend(a, b, (i: Incident) => !IsResolved(i));
    FilterAppend(a, b, (i: Incident) => IsResolved(i));
  }

  /** What the panel renders. */
  datatype View =
    | LoadingCard
    | EmptyState
    | Panel(activeBadge: Option<nat>, active: seq<Incident>, resolvedToggle: Option<nat>, resolvedShown: seq<Incident>)

  function ViewOf(isLoading: bool, incidents: seq<Incident>, showResolved: bool): View {
    if isLoading then LoadingCard
    else if |incidents| == 0 then EmptyState
    else
      var act := Active(incidents);
      var res := Resolved(incidents);
      Panel(if |act| > 0 then Some(|act|) else None, act,
        if |res| > 0 then Some(|res|) else None,
        if |res| > 0 && showResolved then res else [])
  }

  /**
   * The empty state shows exactly for an empty list once loaded; the badge shows iff some
   * incident is active, with their number; resolved incidents are listed only when there
   * are some and the toggle is open.
   */
  lemma ViewRules(isLoading: bool, incidents: seq<Incident>, showResolved: bool)
    ensures ViewOf(isLoading, incidents, showResolved) == EmptyState <==> !isLoading && incidents == []
    ensures ViewOf(isLoading, incidents, showResolved).Panel? ==>
      (ViewOf(isLoading, incidents, showResolved).activeBadge.Some? <==> exists i :: i in incidents && i.status != "resolved")
    ensures ViewOf(isLoading, incidents, showResolved).Panel? && ViewOf(isLoading, incidents, showResolved).activeBadge.Some? ==>
      ViewOf(isLoading, incidents, showResolved).activeBadge.value == |Active(incidents)|
    ensures ViewOf(isLoading, incidents, showResolved).Panel? ==>
      ViewOf(isLoading, incidents, showResolved).resolvedShown == (if showResolved then Resolved(incidents) else [])
  {
    PartitionIncidents(incidents);
    if !isLoading && |incidents| > 0 && |Active(incidents)| > 0 {
      assert Active(incidents)[0] in Active(incidents);
    }
  }

  /**
   * Once loading ends after a fetch, the empty state shows exactly when the request failed,
   * returned no data or returned no row; otherwise the lists are drawn from the returned rows.
   */
  lemma FetchedView(reply: Reply<seq<Incident>>, showResolved: bool)
    ensures ViewOf(false, Fetched(reply), showResolved) == EmptyState <==>
      reply.Failed? || reply.data.None? || reply.data.value == []
    ensures ViewOf(false, Fetched(reply), showResolved).Panel? ==>
      reply.Succeeded? && reply.data.Some? && ViewOf(false, Fetched(reply), showResolved).active == Active(reply.data.value)
  {
  }
}

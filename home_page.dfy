/**
 * The home page: the children the user can see, the child selected (and remembered in
 * the browser's storage), and the records of that child created today. The session,
 * the requests' replies and the clock are parameters.
 */
module HomePage {
  import opened Wrappers
  import opened Text
  import opened Lists
  import opened Time
  import opened Remote
  import opened RecordTypes

  /** `children.find(c => c.is_active)`. */
  function FirstActive(children: seq<Child>): (c: Option<Child>)
    ensures c.Some? ==> c.value in children && c.value.isActive
    ensures c.None? ==> forall k :: k in children ==> !k.isActive
  {
    if children == [] then None
    else if children[0].isActive then Some(children[0])
    else FirstActive(children[1..])
  }

  predicate Accessible(children: seq<Child>, id: string) {
    exists c :: c in children && c.id == id
  }

  /**
   * `nextChildId`: the saved id when some child has it, else the first active child's id,
   * else the first child's id, each taken only when it is a non-empty id.
   */
  function NextChildId(children: seq<Child>, saved: Option<string>): (r: Option<string>)
    ensures r.Some? ==> r.value != ""
  {
    if Truthy(saved) && Accessible(children, saved.value) then saved
    else
      var a := FirstActive(children);
      if a.Some? && a.value.id != "" then Some(a.value.id)
      else if |children| > 0 && children[0].id != "" then Some(children[0].id)
      else None
  }

  /** The selection rule in the order the page applies it. */
  lemma NextChildRule(children: seq<Child>, saved: Option<string>)
    ensures Truthy(saved) && Accessible(children, saved.value) ==> NextChildId(children, saved) == saved
    ensures (!(Truthy(saved) && Accessible(children, saved.value)) && FirstActive(children).Some?
      && FirstActive(children).value.id != "") ==> NextChildId(children, saved) == Some(FirstActive(children).value.id)
    ensures ((forall c :: c in children ==> !c.isActive) && !(Truthy(saved) && Accessible(children, saved.value))
      && |children| > 0 && children[0].id != "") ==> NextChildId(children, saved) == Some(children[0].id)
    ensures NextChildId(children, saved).Some? ==> Accessible(children, NextChildId(children, saved).value)
  {
  }

  /** When every id is non-empty, a non-empty list always yields a selection. */
  lemma SomeChildIsChosen(children: seq<Child>, saved: Option<string>)
    requires |children| > 0 && forall c :: c in children ==> c.id != ""
    ensures NextChildId(children, saved).Some?
  {
    assert children[0] in children;
  }

  predicate CreatedToday(r: Record, now: int) {
    StartOfDay(now) <= r.createdAt < StartOfDay(now) + DayMs
  }

  /** The records of today, from local midnight to the next one excluded, in fetched order. */
  function TodayRecords(data: seq<Record>, now: int): (rs: seq<Record>)
    ensures forall r :: r in rs <==> r in data && StartOfDay(now) <= r.createdAt < StartOfDay(now) + DayMs
  {
    Filter(data, (r: Record) => CreatedToday(r, now))
  }

  /** A record is today's iff it falls on the same day as `now`. */
  lemma TodayIsSameDay(r: Record, now: int)
    ensures CreatedToday(r, now) <==> DayOf(r.createdAt) == DayOf(now)
  {
    DayBounds(r.createdAt, now);
  }

  lemma DayBounds(t: int, now: int)
    ensures StartOfDay(now) <= t < StartOfDay(now) + DayMs <==> DayOf(t) == DayOf(now)
  {
    assert StartOfDay(now) == DayOf(now) * DayMs;
    assert DayOf(t) * DayMs <= t < DayOf(t) * DayMs + DayMs;
    if DayOf(t) < DayOf(now) {
      assert DayOf(t) * DayMs + DayMs <= DayOf(now) * DayMs;
    } else if DayOf(t) > DayOf(now) {
      assert DayOf(now) * DayMs + DayMs <= DayOf(t) * DayMs;
    }
  }

  /** The page's state; `stored` is the `selectedChildId` entry of the browser's storage. */
  class Home {
    var children: seq<Child>
    var records: seq<Record>
    var selectedChildId: Option<string>
    var isLoading: bool
    var isRefreshing: bool
    var stored: Option<string>

    /** The first render: the saved selection, when there is one, becomes the selection. */
    constructor (stored: Option<string>)
      ensures children == [] && records == [] && isLoading && !isRefreshing
      ensures this.stored == stored
      ensures selectedChildId == if Truthy(stored) then stored else None
    {
      children := [];
      records := [];
      this.stored := stored;
      selectedChildId := if Truthy(stored) then stored else None;
      isLoading := true;
      isRefreshing := false;
    }

    /**
     * `fetchChildren`: no session clears the list; a failed request changes nothing; no
     * child clears the list, ends loading and forgets the saved selection; otherwise the
     * next child is selected and remembered.
     */
    method FetchChildren(hasSession: bool, reply: Reply<seq<Child>>)
      modifies this
      ensures records == old(records) && isRefreshing == old(isRefreshing)
      ensures !hasSession ==> (children == [] && selectedChildId == old(selectedChildId)
        && stored == old(stored) && isLoading == old(isLoading))
      ensures hasSession && reply.Failed? ==> (children == old(children) && selectedChildId == old(selectedChildId)
        && stored == old(stored) && isLoading == old(isLoading))
      ensures hasSession && reply.Succeeded? && (reply.data.None? || reply.data.value == []) ==>
        (children == [] && !isLoading && stored.None? && selectedChildId == old(selectedChildId))
      ensures hasSession && reply.Succeeded? && reply.data.Some? && reply.data.value != [] ==>
        (children == reply.data.value && selectedChildId == NextChildId(reply.data.value, old(stored))
        && stored == selectedChildId && isLoading == old(isLoading))
    {
      if !hasSession {
        children := [];
        return;
      }
      if reply.Failed? {
        return;
      }
      var data := reply.data.GetOr([]);
      if |data| == 0 {
        children := [];
        isLoading := false;
        stored := None;
        return;
      }
      children := data;
      var next := NextChildId(data, stored);
      if next.Some? {
        selectedChildId := next;
        stored := next;
      } else {
        selectedChildId := None;
        stored := None;
      }
    }

    /**
     * `fetchRecords`: without a session the list empties; a failed request keeps it;
     * otherwise it holds the fetched rows created today. Loading and refreshing end.
     * `data` is what the query returned for the child, newest first.
     */
    method FetchRecords(hasSession: bool, reply: Reply<seq<Record>>, now: int)
      modifies this
      ensures !isLoading && !isRefreshing
      ensures children == old(children) && selectedChildId == old(selectedChildId) && stored == old(stored)
      ensures !hasSession ==> records == []
      ensures hasSession && reply.Failed? ==> records == old(records)
      ensures hasSession && reply.Succeeded? ==> records == TodayRecords(reply.data.GetOr([]), now)
    {
      if !hasSession {
        records := [];
        isLoading := false;
        isRefreshing := false;
        return;
      }
      if reply.Succeeded? {
        records := Filter(reply.data.GetOr([]), (r: Record) => CreatedToday(r, now));
      }
      isLoading := false;
      isRefreshing := false;
    }

    /** `handleRefresh` starts a refresh; the fetch that follows ends it. */
    method StartRefresh()
      modifies this
      ensures isRefreshing
      ensures children == old(children) && records == old(records) && selectedChildId == old(selectedChildId)
      ensures stored == old(stored) && isLoading == old(isLoading)
    {
      isRefreshing := true;
    }

    /** `handleChildChange`: the chosen child is selected and remembered. */
    method HandleChildChange(childId: string)
      modifies this
      ensures selectedChildId == Some(childId) && stored == Some(childId)
      ensures children == old(children) && records == old(records)
      ensures isLoading == old(isLoading) && isRefreshing == old(isRefreshing)
    {
      selectedChildId := Some(childId);
      stored := Some(childId);
    }
  }
}

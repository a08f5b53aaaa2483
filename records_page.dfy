/**
 * The records history page: the children the user can see, the child selected, that
 * child's records and the ones the date range keeps. The session, the requests' replies
 * and the saved selection are parameters.
 */
module RecordsPage {
  import opened Wrappers
  import opened Remote
  import opened RecordTypes
  import opened DateFilter

  predicate HasChild(children: seq<Child>, id: string) {
    exists c :: c in children && c.id == id
  }

  /** The child to select: the saved id when some child has it, else the first child. */
  function DefaultChild(children: seq<Child>, saved: Option<string>): (id: string)
    requires |children| > 0
    ensures HasChild(children, id)
    ensures saved.Some? && saved.value != "" && HasChild(children, saved.value) ==> id == saved.value
    ensures !(saved.Some? && saved.value != "" && HasChild(children, saved.value)) ==> id == children[0].id
  {
    if saved.Some? && saved.value != "" && HasChild(children, saved.value) then saved.value
    else
      assert children[0] in children;
      children[0].id
  }

  /** `children.find(c => c.id === selectedChildId)?.name || 'Criança'`. */
  function ChildName(children: seq<Child>, selected: Option<string>): (name: string)
    ensures name != ""
    ensures (forall c :: c in children ==> selected != Some(c.id)) ==> name == "Criança"
  {
    if children == [] then "Criança"
    else if selected == Some(children[0].id) then (if children[0].name != "" then children[0].name else "Criança")
    else ChildName(children[1..], selected)
  }

  /** The name shown is the first matching child's, when it has one. */
  lemma {:induction false} ChildNameOfFirstMatch(children: seq<Child>, selected: Option<string>, k: nat)
    requires k < |children| && selected == Some(children[k].id)
    requires forall j :: 0 <= j < k ==> children[j].id != children[k].id
    ensures ChildName(children, selected) == (if children[k].name != "" then children[k].name else "Criança")
    decreases k
  {
    if k > 0 {
      ChildNameOfFirstMatch(children[1..], selected, k - 1);
    }
  }

  /** The page's state; `stored` is the `selectedChildId` entry of the browser's storage. */
  class Page {
    var children: seq<Child>
    var selectedChildId: Option<string>
    var records: seq<Record>
    var filteredRecords: seq<Record>
    var dateRange: Option<DateRange>
    var isLoading: bool
    var stored: Option<string>

    constructor (stored: Option<string>)
      ensures children == [] && selectedChildId.None? && records == [] && filteredRecords == []
      ensures dateRange.None? && isLoading && this.stored == stored
    {
      children := [];
      selectedChildId := None;
      records := [];
      filteredRecords := [];
      dateRange := None;
      isLoading := true;
      this.stored := stored;
    }

    /**
     * `fetchChildren`: no session clears the list; a failed request changes nothing; no
     * child clears the list and the selection and forgets the saved one; otherwise the
     * default child is selected (the saved entry is left as it is).
     */
    method FetchChildren(hasSession: bool, reply: Reply<seq<Child>>)
      modifies this
      ensures records == old(records) && filteredRecords == old(filteredRecords)
      ensures dateRange == old(dateRange) && isLoading == old(isLoading)
      ensures !hasSession ==> (children == [] && selectedChildId == old(selectedChildId) && stored == old(stored))
      ensures hasSession && reply.Failed? ==>
        (children == old(children) && selectedChildId == old(selectedChildId) && stored == old(stored))
      ensures hasSession && reply.Succeeded? && (reply.data.None? || reply.data.value == []) ==>
        (children == [] && selectedChildId.None? && stored.None?)
      ensures hasSession && reply.Succeeded? && reply.data.Some? && reply.data.value != [] ==>
        (children == reply.data.value && selectedChildId == Some(DefaultChild(reply.data.value, old(stored)))
        && stored == old(stored))
    {
      if !hasSession {
        children := [];
        return;
      }
      if reply.Failed? {
        return;
      }
      var data := reply.data.GetOr([]);
      if |data| == 0 {
        children := [];
        selectedChildId := None;
        stored := None;
        return;
      }
      children := data;
      if stored.Some? && stored.value != "" && HasChild(data, stored.value) {
        selectedChildId := stored;
      } else {
        selectedChildId := Some(data[0].id);
      }
    }

    /**
     * `fetchRecords`: nothing at all without a selection; without a session the list
     * empties; a failed request keeps it; otherwise it holds the fetched rows.
     */
    method FetchRecords(hasSession: bool, reply: Reply<seq<Record>>)
      modifies this
      ensures children == old(children) && selectedChildId == old(selectedChildId) && stored == old(stored)
      ensures filteredRecords == old(filteredRecords) && dateRange == old(dateRange)
      ensures (old(selectedChildId).None? || old(selectedChildId) == Some("")) ==>
        (records == old(records) && isLoading == old(isLoading))
      ensures old(selectedChildId).Some? && old(selectedChildId) != Some("") ==> (!isLoading
        && (!hasSession ==> records == [])
        && (hasSession && reply.Failed? ==> records == old(records))
        && (hasSession && reply.Succeeded? ==> records == reply.data.GetOr([])))
    {
      if selectedChildId.None? || selectedChildId == Some("") {
        return;
      }
      isLoading := true;
      if !hasSession {
        records := [];
        isLoading := false;
        return;
      }
      if reply.Succeeded? {
        records := reply.data.GetOr([]);
      }
      isLoading := false;
    }

    /** The effect run whenever the records or the range change. */
    method FilterRecords()
      modifies this
      ensures filteredRecords == FilterByRange(records, dateRange)
      ensures children == old(children) && selectedChildId == old(selectedChildId) && records == old(records)
      ensures dateRange == old(dateRange) && isLoading == old(isLoading) && stored == old(stored)
    {
      filteredRecords := FilterByRange(records, dateRange);
    }

    method SetDateRange(range: Option<DateRange>)
      modifies this
      ensures dateRange == range
      ensures children == old(children) && selectedChildId == old(selectedChildId) && records == old(records)
      ensures filteredRecords == old(filteredRecords) && isLoading == old(isLoading) && stored == old(stored)
    {
      dateRange := range;
    }

    /** `handleClearFilter`: no range, so the next filter shows every record. */
    method HandleClearFilter()
      modifies this
      ensures dateRange.None? && FilterByRange(records, dateRange) == records
      ensures children == old(children) && selectedChildId == old(selectedChildId) && records == old(records)
      ensures filteredRecords == old(filteredRecords) && isLoading == old(isLoading) && stored == old(stored)
    {
      dateRange := None;
    }
  }
}

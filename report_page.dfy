/**
 * The report page: the active children ordered by name, the child selected and its
 * name, the records the date range keeps, and the arguments of the PDF and CSV exports.
 * The children and records tables, the requests' outcomes and the saved selection are
 * parameters.
 */
module ReportPage {
  import opened Wrappers
  import opened Text
  import opened Lists
  import opened Remote
  import opened RecordTypes
  import opened DateFilter
  import opened Time

  /** Names in ascending order. The order of equal names is not fixed, as `ORDER BY name` does not fix it either. */
  predicate ByName(s: seq<Child>) {
    forall i, j :: 0 <= i < j < |s| ==> !StrLess(s[j].name, s[i].name)
  }

  /** Inserts `c` after every child whose name is not greater. */
  function InsertByName(c: Child, s: seq<Child>): (r: seq<Child>)
    ensures multiset(r) == multiset(s) + multiset{c}
  {
    if s == [] then [c]
    else if StrLess(c.name, s[0].name) then [c] + s
    else
      assert s == [s[0]] + s[1..];
      [s[0]] + InsertByName(c, s[1..])
  }

  lemma {:induction false} InsertByNameSorted(c: Child, s: seq<Child>)
    requires ByName(s)
    ensures ByName(InsertByName(c, s))
  {
    if s == [] {
    } else if StrLess(c.name, s[0].name) {
      forall j | 0 < j <= |s| ensures !StrLess(([c] + s)[j].name, c.name) {
        var y := s[j - 1];
        if StrLess(y.name, c.name) {
          StrLessTransitive(y.name, c.name, s[0].name);
          if j - 1 == 0 {
            StrLessIrreflexive(y.name);
          }
        }
      }
    } else {
      InsertByNameSorted(c, s[1..]);
      var t := InsertByName(c, s[1..]);
      assert multiset(t) == multiset(s[1..]) + multiset{c};
      forall j | 0 <= j < |t| ensures !StrLess(t[j].name, s[0].name) {
        assert t[j] in multiset(t);
        if t[j] != c {
          assert t[j] in multiset(s[1..]);
          var k :| 1 <= k < |s| && s[k] == t[j] by {
            assert t[j] in s[1..];
          }
        }
      }
    }
  }

  /** `order('name', { ascending: true })`. */
  function SortByName(s: seq<Child>): (r: seq<Child>)
    ensures multiset(r) == multiset(s) && ByName(r)
  {
    if s == [] then []
    else
      var t := SortByName(s[1..]);
      InsertByNameSorted(s[0], t);
      assert s == [s[0]] + s[1..];
      InsertByName(s[0], t)
  }

  /** The children query: the active rows of the table, ordered by name. */
  function ActiveChildrenByName(table: seq<Child>): seq<Child> {
    SortByName(Filter(table, (c: Child) => c.isActive))
  }

  /** Only active children are listed, each as often as in the table, ordered by name. */
  lemma ActiveChildrenMeaning(table: seq<Child>)
    ensures forall c :: c in ActiveChildrenByName(table) <==> c in table && c.isActive
    ensures ByName(ActiveChildrenByName(table))
  {
    var f := Filter(table, (c: Child) => c.isActive);
    forall c ensures c in ActiveChildrenByName(table) <==> c in f {
      assert c in ActiveChildrenByName(table) <==> c in multiset(ActiveChildrenByName(table));
      assert c in f <==> c in multiset(f);
    }
  }

  /** `children.find(c => c.id === id)`. */
  function FindChild(children: seq<Child>, id: string): (c: Option<Child>)
    ensures c.Some? ==> c.value in children && c.value.id == id
    ensures c.None? ==> forall k :: k in children ==> k.id != id
  {
    if children == [] then None
    else if children[0].id == id then Some(children[0])
    else FindChild(children[1..], id)
  }

  /** The arguments of `generatePDFReport` and `generateCSVReport`. */
  datatype ExportArgs = ExportArgs(records: seq<Record>, childName: string, startDate: Option<int>, endDate: Option<int>)

  /** The page's state; `stored` is the `selectedChildId` entry of the browser's storage. */
  class Page {
    var children: seq<Child>
    var selectedChildId: string
    var childName: string
    var records: seq<Record>
    var filteredRecords: seq<Record>
    var dateRange: Option<DateRange>
    var isLoading: bool
    var stored: Option<string>

    /** The first render: the saved selection, when non-empty, becomes the selection. */
    constructor (stored: Option<string>)
      ensures children == [] && records == [] && filteredRecords == [] && dateRange.None? && isLoading
      ensures childName == "Criança" && this.stored == stored
      ensures selectedChildId == if stored.Some? then stored.value else ""
    {
      children := [];
      records := [];
      filteredRecords := [];
      dateRange := None;
      isLoading := true;
      childName := "Criança";
      this.stored := stored;
      selectedChildId := if stored.Some? then stored.value else "";
    }

    /**
     * `fetchChildren`: a failed request changes nothing; otherwise the active children by
     * name are listed, and the saved child (when listed) or else the first child is
     * selected with its name. With no child the selection and the name stay.
     */
    method FetchChildren(table: seq<Child>, queryFails: bool)
      modifies this
      ensures records == old(records) && filteredRecords == old(filteredRecords) && dateRange == old(dateRange)
      ensures isLoading == old(isLoading) && stored == old(stored)
      ensures queryFails ==> (children == old(children) && selectedChildId == old(selectedChildId)
        && childName == old(childName))
      ensures !queryFails ==> children == ActiveChildrenByName(table)
      ensures !queryFails && stored.Some? && stored.value != "" && FindChild(children, stored.value).Some? ==>
        (selectedChildId == stored.value && childName == FindChild(children, stored.value).value.name)
      ensures (!queryFails && !(stored.Some? && stored.value != "" && FindChild(children, stored.value).Some?)
        && |children| > 0) ==> (selectedChildId == children[0].id && childName == children[0].name)
      ensures (!queryFails && !(stored.Some? && stored.value != "" && FindChild(children, stored.value).Some?)
        && |children| == 0) ==> (selectedChildId == old(selectedChildId) && childName == old(childName))
    {
      if queryFails {
        return;
      }
      var data := ActiveChildrenByName(table);
      children := data;
      if stored.Some? && stored.value != "" && FindChild(data, stored.value).Some? {
        selectedChildId := stored.value;
        var child := FindChild(data, stored.value);
        childName := child.value.name;
      } else if |data| > 0 {
        selectedChildId := data[0].id;
        childName := data[0].name;
      }
    }

    /** `fetchRecords`: the fetched rows, or the old list when the request fails. */
    method FetchRecords(reply: Reply<seq<Record>>)
      modifies this
      ensures !isLoading
      ensures reply.Succeeded? ==> records == reply.data.GetOr([])
      ensures reply.Failed? ==> records == old(records)
      ensures children == old(children) && selectedChildId == old(selectedChildId) && childName == old(childName)
      ensures filteredRecords == old(filteredRecords) && dateRange == old(dateRange) && stored == old(stored)
    {
      isLoading := true;
      if reply.Succeeded? {
        records := reply.data.GetOr([]);
      }
      isLoading := false;
    }

    /** `handleChildChange`: the chosen id is selected; the name follows when the child is listed. */
    method HandleChildChange(childId: string)
      modifies this
      ensures selectedChildId == childId
      ensures FindChild(children, childId).Some? ==> childName == FindChild(children, childId).value.name
      ensures FindChild(children, childId).None? ==> childName == old(childName)
      ensures children == old(children) && records == old(records) && filteredRecords == old(filteredRecords)
      ensures dateRange == old(dateRange) && isLoading == old(isLoading) && stored == old(stored)
    {
      selectedChildId := childId;
      var child := FindChild(children, childId);
      if child.Some? {
        childName := child.value.name;
      }
    }

    method SetDateRange(range: Option<DateRange>)
      modifies this
      ensures dateRange == range
      ensures children == old(children) && selectedChildId == old(selectedChildId) && childName == old(childName)
      ensures records == old(records) && filteredRecords == old(filteredRecords)
      ensures isLoading == old(isLoading) && stored == old(stored)
    {
      dateRange := range;
    }

    /** The effect run whenever the records or the range change. */
    method FilterRecords()
      modifies this
      ensures filteredRecords == FilterByRange(records, dateRange)
      ensures children == old(children) && selectedChildId == old(selectedChildId) && childName == old(childName)
      ensures records == old(records) && dateRange == old(dateRange)
      ensures isLoading == old(isLoading) && stored == old(stored)
    {
      filteredRecords := FilterByRange(records, dateRange);
    }

    /** Both exports get the kept records, the child's name, the start date and `to || from` as end date. */
    function Export(): (a: ExportArgs)
      reads this
      ensures a.records == filteredRecords && a.childName == childName
      ensures dateRange.None? ==> a.startDate.None? && a.endDate.None?
      ensures dateRange.Some? ==> a.startDate == dateRange.value.from
      ensures dateRange.Some? && dateRange.value.to.Some? ==> a.endDate == dateRange.value.to
      ensures dateRange.Some? && dateRange.value.to.None? ==> a.endDate == dateRange.value.from
    {
      if dateRange.None? then ExportArgs(filteredRecords, childName, None, None)
      else ExportArgs(filteredRecords, childName, dateRange.value.from, EndDay(dateRange.value))
    }

    /** Both export buttons are disabled iff no record is kept. */
    predicate ExportDisabled()
      reads this
    {
      |filteredRecords| == 0
    }
  }

  /**
   * With the kept records filtered from the records, the exports are disabled exactly when
   * no record is kept: without a start day when there is no record, otherwise when no
   * record falls on a day of the range.
   */
  lemma ExportDisabledMeaning(p: Page)
    requires p.filteredRecords == FilterByRange(p.records, p.dateRange)
    ensures p.dateRange.None? || p.dateRange.value.from.None? ==> (p.ExportDisabled() <==> p.records == [])
    ensures p.dateRange.Some? && p.dateRange.value.from.Some? ==>
      (p.ExportDisabled() <==> forall r :: r in p.records ==>
        !(DayOf(p.dateRange.value.from.value) <= DayOf(r.createdAt) <= DayOf(EndDay(p.dateRange.value).value)))
  {
    FilterByRangeMeaning(p.records, p.dateRange);
    if |p.filteredRecords| > 0 {
      assert p.filteredRecords[0] in p.filteredRecords;
    }
  }
}

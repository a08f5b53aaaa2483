/**
 * Replaying the queue of pending operations against the server ("drain"), and loading
 * the server's children, newest records and incidents into the cache ("hydration").
 */
module OfflineSync {
  import opened Wrappers
  import opened Sorting
  import opened RecordTypes
  import opened OfflineDb
  import opened Remote

  /** A request sent to the server while draining the queue. */
  datatype GatewayCall =
    | Insert(table: string, data: RecordPatch)
    | UpdateRow(table: string, id: Option<string>, changes: RecordPatch)
    | DeleteRow(table: string, id: Option<string>)

  /**
   * `handleCreate`, `handleUpdate` and `handleDelete`: a create inserts the payload, an update
   * sends the payload without `id` to the row `id`, a delete targets `data.id`.
   */
  function ReplayCall(op: PendingOperation): (c: GatewayCall)
    ensures op.kind == Create ==> c == Insert(TableName(op.table), op.data)
    ensures op.kind == Update ==> c.UpdateRow? && c.id == op.data.id && c.changes.id.None?
                                  && c.changes.(id := op.data.id) == op.data
    ensures op.kind == Delete ==> c == DeleteRow(TableName(op.table), op.data.id)
  {
    match op.kind
    case Create => Insert(TableName(op.table), op.data)
    case Update => UpdateRow(TableName(op.table), op.data.id, op.data.(id := None))
    case Delete => DeleteRow(TableName(op.table), op.data.id)
  }

  /** One request per operation, in queue order. */
  function Replays(ops: seq<PendingOperation>): (cs: seq<GatewayCall>)
    ensures |cs| == |ops| && forall i :: 0 <= i < |ops| ==> cs[i] == ReplayCall(ops[i])
  {
    if ops == [] then [] else Replays(ops[..|ops| - 1]) + [ReplayCall(ops[|ops| - 1])]
  }

  /** The operations whose attempt did not settle (`ok(i)` is the outcome of the `i`-th attempt), in order. */
  function Failures(ops: seq<PendingOperation>, ok: nat -> bool): (r: seq<PendingOperation>)
    ensures |r| <= |ops|
  {
    if ops == [] then []
    else
      var n := |ops| - 1;
      Failures(ops[..n], ok) + (if ok(n) then [] else [ops[n]])
  }

  lemma {:induction false} FailuresSubset(ops: seq<PendingOperation>, ok: nat -> bool)
    ensures forall x :: x in Failures(ops, ok) ==> x in ops
  {
    if ops != [] {
      var n := |ops| - 1;
      FailuresSubset(ops[..n], ok);
      assert forall x :: x in ops[..n] ==> x in ops;
    }
  }

  /** An operation stays queued exactly when its attempt did not settle. */
  lemma {:induction false} FailuresExactly(ops: seq<PendingOperation>, ok: nat -> bool, i: int)
    requires UniqueIds(ops) && 0 <= i < |ops|
    ensures ops[i] in Failures(ops, ok) <==> !ok(i)
    decreases |ops|
  {
    var n := |ops| - 1;
    var init := ops[..n];
    assert UniqueIds(init);
    FailuresSubset(init, ok);
    if i < n {
      assert init[i] == ops[i];
      FailuresExactly(init, ok, i);
      assert ops[i] != ops[n];
    } else {
      assert ops[n] !in init by {
        forall k | 0 <= k < n ensures init[k] != ops[n] {
          assert init[k] == ops[k];
        }
      }
    }
  }

  /** The failures keep the queue's index order and unique ids. */
  lemma {:induction false} FailuresOrdered(ops: seq<PendingOperation>, ok: nat -> bool)
    requires InIndexOrder(ops) && UniqueIds(ops)
    ensures InIndexOrder(Failures(ops, ok)) && UniqueIds(Failures(ops, ok))
  {
    if ops != [] {
      var n := |ops| - 1;
      var init := ops[..n];
      assert InIndexOrder(init) && UniqueIds(init);
      FailuresOrdered(init, ok);
      FailuresSubset(init, ok);
      var prev := Failures(init, ok);
      forall k | 0 <= k < |prev|
        ensures OpBefore(prev[k], ops[n]) && prev[k].id != ops[n].id
      {
        assert prev[k] in init;
        var j :| 0 <= j < n && init[j] == prev[k];
        assert init[j] == ops[j];
      }
    }
  }

  /** When every replay succeeds the queue ends empty; when none does, it is unchanged. */
  lemma {:induction false} FailuresExtremes(ops: seq<PendingOperation>, ok: nat -> bool)
    ensures (forall i :: 0 <= i < |ops| ==> ok(i)) ==> Failures(ops, ok) == []
    ensures (forall i :: 0 <= i < |ops| ==> !ok(i)) ==> Failures(ops, ok) == ops
  {
    if ops != [] {
      var n := |ops| - 1;
      FailuresExtremes(ops[..n], ok);
      assert ops[..n] + [ops[n]] == ops;
    }
  }

  lemma {:induction false} RemoveOpAbsent(q: seq<PendingOperation>, id: nat)
    requires forall i :: 0 <= i < |q| ==> q[i].id != id
    ensures RemoveOp(q, id) == q
  {
    if q != [] {
      RemoveOpAbsent(q[1..], id);
      assert q == [q[0]] + q[1..];
    }
  }

  lemma {:induction false} RemoveOpConcat(a: seq<PendingOperation>, b: seq<PendingOperation>, id: nat)
    ensures RemoveOp(a + b, id) == RemoveOp(a, id) + RemoveOp(b, id)
  {
    if a == [] {
      assert a + b == b;
    } else {
      var ab := a + b;
      assert ab[0] == a[0] && ab[1..] == a[1..] + b;
      RemoveOpConcat(a[1..], b, id);
      var head := if a[0].id == id then [] else [a[0]];
      assert RemoveOp(ab, id) == head + RemoveOp(a[1..] + b, id);
      assert RemoveOp(a, id) == head + RemoveOp(a[1..], id);
    }
  }

  /** The query `order('created_at', { ascending: false }).limit(500)` over the child's rows. */
  function NewestRecords(rows: seq<Record>): (r: seq<Record>)
    ensures |r| == if |rows| < 500 then |rows| else 500
    ensures forall i, j :: 0 <= i < j < |r| ==> r[i].createdAt >= r[j].createdAt
    ensures forall x :: x in r ==> x in rows
    ensures multiset(r) <= multiset(rows)
  {
    var sorted := SortDescBy(rows, (x: Record) => x.createdAt);
    MultisetSameElements(sorted, rows);
    var n := if |rows| < 500 then |rows| else 500;
    assert sorted == sorted[..n] + sorted[n..];
    sorted[..n]
  }

  /** No row left out by the limit is newer than a row kept. */
  lemma NewestRecordsAreNewest(rows: seq<Record>, x: Record)
    requires x in rows && x !in NewestRecords(rows)
    ensures |NewestRecords(rows)| == 500
    ensures forall i :: 0 <= i < 500 ==> NewestRecords(rows)[i].createdAt >= x.createdAt
  {
    var sorted := SortDescBy(rows, (y: Record) => y.createdAt);
    MultisetSameElements(sorted, rows);
    var k :| 0 <= k < |sorted| && sorted[k] == x;
    var n := if |rows| < 500 then |rows| else 500;
    forall i | 0 <= i < n ensures sorted[i] in sorted[..n] {
      assert sorted[..n][i] == sorted[i];
    }
    assert k >= n;
  }

  /** A drained operation is settled when its replay was accepted and clearing it completed. */
  function Both(ok: nat -> bool, cleared: nat -> bool): nat -> bool
  {
    (k: nat) => ok(k) && cleared(k)
  }

  /** After a drain an operation is still queued iff its replay failed or clearing it threw. */
  lemma StaysQueued(ops: seq<PendingOperation>, ok: nat -> bool, cleared: nat -> bool, i: int)
    requires UniqueIds(ops) && 0 <= i < |ops|
    ensures ops[i] in Failures(ops, Both(ok, cleared)) <==> !ok(i) || !cleared(i)
  {
    FailuresExactly(ops, Both(ok, cleared), i);
  }

  /**
   * Whether each local write of `syncFromServer` completes: the children batch and its
   * watermark, the records batch and its watermark, the incidents batch and its watermark.
   * Each is one IndexedDB transaction, so one that throws writes nothing.
   */
  datatype HydrationWrites = HydrationWrites(children: bool, childrenStamp: bool, records: bool,
                                             recordsStamp: bool, incidents: bool, incidentsStamp: bool)

  /** `useOfflineSync()`: the sync flags and the cache they act on. */
  class SyncHook {
    var isSyncing: bool
    var pendingCount: nat
    const db: Db

    ghost predicate Valid()
      reads this, db
    {
      db.Valid()
    }

    constructor (db: Db)
      requires db.Valid()
      ensures Valid() && !isSyncing && pendingCount == 0 && this.db == db
    {
      isSyncing, pendingCount := false, 0;
      this.db := db;
    }

    /** `updatePendingCount`: the count becomes the queue's length, unless reading the queue throws. */
    method UpdatePendingCount(readOk: bool)
      requires Valid()
      modifies this
      ensures Valid() && isSyncing == old(isSyncing)
      ensures pendingCount == if readOk then |db.pendingOperations| else old(pendingCount)
    {
      if readOk {
        var ops := db.GetPendingOperations();
        pendingCount := |ops|;
      }
    }

    /**
     * `syncPendingOperations`: nothing when the browser is offline or a drain is running.
     * Otherwise the queue is read (`readOk` is whether that read completes; when it throws,
     * the outer `catch` ends the sync) and each queued operation is replayed once, in index
     * order: `ok(i)` is whether the server accepted the `i`-th replay and `cleared(i)` whether
     * clearing it from the queue then completed. An operation leaves the queue only when
     * both did; the cached data is not touched. The count is refreshed afterwards, and
     * `countOk` is whether that read completes.
     */
    method SyncPendingOperations(navigatorOnline: bool, readOk: bool, ok: nat -> bool, cleared: nat -> bool, countOk: bool)
      returns (calls: seq<GatewayCall>)
      requires Valid()
      modifies this, db
      ensures Valid()
      ensures !navigatorOnline || old(isSyncing) ==>
                calls == [] && isSyncing == old(isSyncing) && pendingCount == old(pendingCount)
                && db.pendingOperations == old(db.pendingOperations)
      ensures navigatorOnline && !old(isSyncing) && !readOk ==>
                calls == [] && !isSyncing && pendingCount == old(pendingCount)
                && db.pendingOperations == old(db.pendingOperations)
      ensures navigatorOnline && !old(isSyncing) && readOk ==>
                && calls == Replays(old(db.pendingOperations))
                && db.pendingOperations == Failures(old(db.pendingOperations), Both(ok, cleared))
                && !isSyncing
                && pendingCount == (if old(db.pendingOperations) == [] || !countOk then old(pendingCount) else |db.pendingOperations|)
      ensures db.records == old(db.records) && db.children == old(db.children)
      ensures db.incidents == old(db.incidents) && db.metadata == old(db.metadata)
      ensures db.nextOperationId == old(db.nextOperationId)
    {
      calls := [];
      if !navigatorOnline || isSyncing {
        return;
      }
      isSyncing := true;
      if !readOk {
        isSyncing := false;
        return;
      }
      var ops := db.GetPendingOperations();
      if |ops| == 0 {
        isSyncing := false;
        return;
      }
      calls := Drain(ops, ok, cleared);
      UpdatePendingCount(countOk);
      isSyncing := false;
    }

    /**
     * The `for` loop of the drain: one replay per operation, then clearing it once the server
     * accepted it. A replay or a clearing that throws is caught for that operation alone,
     * which stays queued.
     */
    method Drain(ops: seq<PendingOperation>, ok: nat -> bool, cleared: nat -> bool) returns (calls: seq<GatewayCall>)
      requires db.Valid() && db.pendingOperations == ops
      modifies db
      ensures db.Valid()
      ensures calls == Replays(ops) && db.pendingOperations == Failures(ops, Both(ok, cleared))
      ensures db.records == old(db.records) && db.children == old(db.children)
      ensures db.incidents == old(db.incidents) && db.metadata == old(db.metadata)
      ensures db.nextOperationId == old(db.nextOperationId)
    {
      calls := [];
      var settled := Both(ok, cleared);
      for i := 0 to |ops|
        invariant db.Valid() && UniqueIds(ops)
        invariant calls == Replays(ops[..i])
        invariant db.pendingOperations == Failures(ops[..i], settled) + ops[i..]
        invariant db.records == old(db.records) && db.children == old(db.children)
        invariant db.incidents == old(db.incidents) && db.metadata == old(db.metadata)
        invariant db.nextOperationId == old(db.nextOperationId)
      {
        ReplaysStep(ops, i);
        calls := calls + [ReplayCall(ops[i])];
        if ok(i) && cleared(i) {
          ClearingOneOperation(ops, settled, i);
          db.ClearPendingOperation(ops[i].id);
        } else {
          KeepingOneOperation(ops, settled, i);
        }
      }
      assert ops[..|ops|] == ops;
    }

    /**
     * `syncFromServer`: the user's active children, then (for a non-empty `childId`) the
     * child's newest 500 records and its incidents. Each reply is what the server answers
     * for that query; `childRows` holds every record of the child; `w` says which local
     * writes complete. A failure of the children or records query, or a local write that
     * throws, ends the hydration; a failure of the incidents query is skipped. A table's
     * watermark is stamped, with the clock readings `t1`, `t2`, `t3`, only after that table
     * was saved. Nothing is ever removed from the cache.
     */
    method SyncFromServer(navigatorOnline: bool, childId: Option<string>,
                          childrenReply: Reply<seq<Child>>, childRows: Reply<seq<Record>>,
                          incidentsReply: Reply<seq<Incident>>, t1: int, t2: int, t3: int, w: HydrationWrites)
      requires Valid()
      modifies db
      ensures Valid()
      ensures var childrenSaved := navigatorOnline && childrenReply.Succeeded? && childrenReply.data.Some? && w.children;
        var childrenStamped := childrenSaved && w.childrenStamp;
        var reachRecords := navigatorOnline && childrenReply.Succeeded? && (childrenReply.data.None? || childrenStamped)
                            && childId.Some? && childId.value != "";
        var recordsSaved := reachRecords && childRows.Succeeded? && childRows.data.Some? && w.records;
        var recordsStamped := recordsSaved && w.recordsStamp;
        var reachIncidents := reachRecords && childRows.Succeeded? && (childRows.data.None? || recordsStamped);
        var incidentsSaved := reachIncidents && incidentsReply.Succeeded? && incidentsReply.data.Some? && w.incidents;
        var incidentsStamped := incidentsSaved && w.incidentsStamp;
        var m1 := if childrenStamped then PutWatermark(old(db.metadata), "children", t1) else old(db.metadata);
        var m2 := if recordsStamped then PutWatermark(m1, "records", t2) else m1;
        var m3 := if incidentsStamped then PutWatermark(m2, "incidents", t3) else m2;
        && db.children == (if childrenSaved then PutAll(old(db.children), childrenReply.data.value, ChildKey) else old(db.children))
        && db.records == (if recordsSaved then PutAll(old(db.records), NewestRecords(childRows.data.value), RecordKey) else old(db.records))
        && db.incidents == (if incidentsSaved then PutAll(old(db.incidents), incidentsReply.data.value, IncidentKey) else old(db.incidents))
        && db.metadata == m3
      ensures old(db.records).Keys <= db.records.Keys && old(db.children).Keys <= db.children.Keys
      ensures old(db.incidents).Keys <= db.incidents.Keys
      ensures db.pendingOperations == old(db.pendingOperations) && db.nextOperationId == old(db.nextOperationId)
    {
      if !navigatorOnline {
        return;
      }
      if childrenReply.Failed? {
        return;
      }
      if childrenReply.data.Some? {
        if !w.children {
          return;
        }
        db.SaveChildrenToCache(childrenReply.data.value);
        if !w.childrenStamp {
          return;
        }
        db.SetLastSyncTime("children", t1);
      }
      if childId.Some? && childId.value != "" {
        if childRows.Failed? {
          return;
        }
        if childRows.data.Some? {
          if !w.records {
            return;
          }
          db.SaveRecordsToCache(NewestRecords(childRows.data.value));
          if !w.recordsStamp {
            return;
          }
          db.SetLastSyncTime("records", t2);
        }
        if incidentsReply.Succeeded? && incidentsReply.data.Some? {
          if !w.incidents {
            return;
          }
          db.SaveIncidentsToCache(incidentsReply.data.value);
          if !w.incidentsStamp {
            return;
          }
          db.SetLastSyncTime("incidents", t3);
        }
      }
    }
  }

  /** No entry of the failures of a prefix has the id of a later operation. */
  lemma FailuresOfPrefixAvoid(ops: seq<PendingOperation>, ok: nat -> bool, i: int)
    requires UniqueIds(ops) && 0 <= i < |ops|
    ensures forall k :: 0 <= k < |Failures(ops[..i], ok)| ==> Failures(ops[..i], ok)[k].id != ops[i].id
  {
    var done := Failures(ops[..i], ok);
    FailuresSubset(ops[..i], ok);
    forall k | 0 <= k < |done|
      ensures done[k].id != ops[i].id
    {
      assert done[k] in ops[..i];
      var j :| 0 <= j < i && ops[..i][j] == done[k];
      assert ops[j] == done[k];
    }
  }

  lemma RemoveSingle(x: PendingOperation)
    ensures RemoveOp([x], x.id) == []
  {
    assert [x][1..] == [];
  }

  /** Removing the id of an entry that no other entry shares takes out that entry alone. */
  lemma RemoveMiddle(a: seq<PendingOperation>, x: PendingOperation, b: seq<PendingOperation>)
    requires forall k :: 0 <= k < |a| ==> a[k].id != x.id
    requires forall k :: 0 <= k < |b| ==> b[k].id != x.id
    ensures RemoveOp(a + [x] + b, x.id) == a + b
  {
    var ax := a + [x];
    RemoveOpAbsent(a, x.id);
    RemoveOpAbsent(b, x.id);
    RemoveSingle(x);
    RemoveOpConcat(a, [x], x.id);
    assert RemoveOp(ax, x.id) == a;
    RemoveOpConcat(ax, b, x.id);
  }

  /** Clearing the settled `i`-th operation of the drain removes it and nothing else from the queue. */
  lemma ClearingOneOperation(ops: seq<PendingOperation>, ok: nat -> bool, i: int)
    requires UniqueIds(ops) && 0 <= i < |ops| && ok(i)
    ensures RemoveOp(Failures(ops[..i], ok) + ops[i..], ops[i].id) == Failures(ops[..i + 1], ok) + ops[i + 1..]
  {
    var done := Failures(ops[..i], ok);
    var rest := ops[i + 1..];
    FailuresOfPrefixAvoid(ops, ok, i);
    LaterIdsDiffer(ops, i);
    assert ops[i..] == [ops[i]] + rest;
    assert done + ops[i..] == done + [ops[i]] + rest;
    RemoveMiddle(done, ops[i], rest);
    FailuresStep(ops, ok, i);
  }

  lemma LaterIdsDiffer(ops: seq<PendingOperation>, i: int)
    requires UniqueIds(ops) && 0 <= i < |ops|
    ensures var rest := ops[i + 1..]; forall k :: 0 <= k < |rest| ==> rest[k].id != ops[i].id
  {
    var rest := ops[i + 1..];
    forall k | 0 <= k < |rest| ensures rest[k].id != ops[i].id {
      assert rest[k] == ops[i + 1 + k];
    }
  }

  lemma FailuresStep(ops: seq<PendingOperation>, ok: nat -> bool, i: int)
    requires 0 <= i < |ops| && ok(i)
    ensures Failures(ops[..i + 1], ok) == Failures(ops[..i], ok)
  {
    assert ops[..i + 1][..i] == ops[..i];
  }

  lemma ReplaysStep(ops: seq<PendingOperation>, i: int)
    requires 0 <= i < |ops|
    ensures Replays(ops[..i + 1]) == Replays(ops[..i]) + [ReplayCall(ops[i])]
  {
    assert ops[..i + 1][..i] == ops[..i];
  }

  /** An attempt that did not settle leaves the queue as it was. */
  lemma KeepingOneOperation(ops: seq<PendingOperation>, ok: nat -> bool, i: int)
    requires 0 <= i < |ops| && !ok(i)
    ensures Failures(ops[..i], ok) + ops[i..] == Failures(ops[..i + 1], ok) + ops[i + 1..]
  {
    assert ops[..i + 1][..i] == ops[..i];
    assert ops[i..] == [ops[i]] + ops[i + 1..];
  }
}

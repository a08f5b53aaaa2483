/**
 * The optimistic record list of one child: every mutation changes the in-memory list at
 * once, then tries the server; offline, or when the server call fails, the change is
 * written to the local cache and queued for a later replay.
 */
module OfflineRecords {
  import opened Wrappers
  import opened RecordTypes
  import opened OfflineDb
  import opened Remote

  /** `prev.map(r => r.id === id ? x : r)`. */
  function ReplaceId(rs: seq<Record>, id: string, x: Record): (r: seq<Record>)
    ensures |r| == |rs|
    ensures forall i :: 0 <= i < |rs| ==> r[i] == if rs[i].id == id then x else rs[i]
  {
    if rs == [] then [] else [if rs[0].id == id then x else rs[0]] + ReplaceId(rs[1..], id, x)
  }

  /** `prev.map(r => r.id === id ? { ...r, ...p } : r)`. */
  function MergeWhere(rs: seq<Record>, id: string, p: RecordPatch): (r: seq<Record>)
    ensures |r| == |rs|
    ensures forall i :: 0 <= i < |rs| ==> r[i] == if rs[i].id == id then Merge(rs[i], p) else rs[i]
  {
    if rs == [] then [] else [if rs[0].id == id then Merge(rs[0], p) else rs[0]] + MergeWhere(rs[1..], id, p)
  }

  /** `prev.filter(r => r.id !== id)`. */
  function RemoveId(rs: seq<Record>, id: string): (r: seq<Record>)
    ensures |r| <= |rs|
    ensures forall x :: x in r <==> x in rs && x.id != id
  {
    if rs == [] then []
    else
      assert forall x :: x in rs <==> x == rs[0] || x in rs[1..];
      (if rs[0].id == id then [] else [rs[0]]) + RemoveId(rs[1..], id)
  }

  /** `records.find(r => r.id === id)`: the first entry with that id. */
  function FindById(rs: seq<Record>, id: string): (r: Option<Record>)
    ensures r.None? <==> forall i :: 0 <= i < |rs| ==> rs[i].id != id
    ensures r.Some? ==> exists i :: 0 <= i < |rs| && rs[i] == r.value && r.value.id == id
                          && forall j :: 0 <= j < i ==> rs[j].id != id
  {
    if rs == [] then None
    else if rs[0].id == id then Some(rs[0])
    else
      var t := FindById(rs[1..], id);
      assert t.Some? ==> exists i :: 0 <= i < |rs| && rs[i] == t.value && t.value.id == id
                          && forall j :: 0 <= j < i ==> rs[j].id != id by {
        if t.Some? {
          var i :| 0 <= i < |rs[1..]| && rs[1..][i] == t.value && t.value.id == id
                   && forall j :: 0 <= j < i ==> rs[1..][j].id != id;
          assert rs[i + 1] == t.value;
          assert forall j :: 1 <= j < i + 1 ==> rs[j].id != id by {
            forall j | 1 <= j < i + 1 ensures rs[j].id != id {
              assert rs[j] == rs[1..][j - 1];
            }
          }
        }
      }
      t
  }

  /** `{ id, ...updates }`: the id first, so an `id` key in `updates` wins. */
  function WithId(id: string, updates: RecordPatch): (p: RecordPatch)
    ensures p.id == Some(updates.id.GetOr(id))
    ensures p.(id := None) == updates.(id := None)
  {
    Combine(IdOnly(id), updates)
  }

  /** A record created with an id no entry has: after the server answers, only the new head is replaced. */
  lemma ReplaceFreshHead(rs: seq<Record>, temp: Record, server: Record)
    requires forall i :: 0 <= i < |rs| ==> rs[i].id != temp.id
    ensures ReplaceId([temp] + rs, temp.id, server) == [server] + rs
  {
    var r := ReplaceId([temp] + rs, temp.id, server);
    assert forall i :: 0 <= i < |rs| ==> r[i + 1] == ([temp] + rs)[i + 1] == rs[i];
  }

  /** Removing an id and then looking for it finds nothing; other entries are still found. */
  lemma RemoveIdThenFind(rs: seq<Record>, id: string, other: string)
    ensures FindById(RemoveId(rs, id), id).None?
    ensures other != id && FindById(rs, other).Some? ==> FindById(RemoveId(rs, id), other).Some?
  {
    var r := RemoveId(rs, id);
    assert forall i :: 0 <= i < |r| ==> r[i] in r;
    if other != id && FindById(rs, other).Some? {
      var x := FindById(rs, other).value;
      assert x in rs;
      assert x in r;
      var k :| 0 <= k < |r| && r[k] == x;
    }
  }

  /**
   * Whether each local-store call of one hook operation completes (true) or throws (false):
   * `try1` and `try2` are the first and second calls the `try` block makes, `catch1` and
   * `catch2` those of the `catch` block. Every call is one IndexedDB transaction, so one that
   * throws is aborted and writes nothing; a call the operation never reaches is not consulted.
   */
  datatype CacheCalls = CacheCalls(try1: bool, try2: bool, catch1: bool, catch2: bool)

  /** `useOfflineRecords(childId)`: the list, its loading flag and the link to the cache. */
  class RecordsHook {
    var records: seq<Record>
    var loading: bool
    var isOnline: bool
    const childId: Option<string>
    const db: Db

    ghost predicate Valid()
      reads this, db
    {
      db.Valid()
    }

    constructor (childId: Option<string>, online: bool, db: Db)
      requires db.Valid()
      ensures Valid()
      ensures records == [] && loading && isOnline == online
      ensures this.childId == childId && this.db == db
    {
      records, loading, isOnline := [], true, online;
      this.childId, this.db := childId, db;
    }

    /** A null or empty child id: the source's `!childId`. */
    predicate NoChild()
      reads this
    {
      childId.None? || childId.value == ""
    }

    /** The list is what `getRecordsFromCache(childId)` returns: the child's cached records, each once. */
    ghost predicate ShowsCache()
      reads this, db
    {
      && (forall x :: x in records <==> x in db.records.Values && x.body.childId == childId)
      && (forall i, j :: 0 <= i < j < |records| ==> Text.StrLess(records[i].id, records[j].id))
    }

    /**
     * `fetchRecords`: the server's rows when online, then saved to the cache; offline, the
     * child's cached records. A failed request, a save or a read that throws sends the call
     * to the `catch`, which reads the cache once more; when that read throws too, the list
     * stays as the `try` block left it.
     */
    method FetchRecords(reply: Reply<seq<Record>>, io: CacheCalls)
      requires Valid()
      modifies this, db
      ensures Valid() && !loading && isOnline == old(isOnline)
      ensures NoChild() ==> records == [] && db.records == old(db.records)
      ensures var fetched := isOnline && reply.Succeeded? && reply.data.Some?;
        var caught := !NoChild() && if isOnline then reply.Failed? || (fetched && !io.try1) else !io.try1;
        && db.records == (if !NoChild() && fetched && io.try1 then PutAll(old(db.records), reply.data.value, RecordKey) else old(db.records))
        && (!NoChild() && !caught && isOnline ==> records == reply.data.GetOr(old(records)))
        && (!NoChild() && !caught && !isOnline ==> ShowsCache())
        && (caught && io.catch1 ==> ShowsCache())
        && (caught && !io.catch1 ==> records == if fetched then reply.data.value else old(records))
      ensures db.children == old(db.children) && db.incidents == old(db.incidents)
      ensures db.pendingOperations == old(db.pendingOperations) && db.metadata == old(db.metadata)
      ensures db.nextOperationId == old(db.nextOperationId)
    {
      if NoChild() {
        records := [];
        loading := false;
        return;
      }
      loading := true;
      var caught := false;
      if isOnline {
        if reply.Failed? {
          caught := true;
        } else if reply.data.Some? {
          records := reply.data.value;
          if io.try1 {
            db.SaveRecordsToCache(reply.data.value);
          } else {
            caught := true;
          }
        }
      } else if io.try1 {
        records := db.GetRecordsFromCache(childId);
      } else {
        caught := true;
      }
      if caught && io.catch1 {
        records := db.GetRecordsFromCache(childId);
      }
      loading := false;
    }

    /**
     * `createRecord`: prepends the record with the fresh id `tempId` and the creation time
     * `now`. Online, a successful insert whose row is cached replaces the temporary record by
     * the server's row. Offline, the temporary record is cached and its data (without id and
     * time) queued at clock reading `queuedAt`. A failed insert, or any local call of the
     * `try` block that throws, sends the call to the `catch`, which caches the temporary
     * record and queues its data once more; when one of those throws, the promise rejects.
     * So a server row whose caching throws stays behind its temporary copy in the list, and
     * its create is queued to be inserted a second time.
     */
    method CreateRecord(data: RecordData, tempId: string, now: int, reply: Reply<Record>, queuedAt: int, io: CacheCalls)
      returns (result: Option<Record>, rejected: bool)
      requires Valid()
      modifies this, db
      ensures Valid() && isOnline == old(isOnline) && loading == old(loading)
      ensures var temp := Record(tempId, now, data);
        var op := PendingOperation(old(db.nextOperationId), Create, RecordsTable, PatchOfData(data), queuedAt);
        var stored := isOnline && reply.Succeeded? && reply.data.Some? && io.try1;
        var queuedOffline := !isOnline && io.try1 && io.try2;
        var caught := if isOnline then reply.Failed? || (reply.data.Some? && !io.try1) else !queuedOffline;
        var queued := queuedOffline || (caught && io.catch1 && io.catch2);
        && records == (if stored then ReplaceId([temp] + old(records), tempId, reply.data.value) else [temp] + old(records))
        && db.records == (if stored then old(db.records)[reply.data.value.id := reply.data.value]
                          else if (!isOnline && io.try1) || (caught && io.catch1) then old(db.records)[tempId := temp]
                          else old(db.records))
        && db.pendingOperations == (if queued then InsertOp(old(db.pendingOperations), op) else old(db.pendingOperations))
        && db.nextOperationId == old(db.nextOperationId) + (if queued then 1 else 0)
        && rejected == (caught && !(io.catch1 && io.catch2))
        && result == (if stored then Some(reply.data.value) else if queued then Some(temp) else None)
      ensures db.children == old(db.children) && db.incidents == old(db.incidents) && db.metadata == old(db.metadata)
    {
      var temp := Record(tempId, now, data);
      records := [temp] + records;
      result, rejected := None, false;
      var caught := false;
      if isOnline {
        if reply.Failed? {
          caught := true;
        } else if reply.data.Some? {
          var server := reply.data.value;
          if io.try1 {
            db.PutRecord(server);
            records := ReplaceId(records, tempId, server);
            result := Some(server);
          } else {
            caught := true;
          }
        }
      } else {
        if io.try1 {
          db.PutRecord(temp);
        }
        if io.try1 && io.try2 {
          db.AddPendingOperation(Create, RecordsTable, PatchOfData(data), queuedAt);
          result := Some(temp);
        } else {
          caught := true;
        }
      }
      if caught {
        if io.catch1 {
          db.PutRecord(temp);
        }
        if io.catch1 && io.catch2 {
          db.AddPendingOperation(Create, RecordsTable, PatchOfData(data), queuedAt);
          result := Some(temp);
        } else {
          rejected := true;
        }
      }
    }

    /**
     * `updateRecord`: merges `updates` into the entries with that id at once. Online, the
     * server's row is cached and then replaces them. Offline, the entry is looked up in the
     * list as it was before the merge, and only when it is there is the merged record cached
     * and the update queued. A failed request, or a local call of the `try` block that
     * throws, sends the call to the `catch`, which queues `{ id, ...updates }`; when that
     * throws, the promise rejects.
     */
    method UpdateRecord(id: string, updates: RecordPatch, reply: Reply<Record>, queuedAt: int, io: CacheCalls)
      returns (rejected: bool)
      requires Valid()
      modifies this, db
      ensures Valid() && isOnline == old(isOnline) && loading == old(loading)
      ensures var merged := MergeWhere(old(records), id, updates);
        var op := PendingOperation(old(db.nextOperationId), Update, RecordsTable, WithId(id, updates), queuedAt);
        var found := FindById(old(records), id);
        var stored := isOnline && reply.Succeeded? && reply.data.Some? && io.try1;
        var cachedOffline := !isOnline && found.Some? && io.try1;
        var queuedOffline := cachedOffline && io.try2;
        var caught := if isOnline then reply.Failed? || (reply.data.Some? && !io.try1) else found.Some? && !queuedOffline;
        var queued := queuedOffline || (caught && io.catch1);
        && records == (if stored then ReplaceId(merged, id, reply.data.value) else merged)
        && db.records == (if stored then old(db.records)[reply.data.value.id := reply.data.value]
                          else if cachedOffline then old(db.records)[Merge(found.value, updates).id := Merge(found.value, updates)]
                          else old(db.records))
        && db.pendingOperations == (if queued then InsertOp(old(db.pendingOperations), op) else old(db.pendingOperations))
        && db.nextOperationId == old(db.nextOperationId) + (if queued then 1 else 0)
        && rejected == (caught && !io.catch1)
      ensures db.children == old(db.children) && db.incidents == old(db.incidents) && db.metadata == old(db.metadata)
    {
      var before := records;
      records := MergeWhere(records, id, updates);
      rejected := false;
      var caught := false;
      if isOnline {
        match reply
        case Failed =>
          caught := true;
        case Succeeded(data) =>
          if data.Some? {
            if io.try1 {
              db.PutRecord(data.value);
              records := ReplaceId(records, id, data.value);
            } else {
              caught := true;
            }
          }
      } else {
        var found := FindById(before, id);
        if found.Some? {
          var updated := Merge(found.value, updates);
          if io.try1 {
            db.PutRecord(updated);
          }
          if io.try1 && io.try2 {
            db.AddPendingOperation(Update, RecordsTable, WithId(id, updates), queuedAt);
          } else {
            caught := true;
          }
        }
      }
      if caught {
        if io.catch1 {
          db.AddPendingOperation(Update, RecordsTable, WithId(id, updates), queuedAt);
        } else {
          rejected := true;
        }
      }
    }

    /**
     * `deleteRecord`: drops the id from the list at once. Online, a successful delete also
     * drops it from the cache; offline, it is dropped from the cache and `{ id }` queued. A
     * failed request, or a local call of the `try` block that throws, sends the call to the
     * `catch`, which queues `{ id }`; when that throws, the promise rejects.
     */
    method DeleteRecord(id: string, remoteOk: bool, queuedAt: int, io: CacheCalls) returns (rejected: bool)
      requires Valid()
      modifies this, db
      ensures Valid() && isOnline == old(isOnline) && loading == old(loading)
      ensures records == RemoveId(old(records), id)
      ensures var op := PendingOperation(old(db.nextOperationId), Delete, RecordsTable, IdOnly(id), queuedAt);
        var dropped := io.try1 && (isOnline ==> remoteOk);
        var queuedOffline := !isOnline && io.try1 && io.try2;
        var caught := if isOnline then !dropped else !queuedOffline;
        var queued := queuedOffline || (caught && io.catch1);
        && db.records == (if dropped then old(db.records) - {id} else old(db.records))
        && db.pendingOperations == (if queued then InsertOp(old(db.pendingOperations), op) else old(db.pendingOperations))
        && db.nextOperationId == old(db.nextOperationId) + (if queued then 1 else 0)
        && rejected == (caught && !io.catch1)
      ensures db.children == old(db.children) && db.incidents == old(db.incidents) && db.metadata == old(db.metadata)
    {
      records := RemoveId(records, id);
      rejected := false;
      var caught := false;
      if isOnline {
        if remoteOk && io.try1 {
          db.DeleteRecordFromCache(id);
        } else {
          caught := true;
        }
      } else {
        if io.try1 {
          db.DeleteRecordFromCache(id);
        }
        if io.try1 && io.try2 {
          db.AddPendingOperation(Delete, RecordsTable, IdOnly(id), queuedAt);
        } else {
          caught := true;
        }
      }
      if caught {
        if io.catch1 {
          db.AddPendingOperation(Delete, RecordsTable, IdOnly(id), queuedAt);
        } else {
          rejected := true;
        }
      }
    }
  }

  /** An offline create queues exactly one entry, a `create` of the data without the temporary id. */
  lemma OfflineCreateQueuesData(q: seq<PendingOperation>, next: nat, data: RecordData, queuedAt: int)
    ensures var op := PendingOperation(next, Create, RecordsTable, PatchOfData(data), queuedAt);
      && multiset(InsertOp(q, op)) == multiset(q) + multiset{op}
      && op.data.id.None? && op.data.createdAt.None?
  {
  }
}

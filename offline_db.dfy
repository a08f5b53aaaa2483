/**
 * The browser-side cache: three keyed stores (records, children, incidents) that
 * upsert by `id`, a metadata store of per-table synchronisation watermarks, and an
 * auto-increment queue of operations waiting to be replayed against the server.
 */
module OfflineDb {
  import opened Wrappers
  import opened Text
  import opened RecordTypes

  /** A store whose every entry sits under its own key (the `keyPath: 'id'` of the store). */
  ghost predicate KeyedBy<T>(m: map<string, T>, key: T -> string) {
    forall k :: k in m ==> key(m[k]) == k
  }

  /**
   * Writing `items` one after the other with `put`: each item lands under its key and a
   * later item with the same key overwrites an earlier one.
   */
  function PutAll<T>(m: map<string, T>, items: seq<T>, key: T -> string): (r: map<string, T>)
    ensures m.Keys <= r.Keys
    decreases |items|
  {
    if items == [] then m
    else PutAll(m, items[..|items| - 1], key)[key(items[|items| - 1]) := items[|items| - 1]]
  }

  /** The keys after a batch are the old keys and the batch's keys. */
  lemma {:induction false} PutAllKeys<T>(m: map<string, T>, items: seq<T>, key: T -> string)
    ensures PutAll(m, items, key).Keys == m.Keys + set i | 0 <= i < |items| :: key(items[i])
    decreases |items|
  {
    if items != [] {
      var n := |items| - 1;
      PutAllKeys(m, items[..n], key);
      assert forall i :: 0 <= i < n ==> items[..n][i] == items[i];
      assert (set i | 0 <= i < |items| :: key(items[i])) == (set i | 0 <= i < n :: key(items[..n][i])) + {key(items[n])};
    }
  }

  /** Last write wins: an item that no later item of the batch overwrites is what its key holds. */
  lemma {:induction false} PutAllLastWins<T>(m: map<string, T>, items: seq<T>, key: T -> string, i: int)
    requires 0 <= i < |items|
    requires forall j :: i < j < |items| ==> key(items[j]) != key(items[i])
    ensures key(items[i]) in PutAll(m, items, key) && PutAll(m, items, key)[key(items[i])] == items[i]
    decreases |items|
  {
    var n := |items| - 1;
    if i < n {
      assert items[..n][i] == items[i];
      PutAllLastWins(m, items[..n], key, i);
    }
  }

  /** Keys the batch does not mention keep their old values: `put` is an upsert, not a replace. */
  lemma {:induction false} PutAllOthersUnchanged<T>(m: map<string, T>, items: seq<T>, key: T -> string, k: string)
    requires k in m
    requires forall i :: 0 <= i < |items| ==> key(items[i]) != k
    ensures k in PutAll(m, items, key) && PutAll(m, items, key)[k] == m[k]
    decreases |items|
  {
    if items != [] {
      var n := |items| - 1;
      assert forall i :: 0 <= i < n ==> items[..n][i] == items[i];
      PutAllOthersUnchanged(m, items[..n], key, k);
    }
  }

  /** A store written only with `put` keeps every entry under its own key. */
  lemma {:induction false} PutAllKeyed<T>(m: map<string, T>, items: seq<T>, key: T -> string)
    requires KeyedBy(m, key)
    ensures KeyedBy(PutAll(m, items, key), key)
    decreases |items|
  {
    if items != [] {
      PutAllKeyed(m, items[..|items| - 1], key);
    }
  }

  /** The keys of `m` whose value passes `keep`, ascending; their values in that order. */
  method SelectInKeyOrder<T>(m: map<string, T>, keep: T -> bool) returns (r: seq<T>, keys: seq<string>)
    ensures |r| == |keys| && forall i :: 0 <= i < |keys| ==> keys[i] in m && r[i] == m[keys[i]]
    ensures forall k :: k in keys <==> k in m && keep(m[k])
    ensures forall i, j :: 0 <= i < j < |keys| ==> StrLess(keys[i], keys[j])
  {
    keys := SortedKeys(set k | k in m && keep(m[k]));
    forall i | 0 <= i < |keys|
      ensures keys[i] in m
    {
      assert keys[i] in keys;
    }
    r := [];
    for i := 0 to |keys|
      invariant |r| == i && forall j :: 0 <= j < i ==> r[j] == m[keys[j]]
    {
      r := r + [m[keys[i]]];
    }
  }

  datatype OpKind = Create | Update | Delete

  datatype Table = RecordsTable | ChildrenTable | IncidentsTable

  function TableName(t: Table): string {
    match t
    case RecordsTable => "records"
    case ChildrenTable => "children"
    case IncidentsTable => "incidents"
  }

  /** An entry of the `pendingOperations` store. */
  datatype PendingOperation = PendingOperation(id: nat, kind: OpKind, table: Table, data: RecordPatch, timestamp: int)

  /** The order of the `by-timestamp` index: by timestamp, ties by primary key. */
  predicate OpBefore(a: PendingOperation, b: PendingOperation) {
    a.timestamp < b.timestamp || (a.timestamp == b.timestamp && a.id < b.id)
  }

  predicate InIndexOrder(q: seq<PendingOperation>) {
    forall i, j :: 0 <= i < j < |q| ==> OpBefore(q[i], q[j])
  }

  function Ids(q: seq<PendingOperation>): set<nat> {
    set i | 0 <= i < |q| :: q[i].id
  }

  predicate UniqueIds(q: seq<PendingOperation>) {
    forall i, j :: 0 <= i < j < |q| ==> q[i].id != q[j].id
  }

  /** A new entry put in its place in the index. */
  function InsertOp(q: seq<PendingOperation>, op: PendingOperation): (r: seq<PendingOperation>)
    ensures multiset(r) == multiset(q) + multiset{op}
  {
    if q == [] then [op]
    else if OpBefore(op, q[0]) then [op] + q
    else
      assert q == [q[0]] + q[1..];
      [q[0]] + InsertOp(q[1..], op)
  }

  lemma InsertOpElements(q: seq<PendingOperation>, op: PendingOperation)
    ensures forall x :: x in InsertOp(q, op) <==> x in q || x == op
  {
    var r := InsertOp(q, op);
    forall x
      ensures x in r <==> x in q || x == op
    {
      assert x in r <==> x in multiset(r);
      assert x in q <==> x in multiset(q);
    }
  }

  /** An entry placed before every entry of an ordered queue with distinct ids keeps it ordered with distinct ids. */
  lemma ConsOrdered(h: PendingOperation, t: seq<PendingOperation>)
    requires InIndexOrder(t) && UniqueIds(t)
    requires forall k :: 0 <= k < |t| ==> OpBefore(h, t[k]) && h.id != t[k].id
    ensures InIndexOrder([h] + t) && UniqueIds([h] + t)
  {
    var r := [h] + t;
    forall i, j | 0 <= i < j < |r| ensures OpBefore(r[i], r[j]) && r[i].id != r[j].id {
      assert r[j] == t[j - 1];
      if i > 0 {
        assert r[i] == t[i - 1];
      }
    }
  }

  /** The head of an ordered queue with distinct ids comes before every other entry, and the rest is still ordered. */
  lemma HeadFirst(q: seq<PendingOperation>)
    requires q != [] && InIndexOrder(q) && UniqueIds(q)
    ensures InIndexOrder(q[1..]) && UniqueIds(q[1..])
    ensures forall j :: 0 <= j < |q[1..]| ==> OpBefore(q[0], q[1..][j]) && q[0].id != q[1..][j].id
  {
    forall j | 0 <= j < |q[1..]| ensures OpBefore(q[0], q[1..][j]) && q[0].id != q[1..][j].id {
      assert q[1..][j] == q[j + 1];
    }
  }

  /** Inserting an entry with a fresh id keeps the queue in index order with unique ids. */
  lemma {:induction false} InsertOpOrdered(q: seq<PendingOperation>, op: PendingOperation)
    requires InIndexOrder(q) && UniqueIds(q)
    requires forall i :: 0 <= i < |q| ==> q[i].id != op.id
    ensures InIndexOrder(InsertOp(q, op)) && UniqueIds(InsertOp(q, op))
  {
    if q == [] {
    } else if OpBefore(op, q[0]) {
      forall k | 0 <= k < |q| ensures OpBefore(op, q[k]) && op.id != q[k].id {
        if k > 0 {
          assert OpBefore(q[0], q[k]);
        }
      }
      ConsOrdered(op, q);
    } else {
      var tail := q[1..];
      HeadFirst(q);
      assert forall i :: 0 <= i < |tail| ==> tail[i].id != op.id by {
        forall i | 0 <= i < |tail| ensures tail[i].id != op.id {
          assert tail[i] == q[i + 1];
        }
      }
      InsertOpOrdered(tail, op);
      InsertOpElements(tail, op);
      var t := InsertOp(tail, op);
      forall k | 0 <= k < |t|
        ensures OpBefore(q[0], t[k]) && q[0].id != t[k].id
      {
        assert t[k] in tail || t[k] == op;
        if t[k] != op {
          var j :| 0 <= j < |tail| && tail[j] == t[k];
        }
      }
      ConsOrdered(q[0], t);
    }
  }

  /** The queue without the entry whose id is `id`. */
  function RemoveOp(q: seq<PendingOperation>, id: nat): (r: seq<PendingOperation>)
    ensures |r| <= |q|
  {
    if q == [] then []
    else (if q[0].id == id then [] else [q[0]]) + RemoveOp(q[1..], id)
  }

  /** Exactly the entries with another id are left. */
  lemma {:induction false} RemoveOpElements(q: seq<PendingOperation>, id: nat)
    ensures forall op :: op in RemoveOp(q, id) <==> op in q && op.id != id
  {
    if q != [] {
      RemoveOpElements(q[1..], id);
      assert forall op :: op in q <==> op == q[0] || op in q[1..];
    }
  }

  /** Removing an entry keeps the queue in index order with unique ids. */
  lemma {:induction false} RemoveOpOrdered(q: seq<PendingOperation>, id: nat)
    requires InIndexOrder(q) && UniqueIds(q)
    ensures InIndexOrder(RemoveOp(q, id)) && UniqueIds(RemoveOp(q, id))
  {
    if q != [] {
      var tail := q[1..];
      assert InIndexOrder(tail) && UniqueIds(tail);
      RemoveOpOrdered(tail, id);
      RemoveOpElements(tail, id);
      var t := RemoveOp(tail, id);
      forall k | 0 <= k < |t|
        ensures OpBefore(q[0], t[k]) && q[0].id != t[k].id
      {
        assert t[k] in tail;
        var j :| 0 <= j < |tail| && tail[j] == t[k];
        assert tail[j] == q[j + 1];
      }
    }
  }

  /** Ids are unique, so removing an id that is there drops exactly one entry and any other id drops none. */
  lemma {:induction false} RemoveOpCount(q: seq<PendingOperation>, id: nat)
    requires UniqueIds(q)
    ensures |RemoveOp(q, id)| == if id in Ids(q) then |q| - 1 else |q|
  {
    if q != [] {
      assert UniqueIds(q[1..]);
      RemoveOpCount(q[1..], id);
      var tailIds := Ids(q[1..]);
      assert Ids(q) == {q[0].id} + tailIds by {
        forall i | 0 <= i < |q| ensures q[i].id in {q[0].id} + tailIds {
          if i > 0 { assert q[1..][i - 1] == q[i]; }
        }
        forall x | x in tailIds ensures x in Ids(q) {
          var i :| 0 <= i < |q[1..]| && q[1..][i].id == x;
          assert q[i + 1].id == x;
        }
      }
      if q[0].id == id {
        assert id !in tailIds by {
          forall i | 0 <= i < |q[1..]| ensures q[1..][i].id != id {
            assert q[1..][i] == q[i + 1];
          }
        }
      }
    }
  }

  /** An entry of the `metadata` store. */
  datatype MetaEntry = MetaEntry(key: string, value: int, lastSync: Option<int>)

  function WatermarkKey(table: string): string {
    "lastSync-" + table
  }

  /** `metadata?.value || null`: an absent entry and the value 0 both read as none. */
  function LastSync(meta: map<string, MetaEntry>, table: string): Option<int> {
    var k := WatermarkKey(table);
    if k in meta && meta[k].value != 0 then Some(meta[k].value) else None
  }

  function PutWatermark(meta: map<string, MetaEntry>, table: string, ts: int): map<string, MetaEntry> {
    meta[WatermarkKey(table) := MetaEntry(WatermarkKey(table), ts, Some(ts))]
  }

  /** A watermark reads back as written, except that 0 reads as none; other tables keep theirs. */
  lemma WatermarkRoundTrip(meta: map<string, MetaEntry>, table: string, other: string, ts: int)
    ensures LastSync(PutWatermark(meta, table, ts), table) == if ts == 0 then None else Some(ts)
    ensures other != table ==> LastSync(PutWatermark(meta, table, ts), other) == LastSync(meta, other)
  {
    if other != table {
      assert WatermarkKey(other)[9..] == other && WatermarkKey(table)[9..] == table;
    }
  }

  datatype StoreName = RecordsStore | ChildrenStore | IncidentsStore | PendingStore | MetadataStore

  const AllStores: seq<StoreName> := [RecordsStore, ChildrenStore, IncidentsStore, PendingStore, MetadataStore]

  function RecordKey(r: Record): string { r.id }
  function ChildKey(c: Child): string { c.id }
  function IncidentKey(i: Incident): string { i.id }
  function MetaKey(e: MetaEntry): string { e.key }

  /** The `by-child` index of the records store. */
  function RecordOfChild(childId: string): Record -> bool {
    (r: Record) => r.body.childId == Some(childId)
  }

  /** The `by-child` index of the incidents store. */
  function IncidentOfChild(childId: string): Incident -> bool {
    (i: Incident) => i.childId == childId
  }

  /** The database: one object in place of the lazily opened singleton. */
  class Db {
    var records: map<string, Record>
    var children: map<string, Child>
    var incidents: map<string, Incident>
    var pendingOperations: seq<PendingOperation>
    /** The key generator of the auto-increment queue; emptying the store does not reset it. */
    var nextOperationId: nat
    var metadata: map<string, MetaEntry>

    ghost predicate Valid()
      reads this
    {
      && KeyedBy(records, RecordKey)
      && KeyedBy(children, ChildKey)
      && KeyedBy(incidents, IncidentKey)
      && KeyedBy(metadata, MetaKey)
      && InIndexOrder(pendingOperations)
      && UniqueIds(pendingOperations)
      && (forall i :: 0 <= i < |pendingOperations| ==> pendingOperations[i].id < nextOperationId)
      && nextOperationId >= 1
    }

    constructor ()
      ensures Valid()
      ensures records == map[] && children == map[] && incidents == map[] && metadata == map[]
      ensures pendingOperations == [] && nextOperationId == 1
    {
      records, children, incidents, metadata := map[], map[], map[], map[];
      pendingOperations, nextOperationId := [], 1;
    }

    /** `saveRecordsToCache`: `put` of every record in one transaction. */
    method SaveRecordsToCache(rs: seq<Record>)
      requires Valid()
      modifies this
      ensures Valid()
      ensures records == PutAll(old(records), rs, RecordKey)
      ensures children == old(children) && incidents == old(incidents) && metadata == old(metadata)
      ensures pendingOperations == old(pendingOperations) && nextOperationId == old(nextOperationId)
    {
      var m := records;
      for i := 0 to |rs|
        invariant m == PutAll(records, rs[..i], RecordKey)
      {
        assert rs[..i + 1][..i] == rs[..i];
        m := m[rs[i].id := rs[i]];
      }
      assert rs[..|rs|] == rs;
      PutAllKeyed(records, rs, RecordKey);
      records := m;
    }

    /** `saveChildrenToCache`. */
    method SaveChildrenToCache(cs: seq<Child>)
      requires Valid()
      modifies this
      ensures Valid()
      ensures children == PutAll(old(children), cs, ChildKey)
      ensures records == old(records) && incidents == old(incidents) && metadata == old(metadata)
      ensures pendingOperations == old(pendingOperations) && nextOperationId == old(nextOperationId)
    {
      var m := children;
      for i := 0 to |cs|
        invariant m == PutAll(children, cs[..i], ChildKey)
      {
        assert cs[..i + 1][..i] == cs[..i];
        m := m[cs[i].id := cs[i]];
      }
      assert cs[..|cs|] == cs;
      PutAllKeyed(children, cs, ChildKey);
      children := m;
    }

    /** `saveIncidentsToCache`. */
    method SaveIncidentsToCache(xs: seq<Incident>)
      requires Valid()
      modifies this
      ensures Valid()
      ensures incidents == PutAll(old(incidents), xs, IncidentKey)
      ensures records == old(records) && children == old(children) && metadata == old(metadata)
      ensures pendingOperations == old(pendingOperations) && nextOperationId == old(nextOperationId)
    {
      var m := incidents;
      for i := 0 to |xs|
        invariant m == PutAll(incidents, xs[..i], IncidentKey)
      {
        assert xs[..i + 1][..i] == xs[..i];
        m := m[xs[i].id := xs[i]];
      }
      assert xs[..|xs|] == xs;
      PutAllKeyed(incidents, xs, IncidentKey);
      incidents := m;
    }

    /** `addRecordToCache` and `updateRecordInCache`, both a single `put`. */
    method PutRecord(r: Record)
      requires Valid()
      modifies this
      ensures Valid()
      ensures records == old(records)[r.id := r]
      ensures children == old(children) && incidents == old(incidents) && metadata == old(metadata)
      ensures pendingOperations == old(pendingOperations) && nextOperationId == old(nextOperationId)
    {
      records := records[r.id := r];
    }

    /** `deleteRecordFromCache`: deleting an absent key changes nothing. */
    method DeleteRecordFromCache(id: string)
      requires Valid()
      modifies this
      ensures Valid()
      ensures records == old(records) - {id}
      ensures children == old(children) && incidents == old(incidents) && metadata == old(metadata)
      ensures pendingOperations == old(pendingOperations) && nextOperationId == old(nextOperationId)
    {
      records := records - {id};
    }

    /**
     * `getRecordsFromCache`: with a non-empty child id the records of that child, otherwise
     * every record; each once, in ascending id order.
     */
    method GetRecordsFromCache(childId: Option<string>) returns (r: seq<Record>)
      requires Valid()
      ensures forall x :: x in r <==> x in records.Values && (childId.Some? && childId.value != "" ==> x.body.childId == childId)
      ensures forall i, j :: 0 <= i < j < |r| ==> StrLess(r[i].id, r[j].id)
    {
      var keys;
      if childId.Some? && childId.value != "" {
        r, keys := SelectInKeyOrder(records, RecordOfChild(childId.value));
      } else {
        r, keys := SelectInKeyOrder(records, (x: Record) => true);
      }
      assert forall i :: 0 <= i < |r| ==> r[i].id == keys[i];
      forall x | x in records.Values
        ensures x.id in records && records[x.id] == x
      {
        var k :| k in records && records[k] == x;
      }
    }

    /** `getChildrenFromCache`: every child, in ascending id order. */
    method GetChildrenFromCache() returns (r: seq<Child>)
      requires Valid()
      ensures forall x :: x in r <==> x in children.Values
      ensures forall i, j :: 0 <= i < j < |r| ==> StrLess(r[i].id, r[j].id)
    {
      var keys;
      r, keys := SelectInKeyOrder(children, (x: Child) => true);
      assert forall i :: 0 <= i < |r| ==> r[i].id == keys[i];
    }

    /** `getChildFromCache`. */
    method GetChildFromCache(id: string) returns (r: Option<Child>)
      requires Valid()
      ensures r.Some? <==> id in children
      ensures r.Some? ==> r.value == children[id] && r.value.id == id
    {
      r := if id in children then Some(children[id]) else None;
    }

    /** `getIncidentsFromCache`: like the records, through the incidents' child index. */
    method GetIncidentsFromCache(childId: Option<string>) returns (r: seq<Incident>)
      requires Valid()
      ensures forall x :: x in r <==> x in incidents.Values && (childId.Some? && childId.value != "" ==> x.childId == childId.value)
      ensures forall i, j :: 0 <= i < j < |r| ==> StrLess(r[i].id, r[j].id)
    {
      var keys;
      if childId.Some? && childId.value != "" {
        r, keys := SelectInKeyOrder(incidents, IncidentOfChild(childId.value));
      } else {
        r, keys := SelectInKeyOrder(incidents, (x: Incident) => true);
      }
      assert forall i :: 0 <= i < |r| ==> r[i].id == keys[i];
      forall x | x in incidents.Values
        ensures x.id in incidents && incidents[x.id] == x
      {
        var k :| k in incidents && incidents[k] == x;
      }
    }

    /** `addPendingOperation`: the next key of the generator, stamped with the clock reading `now`. */
    method AddPendingOperation(kind: OpKind, table: Table, data: RecordPatch, now: int)
      requires Valid()
      modifies this
      ensures Valid()
      ensures old(nextOperationId) !in Ids(old(pendingOperations))
      ensures nextOperationId == old(nextOperationId) + 1
      ensures pendingOperations == InsertOp(old(pendingOperations), PendingOperation(old(nextOperationId), kind, table, data, now))
      ensures records == old(records) && children == old(children) && incidents == old(incidents)
      ensures metadata == old(metadata)
    {
      var op := PendingOperation(nextOperationId, kind, table, data, now);
      var q := InsertOp(pendingOperations, op);
      InsertOpOrdered(pendingOperations, op);
      InsertOpElements(pendingOperations, op);
      assert forall i :: 0 <= i < |q| ==> q[i] in q;
      pendingOperations := q;
      nextOperationId := nextOperationId + 1;
    }

    /** `getPendingOperations`: the whole queue in index order. */
    method GetPendingOperations() returns (ops: seq<PendingOperation>)
      requires Valid()
      ensures ops == pendingOperations
      ensures forall i, j :: 0 <= i < j < |ops| ==> ops[i].timestamp <= ops[j].timestamp
    {
      ops := pendingOperations;
    }

    /** `clearPendingOperation`. */
    method ClearPendingOperation(id: nat)
      requires Valid()
      modifies this
      ensures Valid()
      ensures pendingOperations == RemoveOp(old(pendingOperations), id)
      ensures nextOperationId == old(nextOperationId)
      ensures records == old(records) && children == old(children) && incidents == old(incidents)
      ensures metadata == old(metadata)
    {
      var q := RemoveOp(pendingOperations, id);
      RemoveOpOrdered(pendingOperations, id);
      RemoveOpElements(pendingOperations, id);
      assert forall i :: 0 <= i < |q| ==> q[i] in pendingOperations;
      pendingOperations := q;
    }

    /** `clearAllPendingOperations`. */
    method ClearAllPendingOperations()
      requires Valid()
      modifies this
      ensures Valid()
      ensures pendingOperations == [] && nextOperationId == old(nextOperationId)
      ensures records == old(records) && children == old(children) && incidents == old(incidents)
      ensures metadata == old(metadata)
    {
      ClearStore(PendingStore);
    }

    /** `setLastSyncTime`. */
    method SetLastSyncTime(table: string, ts: int)
      requires Valid()
      modifies this
      ensures Valid()
      ensures metadata == PutWatermark(old(metadata), table, ts)
      ensures records == old(records) && children == old(children) && incidents == old(incidents)
      ensures pendingOperations == old(pendingOperations) && nextOperationId == old(nextOperationId)
    {
      metadata := PutWatermark(metadata, table, ts);
    }

    /** `getLastSyncTime`. */
    method GetLastSyncTime(table: string) returns (r: Option<int>)
      ensures r == LastSync(metadata, table)
      ensures r.Some? ==> r.value != 0 && WatermarkKey(table) in metadata
    {
      var k := WatermarkKey(table);
      r := if k in metadata && metadata[k].value != 0 then Some(metadata[k].value) else None;
    }

    /** `tx.store.clear()` on one store. */
    method ClearStore(s: StoreName)
      requires Valid()
      modifies this
      ensures Valid()
      ensures records == (if s == RecordsStore then map[] else old(records))
      ensures children == (if s == ChildrenStore then map[] else old(children))
      ensures incidents == (if s == IncidentsStore then map[] else old(incidents))
      ensures pendingOperations == (if s == PendingStore then [] else old(pendingOperations))
      ensures metadata == (if s == MetadataStore then map[] else old(metadata))
      ensures nextOperationId == old(nextOperationId)
    {
      match s
      case RecordsStore => records := map[];
      case ChildrenStore => children := map[];
      case IncidentsStore => incidents := map[];
      case PendingStore => pendingOperations := [];
      case MetadataStore => metadata := map[];
    }

    /** `clearAllCache`: one transaction per store, in turn. */
    method ClearAllCache()
      requires Valid()
      modifies this
      ensures Valid()
      ensures records == map[] && children == map[] && incidents == map[] && metadata == map[]
      ensures pendingOperations == []
      ensures nextOperationId == old(nextOperationId)
    {
      for i := 0 to |AllStores|
        invariant Valid() && nextOperationId == old(nextOperationId)
        invariant RecordsStore in AllStores[..i] ==> records == map[]
        invariant ChildrenStore in AllStores[..i] ==> children == map[]
        invariant IncidentsStore in AllStores[..i] ==> incidents == map[]
        invariant PendingStore in AllStores[..i] ==> pendingOperations == []
        invariant MetadataStore in AllStores[..i] ==> metadata == map[]
      {
        assert AllStores[..i + 1] == AllStores[..i] + [AllStores[i]];
        ClearStore(AllStores[i]);
      }
      assert AllStores[..|AllStores|] == AllStores;
    }
  }

  /** After a batch is saved, each saved item is retrievable under its id. */
  lemma SavedBatchRetrievable(m: map<string, Record>, rs: seq<Record>, i: int)
    requires 0 <= i < |rs|
    ensures rs[i].id in PutAll(m, rs, RecordKey)
    ensures (forall j :: i < j < |rs| ==> rs[j].id != rs[i].id) ==> PutAll(m, rs, RecordKey)[rs[i].id] == rs[i]
  {
    assert rs[i].id == RecordKey(rs[i]);
  }
}

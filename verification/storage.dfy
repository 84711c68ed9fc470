/**
 The local-first persistence service of the mobile client (`storage.js`).

 The device's key/value storage is a map from keys to day snapshots plus the
 pending-sync queue (`cola_sinc`); connectivity is a boolean; the backend is
 an oracle: `postOk(i)` says whether the upload of the i-th queued key
 succeeds, and `fetched` is what a read of one day returned (None when the
 request failed).
 */
module SyncStore {
  import opened Wrappers
  import opened Model
  import Seqs
  import Server

  /** Every day snapshot lives under this prefix followed by its date. */
  const Prefix: string := "emociones_"

  function KeyOf(date: string): (k: string)
    ensures Prefix <= k
    ensures |k| == |Prefix| + |date| && k[|Prefix|..] == date
  {
    Prefix + date
  }

  /** Different dates are stored under different keys. */
  lemma KeyOfInjective(a: string, b: string)
    requires KeyOf(a) == KeyOf(b)
    ensures a == b
  {
    assert a == KeyOf(a)[|Prefix|..];
  }

  /** One stored day: its lists, its date, and whether the backend has acknowledged it. */
  datatype Snapshot = Snapshot(bubbles: seq<Bubble>, connections: seq<Connection>, date: string, synced: bool)

  /** The device storage: snapshots by key, and the queue of keys awaiting upload. */
  datatype Device = Device(store: map<string, Snapshot>, queue: seq<string>)

  /** The body of one upload request to the backend. */
  datatype Post = Post(user: string, date: string, bubbles: seq<Bubble>, connections: seq<Connection>)

  datatype SyncStatus = SyncStatus(pending: nat, synced: bool)

  datatype Flush = Flush(ok: bool, store: map<string, Snapshot>, sent: seq<Post>)

  datatype SyncResult = SyncResult(ok: bool, device: Device, sent: seq<Post>)

  datatype LoadResult = LoadResult(data: Option<DayData>, device: Device)

  // ------------------------------------------------------------- local side

  /** `añadirAColaSinc`: the queue gains `key` at its end unless it already holds it. */
  function Enqueue(queue: seq<string>, key: string): (r: seq<string>)
    ensures key in r
    ensures key in queue ==> r == queue
    ensures key !in queue ==> r == queue + [key]
    ensures (set k | k in r) == (set k | k in queue) + {key}
    ensures Seqs.NoDup(queue) ==> Seqs.NoDup(r)
  {
    if key in queue then queue else queue + [key]
  }

  /**
   `guardarLocal`: stores the day as unsynced under its key and queues the key;
   every other entry is left as it was.
   */
  function SaveLocal(d: Device, date: string, bubbles: seq<Bubble>, connections: seq<Connection>): (r: Device)
    ensures KeyOf(date) in r.store && r.store[KeyOf(date)] == Snapshot(bubbles, connections, date, false)
    ensures r.store.Keys == d.store.Keys + {KeyOf(date)}
    ensures forall k :: k in d.store && k != KeyOf(date) ==> r.store[k] == d.store[k]
    ensures KeyOf(date) in r.queue
    ensures r.queue == Enqueue(d.queue, KeyOf(date))
  {
    var key := KeyOf(date);
    Device(d.store[key := Snapshot(bubbles, connections, date, false)], Enqueue(d.queue, key))
  }

  /** `obtenerLocal`: the stored snapshot of the day, or None when there is none. */
  function LoadLocal(d: Device, date: string): (r: Option<Snapshot>)
    ensures r.Some? <==> KeyOf(date) in d.store
    ensures r.Some? ==> r.value == d.store[KeyOf(date)]
  {
    if KeyOf(date) in d.store then Some(d.store[KeyOf(date)]) else None
  }

  /** A local read after a local write sees the write for that date and nothing changed for the others. */
  lemma SaveLocalThenLoadLocal(d: Device, date: string, bubbles: seq<Bubble>, connections: seq<Connection>, other: string)
    ensures LoadLocal(SaveLocal(d, date, bubbles, connections), date) == Some(Snapshot(bubbles, connections, date, false))
    ensures other != date ==> LoadLocal(SaveLocal(d, date, bubbles, connections), other) == LoadLocal(d, other)
  {
    if other != date && KeyOf(other) == KeyOf(date) {
      KeyOfInjective(other, date);
    }
  }

  // ------------------------------------------------------------------- flush

  function MarkSynced(s: Snapshot): Snapshot {
    s.(synced := true)
  }

  function PostOf(user: string, s: Snapshot): Post {
    Post(user, s.date, s.bubbles, s.connections)
  }

  /** The uploads a flush of `keys` owes the backend: one per key that has stored data, in queue order. */
  function Outbox(store: map<string, Snapshot>, keys: seq<string>, user: string): seq<Post>
  {
    if |keys| == 0 then []
    else (if keys[0] in store then [PostOf(user, store[keys[0]])] else []) + Outbox(store, keys[1..], user)
  }

  /** Marking a snapshot changes only its flag, so it does not change what is uploaded. */
  lemma {:induction false} OutboxIgnoresSyncedFlag(store: map<string, Snapshot>, key: string, keys: seq<string>, user: string)
    requires key in store
    ensures Outbox(store[key := MarkSynced(store[key])], keys, user) == Outbox(store, keys, user)
  {
    if |keys| > 0 {
      OutboxIgnoresSyncedFlag(store, key, keys[1..], user);
    }
  }

  /**
   The loop of `sincronizar` from queue position `i`: each queued key with
   stored data is uploaded and then marked synced; a key without data is
   skipped; the first failed upload ends the loop with `ok == false`.
   */
  function FlushFrom(store: map<string, Snapshot>, queue: seq<string>, i: nat, user: string, postOk: nat -> bool): (r: Flush)
    requires i <= |queue|
    decreases |queue| - i
    ensures r.store.Keys == store.Keys
    ensures forall k :: k in store ==> r.store[k] == store[k] || r.store[k] == MarkSynced(store[k])
    ensures forall k :: k in store && k !in queue[i..] ==> r.store[k] == store[k]
    ensures r.ok <==> forall j :: i <= j < |queue| && queue[j] in store ==> postOk(j)
    ensures r.ok ==> forall j :: i <= j < |queue| && queue[j] in store ==> r.store[queue[j]] == MarkSynced(store[queue[j]])
    ensures r.ok ==> r.sent == Outbox(store, queue[i..], user)
  {
    if i == |queue| then Flush(true, store, [])
    else
      var key := queue[i];
      assert queue[i..] == [key] + queue[i + 1..];
      if key !in store then FlushFrom(store, queue, i + 1, user, postOk)
      else if !postOk(i) then Flush(false, store, [])
      else
        var s := store[key];
        var store' := store[key := MarkSynced(s)];
        var rest := FlushFrom(store', queue, i + 1, user, postOk);
        OutboxIgnoresSyncedFlag(store, key, queue[i + 1..], user);
        Flush(rest.ok, rest.store, [PostOf(user, s)] + rest.sent)
  }

  /**
   When the upload at queue position `k` is the first to fail, the flush
   reports failure, has marked exactly the keys before `k` that had data, and
   has sent exactly their uploads.
   */
  lemma {:induction false} FlushFailsAt(store: map<string, Snapshot>, queue: seq<string>, i: nat, k: nat, user: string, postOk: nat -> bool)
    requires i <= k < |queue|
    requires queue[k] in store && !postOk(k)
    requires forall j :: i <= j < k && queue[j] in store ==> postOk(j)
    ensures var r := FlushFrom(store, queue, i, user, postOk);
      && !r.ok
      && (forall j :: i <= j < k && queue[j] in store ==> r.store[queue[j]] == MarkSynced(store[queue[j]]))
      && (forall key :: key in store && key !in queue[i..k] ==> r.store[key] == store[key])
      && r.sent == Outbox(store, queue[i..k], user)
    decreases k - i
  {
    var r := FlushFrom(store, queue, i, user, postOk);
    if i < k {
      var key := queue[i];
      assert queue[i..k] == [key] + queue[i + 1..k];
      if key in store {
        var store' := store[key := MarkSynced(store[key])];
        FlushFailsAt(store', queue, i + 1, k, user, postOk);
        OutboxIgnoresSyncedFlag(store, key, queue[i + 1..k], user);
      } else {
        FlushFailsAt(store, queue, i + 1, k, user, postOk);
      }
    } else {
      assert queue[i..k] == [];
    }
  }

  /**
   `sincronizar`: offline it reports false and touches nothing. Online it
   flushes the queue; the queue is emptied only when every upload succeeded,
   and a failed upload leaves it exactly as it was.
   */
  function Sync(d: Device, online: bool, user: string, postOk: nat -> bool): (r: SyncResult)
    ensures !online ==> !r.ok && r.device == d && r.sent == []
    ensures r.ok <==> online && forall j :: 0 <= j < |d.queue| && d.queue[j] in d.store ==> postOk(j)
    ensures r.ok ==> r.device.queue == []
    ensures !r.ok ==> r.device.queue == d.queue
    ensures r.device.store.Keys == d.store.Keys
    ensures forall k :: k in d.store ==> r.device.store[k] == d.store[k] || r.device.store[k] == MarkSynced(d.store[k])
    ensures forall k :: k in d.store && k !in d.queue ==> r.device.store[k] == d.store[k]
    ensures r.ok ==> forall j :: 0 <= j < |d.queue| && d.queue[j] in d.store ==>
      r.device.store[d.queue[j]] == MarkSynced(d.store[d.queue[j]])
    ensures r.ok ==> r.sent == Outbox(d.store, d.queue, user)
  {
    if !online then SyncResult(false, d, [])
    else
      var f := FlushFrom(d.store, d.queue, 0, user, postOk);
      assert d.queue[0..] == d.queue;
      if f.ok then SyncResult(true, Device(f.store, []), f.sent)
      else SyncResult(false, Device(f.store, d.queue), f.sent)
  }

  /**
   An online flush whose upload for the k-th queued key is the first to fail:
   it returns false, marks only the earlier keys synced, and keeps the queue.
   */
  lemma SyncFailsAt(d: Device, k: nat, user: string, postOk: nat -> bool)
    requires k < |d.queue| && d.queue[k] in d.store && !postOk(k)
    requires forall j :: 0 <= j < k && d.queue[j] in d.store ==> postOk(j)
    ensures var r := Sync(d, true, user, postOk);
      && !r.ok
      && r.device.queue == d.queue
      && (forall j :: 0 <= j < k && d.queue[j] in d.store ==> r.device.store[d.queue[j]] == MarkSynced(d.store[d.queue[j]]))
      && (forall key :: key in d.store && key !in d.queue[..k] ==> r.device.store[key] == d.store[key])
      && r.sent == Outbox(d.store, d.queue[..k], user)
  {
    FlushFailsAt(d.store, d.queue, 0, k, user, postOk);
    assert d.queue[0..k] == d.queue[..k];
  }

  // ------------------------------------------------------------------ status

  /** `obtenerEstadoSincronizacion`: the number of queued keys, and whether there are none. */
  function Status(d: Device): (r: SyncStatus)
    ensures r.pending == |d.queue|
    ensures r.synced <==> r.pending == 0
    ensures r.synced <==> d.queue == []
  {
    SyncStatus(|d.queue|, |d.queue| == 0)
  }

  /** With a duplicate-free queue the pending count is the number of distinct queued keys. */
  lemma StatusCountsDistinctKeys(d: Device)
    requires Seqs.NoDup(d.queue)
    ensures Status(d).pending == |set k | k in d.queue|
  {
    Seqs.NoDupCardinality(d.queue);
  }

  /** A local write always leaves the device reporting pending work. */
  lemma SaveLocalLeavesPending(d: Device, date: string, bubbles: seq<Bubble>, connections: seq<Connection>)
    ensures !Status(SaveLocal(d, date, bubbles, connections)).synced
  {
  }

  // --------------------------------------------------------------- clearing

  /** `limpiarCache`: removes exactly the snapshot keys; the queue is left alone. */
  function ClearCache(d: Device): (r: Device)
    ensures r.queue == d.queue
    ensures forall k :: k in r.store <==> k in d.store && !(Prefix <= k)
    ensures forall k :: k in r.store ==> r.store[k] == d.store[k]
  {
    Device(map k | k in d.store && !(Prefix <= k) :: d.store[k], d.queue)
  }

  /** After clearing, no day has local data. */
  lemma ClearCacheForgetsEveryDay(d: Device, date: string)
    ensures LoadLocal(ClearCache(d), date).None?
  {
  }

  /** Every queued key names a day snapshot, as `guardarLocal` guarantees. */
  predicate QueueOfDays(d: Device) {
    forall j :: 0 <= j < |d.queue| ==> Prefix <= d.queue[j]
  }

  /** Keys without local data are skipped by a flush. */
  lemma {:induction false} FlushSkipsMissing(store: map<string, Snapshot>, queue: seq<string>, i: nat, user: string, postOk: nat -> bool)
    requires i <= |queue|
    requires forall j :: i <= j < |queue| ==> queue[j] !in store
    ensures FlushFrom(store, queue, i, user, postOk) == Flush(true, store, [])
    decreases |queue| - i
  {
    if i < |queue| {
      FlushSkipsMissing(store, queue, i + 1, user, postOk);
    }
  }

  /**
   After the cache is cleared an online flush uploads nothing and still
   succeeds, dropping every queued key: the keys whose data is gone are
   silently forgotten.
   */
  lemma SyncAfterClearDropsQueue(d: Device, user: string, postOk: nat -> bool)
    requires QueueOfDays(d)
    ensures var c := ClearCache(d);
      var r := Sync(c, true, user, postOk);
      r.ok && r.device == Device(c.store, []) && r.sent == []
  {
    var c := ClearCache(d);
    FlushSkipsMissing(c.store, c.queue, 0, user, postOk);
  }

  // ----------------------------------------------------------- hybrid policy

  /**
   `guardar`: writes locally first, then flushes when online; the flush's
   outcome is not reported. The day's lists are stored whatever the network does.
   */
  function Save(d: Device, date: string, bubbles: seq<Bubble>, connections: seq<Connection>, online: bool, user: string, postOk: nat -> bool): (r: Device)
    ensures LoadLocal(r, date).Some?
    ensures var s := LoadLocal(r, date).value; s.bubbles == bubbles && s.connections == connections && s.date == date
    ensures !online ==> r == SaveLocal(d, date, bubbles, connections)
    ensures forall k :: k in d.store && k != KeyOf(date) ==>
      k in r.store && (r.store[k] == d.store[k] || r.store[k] == MarkSynced(d.store[k]))
    ensures Seqs.NoDup(d.queue) ==> Seqs.NoDup(r.queue)
    ensures var l := SaveLocal(d, date, bubbles, connections);
      online && (forall j :: 0 <= j < |l.queue| && l.queue[j] in l.store ==> postOk(j)) ==>
        r.queue == [] && LoadLocal(r, date) == Some(Snapshot(bubbles, connections, date, true))
    ensures var l := SaveLocal(d, date, bubbles, connections);
      online && !(forall j :: 0 <= j < |l.queue| && l.queue[j] in l.store ==> postOk(j)) ==>
        r.queue == l.queue
  {
    var local := SaveLocal(d, date, bubbles, connections);
    var key := KeyOf(date);
    assert exists j :: 0 <= j < |local.queue| && local.queue[j] == key;
    if online then Sync(local, true, user, postOk).device else local
  }

  /** The lists of a stored snapshot, as the screen reads them. */
  function DataOf(s: Option<Snapshot>): Option<DayData> {
    match s
    case Some(v) => Some(DayData(v.bubbles, v.connections))
    case None => None
  }

  /**
   `obtener` as written: online, any reply from the backend is returned and
   written over the local copy (re-queuing it); offline, or when the request
   failed, the local copy is returned.
   */
  function Load(d: Device, date: string, online: bool, fetched: Option<DayData>): (r: LoadResult)
    ensures !online || fetched.None? ==> r == LoadResult(DataOf(LoadLocal(d, date)), d)
    ensures online && fetched.Some? ==> r.data == fetched
    ensures online && fetched.Some? ==> KeyOf(date) in r.device.queue
    ensures online && fetched.Some? ==>
      LoadLocal(r.device, date) == Some(Snapshot(fetched.value.bubbles, fetched.value.connections, date, false))
    ensures online && fetched.Some? ==>
      && r.device.queue == Enqueue(d.queue, KeyOf(date))
      && r.device.store.Keys == d.store.Keys + {KeyOf(date)}
      && (forall k :: k in d.store && k != KeyOf(date) ==> r.device.store[k] == d.store[k])
  {
    if online && fetched.Some? then
      LoadResult(fetched, SaveLocal(d, date, fetched.value.bubbles, fetched.value.connections))
    else
      LoadResult(DataOf(LoadLocal(d, date)), d)
  }

  /** A save, online or not, followed by an offline read returns exactly the lists saved. */
  lemma SaveThenOfflineLoad(d: Device, date: string, bubbles: seq<Bubble>, connections: seq<Connection>, online: bool, user: string, postOk: nat -> bool, fetched: Option<DayData>)
    ensures Load(Save(d, date, bubbles, connections, online, user, postOk), date, false, fetched).data == Some(DayData(bubbles, connections))
  {
  }

  /** An online read that got the backend's lists makes them the local copy: a later offline read returns them. */
  lemma OnlineLoadOverwritesLocal(d: Device, date: string, x: DayData, fetched: Option<DayData>)
    ensures var r := Load(d, date, true, Some(x));
      r.data == Some(x) && Load(r.device, date, false, fetched).data == Some(x)
  {
  }

  /**
   A day saved while offline and not yet uploaded is wiped by the next online
   read: for a day it does not hold, the backend answers with empty lists, and
   `obtener` accepts any reply that has a `burbujas` array.
   */
  lemma EmptyServerDayWipesLocal(d: Device, date: string, db: seq<Server.Record>, user: string, day: int)
    requires LoadLocal(d, date).Some? && |LoadLocal(d, date).value.bubbles| > 0
    requires Server.FindDay(db, user, day).None?
    ensures var r := Load(d, date, true, Some(Server.GetDay(db, user, day)));
      && r.data == Some(DayData([], []))
      && LoadLocal(r.device, date).value.bubbles == []
  {
  }

  /** The backend's reply for a day it does not hold. */
  predicate EmptyDay(x: DayData) {
    |x.bubbles| == 0 && |x.connections| == 0
  }

  /**
   `obtener` as its own comment describes it: the backend's lists are used only
   when the backend has data for the day; otherwise the local copy is used.
   */
  function LoadChecked(d: Device, date: string, online: bool, fetched: Option<DayData>): (r: LoadResult)
    ensures online && fetched.Some? && !EmptyDay(fetched.value) ==> r == Load(d, date, online, fetched)
    ensures !(online && fetched.Some? && !EmptyDay(fetched.value)) ==> r == LoadResult(DataOf(LoadLocal(d, date)), d)
  {
    if online && fetched.Some? && !EmptyDay(fetched.value) then Load(d, date, online, fetched)
    else Load(d, date, false, fetched)
  }

  /** With the empty-reply check, an online read of a day the backend lacks keeps and returns the local lists. */
  lemma LoadCheckedKeepsLocalDay(d: Device, date: string, db: seq<Server.Record>, user: string, day: int)
    requires Server.FindDay(db, user, day).None?
    ensures var r := LoadChecked(d, date, true, Some(Server.GetDay(db, user, day)));
      r.device == d && r.data == DataOf(LoadLocal(d, date))
  {
  }
}

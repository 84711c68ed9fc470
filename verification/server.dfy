/**
 The backend's per-day store (`server.js`): one document per user and day
 holding that day's bubbles and connections. The database collection is a
 sequence of records in insertion order; `findOne` picks the first match.
 Calendar days are integers.
 */
module Server {
  import opened Wrappers
  import opened Model
  import Seqs

  datatype Record = Record(
    user: string,
    day: int,
    bubbles: seq<Bubble>,
    connections: seq<Connection>,
    createdAt: int,
    updatedAt: int)

  datatype Upserted = Upserted(db: seq<Record>, stored: Record)

  predicate Matches(r: Record, user: string, day: int) {
    r.user == user && r.day == day
  }

  /** At most one record per (user, day): the invariant the upsert maintains. */
  predicate OnePerDay(db: seq<Record>) {
    forall i, j :: 0 <= i < j < |db| ==> !(db[i].user == db[j].user && db[i].day == db[j].day)
  }

  /** `findOne({usuario_id, fecha in day})`: the first record of the user for the day. */
  function FindDay(db: seq<Record>, user: string, day: int): (r: Option<nat>)
    ensures r.Some? ==> r.value < |db| && Matches(db[r.value], user, day)
    ensures r.Some? ==> forall j :: 0 <= j < r.value ==> !Matches(db[j], user, day)
    ensures r.None? <==> forall j :: 0 <= j < |db| ==> !Matches(db[j], user, day)
  {
    Seqs.FirstIndex(db, (x: Record) => Matches(x, user, day))
  }

  /**
   POST `/api/emociones`: an existing record for the user and day gets the new
   lists and a new update time, in place; otherwise one new record is appended.
   */
  function Upsert(db: seq<Record>, user: string, day: int, bubbles: seq<Bubble>, connections: seq<Connection>, now: int): (r: Upserted)
    ensures FindDay(db, user, day).Some? ==>
      var k := FindDay(db, user, day).value;
      && |r.db| == |db|
      && r.db[k] == db[k].(bubbles := bubbles, connections := connections, updatedAt := now)
      && (forall j :: 0 <= j < |db| && j != k ==> r.db[j] == db[j])
    ensures FindDay(db, user, day).None? ==> r.db == db + [Record(user, day, bubbles, connections, now, now)]
    ensures Matches(r.stored, user, day) && r.stored.bubbles == bubbles && r.stored.connections == connections
    ensures r.stored in r.db
  {
    match FindDay(db, user, day)
    case Some(k) =>
      var rec := db[k].(bubbles := bubbles, connections := connections, updatedAt := now);
      Upserted(db[k := rec], rec)
    case None =>
      var rec := Record(user, day, bubbles, connections, now, now);
      Upserted(db + [rec], rec)
  }

  /** The upsert never creates a second record for a user and day. */
  lemma UpsertPreservesOnePerDay(db: seq<Record>, user: string, day: int, bubbles: seq<Bubble>, connections: seq<Connection>, now: int)
    requires OnePerDay(db)
    ensures OnePerDay(Upsert(db, user, day, bubbles, connections, now).db)
  {
    var r := Upsert(db, user, day, bubbles, connections, now).db;
    if FindDay(db, user, day).None? {
      forall i, j | 0 <= i < j < |r| ensures !(r[i].user == r[j].user && r[i].day == r[j].day) {
        if j == |db| {
          assert !Matches(db[i], user, day);
        }
      }
    }
  }

  /** GET `/api/emociones/:usuarioId/:fecha`: the record's lists, or empty lists when there is none. */
  function GetDay(db: seq<Record>, user: string, day: int): (r: DayData)
    ensures FindDay(db, user, day).None? ==> r == DayData([], [])
    ensures FindDay(db, user, day).Some? ==>
      r == DayData(db[FindDay(db, user, day).value].bubbles, db[FindDay(db, user, day).value].connections)
  {
    match FindDay(db, user, day)
    case Some(k) => DayData(db[k].bubbles, db[k].connections)
    case None => DayData([], [])
  }

  /** A read after an upsert returns the lists just written. */
  lemma UpsertThenGet(db: seq<Record>, user: string, day: int, bubbles: seq<Bubble>, connections: seq<Connection>, now: int)
    ensures GetDay(Upsert(db, user, day, bubbles, connections, now).db, user, day) == DayData(bubbles, connections)
  {
    var r := Upsert(db, user, day, bubbles, connections, now).db;
    match FindDay(db, user, day)
    case Some(k) =>
      assert FindDay(r, user, day) == Some(k) by {
        assert forall j :: 0 <= j < k ==> r[j] == db[j];
      }
    case None =>
      assert FindDay(r, user, day) == Some(|db|) by {
        assert forall j :: 0 <= j < |db| ==> r[j] == db[j];
      }
  }

  /** An upsert for one user and day leaves the reads of every other user and day as they were. */
  lemma UpsertLeavesOtherDays(db: seq<Record>, user: string, day: int, bubbles: seq<Bubble>, connections: seq<Connection>, now: int, user': string, day': int)
    requires !(user' == user && day' == day)
    ensures GetDay(Upsert(db, user, day, bubbles, connections, now).db, user', day') == GetDay(db, user', day')
  {
    var r := Upsert(db, user, day, bubbles, connections, now).db;
    assert forall j :: 0 <= j < |db| ==> (Matches(r[j], user', day') <==> Matches(db[j], user', day'));
    assert |r| == |db| + 1 ==> !Matches(r[|db|], user', day');
    match FindDay(db, user', day')
    case Some(k) =>
      assert FindDay(r, user', day') == Some(k);
    case None =>
      assert FindDay(r, user', day').None?;
  }

  /** DELETE `/api/emociones/:usuarioId/:fecha` (`deleteOne`): removes the first record of the user for the day. */
  function DeleteDay(db: seq<Record>, user: string, day: int): (r: seq<Record>)
    ensures FindDay(db, user, day).None? ==> r == db
    ensures FindDay(db, user, day).Some? ==>
      var k := FindDay(db, user, day).value; r == db[..k] + db[k + 1..]
  {
    match FindDay(db, user, day)
    case Some(k) => db[..k] + db[k + 1..]
    case None => db
  }

  /**
   With one record per user and day, deleting removes exactly the records of
   that user and day and keeps every other record in order; a read then finds
   empty lists.
   */
  lemma DeleteRemovesDay(db: seq<Record>, user: string, day: int)
    requires OnePerDay(db)
    ensures DeleteDay(db, user, day) == Seqs.Filter(db, (x: Record) => !Matches(x, user, day))
    ensures GetDay(DeleteDay(db, user, day), user, day) == DayData([], [])
  {
    var keep := (x: Record) => !Matches(x, user, day);
    var r := Seqs.Filter(db, keep);
    match FindDay(db, user, day)
    case Some(k) =>
      forall i | 0 <= i < |db| && i != k ensures keep(db[i]) {
        if i < k {
          assert !(db[i].user == db[k].user && db[i].day == db[k].day);
        } else {
          assert !(db[k].user == db[i].user && db[k].day == db[i].day);
        }
      }
      Seqs.FilterDropsOne(db, k, keep);
    case None =>
      assert forall i :: 0 <= i < |db| ==> keep(db[i]);
      Seqs.FilterAll(db, keep);
    assert forall i :: 0 <= i < |r| ==> !Matches(r[i], user, day);
  }
}

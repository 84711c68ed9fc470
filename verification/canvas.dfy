/**
 The bubble canvas of the mobile client (`App.js`): tapping emotions,
 linking bubbles in connection mode, deleting a bubble with its connections,
 editing the note of one tap, and the size a bubble is drawn at.

 React state setters become pure functions from the old lists to the new
 ones. `Date.now()` (used as a fresh id), the ISO timestamp of a tap and the
 random default position are parameters: `stamp`, `now` and `draw`.
 */
module Canvas {
  import opened Wrappers
  import opened Model
  import Seqs

  /** An emotion offered by the selector, or the emotion of a tapped bubble. */
  datatype Emotion = Emotion(name: string, color: string)

  /**
   The editing state of the canvas: the day's bubbles and connections, whether
   connection mode is on (`modoConexion`) and the origin picked by the first
   tap in that mode (`conexionOrigen`, a copy of the tapped bubble).
   */
  datatype ClientState = ClientState(
    bubbles: seq<Bubble>,
    connections: seq<Connection>,
    connecting: bool,
    origin: Option<Bubble>)

  // ---------------------------------------------------------------- invariants

  predicate UniqueNames(bs: seq<Bubble>) {
    forall i, j :: 0 <= i < j < |bs| ==> bs[i].name != bs[j].name
  }

  predicate UniqueIds(bs: seq<Bubble>) {
    forall i, j :: 0 <= i < j < |bs| ==> bs[i].id != bs[j].id
  }

  /** Every bubble holds one occurrence record per tap. */
  predicate CountsMatch(bs: seq<Bubble>) {
    forall i :: 0 <= i < |bs| ==> bs[i].count == |bs[i].records|
  }

  predicate WellFormed(bs: seq<Bubble>) {
    UniqueNames(bs) && UniqueIds(bs) && CountsMatch(bs)
  }

  predicate HasId(bs: seq<Bubble>, id: int) {
    exists i :: 0 <= i < |bs| && bs[i].id == id
  }

  /** `stamp` is usable as the id of a new bubble. */
  predicate Fresh(bs: seq<Bubble>, stamp: int) {
    forall i :: 0 <= i < |bs| ==> bs[i].id != stamp
  }

  /** Both ends of every connection name a bubble of the canvas. */
  predicate NoDangling(bs: seq<Bubble>, cs: seq<Connection>) {
    forall k :: 0 <= k < |cs| ==> HasId(bs, cs[k].origin) && HasId(bs, cs[k].destination)
  }

  /** The invariant of the whole editing state, including a pending origin. */
  predicate Invariant(st: ClientState) {
    && WellFormed(st.bubbles)
    && NoDangling(st.bubbles, st.connections)
    && (st.origin.Some? ==> HasId(st.bubbles, st.origin.value.id))
  }

  // ------------------------------------------------------------ adding emotions

  /** The first bubble called `name` (`burbujas.find`). */
  function FindByName(bs: seq<Bubble>, name: string): (r: Option<nat>)
    ensures r.Some? ==> r.value < |bs| && bs[r.value].name == name
    ensures r.Some? ==> forall j :: 0 <= j < r.value ==> bs[j].name != name
    ensures r.None? <==> forall j :: 0 <= j < |bs| ==> bs[j].name != name
  {
    Seqs.FirstIndex(bs, (b: Bubble) => b.name == name)
  }

  /** One more tap on `b`: the re-tap record carries no note. */
  function Bump(b: Bubble, now: int): Bubble {
    b.(count := b.count + 1, records := b.records + [Occurrence(now, None, None)])
  }

  /** `burbujas.map(b => b.id === id ? bumped : b)`. */
  function BumpId(bs: seq<Bubble>, id: int, now: int): seq<Bubble> {
    seq(|bs|, i requires 0 <= i < |bs| => if bs[i].id == id then Bump(bs[i], now) else bs[i])
  }

  /**
   `posicion?.x || draw.x`: an absent position, or a zero coordinate (which
   JavaScript treats as false), falls back to the random draw.
   */
  function Place(pos: Option<Coords>, draw: Coords): Coords {
    Coords(
      if pos.Some? && pos.value.x != 0.0 then pos.value.x else draw.x,
      if pos.Some? && pos.value.y != 0.0 then pos.value.y else draw.y)
  }

  /** The bubble a first tap creates: count 1 and one record with an empty note. */
  function NewBubble(e: Emotion, pos: Option<Coords>, draw: Coords, stamp: int, now: int): Bubble {
    Bubble(stamp, e.name, e.color, 1, Place(pos, draw), [Occurrence(now, Some(""), None)])
  }

  /**
   `añadirEmocion`: a tap on an emotion whose name is already on the canvas
   counts one more tap on that bubble; a new name gets a new bubble at the end.
   */
  function AddEmotion(bs: seq<Bubble>, e: Emotion, pos: Option<Coords>, draw: Coords, stamp: int, now: int): (r: seq<Bubble>)
    ensures |r| == |bs| <==> exists i :: 0 <= i < |bs| && bs[i].name == e.name
    ensures |r| == |bs| || |r| == |bs| + 1
    ensures exists i :: 0 <= i < |r| && r[i].name == e.name
    ensures forall i :: 0 <= i < |bs| ==>
      r[i].id == bs[i].id && r[i].name == bs[i].name && r[i].color == bs[i].color && r[i].pos == bs[i].pos
  {
    match FindByName(bs, e.name)
    case Some(k) =>
      var r := BumpId(bs, bs[k].id, now);
      assert r[k].name == e.name;
      r
    case None =>
      var r := bs + [NewBubble(e, pos, draw, stamp, now)];
      assert r[|bs|].name == e.name;
      r
  }

  /**
   Tapping an emotion already on a well-formed canvas changes only its bubble:
   one more count and one more record at the end; every other bubble is kept.
   */
  lemma AddExistingChangesOnlyThatBubble(bs: seq<Bubble>, k: nat, e: Emotion, pos: Option<Coords>, draw: Coords, stamp: int, now: int)
    requires WellFormed(bs)
    requires k < |bs| && bs[k].name == e.name
    ensures var r := AddEmotion(bs, e, pos, draw, stamp, now);
      && |r| == |bs|
      && r[k].count == bs[k].count + 1
      && r[k].records == bs[k].records + [Occurrence(now, None, None)]
      && r[k] == bs[k].(count := r[k].count, records := r[k].records)
      && forall j :: 0 <= j < |bs| && j != k ==> r[j] == bs[j]
  {
    var f := FindByName(bs, e.name);
    assert f == Some(k) by {
      if f.None? {
        assert bs[k].name == e.name;
      } else if f.value != k {
        assert bs[f.value].name == bs[k].name;
      }
    }
  }

  /**
   Tapping a name not on the canvas appends exactly one bubble, with count 1
   and a single record, and keeps the others in order.
   */
  lemma AddNewAppendsOneBubble(bs: seq<Bubble>, e: Emotion, pos: Option<Coords>, draw: Coords, stamp: int, now: int)
    requires forall i :: 0 <= i < |bs| ==> bs[i].name != e.name
    ensures var r := AddEmotion(bs, e, pos, draw, stamp, now);
      && |r| == |bs| + 1
      && r[..|bs|] == bs
      && r[|bs|].id == stamp && r[|bs|].name == e.name && r[|bs|].color == e.color
      && r[|bs|].count == 1 && |r[|bs|].records| == 1 && r[|bs|].records[0].timestamp == now
  {
    var r := AddEmotion(bs, e, pos, draw, stamp, now);
    assert r == bs + [NewBubble(e, pos, draw, stamp, now)];
  }

  /**
   `añadirEmocion` keeps the canvas well formed: names stay distinct, ids stay
   distinct when the new id is fresh, and each count still equals the number
   of records.
   */
  lemma AddEmotionPreservesWellFormed(bs: seq<Bubble>, e: Emotion, pos: Option<Coords>, draw: Coords, stamp: int, now: int)
    requires WellFormed(bs)
    requires (forall i :: 0 <= i < |bs| ==> bs[i].name != e.name) ==> Fresh(bs, stamp)
    ensures WellFormed(AddEmotion(bs, e, pos, draw, stamp, now))
  {
    var r := AddEmotion(bs, e, pos, draw, stamp, now);
    match FindByName(bs, e.name)
    case Some(k) =>
      forall i | 0 <= i < |r| ensures r[i].count == |r[i].records| {
        assert r[i] == if bs[i].id == bs[k].id then Bump(bs[i], now) else bs[i];
      }
    case None =>
      assert r == bs + [NewBubble(e, pos, draw, stamp, now)];
  }

  /** Adding one emotion repeatedly, with one timestamp per tap. */
  function AddRepeatedly(bs: seq<Bubble>, e: Emotion, draw: Coords, stamp: int, times: seq<int>): seq<Bubble>
    decreases |times|
  {
    if |times| == 0 then bs
    else AddEmotion(AddRepeatedly(bs, e, draw, stamp, times[..|times| - 1]), e, None, draw, stamp, times[|times| - 1])
  }

  /**
   Starting from a canvas without the name, n taps on it leave one new bubble
   at the end whose count is n and whose records carry the n timestamps in
   tap order; the earlier bubbles are untouched.
   */
  lemma {:induction false} RepeatedAddsCountTaps(bs: seq<Bubble>, e: Emotion, draw: Coords, stamp: int, times: seq<int>)
    requires forall i :: 0 <= i < |bs| ==> bs[i].name != e.name
    requires Fresh(bs, stamp)
    requires |times| > 0
    ensures var r := AddRepeatedly(bs, e, draw, stamp, times);
      && |r| == |bs| + 1
      && r[..|bs|] == bs
      && r[|bs|].name == e.name
      && r[|bs|].id == stamp
      && r[|bs|].count == |times|
      && |r[|bs|].records| == |times|
      && forall t :: 0 <= t < |times| ==> r[|bs|].records[t].timestamp == times[t]
  {
    var init := times[..|times| - 1];
    var now := times[|times| - 1];
    if |init| == 0 {
      AddNewAppendsOneBubble(bs, e, None, draw, stamp, now);
    } else {
      RepeatedAddsCountTaps(bs, e, draw, stamp, init);
      var p := AddRepeatedly(bs, e, draw, stamp, init);
      RetapLastBubble(bs, p, e, draw, stamp, now);
      var r := AddEmotion(p, e, None, draw, stamp, now);
      forall t | 0 <= t < |times| ensures r[|bs|].records[t].timestamp == times[t] {
        if t < |init| {
          assert r[|bs|].records[t] == p[|bs|].records[t];
          assert init[t] == times[t];
        }
      }
    }
  }

  /** The inductive step of the scenario above: one more tap on the appended bubble. */
  lemma RetapLastBubble(bs: seq<Bubble>, p: seq<Bubble>, e: Emotion, draw: Coords, stamp: int, now: int)
    requires forall i :: 0 <= i < |bs| ==> bs[i].name != e.name
    requires Fresh(bs, stamp)
    requires |p| == |bs| + 1 && p[..|bs|] == bs
    requires p[|bs|].name == e.name && p[|bs|].id == stamp
    ensures var r := AddEmotion(p, e, None, draw, stamp, now);
      |r| == |p| && r[..|bs|] == bs && r[|bs|] == Bump(p[|bs|], now)
  {
    forall j | 0 <= j < |bs| ensures p[j] == bs[j] {
      assert p[..|bs|][j] == p[j];
    }
    var f := FindByName(p, e.name);
    assert f == Some(|bs|);
    var r := AddEmotion(p, e, None, draw, stamp, now);
    assert r == BumpId(p, stamp, now);
    forall j | 0 <= j < |bs| ensures r[j] == bs[j] {
      assert p[j].id != stamp;
    }
  }

  // ---------------------------------------------------------- connection mode

  /** The header button: flips connection mode and leaves a picked origin as it is. */
  function ToggleConnecting(st: ClientState): (r: ClientState)
    ensures r.connecting != st.connecting
    ensures r.bubbles == st.bubbles && r.connections == st.connections && r.origin == st.origin
  {
    st.(connecting := !st.connecting)
  }

  /**
   `handleClickBurbuja`: in connection mode the first tap picks the origin and
   a tap on a different bubble links origin to it and leaves the mode; outside
   it, a tap counts the bubble's emotion again.
   */
  function TapBubble(st: ClientState, b: Bubble, draw: Coords, stamp: int, now: int): (r: ClientState)
    ensures st.connecting && st.origin.None? ==> r == st.(origin := Some(b))
    ensures st.connecting && st.origin.Some? && st.origin.value.id != b.id ==>
      && r.bubbles == st.bubbles
      && r.connections == st.connections + [Connection(stamp, st.origin.value.id, b.id, None)]
      && r.origin.None? && !r.connecting
    ensures st.connecting && st.origin.Some? && st.origin.value.id == b.id ==> r == st
    ensures !st.connecting ==>
      && r.connections == st.connections && r.origin == st.origin && !r.connecting
      && r.bubbles == AddEmotion(st.bubbles, Emotion(b.name, b.color), None, draw, stamp, now)
      && (exists i :: 0 <= i < |r.bubbles| && r.bubbles[i].name == b.name)
  {
    if st.connecting then
      if st.origin.None? then st.(origin := Some(b))
      else if st.origin.value.id != b.id then
        st.(connections := st.connections + [Connection(stamp, st.origin.value.id, b.id, None)],
            origin := None,
            connecting := false)
      else st
    else st.(bubbles := AddEmotion(st.bubbles, Emotion(b.name, b.color), None, draw, stamp, now))
  }

  /**
   Two taps in connection mode on bubbles with different ids: the first only
   records the origin; the second appends one connection origin to destination,
   clears the origin and leaves the mode. No bubble changes.
   */
  lemma TwoTapsConnect(st: ClientState, a: Bubble, b: Bubble, draw: Coords, stamp1: int, stamp2: int, now: int)
    requires st.connecting && st.origin.None?
    requires a.id != b.id
    ensures var s1 := TapBubble(st, a, draw, stamp1, now);
      && s1 == st.(origin := Some(a))
      && var s2 := TapBubble(s1, b, draw, stamp2, now);
      && s2.bubbles == st.bubbles
      && s2.connections == st.connections + [Connection(stamp2, a.id, b.id, None)]
      && s2.origin.None? && !s2.connecting
  {
  }

  /** A second tap on the origin itself changes nothing, not even the mode. */
  lemma TapOnOriginIsNoOp(st: ClientState, b: Bubble, draw: Coords, stamp: int, now: int)
    requires st.connecting && st.origin.Some? && st.origin.value.id == b.id
    ensures TapBubble(st, b, draw, stamp, now) == st
  {
  }

  /**
   Outside connection mode a tap on a bubble of a well-formed canvas is a
   re-tap of its emotion: that bubble alone gains one count and one record.
   */
  lemma TapOutsideModeCountsBubble(st: ClientState, k: nat, draw: Coords, stamp: int, now: int)
    requires !st.connecting
    requires WellFormed(st.bubbles) && k < |st.bubbles|
    ensures var r := TapBubble(st, st.bubbles[k], draw, stamp, now);
      && r.connections == st.connections && r.origin == st.origin && !r.connecting
      && |r.bubbles| == |st.bubbles|
      && r.bubbles[k] == Bump(st.bubbles[k], now)
      && forall j :: 0 <= j < |st.bubbles| && j != k ==> r.bubbles[j] == st.bubbles[j]
  {
    var b := st.bubbles[k];
    AddExistingChangesOnlyThatBubble(st.bubbles, k, Emotion(b.name, b.color), None, draw, stamp, now);
  }

  // ----------------------------------------------------------------- deleting

  /**
   `eliminarBurbuja` as written: drops the bubbles with that id and every
   connection that starts or ends at it. A picked origin is left in place.
   */
  function DeleteBubble(st: ClientState, id: int): (r: ClientState)
    ensures forall i :: 0 <= i < |r.bubbles| ==> r.bubbles[i].id != id && r.bubbles[i] in st.bubbles
    ensures forall i :: 0 <= i < |st.bubbles| && st.bubbles[i].id != id ==> st.bubbles[i] in r.bubbles
    ensures forall k :: 0 <= k < |r.connections| ==>
      r.connections[k].origin != id && r.connections[k].destination != id && r.connections[k] in st.connections
    ensures forall k :: 0 <= k < |st.connections| && st.connections[k].origin != id && st.connections[k].destination != id ==>
      st.connections[k] in r.connections
    ensures r.connecting == st.connecting && r.origin == st.origin
  {
    var keepBubble := (b: Bubble) => b.id != id;
    var keepConnection := (c: Connection) => c.origin != id && c.destination != id;
    Seqs.FilterMembers(st.bubbles, keepBubble);
    Seqs.FilterMembers(st.connections, keepConnection);
    st.(bubbles := Seqs.Filter(st.bubbles, keepBubble), connections := Seqs.Filter(st.connections, keepConnection))
  }

  /** Deleting keeps the surviving bubbles in their original relative order. */
  lemma DeleteKeepsBubbleOrder(st: ClientState, id: int, i: nat, j: nat)
    requires i < j <= |st.bubbles|
    ensures var keep := (b: Bubble) => b.id != id;
      DeleteBubble(st, id).bubbles ==
        Seqs.Filter(st.bubbles[..i], keep) + Seqs.Filter(st.bubbles[i..j], keep) + Seqs.Filter(st.bubbles[j..], keep)
  {
    var keep := (b: Bubble) => b.id != id;
    var bs := st.bubbles;
    assert bs == bs[..i] + bs[i..j] + bs[j..];
    Seqs.FilterAppend(bs[..i] + bs[i..j], bs[j..], keep);
    Seqs.FilterAppend(bs[..i], bs[i..j], keep);
  }

  /** Deleting keeps the surviving connections in their original relative order. */
  lemma DeleteKeepsOrder(st: ClientState, id: int, i: nat, j: nat)
    requires i < j <= |st.connections|
    ensures var keep := (c: Connection) => c.origin != id && c.destination != id;
      DeleteBubble(st, id).connections ==
        Seqs.Filter(st.connections[..i], keep) + Seqs.Filter(st.connections[i..j], keep) + Seqs.Filter(st.connections[j..], keep)
  {
    var keep := (c: Connection) => c.origin != id && c.destination != id;
    var cs := st.connections;
    assert cs == cs[..i] + cs[i..j] + cs[j..];
    Seqs.FilterAppend(cs[..i] + cs[i..j], cs[j..], keep);
    Seqs.FilterAppend(cs[..i], cs[i..j], keep);
  }

  /** Deleting a bubble never leaves a connection without both of its ends. */
  lemma {:induction false} DeletePreservesNoDangling(st: ClientState, id: int)
    requires NoDangling(st.bubbles, st.connections)
    ensures var r := DeleteBubble(st, id); NoDangling(r.bubbles, r.connections)
  {
    var r := DeleteBubble(st, id);
    forall k | 0 <= k < |r.connections|
      ensures HasId(r.bubbles, r.connections[k].origin) && HasId(r.bubbles, r.connections[k].destination)
    {
      var c := r.connections[k];
      var m :| 0 <= m < |st.connections| && st.connections[m] == c;
      var o :| 0 <= o < |st.bubbles| && st.bubbles[o].id == c.origin;
      var d :| 0 <= d < |st.bubbles| && st.bubbles[d].id == c.destination;
      var io :| 0 <= io < |r.bubbles| && r.bubbles[io] == st.bubbles[o];
      var id' :| 0 <= id' < |r.bubbles| && r.bubbles[id'] == st.bubbles[d];
    }
  }

  /**
   Deleting while a picked origin is the deleted bubble, then tapping another
   bubble, stores a connection whose origin no longer exists: `eliminarBurbuja`
   does not reset `conexionOrigen`, and a long press opens the delete dialog
   in connection mode too.
   */
  lemma StaleOriginMakesDanglingConnection(a: Bubble, b: Bubble, draw: Coords, stamp: int, now: int)
    requires WellFormed([a, b])
    ensures var s0 := ClientState([a, b], [], true, None);
      var s3 := TapBubble(DeleteBubble(TapBubble(s0, a, draw, stamp, now), a.id), b, draw, stamp, now);
      Invariant(s0) && !NoDangling(s3.bubbles, s3.connections)
  {
    var s0 := ClientState([a, b], [], true, None);
    var s1 := TapBubble(s0, a, draw, stamp, now);
    var s2 := DeleteBubble(s1, a.id);
    var s3 := TapBubble(s2, b, draw, stamp, now);
    var p := (x: Bubble) => x.id != a.id;
    assert a.id != b.id by {
      assert [a, b][0] == a && [a, b][1] == b;
    }
    assert Invariant(s0);
    assert s1 == s0.(origin := Some(a));
    assert s2.bubbles == [b] by {
      assert [a, b][1..] == [b];
      assert [b][1..] == [];
      assert Seqs.Filter([b], p) == [b] + Seqs.Filter([], p);
    }
    assert s2.connecting && s2.origin == Some(a);
    assert s3.connections == [Connection(stamp, a.id, b.id, None)];
    assert !HasId(s2.bubbles, a.id);
    assert !HasId(s3.bubbles, s3.connections[0].origin);
  }

  /** `eliminarBurbuja` as evidently intended: a picked origin that is deleted is dropped too. */
  function DeleteBubbleChecked(st: ClientState, id: int): (r: ClientState)
    ensures r.bubbles == DeleteBubble(st, id).bubbles && r.connections == DeleteBubble(st, id).connections
    ensures r.connecting == st.connecting
    ensures r.origin.Some? ==> r.origin.value.id != id
    ensures st.origin.Some? && st.origin.value.id != id ==> r.origin == st.origin
    ensures st.origin.Some? && st.origin.value.id == id ==> r.origin.None?
    ensures st.origin.None? ==> r.origin.None?
  {
    var d := DeleteBubble(st, id);
    if st.origin.Some? && st.origin.value.id == id then d.(origin := None) else d
  }

  /** With the origin reset, deleting preserves the whole editing invariant. */
  lemma DeleteCheckedPreservesInvariant(st: ClientState, id: int)
    requires Invariant(st)
    ensures Invariant(DeleteBubbleChecked(st, id))
  {
    DeletePreservesNoDangling(st, id);
    var r := DeleteBubbleChecked(st, id);
    if r.origin.Some? {
      var o :| 0 <= o < |st.bubbles| && st.bubbles[o].id == r.origin.value.id;
      var i :| 0 <= i < |r.bubbles| && r.bubbles[i] == st.bubbles[o];
    }
    FilterWellFormed(st.bubbles, (b: Bubble) => b.id != id);
  }

  /** Dropping bubbles from a well-formed canvas leaves it well formed. */
  lemma {:induction false} FilterWellFormed(bs: seq<Bubble>, p: Bubble -> bool)
    requires WellFormed(bs)
    ensures WellFormed(Seqs.Filter(bs, p))
  {
    if |bs| > 0 {
      var tail := bs[1..];
      WellFormedTail(bs);
      FilterWellFormed(tail, p);
      var ft := Seqs.Filter(tail, p);
      Seqs.FilterMembers(tail, p);
      if p(bs[0]) {
        forall j | 0 <= j < |ft| ensures ft[j].name != bs[0].name && ft[j].id != bs[0].id {
          var m :| 0 <= m < |tail| && tail[m] == ft[j];
          assert bs[m + 1] == tail[m];
        }
        WellFormedCons(bs[0], ft);
      }
    }
  }

  lemma WellFormedTail(bs: seq<Bubble>)
    requires WellFormed(bs) && |bs| > 0
    ensures WellFormed(bs[1..])
  {
    var tail := bs[1..];
    forall i, j | 0 <= i < j < |tail| ensures tail[i].name != tail[j].name && tail[i].id != tail[j].id {
      assert tail[i] == bs[i + 1] && tail[j] == bs[j + 1];
    }
  }

  lemma WellFormedCons(x: Bubble, t: seq<Bubble>)
    requires WellFormed(t) && x.count == |x.records|
    requires forall j :: 0 <= j < |t| ==> t[j].name != x.name && t[j].id != x.id
    ensures WellFormed([x] + t)
  {
    var r := [x] + t;
    forall i, j | 0 <= i < j < |r| ensures r[i].name != r[j].name && r[i].id != r[j].id {
      assert r[j] == t[j - 1];
      if i > 0 {
        assert r[i] == t[i - 1];
      }
    }
    forall i | 0 <= i < |r| ensures r[i].count == |r[i].records| {
      if i > 0 {
        assert r[i] == t[i - 1];
      }
    }
  }

  // ------------------------------------------------------------------- notes

  /** Every bubble with id `bid` has a record at position `i`. */
  predicate NoteTarget(bs: seq<Bubble>, bid: int, i: nat) {
    forall j :: 0 <= j < |bs| && bs[j].id == bid ==> i < |bs[j].records|
  }

  /**
   `añadirNotaARegistro`: replaces the note of record `i` of the bubble `bid`;
   its timestamp and intensity, every other record and every other bubble are
   kept.
   */
  function AddNote(bs: seq<Bubble>, bid: int, i: nat, note: string): (r: seq<Bubble>)
    requires NoteTarget(bs, bid, i)
    ensures |r| == |bs|
    ensures forall j :: 0 <= j < |bs| && bs[j].id != bid ==> r[j] == bs[j]
    ensures forall j :: 0 <= j < |bs| && bs[j].id == bid ==>
      && r[j] == bs[j].(records := r[j].records)
      && |r[j].records| == |bs[j].records|
      && r[j].records[i] == bs[j].records[i].(note := Some(note))
      && forall m :: 0 <= m < |bs[j].records| && m != i ==> r[j].records[m] == bs[j].records[m]
  {
    seq(|bs|, j requires 0 <= j < |bs| =>
      if bs[j].id == bid then bs[j].(records := bs[j].records[i := bs[j].records[i].(note := Some(note))])
      else bs[j])
  }

  /** Editing a note keeps the canvas well formed. */
  lemma AddNotePreservesWellFormed(bs: seq<Bubble>, bid: int, i: nat, note: string)
    requires WellFormed(bs) && NoteTarget(bs, bid, i)
    ensures WellFormed(AddNote(bs, bid, i, note))
  {
  }

  // ---------------------------------------------------------------- drawing

  /** `calcularTamaño`: 60 points plus 15 per tap, capped at 150. */
  function BubbleSize(count: int): (s: int)
    ensures s <= 150
    ensures count <= 6 ==> s == 60 + 15 * count
    ensures count >= 6 ==> s == 150
  {
    if 60 + count * 15 < 150 then 60 + count * 15 else 150
  }

  /** A bubble never shrinks as its count grows. */
  lemma BubbleSizeMonotone(a: int, b: int)
    requires a <= b
    ensures BubbleSize(a) <= BubbleSize(b)
  {
  }

  // ------------------------------------------------------------ whole screen

  /** The user actions that change the canvas. */
  datatype Event =
    | Pick(e: Emotion, draw: Coords, stamp: int, now: int)
    | Toggle
    | Tap(b: Bubble, draw: Coords, stamp: int, now: int)
    | Delete(id: int)
    | Note(bubbleId: int, index: nat, note: string)

  /** What the screen guarantees of an action: taps hit a bubble on screen, stamps are fresh, notes edit a shown record. */
  predicate Allowed(st: ClientState, ev: Event) {
    match ev
    case Pick(_, _, stamp, _) => Fresh(st.bubbles, stamp)
    case Toggle => true
    case Tap(b, _, _, _) => b in st.bubbles
    case Delete(_) => true
    case Note(bid, i, _) => NoteTarget(st.bubbles, bid, i)
  }

  /** One action on the canvas, with the corrected delete. */
  function Step(st: ClientState, ev: Event): ClientState
    requires Allowed(st, ev)
  {
    match ev
    case Pick(e, draw, stamp, now) => st.(bubbles := AddEmotion(st.bubbles, e, None, draw, stamp, now))
    case Toggle => ToggleConnecting(st)
    case Tap(b, draw, stamp, now) => TapBubble(st, b, draw, stamp, now)
    case Delete(id) => DeleteBubbleChecked(st, id)
    case Note(bid, i, note) => st.(bubbles := AddNote(st.bubbles, bid, i, note))
  }

  /** The bubble ids present before an action that is not a delete are still present after it. */
  lemma AddEmotionKeepsIds(bs: seq<Bubble>, e: Emotion, pos: Option<Coords>, draw: Coords, stamp: int, now: int, id: int)
    requires HasId(bs, id)
    ensures HasId(AddEmotion(bs, e, pos, draw, stamp, now), id)
  {
    var i :| 0 <= i < |bs| && bs[i].id == id;
    assert AddEmotion(bs, e, pos, draw, stamp, now)[i].id == id;
  }

  /**
   Every allowed action keeps the editing invariant: unique names and ids,
   counts equal to record lengths, no dangling connection and no stale origin.
   */
  lemma StepPreservesInvariant(st: ClientState, ev: Event)
    requires Invariant(st) && Allowed(st, ev)
    ensures Invariant(Step(st, ev))
  {
    var r := Step(st, ev);
    match ev
    case Pick(e, draw, stamp, now) =>
      AddEmotionPreservesWellFormed(st.bubbles, e, None, draw, stamp, now);
      forall id | HasId(st.bubbles, id) ensures HasId(r.bubbles, id) {
        AddEmotionKeepsIds(st.bubbles, e, None, draw, stamp, now, id);
      }
    case Toggle =>
    case Tap(b, draw, stamp, now) =>
      if st.connecting {
        assert HasId(st.bubbles, b.id);
      } else {
        var k :| 0 <= k < |st.bubbles| && st.bubbles[k] == b;
        AddEmotionPreservesWellFormed(st.bubbles, Emotion(b.name, b.color), None, draw, stamp, now);
        forall id | HasId(st.bubbles, id) ensures HasId(r.bubbles, id) {
          AddEmotionKeepsIds(st.bubbles, Emotion(b.name, b.color), None, draw, stamp, now, id);
        }
      }
    case Delete(id) =>
      DeleteCheckedPreservesInvariant(st, id);
    case Note(bid, i, note) =>
      forall id | HasId(st.bubbles, id) ensures HasId(r.bubbles, id) {
        var j :| 0 <= j < |st.bubbles| && st.bubbles[j].id == id;
        assert r.bubbles[j].id == id;
      }
  }
}

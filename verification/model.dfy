/**
 The shapes shared by the mobile client and the backend: an emotion bubble
 (`burbuja`), the record of one tap on it (`registro`), a connection between
 two bubbles (`conexion`) and the pair of lists that make up one day.
 */
module Model {
  import opened Wrappers

  /** Canvas position, as percentages of the canvas width and height. */
  datatype Coords = Coords(x: real, y: real)

  /** One tap on a bubble; the note and the intensity may be absent. */
  datatype Occurrence = Occurrence(timestamp: int, note: Option<string>, intensity: Option<int>)

  /** An emotion touched today: `count` taps, one occurrence record per tap. */
  datatype Bubble = Bubble(
    id: int,
    name: string,
    color: string,
    count: int,
    pos: Coords,
    records: seq<Occurrence>)

  /** A link from the bubble with id `origin` to the bubble with id `destination`. */
  datatype Connection = Connection(id: int, origin: int, destination: int, kind: Option<string>)

  /** The bubbles and connections of one day. */
  datatype DayData = DayData(bubbles: seq<Bubble>, connections: seq<Connection>)

  /** The sum of the bubbles' counts, accumulated left to right. */
  function TotalCount(bs: seq<Bubble>): int
  {
    if |bs| == 0 then 0 else TotalCount(bs[..|bs| - 1]) + bs[|bs| - 1].count
  }

  /** The total over two lists of bubbles is the sum of their totals. */
  lemma {:induction false} TotalCountAppend(a: seq<Bubble>, b: seq<Bubble>)
    ensures TotalCount(a + b) == TotalCount(a) + TotalCount(b)
  {
    if |b| == 0 {
      assert a + b == a;
    } else {
      var b' := b[..|b| - 1];
      assert (a + b)[..|a + b| - 1] == a + b';
      TotalCountAppend(a, b');
    }
  }
}

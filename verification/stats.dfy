/**
 The backend's read-only reports over the per-day records (`server.js`):
 the statistics of a user's recent days (per-emotion totals, day and
 connection counts, the average per day and the five most frequent
 emotions) and the full export with per-day totals.
 */
module Stats {
  import opened Wrappers
  import opened Model
  import Seqs
  import Server

  /** One emotion's aggregate: total taps over the days, and the color first seen for it. */
  datatype Entry = Entry(name: string, count: int, color: string)

  /** The average taps per day, kept as a ratio; `NoDays` is the reported 0. */
  datatype Average = NoDays | Ratio(total: int, days: nat)

  datatype Statistics = Statistics(
    totalDays: nat,
    frequent: seq<Entry>,
    average: Average,
    totalConnections: nat,
    daysAnalysed: int,
    top5: seq<Entry>)

  // --------------------------------------------------------- reference sums

  /** All bubbles of the records, day after day, in stored order. */
  function AllBubbles(recs: seq<Server.Record>): seq<Bubble> {
    if |recs| == 0 then [] else AllBubbles(recs[..|recs| - 1]) + recs[|recs| - 1].bubbles
  }

  /** The number of connections over all the records. */
  function ConnectionTotal(recs: seq<Server.Record>): nat {
    if |recs| == 0 then 0 else ConnectionTotal(recs[..|recs| - 1]) + |recs[|recs| - 1].connections|
  }

  /** The taps on bubbles called `name`, summed over the list. */
  function CountOf(bs: seq<Bubble>, name: string): int {
    if |bs| == 0 then 0
    else CountOf(bs[..|bs| - 1], name) + (if bs[|bs| - 1].name == name then bs[|bs| - 1].count else 0)
  }

  lemma {:induction false} CountOfAbsent(bs: seq<Bubble>, name: string)
    requires forall j :: 0 <= j < |bs| ==> bs[j].name != name
    ensures CountOf(bs, name) == 0
  {
    if |bs| > 0 {
      CountOfAbsent(bs[..|bs| - 1], name);
    }
  }

  function SumCounts(es: seq<Entry>): int {
    if |es| == 0 then 0 else SumCounts(es[..|es| - 1]) + es[|es| - 1].count
  }

  lemma {:induction false} SumCountsUpdate(es: seq<Entry>, k: nat, v: int)
    requires k < |es|
    ensures SumCounts(es[k := es[k].(count := v)]) == SumCounts(es) - es[k].count + v
  {
    var es' := es[k := es[k].(count := v)];
    if k < |es| - 1 {
      assert es'[..|es'| - 1] == es[..|es| - 1][k := es[k].(count := v)];
      SumCountsUpdate(es[..|es| - 1], k, v);
    } else {
      assert es'[..|es'| - 1] == es[..|es| - 1];
    }
  }

  predicate DistinctNames(es: seq<Entry>) {
    forall i, j :: 0 <= i < j < |es| ==> es[i].name != es[j].name
  }

  /** `color` is the color of the first bubble called `name`. */
  predicate FirstColor(bs: seq<Bubble>, name: string, color: string) {
    exists k :: 0 <= k < |bs| && bs[k].name == name && bs[k].color == color &&
      forall j :: 0 <= j < k ==> bs[j].name != name
  }

  /** Every bubble's name has an entry. */
  predicate Covers(es: seq<Entry>, bs: seq<Bubble>) {
    forall j :: 0 <= j < |bs| ==> exists i :: 0 <= i < |es| && es[i].name == bs[j].name
  }

  /** Each entry's count is the total of its name. */
  predicate CountsAgree(es: seq<Entry>, bs: seq<Bubble>) {
    forall i :: 0 <= i < |es| ==> es[i].count == CountOf(bs, es[i].name)
  }

  /** Each entry's color is the first seen for its name. */
  predicate ColorsAgree(es: seq<Entry>, bs: seq<Bubble>) {
    forall i :: 0 <= i < |es| ==> FirstColor(bs, es[i].name, es[i].color)
  }

  /** The entries are exactly the per-name aggregates of the bubbles. */
  predicate Aggregates(es: seq<Entry>, bs: seq<Bubble>) {
    && DistinctNames(es)
    && Covers(es, bs)
    && CountsAgree(es, bs)
    && ColorsAgree(es, bs)
    && SumCounts(es) == TotalCount(bs)
  }

  // -------------------------------------------------------------- the fold

  /** The entry already kept for `name`, if any. */
  function EntryIndex(es: seq<Entry>, name: string): (r: Option<nat>)
    ensures r.Some? ==> r.value < |es| && es[r.value].name == name
    ensures r.None? <==> forall i :: 0 <= i < |es| ==> es[i].name != name
  {
    Seqs.FirstIndex(es, (e: Entry) => e.name == name)
  }

  /** The body of the inner `forEach`: the first bubble of a name creates its entry with that bubble's color; later ones add their count. */
  function Tally(es: seq<Entry>, b: Bubble): (r: seq<Entry>)
    ensures |es| <= |r| <= |es| + 1
    ensures |r| == |es| + 1 <==> forall i :: 0 <= i < |es| ==> es[i].name != b.name
    ensures |r| == |es| + 1 ==> r[|es|] == Entry(b.name, b.count, b.color)
    ensures forall i :: 0 <= i < |es| ==> r[i].name == es[i].name && r[i].color == es[i].color
    ensures forall i :: 0 <= i < |es| && es[i].name != b.name ==> r[i] == es[i]
    ensures DistinctNames(es) ==> forall i :: 0 <= i < |es| && es[i].name == b.name ==> r[i].count == es[i].count + b.count
  {
    match EntryIndex(es, b.name)
    case Some(k) => es[k := es[k].(count := es[k].count + b.count)]
    case None => es + [Entry(b.name, b.count, b.color)]
  }

  lemma FirstColorAppend(bs: seq<Bubble>, b: Bubble, name: string, color: string)
    requires FirstColor(bs, name, color)
    ensures FirstColor(bs + [b], name, color)
  {
    var k :| 0 <= k < |bs| && bs[k].name == name && bs[k].color == color &&
      forall j :: 0 <= j < k ==> bs[j].name != name;
    var bs' := bs + [b];
    assert bs'[k] == bs[k];
    assert forall j :: 0 <= j < k ==> bs'[j] == bs[j];
  }

  lemma CountOfSnoc(bs: seq<Bubble>, b: Bubble, n: string)
    ensures CountOf(bs + [b], n) == CountOf(bs, n) + (if b.name == n then b.count else 0)
  {
    assert (bs + [b])[..|bs|] == bs;
  }

  /** One step of the fold keeps the entries the exact aggregates of the bubbles seen so far. */
  lemma TallyStep(es: seq<Entry>, bs: seq<Bubble>)
    requires |bs| > 0
    requires Aggregates(es, bs[..|bs| - 1])
    ensures Aggregates(Tally(es, bs[|bs| - 1]), bs)
  {
    var init := bs[..|bs| - 1];
    var b := bs[|bs| - 1];
    assert bs == init + [b];
    TotalCountAppend(init, [b]);
    TallySum(es, b);
    TallyNames(es, b);
    TallyCovers(es, init, b);
    TallyCounts(es, init, b);
    TallyColors(es, init, b);
  }

  /** Each step of the fold adds the bubble's count to the sum of the entries. */
  lemma TallySum(es: seq<Entry>, b: Bubble)
    ensures SumCounts(Tally(es, b)) == SumCounts(es) + b.count
  {
    match EntryIndex(es, b.name)
    case Some(k) =>
      SumCountsUpdate(es, k, es[k].count + b.count);
    case None =>
      var r := Tally(es, b);
      assert r[..|es|] == es;
  }

  /** The fold renames nothing and adds the bubble's name only when it is new. */
  lemma TallyNames(es: seq<Entry>, b: Bubble)
    requires DistinctNames(es)
    ensures var r := Tally(es, b);
      && DistinctNames(r)
      && |r| >= |es|
      && (forall i :: 0 <= i < |es| ==> r[i].name == es[i].name && r[i].color == es[i].color)
      && (exists i :: 0 <= i < |r| && r[i].name == b.name)
  {
    var r := Tally(es, b);
    match EntryIndex(es, b.name)
    case Some(k) =>
      assert r[k].name == b.name;
    case None =>
      assert r[|es|].name == b.name;
  }

  lemma TallyCovers(es: seq<Entry>, bs: seq<Bubble>, b: Bubble)
    requires DistinctNames(es) && Covers(es, bs)
    ensures Covers(Tally(es, b), bs + [b])
  {
    var bs' := bs + [b];
    var r := Tally(es, b);
    TallyNames(es, b);
    forall j | 0 <= j < |bs'| ensures exists i :: 0 <= i < |r| && r[i].name == bs'[j].name {
      if j < |bs| {
        assert bs'[j] == bs[j];
        var i :| 0 <= i < |es| && es[i].name == bs[j].name;
        assert r[i].name == es[i].name;
      } else {
        assert bs'[j] == b;
      }
    }
  }

  lemma TallyCounts(es: seq<Entry>, bs: seq<Bubble>, b: Bubble)
    requires DistinctNames(es) && Covers(es, bs) && CountsAgree(es, bs)
    ensures CountsAgree(Tally(es, b), bs + [b])
  {
    var r := Tally(es, b);
    match EntryIndex(es, b.name)
    case Some(k) =>
      forall i | 0 <= i < |r| ensures r[i].count == CountOf(bs + [b], r[i].name) {
        CountOfSnoc(bs, b, r[i].name);
      }
    case None =>
      assert forall j :: 0 <= j < |bs| ==> bs[j].name != b.name;
      CountOfAbsent(bs, b.name);
      forall i | 0 <= i < |r| ensures r[i].count == CountOf(bs + [b], r[i].name) {
        CountOfSnoc(bs, b, r[i].name);
      }
  }

  lemma TallyColors(es: seq<Entry>, bs: seq<Bubble>, b: Bubble)
    requires DistinctNames(es) && Covers(es, bs) && ColorsAgree(es, bs)
    ensures ColorsAgree(Tally(es, b), bs + [b])
  {
    var bs' := bs + [b];
    var r := Tally(es, b);
    TallyNames(es, b);
    forall i | 0 <= i < |es| ensures FirstColor(bs', r[i].name, r[i].color) {
      FirstColorAppend(bs, b, es[i].name, es[i].color);
    }
    if |r| > |es| {
      assert EntryIndex(es, b.name).None?;
      assert r[|es|] == Entry(b.name, b.count, b.color);
      assert forall j :: 0 <= j < |bs| ==> bs[j].name != b.name;
      FirstColorNew(bs, b);
    }
  }

  /** A name no earlier bubble carries takes its color from the bubble that introduces it. */
  lemma FirstColorNew(bs: seq<Bubble>, b: Bubble)
    requires forall j :: 0 <= j < |bs| ==> bs[j].name != b.name
    ensures FirstColor(bs + [b], b.name, b.color)
  {
    var bs' := bs + [b];
    assert bs'[|bs|] == b;
    assert forall j :: 0 <= j < |bs| ==> bs'[j] == bs[j];
  }

  /**
   The nested `forEach` over the bubbles in order: one entry per distinct name,
   whose count is the sum of that name's counts and whose color is the first
   one seen; the entries' counts add up to the total of all taps.
   */
  function Aggregate(bs: seq<Bubble>): (r: seq<Entry>)
    ensures Aggregates(r, bs)
  {
    if |bs| == 0 then []
    else
      var prev := Aggregate(bs[..|bs| - 1]);
      TallyStep(prev, bs);
      Tally(prev, bs[|bs| - 1])
  }

  // ---------------------------------------------------------------- ranking

  function CountKey(e: Entry): int {
    e.count
  }

  /**
   `Object.entries(...).sort(by count, descending).slice(0, 5)`: at most five
   entries, most frequent first, and no left-out entry beats the last one kept.
   */
  function Top5(es: seq<Entry>): (t: seq<Entry>)
    ensures |t| == if |es| < 5 then |es| else 5
    ensures Seqs.SortedDescBy(t, CountKey)
    ensures multiset(t) <= multiset(es)
    ensures DistinctNames(es) ==> DistinctNames(t)
    ensures forall i :: 0 <= i < |t| ==> t[i] in es
    ensures forall i :: 0 <= i < |es| && es[i] !in t ==> es[i].count <= t[|t| - 1].count
  {
    var sorted := Seqs.SortDescBy(es, CountKey);
    var n := if |es| < 5 then |es| else 5;
    Seqs.SortedPrefix(es, sorted, n, CountKey);
    DistinctNamesOfPart(sorted[..n], es);
    sorted[..n]
  }

  /** Entries taken from entries with distinct names, each at most once, have distinct names. */
  lemma DistinctNamesOfPart(t: seq<Entry>, es: seq<Entry>)
    requires multiset(t) <= multiset(es)
    ensures DistinctNames(es) ==> DistinctNames(t)
  {
    if DistinctNames(es) {
      assert Seqs.NoDup(es);
      Seqs.SubMultisetNoDup(t, es);
      forall i, j | 0 <= i < j < |t| ensures t[i].name != t[j].name {
        assert t[i] in multiset(es) && t[j] in multiset(es);
        var a :| 0 <= a < |es| && es[a] == t[i];
        var b :| 0 <= b < |es| && es[b] == t[j];
        assert a != b;
      }
    }
  }

  // ------------------------------------------------------------ statistics

  /** The records the statistics query selects: the user's, from day `from` on. */
  function Select(db: seq<Server.Record>, user: string, from: int): (r: seq<Server.Record>)
    ensures forall i :: 0 <= i < |r| ==> r[i].user == user && r[i].day >= from && r[i] in db
    ensures forall i :: 0 <= i < |db| && db[i].user == user && db[i].day >= from ==> db[i] in r
  {
    var inRange := (x: Server.Record) => x.user == user && x.day >= from;
    Seqs.FilterMembers(db, inRange);
    Seqs.Filter(db, inRange)
  }

  /**
   The statistics of the selected records: one day per record, per-name
   totals with their first color, all connections, the average taps per day
   (none without days) and the top five by total.
   */
  function Compute(recs: seq<Server.Record>, days: int): (s: Statistics)
    ensures s.totalDays == |recs| && s.daysAnalysed == days
    ensures Aggregates(s.frequent, AllBubbles(recs))
    ensures s.average.NoDays? <==> |recs| == 0
    ensures s.average.Ratio? ==> s.average.total == SumCounts(s.frequent) && s.average.days == |recs|
    ensures s.totalConnections == ConnectionTotal(recs)
    ensures |s.top5| == if |s.frequent| < 5 then |s.frequent| else 5
    ensures Seqs.SortedDescBy(s.top5, CountKey)
    ensures multiset(s.top5) <= multiset(s.frequent) && DistinctNames(s.top5)
    ensures forall i :: 0 <= i < |s.top5| ==>
      s.top5[i].count == CountOf(AllBubbles(recs), s.top5[i].name) &&
      FirstColor(AllBubbles(recs), s.top5[i].name, s.top5[i].color)
    ensures forall i :: 0 <= i < |s.frequent| && s.frequent[i] !in s.top5 ==>
      s.frequent[i].count <= s.top5[|s.top5| - 1].count
  {
    var bs := AllBubbles(recs);
    var freq := Aggregate(bs);
    var top := Top5(freq);
    TopEntriesAreAggregates(freq, bs, top);
    Statistics(
      |recs|,
      freq,
      if |recs| > 0 then Ratio(TotalCount(bs), |recs|) else NoDays,
      ConnectionTotal(recs),
      days,
      top)
  }

  /** Entries drawn from the aggregates carry their name's total and first color. */
  lemma TopEntriesAreAggregates(freq: seq<Entry>, bs: seq<Bubble>, top: seq<Entry>)
    requires Aggregates(freq, bs)
    requires forall i :: 0 <= i < |top| ==> top[i] in freq
    ensures forall i :: 0 <= i < |top| ==>
      top[i].count == CountOf(bs, top[i].name) && FirstColor(bs, top[i].name, top[i].color)
  {
    forall i | 0 <= i < |top|
      ensures top[i].count == CountOf(bs, top[i].name) && FirstColor(bs, top[i].name, top[i].color)
    {
      var m :| 0 <= m < |freq| && freq[m] == top[i];
    }
  }

  /** Milliseconds in a day; a record's `fecha` is midnight of its day, `day * DayMs`. */
  const DayMs: int := 86_400_000

  /**
   The first day the statistics window holds. The cutoff is `now` moved back
   `days` days, keeping the time of day, and records are stamped at midnight:
   the window is the last `days` days up to today, or one day more when `now`
   is exactly midnight.
   */
  function FirstDay(now: int, days: int): (d: int)
    ensures d * DayMs >= now - days * DayMs > (d - 1) * DayMs
  {
    var q, m := now / DayMs, now % DayMs;
    assert now == q * DayMs + m && 0 <= m < DayMs;
    var d := q - days + (if m == 0 then 0 else 1);
    assert d * DayMs == q * DayMs - days * DayMs + (if m == 0 then 0 else DayMs);
    d
  }

  /**
   A record stamped at midnight of `day` is on or after the cutoff exactly when
   its day is at least `FirstDay`; away from midnight that is today minus
   `days` plus one, so the window holds `days` calendar days up to today.
   */
  lemma WindowByDay(day: int, now: int, days: int)
    ensures day * DayMs >= now - days * DayMs <==> day >= FirstDay(now, days)
    ensures now % DayMs != 0 ==> FirstDay(now, days) == now / DayMs - days + 1
  {
    var d := FirstDay(now, days);
    if day >= d {
      assert day * DayMs >= d * DayMs;
    } else {
      assert day * DayMs <= (d - 1) * DayMs;
    }
  }

  /** Filtering by two predicates that agree on every element gives the same result. */
  lemma {:induction false} FilterAgree(db: seq<Server.Record>, p: Server.Record -> bool, q: Server.Record -> bool)
    requires forall i :: 0 <= i < |db| ==> p(db[i]) == q(db[i])
    ensures Seqs.Filter(db, p) == Seqs.Filter(db, q)
  {
    if |db| > 0 {
      assert forall i :: 0 <= i < |db[1..]| ==> db[1..][i] == db[i + 1];
      FilterAgree(db[1..], p, q);
    }
  }

  /** The statistics query's filter: the user's records stamped at or after `cutoff`. */
  function InWindow(user: string, cutoff: int): Server.Record -> bool {
    (x: Server.Record) => x.user == user && x.day * DayMs >= cutoff
  }

  /** Selecting by timestamp from `now - days` days is selecting by day from `FirstDay`. */
  lemma SelectsByDay(db: seq<Server.Record>, user: string, now: int, days: int)
    ensures Seqs.Filter(db, InWindow(user, now - days * DayMs)) == Select(db, user, FirstDay(now, days))
  {
    var byDay := (x: Server.Record) => x.user == user && x.day >= FirstDay(now, days);
    forall i | 0 <= i < |db| ensures InWindow(user, now - days * DayMs)(db[i]) == byDay(db[i]) {
      WindowByDay(db[i].day, now, days);
    }
    FilterAgree(db, InWindow(user, now - days * DayMs), byDay);
  }

  /**
   GET `/api/estadisticas/:usuarioId?dias=N` at time `now` (milliseconds): the
   user's records stamped at or after the cutoff `now - days` days, then the
   statistics of those. It is the same as selecting by day from `FirstDay` on.
   */
  function StatisticsFor(db: seq<Server.Record>, user: string, now: int, days: int): (s: Statistics)
    ensures s == Compute(Select(db, user, FirstDay(now, days)), days)
  {
    SelectsByDay(db, user, now, days);
    Compute(Seqs.Filter(db, InWindow(user, now - days * DayMs)), days)
  }

  // ---------------------------------------------------------------- export

  datatype ExportOccurrence = ExportOccurrence(time: int, note: Option<string>, intensity: Option<int>)

  datatype ExportEmotion = ExportEmotion(name: string, frequency: int, occurrences: seq<ExportOccurrence>)

  datatype ExportDay = ExportDay(
    day: int,
    emotions: seq<ExportEmotion>,
    connections: seq<Connection>,
    totalEmotions: int,
    totalConnections: nat)

  datatype Export = Export(user: string, totalDays: nat, days: seq<ExportDay>)

  function ExportEmotionOf(b: Bubble): (x: ExportEmotion)
    ensures x.name == b.name && x.frequency == b.count && |x.occurrences| == |b.records|
    ensures forall k :: 0 <= k < |b.records| ==>
      x.occurrences[k] == ExportOccurrence(b.records[k].timestamp, b.records[k].note, b.records[k].intensity)
  {
    ExportEmotion(b.name, b.count,
      seq(|b.records|, i requires 0 <= i < |b.records| =>
        ExportOccurrence(b.records[i].timestamp, b.records[i].note, b.records[i].intensity)))
  }

  function EmotionsOf(bs: seq<Bubble>): (r: seq<ExportEmotion>)
    ensures |r| == |bs|
    ensures forall i :: 0 <= i < |bs| ==> r[i] == ExportEmotionOf(bs[i])
  {
    seq(|bs|, i requires 0 <= i < |bs| => ExportEmotionOf(bs[i]))
  }

  function SumFrequencies(es: seq<ExportEmotion>): int {
    if |es| == 0 then 0 else SumFrequencies(es[..|es| - 1]) + es[|es| - 1].frequency
  }

  lemma {:induction false} SumFrequenciesOfBubbles(bs: seq<Bubble>)
    ensures SumFrequencies(EmotionsOf(bs)) == TotalCount(bs)
  {
    if |bs| > 0 {
      var es := EmotionsOf(bs);
      var init := bs[..|bs| - 1];
      assert es[..|es| - 1] == EmotionsOf(init);
      SumFrequenciesOfBubbles(init);
    }
  }

  /**
   One exported day: an emotion per bubble with its frequency and its records;
   `total_emociones` equals the sum of the exported frequencies and
   `total_conexiones` the number of exported connections.
   */
  function ExportDayOf(r: Server.Record): (e: ExportDay)
    ensures e.day == r.day && e.connections == r.connections
    ensures |e.emotions| == |r.bubbles|
    ensures forall i :: 0 <= i < |r.bubbles| ==>
      e.emotions[i].name == r.bubbles[i].name && e.emotions[i].frequency == r.bubbles[i].count &&
      |e.emotions[i].occurrences| == |r.bubbles[i].records|
    ensures forall i, k :: 0 <= i < |r.bubbles| && 0 <= k < |r.bubbles[i].records| ==>
      var o := r.bubbles[i].records[k];
      e.emotions[i].occurrences[k] == ExportOccurrence(o.timestamp, o.note, o.intensity)
    ensures e.totalEmotions == SumFrequencies(e.emotions)
    ensures e.totalConnections == |e.connections|
  {
    var emotions := EmotionsOf(r.bubbles);
    SumFrequenciesOfBubbles(r.bubbles);
    ExportDay(r.day, emotions, r.connections, TotalCount(r.bubbles), |r.connections|)
  }

  function ExportDays(recs: seq<Server.Record>): (r: seq<ExportDay>)
    ensures |r| == |recs|
    ensures forall i :: 0 <= i < |recs| ==> r[i] == ExportDayOf(recs[i])
  {
    seq(|recs|, i requires 0 <= i < |recs| => ExportDayOf(recs[i]))
  }

  function NegDay(r: Server.Record): int {
    -r.day
  }

  function OfUser(user: string): Server.Record -> bool {
    (r: Server.Record) => r.user == user
  }

  /** `find({usuario_id}).sort({fecha: 1})`: each of the user's records exactly once, oldest day first. */
  function ExportOrder(db: seq<Server.Record>, user: string): (s: seq<Server.Record>)
    ensures multiset(s) == multiset(Seqs.Filter(db, OfUser(user)))
    ensures |s| == |Seqs.Filter(db, OfUser(user))|
    ensures forall i :: 0 <= i < |s| ==> s[i] in db && s[i].user == user
    ensures forall i, j :: 0 <= i < j < |s| ==> s[i].day <= s[j].day
  {
    var mine := Seqs.Filter(db, OfUser(user));
    var sorted := Seqs.SortDescBy(mine, NegDay);
    assert forall i, j :: 0 <= i < j < |sorted| ==> NegDay(sorted[i]) >= NegDay(sorted[j]);
    Seqs.FilterMembers(db, OfUser(user));
    forall i | 0 <= i < |sorted| ensures sorted[i] in db && sorted[i].user == user {
      assert sorted[i] in multiset(mine);
      assert sorted[i] in mine;
    }
    sorted
  }

  /**
   GET `/api/exportar/:usuarioId`: every record of the user, oldest day first,
   exported, with `total_dias` the number of exported days.
   */
  function ExportUser(db: seq<Server.Record>, user: string): (x: Export)
    ensures x.user == user
    ensures x.days == ExportDays(ExportOrder(db, user))
    ensures x.totalDays == |x.days|
    ensures x.totalDays == |Seqs.Filter(db, OfUser(user))|
    ensures forall i, j :: 0 <= i < j < |x.days| ==> x.days[i].day <= x.days[j].day
    ensures forall i :: 0 <= i < |x.days| ==> exists r :: r in db && r.user == user && x.days[i] == ExportDayOf(r)
  {
    var mine := ExportOrder(db, user);
    var days := ExportDays(mine);
    assert forall i :: 0 <= i < |days| ==> days[i] == ExportDayOf(mine[i]) && mine[i] in db && mine[i].user == user;
    Export(user, |days|, days)
  }

  function SumTotals(days: seq<ExportDay>): int {
    if |days| == 0 then 0 else SumTotals(days[..|days| - 1]) + days[|days| - 1].totalEmotions
  }

  function SumConnections(days: seq<ExportDay>): nat {
    if |days| == 0 then 0 else SumConnections(days[..|days| - 1]) + days[|days| - 1].totalConnections
  }

  /**
   Over the same records, the export's per-day totals add up to the
   statistics' totals: taps to the sum of the per-name counts, connections to
   `conexiones_totales`.
   */
  lemma {:induction false} ExportAgreesWithStatistics(recs: seq<Server.Record>, days: int)
    ensures SumTotals(ExportDays(recs)) == SumCounts(Compute(recs, days).frequent)
    ensures SumConnections(ExportDays(recs)) == Compute(recs, days).totalConnections
  {
    ExportSums(recs);
  }

  lemma {:induction false} ExportSums(recs: seq<Server.Record>)
    ensures SumTotals(ExportDays(recs)) == TotalCount(AllBubbles(recs))
    ensures SumConnections(ExportDays(recs)) == ConnectionTotal(recs)
  {
    if |recs| > 0 {
      var init := recs[..|recs| - 1];
      var xs := ExportDays(recs);
      assert xs[..|xs| - 1] == ExportDays(init);
      ExportSums(init);
      TotalCountAppend(AllBubbles(init), recs[|recs| - 1].bubbles);
    }
  }

  /** The worked example: two days, Alegría 3 then Alegría 2 and Miedo 1, give Alegría 5 over 2 days, 3 per day. */
  lemma TwoDayExample(a: Bubble, b: Bubble, c: Bubble, r1: Server.Record, r2: Server.Record)
    requires a.name == "Alegría" && a.count == 3
    requires b.name == "Alegría" && b.count == 2
    requires c.name == "Miedo" && c.count == 1
    requires r1.bubbles == [a] && r2.bubbles == [b, c]
    ensures var s := Compute([r1, r2], 7);
      && s.totalDays == 2
      && s.average == Ratio(6, 2)
      && forall i :: 0 <= i < |s.frequent| && s.frequent[i].name == "Alegría" ==> s.frequent[i].count == 5
  {
    var all := AllBubbles([r1, r2]);
    assert [r1, r2][..1] == [r1];
    assert [r1][..0] == [];
    assert AllBubbles([r1]) == [a];
    assert all == [a, b, c];
    assert [a, b, c][..2] == [a, b];
    assert [a, b][..1] == [a];
    assert [a][..0] == [];
    assert "Miedo"[0] != "Alegría"[0];
    assert CountOf([a], "Alegría") == 3;
    assert CountOf([a, b], "Alegría") == 5;
    assert CountOf(all, "Alegría") == 5;
    assert TotalCount([a]) == 3;
    assert TotalCount([a, b]) == 5;
    assert TotalCount(all) == 6;
  }
}

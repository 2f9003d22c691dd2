/** The materialised daily net-liq rollup (src/persistence/rollups.py, the portfolio_daily part):
    a rolling upsert over the account history, its day-over-day chain, and its agreement with a full
    rebuild. Instants are seconds since the epoch in UTC, days are their quotient by 86400, money is real.
    account_history is a map from timestamp to net-liq, which is the distinct-timestamps assumption. */
module Rollup {

  import opened Options

  const DAY: int := 86_400
  const BACKFILL_DAYS: int := 400
  const ROLLING_DAYS: int := 3

  function DayOf(ts: int): int {
    ts / DAY
  }

  /** A closed booking; `pnl` is None for a reconciliation auto-close, which is not a trade. */
  datatype Close = Close(closedAt: int, pnl: Option<real>)

  /** One non-null account sample. */
  datatype Sample = Sample(at: int, netLiq: real)

  datatype History = History(samples: map<int, Option<real>>, closes: seq<Close>)

  /** First and last sample of one day and how many there were. */
  datatype DaySample = DaySample(day: int, open: real, firstAt: int, close: real, lastAt: int, count: nat)

  /** Everything a stored row says about its own day. */
  datatype Facts = Facts(sample: DaySample, realized: real, nClosed: nat)

  datatype DayRow = DayRow(facts: Facts, mtm: Option<real>, computedAt: int)
  {
    function NetLiqClose(): real {
      facts.sample.close
    }
  }

  type Daily = map<int, DayRow>

  // ----- Reading the account history -----

  /** The non-null samples of [lo, hi) in timestamp order. */
  function Ordered(samples: map<int, Option<real>>, lo: int, hi: int): seq<Sample>
    decreases hi - lo
  {
    if lo >= hi then []
    else (if lo in samples && samples[lo].Some? then [Sample(lo, samples[lo].value)] else [])
         + Ordered(samples, lo + 1, hi)
  }

  /** First row, last row and row count of an ordered list of one day's samples. */
  function Summary(day: int, rows: seq<Sample>): DaySample
    requires rows != []
  {
    var first, last := rows[0], rows[|rows| - 1];
    DaySample(day, first.netLiq, first.at, last.netLiq, last.at, |rows|)
  }

  /** One day probed on its own: earliest sample, latest sample and count of that day. */
  function DaySampleOf(samples: map<int, Option<real>>, day: int): Option<DaySample> {
    var rows := Ordered(samples, day * DAY, (day + 1) * DAY);
    if rows == [] then None else Some(Summary(day, rows))
  }

  /** The per-day probes of [start, end], days without a sample left out. */
  function DailySamples(samples: map<int, Option<real>>, start: int, end: int): seq<DaySample>
    decreases end - start
  {
    if start > end then []
    else
      var probe := DaySampleOf(samples, start);
      (if probe.Some? then [probe.value] else []) + DailySamples(samples, start + 1, end)
  }

  /** The rows of `rows` that fall on `day`. */
  function OnDay(rows: seq<Sample>, day: int): seq<Sample> {
    if rows == [] then []
    else
      var last := rows[|rows| - 1];
      OnDay(rows[..|rows| - 1], day) + (if DayOf(last.at) == day then [last] else [])
  }

  lemma {:induction false} OnDayConcat(a: seq<Sample>, b: seq<Sample>, day: int)
    ensures OnDay(a + b, day) == OnDay(a, day) + OnDay(b, day)
  {
    if b == [] {
      assert a + b == a;
    } else {
      assert (a + b)[..|a + b| - 1] == a + b[..|b| - 1];
      OnDayConcat(a, b[..|b| - 1], day);
    }
  }

  lemma {:induction false} OrderedConcat(samples: map<int, Option<real>>, lo: int, mid: int, hi: int)
    requires lo <= mid <= hi
    ensures Ordered(samples, lo, hi) == Ordered(samples, lo, mid) + Ordered(samples, mid, hi)
    decreases mid - lo
  {
    if lo >= mid {
    } else {
      OrderedConcat(samples, lo + 1, mid, hi);
    }
  }

  /** Scanning a range that lies inside one day keeps every row for that day and none for another. */
  lemma {:induction false} OnDayOrdered(samples: map<int, Option<real>>, lo: int, hi: int, day: int)
    ensures day * DAY <= lo <= hi <= (day + 1) * DAY ==>
              OnDay(Ordered(samples, lo, hi), day) == Ordered(samples, lo, hi)
    ensures hi <= day * DAY || (day + 1) * DAY <= lo ==> OnDay(Ordered(samples, lo, hi), day) == []
    decreases hi - lo
  {
    if lo >= hi {
    } else {
      OnDayOrdered(samples, lo + 1, hi, day);
      var head := if lo in samples && samples[lo].Some? then [Sample(lo, samples[lo].value)] else [];
      OnDayConcat(head, Ordered(samples, lo + 1, hi), day);
      assert DayOf(lo) == day <==> day * DAY <= lo < (day + 1) * DAY;
      if head != [] {
        assert head[..0] == [];
        assert OnDay(head, day) == if DayOf(lo) == day then head else [];
      }
    }
  }

  /** A whole-window scan, restricted to one of its days, is that day's own probe. */
  lemma ScanAgreesWithProbe(samples: map<int, Option<real>>, start: int, end: int, day: int)
    requires start <= end
    ensures OnDay(Ordered(samples, start * DAY, (end + 1) * DAY), day) ==
            if start <= day <= end then Ordered(samples, day * DAY, (day + 1) * DAY) else []
  {
    var lo, hi := start * DAY, (end + 1) * DAY;
    OnDayOrdered(samples, lo, hi, day);
    if start <= day <= end {
      var a, b := day * DAY, (day + 1) * DAY;
      OrderedConcat(samples, lo, a, hi);
      OrderedConcat(samples, a, b, hi);
      OnDayConcat(Ordered(samples, lo, a), Ordered(samples, a, hi), day);
      OnDayConcat(Ordered(samples, a, b), Ordered(samples, b, hi), day);
      OnDayOrdered(samples, lo, a, day);
      OnDayOrdered(samples, a, b, day);
      OnDayOrdered(samples, b, hi, day);
    }
  }

  /** The dictionary of day summaries built by one pass over ordered rows. */
  method FoldByDay(rows: seq<Sample>) returns (byDay: map<int, DaySample>)
    ensures forall d :: d in byDay <==> OnDay(rows, d) != []
    ensures forall d :: d in byDay ==> byDay[d] == Summary(d, OnDay(rows, d))
  {
    byDay := map[];
    for i := 0 to |rows|
      invariant forall d :: d in byDay <==> OnDay(rows[..i], d) != []
      invariant forall d :: d in byDay ==> byDay[d] == Summary(d, OnDay(rows[..i], d))
    {
      var Sample(ts, nl) := rows[i];
      var d := DayOf(ts);
      var entry := if d in byDay then byDay[d] else DaySample(d, nl, ts, nl, ts, 0);
      byDay := byDay[d := entry.(close := nl, lastAt := ts, count := entry.count + 1)];
      assert rows[..i + 1][..i] == rows[..i];
      ghost var seen, prior := rows[..i + 1], rows[..i];
      forall day
        ensures OnDay(seen, day) == OnDay(prior, day) + (if day == d then [rows[i]] else [])
      {
      }
    }
    assert rows[..|rows|] == rows;
  }

  /** The dictionary's entries in day order. */
  method InDayOrder(byDay: map<int, DaySample>, samples: map<int, Option<real>>, start: int, end: int)
    returns (out: seq<DaySample>)
    requires start <= end
    requires forall d :: start <= d <= end ==>
               DaySampleOf(samples, d) == if d in byDay then Some(byDay[d]) else None
    ensures out == DailySamples(samples, start, end)
  {
    out := [];
    var day := end;
    while day >= start
      invariant start - 1 <= day <= end
      invariant out == DailySamples(samples, day + 1, end)
    {
      assert DaySampleOf(samples, day) == if day in byDay then Some(byDay[day]) else None;
      if day in byDay {
        out := [byDay[day]] + out;
      }
      day := day - 1;
    }
  }

  /** One pass over the window's rows, folded into a dictionary, gives what probing each day gives. */
  method DailySamplesPortable(samples: map<int, Option<real>>, start: int, end: int) returns (out: seq<DaySample>)
    ensures out == DailySamples(samples, start, end)
  {
    if start > end {
      return [];
    }
    var rows := Ordered(samples, start * DAY, (end + 1) * DAY);
    var byDay := FoldByDay(rows);
    forall d | start <= d <= end
      ensures DaySampleOf(samples, d) == if d in byDay then Some(byDay[d]) else None
    {
      ScanAgreesWithProbe(samples, start, end, d);
      assert d in byDay <==> OnDay(rows, d) != [];
    }
    out := InDayOrder(byDay, samples, start, end);
  }

  // ----- Realised P&L per day -----

  /** Sum and number of the genuine closes of one day. */
  function RealizedOn(closes: seq<Close>, day: int): (real, nat) {
    if closes == [] then (0.0, 0)
    else
      var last := closes[|closes| - 1];
      var (sum, n) := RealizedOn(closes[..|closes| - 1], day);
      if last.pnl.Some? && DayOf(last.closedAt) == day then (sum + last.pnl.value, n + 1) else (sum, n)
  }

  method RealizedByDay(closes: seq<Close>, start: int, end: int) returns (out: map<int, (real, nat)>)
    ensures forall d :: start <= d <= end ==>
              (if d in out then out[d] else (0.0, 0)) == RealizedOn(closes, d)
    ensures forall d :: d in out ==> start <= d <= end
  {
    out := map[];
    for i := 0 to |closes|
      invariant forall d :: start <= d <= end ==>
                  (if d in out then out[d] else (0.0, 0)) == RealizedOn(closes[..i], d)
      invariant forall d :: d in out ==> start <= d <= end
    {
      var c := closes[i];
      assert closes[..i + 1][..i] == closes[..i];
      if c.pnl.Some? && start * DAY <= c.closedAt < (end + 1) * DAY {
        var d := DayOf(c.closedAt);
        var (acc, n) := if d in out then out[d] else (0.0, 0);
        out := out[d := (acc + c.pnl.value, n + 1)];
      }
    }
    assert closes[..|closes|] == closes;
  }

  /** What a row of that day must say, or None when the day has no sample. */
  function FactsOf(h: History, day: int): Option<Facts> {
    match DaySampleOf(h.samples, day)
    case None => None
    case Some(s) =>
      var (sum, n) := RealizedOn(h.closes, day);
      Some(Facts(s, sum, n))
  }

  // ----- The refresh -----

  predicate IsLatestBefore(daily: Daily, start: int, p: int) {
    p in daily && p < start && forall q :: q in daily && q < start ==> q <= p
  }

  /** Close of the latest stored day before `start`. */
  ghost function PrevClose(daily: Daily, start: int): Option<real> {
    if exists p :: IsLatestBefore(daily, start, p)
    then var p :| IsLatestBefore(daily, start, p); Some(daily[p].NetLiqClose())
    else None
  }

  function Mtm(close: real, prev: Option<real>): Option<real> {
    if prev.Some? then Some(close - prev.value) else None
  }

  /** Rows for every sampled day of [start, today], each chained on the one before it. */
  function Rebuilt(h: History, start: int, today: int, prev: Option<real>, now: int): Daily
    decreases today - start
  {
    if start > today then map[]
    else
      match FactsOf(h, start)
      case None => Rebuilt(h, start + 1, today, prev, now)
      case Some(f) =>
        map[start := DayRow(f, Mtm(f.sample.close, prev), now)]
        + Rebuilt(h, start + 1, today, Some(f.sample.close), now)
  }

  /** First day of the refresh window. */
  function WindowStart(daily: Daily, days: Option<int>, now: int): int {
    var n := if days.Some? then days.value else if daily != map[] then ROLLING_DAYS else BACKFILL_DAYS;
    DayOf(now) - (n - 1)
  }

  ghost function Refreshed(h: History, daily: Daily, days: Option<int>, now: int): Daily {
    var start := WindowStart(daily, days, now);
    daily + Rebuilt(h, start, DayOf(now), PrevClose(daily, start), now)
  }

  /** The refresh loop as a function of the list of day samples it walks. */
  function RowsFrom(list: seq<DaySample>, closes: seq<Close>, prev: Option<real>, now: int): Daily {
    if list == [] then map[]
    else
      map[list[0].day := RowOf(list[0], closes, prev, now)]
      + RowsFrom(list[1..], closes, Some(list[0].close), now)
  }

  function RowOf(s: DaySample, closes: seq<Close>, prev: Option<real>, now: int): DayRow {
    var (sum, n) := RealizedOn(closes, s.day);
    DayRow(Facts(s, sum, n), Mtm(s.close, prev), now)
  }

  lemma OneMoreDay(rows: Daily, list: seq<DaySample>, i: nat, closes: seq<Close>, prev: Option<real>, now: int)
    requires i < |list|
    ensures rows[list[i].day := RowOf(list[i], closes, prev, now)]
            + RowsFrom(list[i + 1..], closes, Some(list[i].close), now)
            == rows + RowsFrom(list[i..], closes, prev, now)
  {
    var rest := list[i..];
    assert rest[1..] == list[i + 1..] && rest[0] == list[i];
    var row, later := RowOf(list[i], closes, prev, now), RowsFrom(list[i + 1..], closes, Some(list[i].close), now);
    assert rows[list[i].day := row] + later == rows + (map[list[i].day := row] + later);
  }

  lemma {:induction false} RowsFromIsRebuilt(h: History, start: int, today: int, prev: Option<real>, now: int)
    ensures RowsFrom(DailySamples(h.samples, start, today), h.closes, prev, now) == Rebuilt(h, start, today, prev, now)
    decreases today - start
  {
    if start > today {
    } else {
      var probe := DaySampleOf(h.samples, start);
      var rest := DailySamples(h.samples, start + 1, today);
      RowsFromIsRebuilt(h, start + 1, today, if probe.Some? then Some(probe.value.close) else prev, now);
      if probe.Some? {
        assert ([probe.value] + rest)[1..] == rest;
      } else {
        assert [] + rest == rest;
      }
    }
  }

  lemma {:induction false} DailySamplesInWindow(samples: map<int, Option<real>>, start: int, end: int)
    ensures forall i :: 0 <= i < |DailySamples(samples, start, end)| ==>
              start <= DailySamples(samples, start, end)[i].day <= end
    decreases end - start
  {
    if start > end {
    } else {
      DailySamplesInWindow(samples, start + 1, end);
    }
  }

  /** The loop that turns day samples into rows, carrying the previous close along. */
  method BuildRows(list: seq<DaySample>, realized: map<int, (real, nat)>, prev: Option<real>, now: int,
                   ghost closes: seq<Close>)
    returns (rows: Daily)
    requires forall i :: 0 <= i < |list| ==>
               (if list[i].day in realized then realized[list[i].day] else (0.0, 0)) == RealizedOn(closes, list[i].day)
    ensures rows == RowsFrom(list, closes, prev, now)
  {
    rows := map[];
    var prevClose := prev;
    assert list[0..] == list;
    for i := 0 to |list|
      invariant rows + RowsFrom(list[i..], closes, prevClose, now) == RowsFrom(list, closes, prev, now)
    {
      var s := list[i];
      var mtm := if prevClose.Some? then Some(s.close - prevClose.value) else None;
      var (sum, count) := if s.day in realized then realized[s.day] else (0.0, 0);
      OneMoreDay(rows, list, i, closes, prevClose, now);
      rows := rows[s.day := DayRow(Facts(s, sum, count), mtm, now)];
      prevClose := Some(s.close);
    }
  }

  class Portfolio {
    var samples: map<int, Option<real>>
    var closes: seq<Close>
    var daily: Daily

    ghost function Account(): History
      reads this
    {
      History(samples, closes)
    }

    constructor ()
      ensures samples == map[] && closes == [] && daily == map[]
    {
      samples, closes, daily := map[], [], map[];
    }

    method LatestClose(start: int) returns (prev: Option<real>)
      ensures prev == PrevClose(daily, start)
    {
      if p :| p in daily && IsLatestBefore(daily, start, p) {
        prev := Some(daily[p].NetLiqClose());
      } else {
        prev := None;
      }
    }

    /** Upserts one row per sampled day of the window. */
    method Refresh(days: Option<int>, now: int)
      modifies this`daily
      ensures daily == Refreshed(Account(), old(daily), days, now)
    {
      var today := DayOf(now);
      var n := if days.Some? then days.value else if daily != map[] then ROLLING_DAYS else BACKFILL_DAYS;
      var start := today - (n - 1);
      var list := DailySamplesPortable(samples, start, today);
      RowsFromIsRebuilt(Account(), start, today, PrevClose(daily, start), now);
      DailySamplesInWindow(samples, start, today);
      if list == [] {
        return;
      }
      var realized := RealizedByDay(closes, start, today);
      var prevClose := LatestClose(start);
      var rows := BuildRows(list, realized, prevClose, now, closes);
      daily := daily + rows;
    }
  }

  // ----- The day-over-day chain -----

  /** Every row's MTM is its close minus the close of the stored row before it; the first row has none. */
  ghost predicate Chained(daily: Daily) {
    forall d {:trigger RowChained(daily, d)} :: d in daily ==> RowChained(daily, d)
  }

  ghost predicate RowChained(daily: Daily, d: int)
    requires d in daily
  {
    daily[d].mtm == Mtm(daily[d].NetLiqClose(), PrevClose(daily, d))
  }

  lemma LatestIsUnique(daily: Daily, start: int, p: int)
    requires IsLatestBefore(daily, start, p)
    ensures PrevClose(daily, start) == Some(daily[p].NetLiqClose())
  {
    forall q | IsLatestBefore(daily, start, q)
      ensures q == p
    {
      assert p in daily && q in daily;
    }
  }

  lemma {:induction false} LatestExists(keys: set<int>, start: int) returns (p: int)
    requires exists q :: q in keys && q < start
    ensures p in keys && p < start && forall q :: q in keys && q < start ==> q <= p
    decreases keys
  {
    var some :| some in keys && some < start;
    p := some;
    if q :| q in keys && q < start && q > some {
      assert q in keys - {some};
      p := LatestExists(keys - {some}, start);
      assert some < q <= p;
      assert forall k :: k in keys ==> k == some || k in keys - {some};
    }
  }

  lemma NoneBefore(daily: Daily, start: int)
    ensures PrevClose(daily, start) == None <==> forall q :: q in daily ==> q >= start
  {
    if exists q :: q in daily.Keys && q < start {
      var p := LatestExists(daily.Keys, start);
      assert IsLatestBefore(daily, start, p);
    }
  }

  /** The previous close depends only on the closes stored before that day. */
  lemma PrevCloseIsLocal(a: Daily, b: Daily, start: int)
    requires forall q :: q < start ==> (q in a <==> q in b)
    requires forall q :: q < start && q in a ==> a[q].NetLiqClose() == b[q].NetLiqClose()
    ensures PrevClose(a, start) == PrevClose(b, start)
  {
    NoneBefore(a, start);
    NoneBefore(b, start);
    if p :| p in a && IsLatestBefore(a, start, p) {
      assert IsLatestBefore(b, start, p);
      LatestIsUnique(a, start, p);
      LatestIsUnique(b, start, p);
    }
  }

  lemma {:induction false} RebuiltInWindow(h: History, start: int, today: int, prev: Option<real>, now: int)
    ensures forall d :: d in Rebuilt(h, start, today, prev, now) <==> start <= d <= today && FactsOf(h, d).Some?
    ensures forall d :: d in Rebuilt(h, start, today, prev, now) ==>
              Rebuilt(h, start, today, prev, now)[d].facts == FactsOf(h, d).value
    decreases today - start
  {
    if start > today {
    } else {
      var f := FactsOf(h, start);
      var next := if f.Some? then Some(f.value.sample.close) else prev;
      var rest := Rebuilt(h, start + 1, today, next, now);
      RebuiltInWindow(h, start + 1, today, next, now);
      assert Rebuilt(h, start, today, prev, now)
          == if f.Some? then map[start := DayRow(f.value, Mtm(f.value.sample.close, prev), now)] + rest else rest;
    }
  }

  /** Rows appended after everything stored keep the chain. */
  lemma {:induction false} RebuiltChains(h: History, below: Daily, start: int, today: int, now: int)
    requires Chained(below) && forall d :: d in below ==> d < start
    ensures Chained(below + Rebuilt(h, start, today, PrevClose(below, start), now))
    decreases today - start
  {
    var prev := PrevClose(below, start);
    if start > today {
      assert below + Rebuilt(h, start, today, prev, now) == below;
    } else {
      match FactsOf(h, start) {
        case None =>
          PrevCloseSkips(below, start);
          RebuiltChains(h, below, start + 1, today, now);
        case Some(f) =>
          var row := DayRow(f, Mtm(f.sample.close, prev), now);
          var grown := below[start := row];
          forall d | d in grown
            ensures RowChained(grown, d)
          {
            PrevCloseIsLocal(below, grown, d);
            assert d in below ==> RowChained(below, d);
          }
          assert IsLatestBefore(grown, start + 1, start);
          LatestIsUnique(grown, start + 1, start);
          RebuiltChains(h, grown, start + 1, today, now);
          assert below + Rebuilt(h, start, today, prev, now)
              == grown + Rebuilt(h, start + 1, today, Some(f.sample.close), now);
      }
    }
  }

  lemma PrevCloseSkips(daily: Daily, start: int)
    requires start !in daily
    ensures PrevClose(daily, start + 1) == PrevClose(daily, start)
  {
    NoneBefore(daily, start);
    NoneBefore(daily, start + 1);
    if p :| p in daily && IsLatestBefore(daily, start, p) {
      assert IsLatestBefore(daily, start + 1, p);
      LatestIsUnique(daily, start, p);
      LatestIsUnique(daily, start + 1, p);
    }
  }

  /** Every stored day of the window still has a sample. */
  ghost predicate NoHole(h: History, daily: Daily, days: Option<int>, now: int) {
    forall d :: d in daily && WindowStart(daily, days, now) <= d <= DayOf(now) ==> FactsOf(h, d).Some?
  }

  function UpTo(daily: Daily, day: int): Daily {
    map d | d in daily && d <= day :: daily[d]
  }

  lemma UpToKeepsChain(daily: Daily, day: int)
    requires Chained(daily)
    ensures Chained(UpTo(daily, day))
  {
    forall d | d in UpTo(daily, day)
      ensures RowChained(UpTo(daily, day), d)
    {
      PrevCloseIsLocal(UpTo(daily, day), daily, d);
      assert RowChained(daily, d);
    }
  }

  /** An upsert of the window over a table without holes replaces exactly the window. */
  lemma UpsertReplacesWindow(h: History, daily: Daily, start: int, today: int, rows: Daily)
    requires start <= today
    requires forall d :: d in rows <==> start <= d <= today && FactsOf(h, d).Some?
    requires forall d :: d in daily && start <= d <= today ==> FactsOf(h, d).Some?
    ensures UpTo(daily + rows, today) == UpTo(daily, start - 1) + rows
  {
    var a, b := UpTo(daily + rows, today), UpTo(daily, start - 1) + rows;
    forall d
      ensures d in a <==> d in b
      ensures d in a ==> a[d] == b[d]
    {
    }
  }

  /** The part of the table up to today comes out chained, whatever lies after today. */
  lemma WindowChains(h: History, daily: Daily, start: int, today: int, now: int)
    requires Chained(daily)
    requires forall d :: d in daily && start <= d <= today ==> FactsOf(h, d).Some?
    ensures Chained(UpTo(daily + Rebuilt(h, start, today, PrevClose(daily, start), now), today))
  {
    var prev := PrevClose(daily, start);
    var rows := Rebuilt(h, start, today, prev, now);
    RebuiltInWindow(h, start, today, prev, now);
    if start <= today {
      var below := UpTo(daily, start - 1);
      UpToKeepsChain(daily, start - 1);
      PrevCloseIsLocal(below, daily, start);
      RebuiltChains(h, below, start, today, now);
      UpsertReplacesWindow(h, daily, start, today, rows);
    } else {
      assert daily + rows == daily;
      UpToKeepsChain(daily, today);
    }
  }

  /** Rows after `today` are the same in both tables. */
  ghost predicate UnmovedAfter(a: Daily, b: Daily, today: int) {
    forall q :: q > today ==> (q in a <==> q in b) && (q in a ==> a[q] == b[q])
  }

  lemma RowsUpToToday(after: Daily, today: int, d: int)
    requires Chained(UpTo(after, today)) && d in after && d <= today
    ensures RowChained(after, d)
  {
    assert RowChained(UpTo(after, today), d);
    PrevCloseIsLocal(UpTo(after, today), after, d);
  }

  /** The first stored row after `today` hangs on the close at the seam. */
  lemma RowAtSeam(daily: Daily, after: Daily, today: int, next: int)
    requires next in daily && next > today && UnmovedAfter(daily, after, today) && RowChained(daily, next)
    requires forall q :: q in daily && q > today ==> next <= q
    ensures next in after
    ensures RowChained(after, next) <==> PrevClose(after, today + 1) == PrevClose(daily, today + 1)
  {
    PrevCloseAcrossGap(daily, today + 1, next);
    PrevCloseAcrossGap(after, today + 1, next);
    assert after[next] == daily[next];
  }

  /** A table that is chained up to a day and unmoved after it is chained exactly when
      the close at the seam has not moved. */
  lemma SeamDecides(daily: Daily, after: Daily, today: int)
    requires Chained(daily) && Chained(UpTo(after, today)) && UnmovedAfter(daily, after, today)
    ensures Chained(after) <==>
            (forall d :: d in daily ==> d <= today) || PrevClose(after, today + 1) == PrevClose(daily, today + 1)
  {
    forall d | d in after && d <= today
      ensures RowChained(after, d)
    {
      RowsUpToToday(after, today, d);
    }
    if d :| d in daily && d > today {
      var next := FirstFrom(daily, today + 1);
      assert RowChained(daily, next);
      RowAtSeam(daily, after, today, next);
      forall d | d in after && d > next
        ensures RowChained(after, d)
      {
        assert RowChained(daily, d);
        LaterCloseUnmoved(daily, after, next, d);
      }
      assert forall d :: d in after ==> d <= today || d == next || d > next;
    }
  }

  /** The sampled days of a window and what they say; the MTMs are not yet known. */
  ghost function SampledRows(h: History, start: int, today: int): Daily {
    map d | start <= d <= today && FactsOf(h, d).Some? :: DayRow(FactsOf(h, d).value, None, 0)
  }

  /** The rows say what the history says of the sampled days of the window, and of no other day. */
  ghost predicate SaysSampled(h: History, start: int, today: int, rows: Daily) {
    && (forall d :: d in rows <==> start <= d <= today && FactsOf(h, d).Some?)
    && (forall d :: d in rows ==> rows[d].facts == FactsOf(h, d).value)
  }

  /** The close at the seam after an upsert that leaves no row of the window behind: the last upserted one's. */
  lemma SeamAfter(daily: Daily, start: int, today: int, rows: Daily, sampled: Daily)
    requires rows.Keys == sampled.Keys && rows.Keys != {}
    requires forall d :: d in rows ==> start <= d <= today && rows[d].NetLiqClose() == sampled[d].NetLiqClose()
    requires forall d :: d in daily && start <= d <= today ==> d in rows
    ensures PrevClose(daily + rows, today + 1) == PrevClose(sampled, today + 1)
  {
    var d :| d in rows.Keys;
    assert d < today + 1;
    var p := LatestExists(rows.Keys, today + 1);
    LatestOfUpsert(daily, start, today, rows, p);
    assert IsLatestBefore(sampled, today + 1, p) by {
      assert forall q :: q in sampled ==> q in rows.Keys;
    }
    LatestIsUnique(daily + rows, today + 1, p);
    LatestIsUnique(sampled, today + 1, p);
  }

  lemma LatestOfUpsert(daily: Daily, start: int, today: int, rows: Daily, p: int)
    requires p in rows && start <= p <= today && forall q :: q in rows && q < today + 1 ==> q <= p
    requires forall d :: d in daily && start <= d <= today ==> d in rows
    ensures IsLatestBefore(daily + rows, today + 1, p)
  {
    forall q | q in daily + rows && q < today + 1
      ensures q <= p
    {
      if q < start {
      } else {
        assert q in rows;
      }
    }
  }

  lemma SampledKeys(h: History, start: int, today: int, rows: Daily)
    requires SaysSampled(h, start, today, rows)
    ensures rows.Keys == SampledRows(h, start, today).Keys
    ensures SampledRows(h, start, today) == map[] <==> rows == map[]
  {
    assert rows == map[] <==> rows.Keys == {};
    assert SampledRows(h, start, today) == map[] <==> SampledRows(h, start, today).Keys == {};
  }

  /** After a refresh without holes the close at the seam is the last sampled day's, or the old one when no day of the
      window is sampled. */
  lemma RefreshedSeam(h: History, daily: Daily, start: int, today: int, rows: Daily)
    requires SaysSampled(h, start, today, rows)
    requires forall d :: d in daily && start <= d <= today ==> FactsOf(h, d).Some?
    ensures var sampled := SampledRows(h, start, today);
            PrevClose(daily + rows, today + 1)
            == if sampled == map[] then PrevClose(daily, today + 1) else PrevClose(sampled, today + 1)
  {
    SampledKeys(h, start, today, rows);
    if rows == map[] {
      assert daily + rows == daily;
    } else {
      SeamAfter(daily, start, today, rows, SampledRows(h, start, today));
    }
  }

  lemma RebuiltSaysSampled(h: History, start: int, today: int, prev: Option<real>, now: int)
    ensures SaysSampled(h, start, today, Rebuilt(h, start, today, prev, now))
  {
    RebuiltInWindow(h, start, today, prev, now);
  }

  /** Whether the chain survives an upsert of the window is decided at the seam. */
  lemma WindowDecidedAtSeam(h: History, daily: Daily, start: int, today: int, now: int)
    requires Chained(daily)
    requires forall d :: d in daily && start <= d <= today ==> FactsOf(h, d).Some?
    ensures var after := daily + Rebuilt(h, start, today, PrevClose(daily, start), now);
            Chained(after) <==>
            (forall d :: d in daily ==> d <= today) || PrevClose(after, today + 1) == PrevClose(daily, today + 1)
  {
    var rows := Rebuilt(h, start, today, PrevClose(daily, start), now);
    RebuiltInWindow(h, start, today, PrevClose(daily, start), now);
    WindowChains(h, daily, start, today, now);
    assert UnmovedAfter(daily, daily + rows, today);
    SeamDecides(daily, daily + rows, today);
  }

  /** Nothing is stored after today, no day of the window is sampled, or the last sampled day closes where the next
      stored row's predecessor closed. */
  ghost predicate SeamFits(h: History, daily: Daily, start: int, today: int) {
    var sampled := SampledRows(h, start, today);
    || (forall d :: d in daily ==> d <= today)
    || sampled == map[]
    || PrevClose(sampled, today + 1) == PrevClose(daily, today + 1)
  }

  /** A refresh of a window in which every stored day still has a sample keeps the chain exactly when the seam fits,
      which the history and the stored table decide before the call. */
  lemma RefreshKeepsChainIff(h: History, daily: Daily, days: Option<int>, now: int)
    requires Chained(daily) && NoHole(h, daily, days, now)
    ensures Chained(Refreshed(h, daily, days, now)) <==> SeamFits(h, daily, WindowStart(daily, days, now), DayOf(now))
  {
    var start, today := WindowStart(daily, days, now), DayOf(now);
    var rows := Rebuilt(h, start, today, PrevClose(daily, start), now);
    RebuiltSaysSampled(h, start, today, PrevClose(daily, start), now);
    RefreshedSeam(h, daily, start, today, rows);
    WindowDecidedAtSeam(h, daily, start, today, now);
    assert Refreshed(h, daily, days, now) == daily + rows;
  }

  /** The days a refresh chains on: the stored ones before the window and the sampled ones in it. */
  ghost function ChainedOn(daily: Daily, sampled: Daily, start: int): Daily {
    UpTo(daily, start - 1) + sampled
  }

  /** The sampled days lie in the window. */
  ghost predicate InWindow(sampled: Daily, start: int, today: int) {
    forall d :: d in sampled ==> start <= d <= today
  }

  /** Every sampled day of the window, and every other stored day, will have before it the close that its MTM is taken
      against. */
  ghost predicate EveryDayFits(daily: Daily, sampled: Daily, start: int) {
    && (forall d :: d in sampled ==> PrevClose(ChainedOn(daily, sampled, start), d) == PrevClose(daily + sampled, d))
    && (forall d :: d in daily && d !in sampled ==> PrevClose(daily, d) == PrevClose(daily + sampled, d))
  }

  lemma SameMtm(close: real, a: Option<real>, b: Option<real>)
    ensures Mtm(close, a) == Mtm(close, b) <==> a == b
  {
  }

  lemma MergedCloses(daily: Daily, sampled: Daily, start: int, rows: Daily, d: int)
    requires rows.Keys == sampled.Keys && forall q :: q in rows ==> rows[q].NetLiqClose() == sampled[q].NetLiqClose()
    ensures PrevClose(daily + rows, d) == PrevClose(daily + sampled, d)
    ensures PrevClose(UpTo(daily, start - 1) + rows, d) == PrevClose(ChainedOn(daily, sampled, start), d)
  {
    assert forall q :: q in rows.Keys <==> q in sampled.Keys;
    PrevCloseIsLocal(daily + rows, daily + sampled, d);
    PrevCloseIsLocal(UpTo(daily, start - 1) + rows, ChainedOn(daily, sampled, start), d);
  }

  lemma SampledCloses(h: History, start: int, today: int, rows: Daily)
    requires SaysSampled(h, start, today, rows)
    ensures var sampled := SampledRows(h, start, today);
            && rows.Keys == sampled.Keys && InWindow(sampled, start, today)
            && forall q :: q in rows ==> rows[q].NetLiqClose() == sampled[q].NetLiqClose()
  {
  }

  lemma RebuiltRowChained(h: History, daily: Daily, start: int, today: int, now: int, d: int)
    requires Chained(daily)
    requires d in Rebuilt(h, start, today, PrevClose(daily, start), now)
    ensures var rows := Rebuilt(h, start, today, PrevClose(daily, start), now);
            RowChained(UpTo(daily, start - 1) + rows, d)
  {
    var below := UpTo(daily, start - 1);
    UpToKeepsChain(daily, start - 1);
    PrevCloseIsLocal(below, daily, start);
    RebuiltChains(h, below, start, today, now);
  }

  /** One row of the refreshed table is chained exactly when its day fits. */
  lemma RowFits(h: History, daily: Daily, start: int, today: int, now: int, d: int)
    requires Chained(daily)
    requires var rows := Rebuilt(h, start, today, PrevClose(daily, start), now); d in daily + rows
    ensures var rows := Rebuilt(h, start, today, PrevClose(daily, start), now);
            var sampled := SampledRows(h, start, today);
            RowChained(daily + rows, d) <==>
            PrevClose(if d in rows then ChainedOn(daily, sampled, start) else daily, d) == PrevClose(daily + sampled, d)
  {
    var rows, sampled := Rebuilt(h, start, today, PrevClose(daily, start), now), SampledRows(h, start, today);
    RebuiltSaysSampled(h, start, today, PrevClose(daily, start), now);
    SampledCloses(h, start, today, rows);
    MergedCloses(daily, sampled, start, rows, d);
    var close, prev := (daily + rows)[d].NetLiqClose(), PrevClose(daily + sampled, d);
    if d in rows {
      RebuiltRowChained(h, daily, start, today, now, d);
      SameMtm(close, PrevClose(ChainedOn(daily, sampled, start), d), prev);
    } else {
      assert RowChained(daily, d);
      SameMtm(close, PrevClose(daily, d), prev);
    }
  }

  lemma RefreshChainsIffEveryDayFits(h: History, daily: Daily, start: int, today: int, now: int)
    requires Chained(daily)
    ensures Chained(daily + Rebuilt(h, start, today, PrevClose(daily, start), now)) <==>
            EveryDayFits(daily, SampledRows(h, start, today), start)
  {
    var rows, sampled := Rebuilt(h, start, today, PrevClose(daily, start), now), SampledRows(h, start, today);
    RebuiltSaysSampled(h, start, today, PrevClose(daily, start), now);
    SampledCloses(h, start, today, rows);
    assert forall d :: d in rows.Keys <==> d in sampled.Keys;
    forall d | d in daily + rows
      ensures RowChained(daily + rows, d) <==>
              PrevClose(if d in rows then ChainedOn(daily, sampled, start) else daily, d)
              == PrevClose(daily + sampled, d)
    {
      RowFits(h, daily, start, today, now, d);
    }
  }

  // ----- Only lost days and the seam can fail to fit -----

  /** A stored day of the window that has no sample any more. */
  ghost predicate LostDay(daily: Daily, sampled: Daily, start: int, today: int, x: int) {
    x in daily && start <= x <= today && x !in sampled
  }

  /** The next day that will be stored after x is d, a sampled day of the window. */
  ghost predicate FollowsSampled(daily: Daily, sampled: Daily, x: int, d: int) {
    x < d && d in sampled && forall q :: x < q < d ==> q !in daily + sampled
  }

  /** The row of a lost day keeps its predecessor's close, and a sampled day that follows it is chained, past it, on a
      close equal to its own. */
  ghost predicate LostDayFits(daily: Daily, sampled: Daily, start: int, x: int)
    requires x in daily
  {
    && PrevClose(daily, x) == PrevClose(daily + sampled, x)
    && ((exists d :: FollowsSampled(daily, sampled, x, d)) ==>
          PrevClose(ChainedOn(daily, sampled, start), x) == Some(daily[x].NetLiqClose()))
  }

  /** Before the call: every lost day of the window fits, and nothing is stored after today or the close at the seam
      will be the old one. */
  ghost predicate Fits(daily: Daily, sampled: Daily, start: int, today: int) {
    && (forall x {:trigger LostDay(daily, sampled, start, today, x)} :: LostDay(daily, sampled, start, today, x) ==>
          LostDayFits(daily, sampled, start, x))
    && ((forall d :: d in daily ==> d <= today)
        || PrevClose(daily, today + 1) == PrevClose(daily + sampled, today + 1))
  }

  /** What the refresh chains a sampled day on is stored before it, unless a lost day is. */
  lemma SampledDayFits(daily: Daily, sampled: Daily, start: int, today: int, d: int)
    requires InWindow(sampled, start, today) && d in sampled && Fits(daily, sampled, start, today)
    ensures PrevClose(ChainedOn(daily, sampled, start), d) == PrevClose(daily + sampled, d)
  {
    var on, merged := ChainedOn(daily, sampled, start), daily + sampled;
    NoneBefore(on, d);
    NoneBefore(merged, d);
    if p :| p in merged && IsLatestBefore(merged, d, p) {
      LatestIsUnique(merged, d, p);
      if p in on {
        assert IsLatestBefore(on, d, p);
        LatestIsUnique(on, d, p);
      } else {
        assert LostDay(daily, sampled, start, today, p);
        assert FollowsSampled(daily, sampled, p, d);
        PrevCloseAcrossGap(on, p, d);
      }
    }
  }

  lemma LaterDayFits(daily: Daily, sampled: Daily, start: int, today: int, d: int)
    requires InWindow(sampled, start, today) && d in daily && d > today
    requires PrevClose(daily, today + 1) == PrevClose(daily + sampled, today + 1)
    ensures PrevClose(daily, d) == PrevClose(daily + sampled, d)
  {
    var next := FirstFrom(daily, today + 1);
    PrevCloseAcrossGap(daily, today + 1, next);
    PrevCloseAcrossGap(daily + sampled, today + 1, next);
    if d > next {
      LaterCloseUnmoved(daily, daily + sampled, next, d);
    }
  }

  lemma FitsEveryDay(daily: Daily, sampled: Daily, start: int, today: int)
    requires InWindow(sampled, start, today) && Fits(daily, sampled, start, today)
    ensures EveryDayFits(daily, sampled, start)
  {
    forall d | d in sampled
      ensures PrevClose(ChainedOn(daily, sampled, start), d) == PrevClose(daily + sampled, d)
    {
      SampledDayFits(daily, sampled, start, today, d);
    }
    forall d | d in daily && d !in sampled
      ensures PrevClose(daily, d) == PrevClose(daily + sampled, d)
    {
      if d > today {
        LaterDayFits(daily, sampled, start, today, d);
      } else if d < start {
        PrevCloseIsLocal(daily, daily + sampled, d);
      } else {
        assert LostDay(daily, sampled, start, today, d);
      }
    }
  }

  lemma LostDayMustFit(daily: Daily, sampled: Daily, start: int, today: int, x: int)
    requires EveryDayFits(daily, sampled, start) && LostDay(daily, sampled, start, today, x)
    ensures LostDayFits(daily, sampled, start, x)
  {
    if d :| FollowsSampled(daily, sampled, x, d) {
      assert IsLatestBefore(daily + sampled, d, x);
      LatestIsUnique(daily + sampled, d, x);
      PrevCloseAcrossGap(ChainedOn(daily, sampled, start), x, d);
    }
  }

  lemma EveryDayFitsOnlyIf(daily: Daily, sampled: Daily, start: int, today: int)
    requires InWindow(sampled, start, today) && EveryDayFits(daily, sampled, start)
    ensures Fits(daily, sampled, start, today)
  {
    forall x {:trigger LostDay(daily, sampled, start, today, x)} | LostDay(daily, sampled, start, today, x)
      ensures LostDayFits(daily, sampled, start, x)
    {
      LostDayMustFit(daily, sampled, start, today, x);
    }
    if d :| d in daily && d > today {
      var next := FirstFrom(daily, today + 1);
      PrevCloseAcrossGap(daily, today + 1, next);
      PrevCloseAcrossGap(daily + sampled, today + 1, next);
    }
  }

  /** Any refresh of a chained table, of any window, with days that lost their samples or without, keeps the chain
      exactly when every lost day of the window fits and the seam does. */
  lemma RefreshChainsIffFits(h: History, daily: Daily, days: Option<int>, now: int)
    requires Chained(daily)
    ensures var start, today := WindowStart(daily, days, now), DayOf(now);
            Chained(Refreshed(h, daily, days, now)) <==> Fits(daily, SampledRows(h, start, today), start, today)
  {
    var start, today := WindowStart(daily, days, now), DayOf(now);
    var sampled := SampledRows(h, start, today);
    RefreshChainsIffEveryDayFits(h, daily, start, today, now);
    if Fits(daily, sampled, start, today) {
      FitsEveryDay(daily, sampled, start, today);
    }
    if EveryDayFits(daily, sampled, start) {
      EveryDayFitsOnlyIf(daily, sampled, start, today);
    }
  }

  lemma {:induction false} FirstOf(keys: set<int>, from: int) returns (p: int)
    requires exists q :: q in keys && q >= from
    ensures p in keys && p >= from && forall q :: q in keys && q >= from ==> p <= q
    decreases keys
  {
    var some :| some in keys && some >= from;
    p := some;
    if q :| q in keys && q >= from && q < some {
      assert q in keys - {some};
      p := FirstOf(keys - {some}, from);
      assert p <= q < some;
      assert forall k :: k in keys ==> k == some || k in keys - {some};
    }
  }

  lemma FirstFrom(daily: Daily, from: int) returns (p: int)
    requires exists q :: q in daily && q >= from
    ensures p in daily && p >= from && forall q :: q in daily && q >= from ==> p <= q
  {
    p := FirstOf(daily.Keys, from);
  }

  lemma PrevCloseAcrossGap(daily: Daily, from: int, next: int)
    requires from <= next && forall q :: q in daily && q >= from ==> next <= q
    ensures PrevClose(daily, next) == PrevClose(daily, from)
  {
    NoneBefore(daily, from);
    NoneBefore(daily, next);
    if p :| p in daily && IsLatestBefore(daily, from, p) {
      assert IsLatestBefore(daily, next, p);
      LatestIsUnique(daily, from, p);
      LatestIsUnique(daily, next, p);
    }
  }

  /** Past the first unmoved row, the previous close is an unmoved row's. */
  lemma LaterCloseUnmoved(a: Daily, b: Daily, next: int, d: int)
    requires next in a && d > next
    requires forall q :: q >= next ==> (q in a <==> q in b) && (q in a ==> a[q] == b[q])
    ensures PrevClose(a, d) == PrevClose(b, d)
  {
    var p := LatestExists(a.Keys, d);
    assert IsLatestBefore(a, d, p) && next <= p;
    assert IsLatestBefore(b, d, p) by {
      forall q | q in b && q < d
        ensures q <= p
      {
      }
    }
    LatestIsUnique(a, d, p);
    LatestIsUnique(b, d, p);
  }

  // ----- Whole runs -----

  datatype Event =
    | Sampled(ts: int, netLiq: Option<real>)
    | Booked(c: Close)
    /** The retention deletes every sample before a cutoff. */
    | Pruned(cutoff: int)
    | Refresh(days: Option<int>, now: int)

  datatype State = State(h: History, daily: Daily)

  const INIT := State(History(map[], []), map[])

  function Kept(samples: map<int, Option<real>>, cutoff: int): map<int, Option<real>> {
    map ts | ts in samples && cutoff <= ts :: samples[ts]
  }

  ghost function Next(s: State, e: Event): State {
    match e
    case Sampled(ts, v) => s.(h := s.h.(samples := s.h.samples[ts := v]))
    case Booked(c) => s.(h := s.h.(closes := s.h.closes + [c]))
    case Pruned(cutoff) => s.(h := s.h.(samples := Kept(s.h.samples, cutoff)))
    case Refresh(days, now) => s.(daily := Refreshed(s.h, s.daily, days, now))
  }

  ghost function After(events: seq<Event>): State {
    if events == [] then INIT else Next(After(events[..|events| - 1]), events[|events| - 1])
  }

  /** The clock of the refreshes never goes back to an earlier day. */
  ghost predicate ClockForward(events: seq<Event>) {
    forall i, j :: 0 <= i < j < |events| && events[i].Refresh? && events[j].Refresh? ==>
      DayOf(events[i].now) <= DayOf(events[j].now)
  }

  /** At no point of the run does a refresh find a stored day of its window without samples. */
  ghost predicate NoHoles(events: seq<Event>) {
    events == [] ||
    var front, last := events[..|events| - 1], events[|events| - 1];
    && NoHoles(front)
    && (last.Refresh? ==> NoHole(After(front).h, After(front).daily, last.days, last.now))
  }

  lemma {:induction false} StoredDaysWereToday(events: seq<Event>, d: int)
    requires d in After(events).daily
    ensures exists i :: 0 <= i < |events| && events[i].Refresh? && d <= DayOf(events[i].now)
  {
    var front, last := events[..|events| - 1], events[|events| - 1];
    var s := After(front);
    if d in s.daily {
      StoredDaysWereToday(front, d);
      var i :| 0 <= i < |front| && front[i].Refresh? && d <= DayOf(front[i].now);
      assert events[i] == front[i];
    } else {
      var start := WindowStart(s.daily, last.days, last.now);
      RebuiltInWindow(s.h, start, DayOf(last.now), PrevClose(s.daily, start), last.now);
      assert events[|events| - 1].Refresh? && d <= DayOf(events[|events| - 1].now);
    }
  }

  /** Over every run of samples, closes, prunings and refreshes of any window length,
      with gaps and outages, the stored table is chained. */
  lemma {:induction false} MtmChain(events: seq<Event>)
    requires ClockForward(events) && NoHoles(events)
    ensures Chained(After(events).daily)
  {
    if events == [] {
    } else {
      var n := |events| - 1;
      var front, last := events[..n], events[n];
      assert ClockForward(front) by {
        assert forall i :: 0 <= i < n ==> front[i] == events[i];
      }
      MtmChain(front);
      if last.Refresh? {
        NothingAfterToday(events);
        RefreshKeepsChainIff(After(front).h, After(front).daily, last.days, last.now);
      }
    }
  }

  lemma NothingAfterToday(events: seq<Event>)
    requires events != [] && ClockForward(events) && events[|events| - 1].Refresh?
    ensures var front, last := events[..|events| - 1], events[|events| - 1];
            forall d :: d in After(front).daily ==> d <= DayOf(last.now)
  {
    var n := |events| - 1;
    forall d | d in After(events[..n]).daily
      ensures d <= DayOf(events[n].now)
    {
      StoredDaysWereToday(events[..n], d);
      var i :| 0 <= i < n && events[..n][i].Refresh? && d <= DayOf(events[..n][i].now);
      assert events[i].Refresh? && events[..n][i] == events[i];
    }
  }

  /** Sum of the MTMs of the rows stored in (first, last]. */
  ghost function MtmBetween(daily: Daily, first: int, last: int): real
    decreases last - first
  {
    if first >= last then 0.0
    else MtmBetween(daily, first, last - 1)
         + (if last in daily && daily[last].mtm.Some? then daily[last].mtm.value else 0.0)
  }

  /** The MTMs of any range of rows add up to the difference of its end closes. */
  lemma {:induction false} MtmTelescopes(daily: Daily, first: int, last: int)
    requires Chained(daily) && first in daily && first <= last
    ensures PrevClose(daily, last + 1) == Some(daily[first].NetLiqClose() + MtmBetween(daily, first, last))
    ensures last in daily ==> MtmBetween(daily, first, last) == daily[last].NetLiqClose() - daily[first].NetLiqClose()
    decreases last - first
  {
    if last in daily {
      assert RowChained(daily, last);
      assert IsLatestBefore(daily, last + 1, last);
      LatestIsUnique(daily, last + 1, last);
    } else {
      PrevCloseSkips(daily, last);
    }
    if first < last {
      MtmTelescopes(daily, first, last - 1);
    }
  }

  // ----- What the ordered scan means -----

  /** The rows are non-null samples of [lo, hi), in strictly increasing timestamp order. */
  ghost predicate IsScan(rows: seq<Sample>, samples: map<int, Option<real>>, lo: int, hi: int) {
    && (forall i :: 0 <= i < |rows| ==> lo <= rows[i].at < hi && rows[i].at in samples
                                        && samples[rows[i].at] == Some(rows[i].netLiq))
    && (forall i, j :: 0 <= i < j < |rows| ==> rows[i].at < rows[j].at)
  }

  lemma {:induction false} OrderedIsScan(samples: map<int, Option<real>>, lo: int, hi: int)
    ensures IsScan(Ordered(samples, lo, hi), samples, lo, hi)
    decreases hi - lo
  {
    if lo >= hi {
    } else {
      OrderedIsScan(samples, lo + 1, hi);
      var tail := Ordered(samples, lo + 1, hi);
      if lo in samples && samples[lo].Some? {
        ScanGrows(tail, samples, lo, hi);
      } else {
        assert Ordered(samples, lo, hi) == tail;
      }
    }
  }

  lemma ScanGrows(tail: seq<Sample>, samples: map<int, Option<real>>, lo: int, hi: int)
    requires lo < hi && lo in samples && samples[lo].Some? && IsScan(tail, samples, lo + 1, hi)
    ensures IsScan([Sample(lo, samples[lo].value)] + tail, samples, lo, hi)
  {
    var rows := [Sample(lo, samples[lo].value)] + tail;
    assert forall i :: 1 <= i < |rows| ==> rows[i] == tail[i - 1];
  }

  lemma {:induction false} OrderedHasAll(samples: map<int, Option<real>>, lo: int, hi: int, ts: int)
    requires lo <= ts < hi && ts in samples && samples[ts].Some?
    ensures Sample(ts, samples[ts].value) in Ordered(samples, lo, hi)
    decreases hi - lo
  {
    if ts == lo {
      assert Ordered(samples, lo, hi)[0] == Sample(ts, samples[ts].value);
    } else {
      OrderedHasAll(samples, lo + 1, hi, ts);
    }
  }

  /** The window scan is in timestamp order and holds exactly the non-null samples of the window. */
  lemma OrderedMeaning(samples: map<int, Option<real>>, lo: int, hi: int)
    ensures IsScan(Ordered(samples, lo, hi), samples, lo, hi)
    ensures forall ts :: lo <= ts < hi && ts in samples && samples[ts].Some? ==>
              Sample(ts, samples[ts].value) in Ordered(samples, lo, hi)
  {
    OrderedIsScan(samples, lo, hi);
    forall ts | lo <= ts < hi && ts in samples && samples[ts].Some?
      ensures Sample(ts, samples[ts].value) in Ordered(samples, lo, hi)
    {
      OrderedHasAll(samples, lo, hi, ts);
    }
  }

  ghost function NonNullIn(samples: map<int, Option<real>>, lo: int, hi: int): set<int> {
    set ts | ts in samples && lo <= ts < hi && samples[ts].Some?
  }

  lemma {:induction false} OrderedCount(samples: map<int, Option<real>>, lo: int, hi: int)
    ensures |Ordered(samples, lo, hi)| == |NonNullIn(samples, lo, hi)|
    decreases hi - lo
  {
    if lo < hi {
      OrderedCount(samples, lo + 1, hi);
      var rest := NonNullIn(samples, lo + 1, hi);
      assert NonNullIn(samples, lo, hi) == if lo in samples && samples[lo].Some? then rest + {lo} else rest;
    } else {
      assert NonNullIn(samples, lo, hi) == {};
    }
  }

  lemma DayBounds(ts: int, day: int)
    ensures DayOf(ts) == day <==> day * DAY <= ts < (day + 1) * DAY
  {
  }

  /** The rows of a scan stand between its first and its last. */
  lemma ScanEnds(samples: map<int, Option<real>>, lo: int, hi: int, ts: int)
    requires lo <= ts < hi && ts in samples && samples[ts].Some?
    ensures var rows := Ordered(samples, lo, hi); rows != [] && rows[0].at <= ts <= rows[|rows| - 1].at
  {
    OrderedMeaning(samples, lo, hi);
    var rows := Ordered(samples, lo, hi);
    var k :| 0 <= k < |rows| && rows[k] == Sample(ts, samples[ts].value);
    assert rows[0].at <= rows[k].at <= rows[|rows| - 1].at;
  }

  lemma SampledWithinDay(samples: map<int, Option<real>>, day: int, ts: int)
    requires ts in samples && samples[ts].Some? && DayOf(ts) == day
    ensures DaySampleOf(samples, day).Some?
    ensures var s := DaySampleOf(samples, day).value; s.firstAt <= ts <= s.lastAt
  {
    DayBounds(ts, day);
    ScanEnds(samples, day * DAY, (day + 1) * DAY, ts);
  }

  lemma DayEnds(samples: map<int, Option<real>>, day: int, s: DaySample)
    requires DaySampleOf(samples, day) == Some(s)
    ensures s.day == day && s.count == |NonNullIn(samples, day * DAY, (day + 1) * DAY)|
    ensures DayOf(s.firstAt) == DayOf(s.lastAt) == day
    ensures s.firstAt in samples && samples[s.firstAt] == Some(s.open)
    ensures s.lastAt in samples && samples[s.lastAt] == Some(s.close)
  {
    var lo, hi := day * DAY, (day + 1) * DAY;
    OrderedMeaning(samples, lo, hi);
    OrderedCount(samples, lo, hi);
    DayBounds(s.firstAt, day);
    DayBounds(s.lastAt, day);
  }

  /** A day's facts: its open and close are the samples with the least and the greatest timestamp of that day,
      and it has none exactly when the day has no non-null sample. */
  lemma DaySampleMeaning(samples: map<int, Option<real>>, day: int)
    ensures DaySampleOf(samples, day) == None <==>
            !exists ts :: ts in samples && samples[ts].Some? && DayOf(ts) == day
    ensures DaySampleOf(samples, day).Some? ==>
              var s := DaySampleOf(samples, day).value;
              && s.day == day && s.count == |NonNullIn(samples, day * DAY, (day + 1) * DAY)|
              && DayOf(s.firstAt) == DayOf(s.lastAt) == day
              && s.firstAt in samples && samples[s.firstAt] == Some(s.open)
              && s.lastAt in samples && samples[s.lastAt] == Some(s.close)
              && forall ts :: ts in samples && samples[ts].Some? && DayOf(ts) == day ==> s.firstAt <= ts <= s.lastAt
  {
    forall ts | ts in samples && samples[ts].Some? && DayOf(ts) == day
      ensures DaySampleOf(samples, day).Some?
      ensures var s := DaySampleOf(samples, day).value; s.firstAt <= ts <= s.lastAt
    {
      SampledWithinDay(samples, day, ts);
    }
    if DaySampleOf(samples, day).Some? {
      DayEnds(samples, day, DaySampleOf(samples, day).value);
    }
  }

  // ----- A rolling refresh agrees with a full rebuild -----

  /** What a row says: its day's samples, or its day's closings. */
  datatype Aspect = Samples | Closings

  /** The event changes what the rows of that day must say. A null sample changes nothing. */
  ghost predicate Touches(e: Event, d: int, a: Aspect) {
    match a
    case Samples => e.Sampled? && e.netLiq.Some? && DayOf(e.ts) == d
    case Closings => e.Booked? && e.c.pnl.Some? && DayOf(e.c.closedAt) == d
  }

  ghost predicate UntouchedFrom(events: seq<Event>, k: nat, d: int, a: Aspect) {
    forall i {:trigger Touches(events[i], d, a)} :: k <= i < |events| ==> !Touches(events[i], d, a)
  }

  ghost predicate Covers(s: State, e: Event, d: int) {
    e.Refresh? && WindowStart(s.daily, e.days, e.now) <= d <= DayOf(e.now)
  }

  ghost predicate CoveredAt(events: seq<Event>, j: nat, d: int) {
    j < |events| && Covers(After(events[..j]), events[j], d)
  }

  /** Every touched day was inside the window of some later refresh. */
  ghost predicate Settled(events: seq<Event>, a: Aspect) {
    forall i, d :: 0 <= i < |events| && Touches(events[i], d, a) ==> exists j :: i < j && CoveredAt(events, j, d)
  }

  /** Samples are only ever added, each with its own timestamp. */
  ghost predicate Additive(events: seq<Event>) {
    events == [] ||
    var front, last := events[..|events| - 1], events[|events| - 1];
    Additive(front) && OnlyAdds(After(front), last)
  }

  ghost predicate OnlyAdds(s: State, e: Event) {
    !e.Pruned? && (e.Sampled? ==> e.ts !in s.h.samples)
  }

  ghost predicate Says(f: Facts, h: History, d: int, a: Aspect) {
    match a
    case Samples => DaySampleOf(h.samples, d) == Some(f.sample)
    case Closings => RealizedOn(h.closes, d) == (f.realized, f.nClosed)
  }

  /** The stored row of that day says what the history says, and for its samples so does its absence. */
  ghost predicate Current(s: State, d: int, a: Aspect) {
    && (a.Samples? ==> (d in s.daily <==> FactsOf(s.h, d).Some?))
    && (d in s.daily ==> Says(s.daily[d].facts, s.h, d, a))
  }

  function SampleAt(samples: map<int, Option<real>>, ts: int): Option<real> {
    if ts in samples then samples[ts] else None
  }

  lemma {:induction false} OrderedIsLocal(a: map<int, Option<real>>, b: map<int, Option<real>>, lo: int, hi: int)
    requires forall ts :: lo <= ts < hi ==> SampleAt(a, ts) == SampleAt(b, ts)
    ensures Ordered(a, lo, hi) == Ordered(b, lo, hi)
    decreases hi - lo
  {
    if lo >= hi {
    } else {
      assert SampleAt(a, lo) == SampleAt(b, lo);
      OrderedIsLocal(a, b, lo + 1, hi);
    }
  }

  lemma UntouchedSamples(s: State, e: Event, d: int)
    requires !Touches(e, d, Samples) && OnlyAdds(s, e)
    ensures DaySampleOf(Next(s, e).h.samples, d) == DaySampleOf(s.h.samples, d)
  {
    if e.Sampled? {
      assert forall ts :: d * DAY <= ts < (d + 1) * DAY ==> DayOf(ts) == d;
      OrderedIsLocal(s.h.samples, Next(s, e).h.samples, d * DAY, (d + 1) * DAY);
    }
  }

  lemma UntouchedClosings(s: State, e: Event, d: int)
    requires !Touches(e, d, Closings)
    ensures RealizedOn(Next(s, e).h.closes, d) == RealizedOn(s.h.closes, d)
  {
    if e.Booked? {
      assert (s.h.closes + [e.c])[..|s.h.closes|] == s.h.closes;
    }
  }

  lemma RefreshFacts(s: State, e: Event, d: int)
    requires e.Refresh?
    ensures Covers(s, e, d) && (d in s.daily ==> FactsOf(s.h, d).Some?) ==>
              Current(Next(s, e), d, Samples) && Current(Next(s, e), d, Closings)
    ensures !Covers(s, e, d) ==> (d in Next(s, e).daily <==> d in s.daily)
                                 && (d in s.daily ==> Next(s, e).daily[d] == s.daily[d])
    ensures Current(s, d, Samples) ==> Current(Next(s, e), d, Samples)
    ensures Current(s, d, Closings) ==> Current(Next(s, e), d, Closings)
    ensures d in Next(s, e).daily ==> d in s.daily || FactsOf(s.h, d).Some?
  {
    var start := WindowStart(s.daily, e.days, e.now);
    RebuiltInWindow(s.h, start, DayOf(e.now), PrevClose(s.daily, start), e.now);
  }

  lemma SampledStays(s: State, e: Event, d: int)
    requires OnlyAdds(s, e) && FactsOf(s.h, d).Some?
    ensures FactsOf(Next(s, e).h, d).Some?
  {
    DaySampleMeaning(s.h.samples, d);
    DaySampleMeaning(Next(s, e).h.samples, d);
    var ts :| ts in s.h.samples && s.h.samples[ts].Some? && DayOf(ts) == d;
    assert ts in Next(s, e).h.samples && Next(s, e).h.samples[ts].Some?;
  }

  lemma {:induction false} StoredIsSampled(events: seq<Event>, d: int)
    requires Additive(events) && d in After(events).daily
    ensures FactsOf(After(events).h, d).Some?
  {
    var front, last := events[..|events| - 1], events[|events| - 1];
    var s := After(front);
    if d in s.daily {
      StoredIsSampled(front, d);
    } else {
      RefreshFacts(s, last, d);
    }
    SampledStays(s, last, d);
  }

  lemma {:induction false} PrefixIsAdditive(events: seq<Event>, k: nat)
    requires k <= |events| && Additive(events)
    ensures Additive(events[..k])
  {
    if k == |events| {
      assert events[..k] == events;
    } else {
      var front := events[..|events| - 1];
      assert front[..k] == events[..k];
      PrefixIsAdditive(front, k);
    }
  }

  lemma StepKeepsCurrent(s: State, e: Event, d: int, a: Aspect)
    requires !Touches(e, d, a) && OnlyAdds(s, e) && Current(s, d, a)
    ensures Current(Next(s, e), d, a)
  {
    if e.Refresh? {
      RefreshFacts(s, e, d);
    } else if a.Samples? {
      UntouchedSamples(s, e, d);
    } else {
      UntouchedClosings(s, e, d);
    }
  }

  /** Once current, a day nothing touches stays current. */
  lemma {:induction false} StaysCurrent(events: seq<Event>, k: nat, d: int, a: Aspect)
    requires k <= |events| && Additive(events) && Current(After(events[..k]), d, a)
    requires UntouchedFrom(events, k, d, a)
    ensures Current(After(events), d, a)
  {
    if k == |events| {
      assert events[..k] == events;
    } else {
      var n := |events| - 1;
      var front := events[..n];
      assert front[..k] == events[..k] && !Touches(events[n], d, a);
      assert forall i :: 0 <= i < n ==> front[i] == events[i];
      StaysCurrent(front, k, d, a);
      StepKeepsCurrent(After(front), events[n], d, a);
    }
  }

  /** Index just past the last event that touched the day. */
  ghost function TouchedUpTo(events: seq<Event>, d: int, a: Aspect): (k: nat)
    ensures k <= |events|
    ensures UntouchedFrom(events, k, d, a)
    ensures k > 0 ==> Touches(events[k - 1], d, a)
  {
    if events == [] then 0
    else if Touches(events[|events| - 1], d, a) then |events|
    else TouchedUpTo(events[..|events| - 1], d, a)
  }

  lemma CoveredIsCurrent(events: seq<Event>, j: nat, d: int, a: Aspect)
    requires Additive(events) && CoveredAt(events, j, d)
    ensures Current(After(events[..j + 1]), d, a)
  {
    PrefixIsAdditive(events, j);
    assert events[..j + 1][..j] == events[..j];
    var s := After(events[..j]);
    if d in s.daily {
      StoredIsSampled(events[..j], d);
    }
    RefreshFacts(s, events[j], d);
    assert events[..j + 1][j] == events[j];
  }

  lemma NeverTouchedIsCurrent(events: seq<Event>, d: int, a: Aspect)
    requires Additive(events)
    requires UntouchedFrom(events, 0, d, a)
    ensures Current(After(events), d, a)
  {
    assert events[..0] == [];
    DaySampleMeaning(INIT.h.samples, d);
    StaysCurrent(events, 0, d, a);
  }

  /** When every day touched in one aspect was covered by a later refresh, every stored row is current in it. */
  lemma SettledIsCurrent(events: seq<Event>, d: int, a: Aspect)
    requires Additive(events) && Settled(events, a)
    ensures Current(After(events), d, a)
  {
    var k := TouchedUpTo(events, d, a);
    if k == 0 {
      NeverTouchedIsCurrent(events, d, a);
    } else {
      assert Touches(events[k - 1], d, a);
      var j: nat :| k - 1 < j && CoveredAt(events, j, d);
      CoveredStaysCurrent(events, j, d, a);
    }
  }

  lemma CoveredStaysCurrent(events: seq<Event>, j: nat, d: int, a: Aspect)
    requires Additive(events) && CoveredAt(events, j, d) && UntouchedFrom(events, j + 1, d, a)
    ensures Current(After(events), d, a)
  {
    CoveredIsCurrent(events, j, d, a);
    StaysCurrent(events, j + 1, d, a);
  }

  /** Samples are only added, each with its own timestamp, and no refresh covers a stored day the retention has
      reached. */
  ghost predicate Retained(events: seq<Event>) {
    events == [] ||
    var front, last := events[..|events| - 1], events[|events| - 1];
    && Retained(front)
    && (last.Sampled? ==> last.ts !in After(front).h.samples)
    && (last.Refresh? ==>
          forall d :: d in After(front).daily && WindowStart(After(front).daily, last.days, last.now) <= d ==>
                        PrunedBefore(front, d))
  }

  /** Every pruning of the run stopped short of that day. */
  ghost predicate PrunedBefore(events: seq<Event>, day: int) {
    forall i :: 0 <= i < |events| && events[i].Pruned? ==> events[i].cutoff <= day * DAY
  }

  lemma PruningKeepsDay(s: State, cutoff: int, d: int)
    requires cutoff <= d * DAY
    ensures FactsOf(Next(s, Pruned(cutoff)).h, d) == FactsOf(s.h, d)
  {
    OrderedIsLocal(s.h.samples, Kept(s.h.samples, cutoff), d * DAY, (d + 1) * DAY);
  }

  lemma NewSampleStays(s: State, e: Event, d: int)
    requires e.Sampled? && e.ts !in s.h.samples && FactsOf(s.h, d).Some?
    ensures FactsOf(Next(s, e).h, d).Some?
  {
    SampledStays(s, e, d);
  }

  lemma {:induction false} StoredIsRetained(events: seq<Event>, d: int)
    requires Retained(events) && d in After(events).daily && PrunedBefore(events, d)
    ensures FactsOf(After(events).h, d).Some?
  {
    var front, last := events[..|events| - 1], events[|events| - 1];
    var s := After(front);
    assert PrunedBefore(front, d) by {
      assert forall i :: 0 <= i < |front| ==> front[i] == events[i];
    }
    if d in s.daily {
      StoredIsRetained(front, d);
    } else {
      RefreshFacts(s, last, d);
    }
    match last
    case Pruned(cutoff) => PruningKeepsDay(s, cutoff, d);
    case Sampled(_, _) => NewSampleStays(s, last, d);
    case _ =>
  }

  lemma {:induction false} RetainedHasNoHoles(events: seq<Event>)
    requires Retained(events)
    ensures NoHoles(events)
  {
    if events == [] {
    } else {
      var front, last := events[..|events| - 1], events[|events| - 1];
      RetainedHasNoHoles(front);
      if last.Refresh? {
        var start := WindowStart(After(front).daily, last.days, last.now);
        forall d | d in After(front).daily && start <= d
          ensures FactsOf(After(front).h, d).Some?
        {
          assert PrunedBefore(front, d);
          StoredIsRetained(front, d);
        }
      }
    }
  }

  /** Over every run of samples, closings, prunings and refreshes with a forward clock whose windows hold no stored day
      the retention has reached, the stored table is chained. */
  lemma MtmChainUnderRetention(events: seq<Event>)
    requires ClockForward(events) && Retained(events)
    ensures Chained(After(events).daily)
  {
    RetainedHasNoHoles(events);
    MtmChain(events);
  }

  lemma {:induction false} AdditiveHasNoHoles(events: seq<Event>)
    requires Additive(events)
    ensures NoHoles(events)
  {
    if events == [] {
    } else {
      var front := events[..|events| - 1];
      AdditiveHasNoHoles(front);
      forall d | d in After(front).daily
        ensures FactsOf(After(front).h, d).Some?
      {
        StoredIsSampled(front, d);
      }
    }
  }

  /** A chained table is determined by its days and their closes. */
  lemma ChainDeterminesMtm(a: Daily, b: Daily)
    requires Chained(a) && Chained(b) && a.Keys == b.Keys
    requires forall d :: d in a ==> a[d].NetLiqClose() == b[d].NetLiqClose()
    ensures forall d :: d in a ==> a[d].mtm == b[d].mtm
  {
    forall d | d in a
      ensures a[d].mtm == b[d].mtm
    {
      assert forall q :: q in a.Keys <==> q in b.Keys;
      assert RowChained(a, d) && RowChained(b, d);
      PrevCloseIsLocal(a, b, d);
    }
  }

  /** A full rebuild covering all sampled days is current and chained. */
  lemma RebuildIsCurrent(h: History, days: int, now: int)
    requires forall d :: FactsOf(h, d).Some? ==> DayOf(now) - (days - 1) <= d <= DayOf(now)
    ensures var rebuilt := Refreshed(h, map[], Some(days), now);
            && Chained(rebuilt)
            && (forall d :: d in rebuilt <==> FactsOf(h, d).Some?)
            && (forall d :: d in rebuilt ==> rebuilt[d].facts == FactsOf(h, d).value)
  {
    var start := WindowStart(map[], Some(days), now);
    RebuiltInWindow(h, start, DayOf(now), PrevClose(map[], start), now);
    RefreshKeepsChainIff(h, map[], Some(days), now);
  }

  /** Any sequence of refreshes, of any window lengths, leaves the days, opens, closes, counts and MTMs of one full
      rebuild over all sampled days, once every non-null sample was covered; and its realised sums too, once every
      closing was. */
  lemma RollingEqualsRebuild(events: seq<Event>, days: int, now: int)
    requires Additive(events) && ClockForward(events) && Settled(events, Samples)
    requires forall d :: FactsOf(After(events).h, d).Some? ==> DayOf(now) - (days - 1) <= d <= DayOf(now)
    ensures var rolled, rebuilt := After(events).daily, Refreshed(After(events).h, map[], Some(days), now);
            && rolled.Keys == rebuilt.Keys
            && (forall d :: d in rolled ==>
                  rolled[d].facts.sample == rebuilt[d].facts.sample && rolled[d].mtm == rebuilt[d].mtm)
            && (Settled(events, Closings) ==> forall d :: d in rolled ==> rolled[d].facts == rebuilt[d].facts)
  {
    var s := After(events);
    var rebuilt := Refreshed(s.h, map[], Some(days), now);
    AdditiveHasNoHoles(events);
    MtmChain(events);
    RebuildIsCurrent(s.h, days, now);
    forall d
      ensures d in s.daily <==> d in rebuilt
      ensures d in s.daily ==> s.daily[d].facts.sample == rebuilt[d].facts.sample
      ensures d in s.daily && Settled(events, Closings) ==> s.daily[d].facts == rebuilt[d].facts
    {
      SettledIsCurrent(events, d, Samples);
      if Settled(events, Closings) {
        SettledIsCurrent(events, d, Closings);
      }
    }
    ChainDeterminesMtm(s.daily, rebuilt);
  }

  // ----- The realised sums add up -----

  predicate GenuineWithin(c: Close, start: int, end: int) {
    c.pnl.Some? && start * DAY <= c.closedAt < (end + 1) * DAY
  }

  /** Total P&L and number of the genuine closes in a window of days, of those days that are kept. */
  function TotalOver(closes: seq<Close>, start: int, end: int, keep: int -> bool): (real, nat) {
    if closes == [] then (0.0, 0)
    else
      var last := closes[|closes| - 1];
      var (sum, n) := TotalOver(closes[..|closes| - 1], start, end, keep);
      if GenuineWithin(last, start, end) && keep(DayOf(last.closedAt)) then (last.pnl.value + sum, n + 1) else (sum, n)
  }

  /** The same, day by day. */
  function DaysTotal(closes: seq<Close>, start: int, end: int, keep: int -> bool): (real, nat)
    decreases end - start
  {
    if start > end then (0.0, 0)
    else
      var (sum, n) := DaysTotal(closes, start + 1, end, keep);
      if keep(start) then (sum + RealizedOn(closes, start).0, n + RealizedOn(closes, start).1) else (sum, n)
  }

  lemma {:induction false} OneMoreClose(closes: seq<Close>, start: int, end: int, keep: int -> bool)
    requires closes != []
    ensures var last, before := closes[|closes| - 1], DaysTotal(closes[..|closes| - 1], start, end, keep);
            DaysTotal(closes, start, end, keep)
            == if GenuineWithin(last, start, end) && keep(DayOf(last.closedAt))
               then (before.0 + last.pnl.value, before.1 + 1) else before
    decreases end - start
  {
    if start > end {
    } else {
      OneMoreClose(closes, start + 1, end, keep);
    }
  }

  lemma {:induction false} NoCloses(start: int, end: int, keep: int -> bool)
    ensures DaysTotal([], start, end, keep) == (0.0, 0)
    decreases end - start
  {
    if start <= end {
      NoCloses(start + 1, end, keep);
    }
  }

  /** Over any window the realised sums and counts of its days add up to those of the closings in it. */
  lemma {:induction false} RealizedAddsUp(closes: seq<Close>, start: int, end: int, keep: int -> bool)
    ensures DaysTotal(closes, start, end, keep) == TotalOver(closes, start, end, keep)
  {
    if closes == [] {
      NoCloses(start, end, keep);
    } else {
      RealizedAddsUp(closes[..|closes| - 1], start, end, keep);
      OneMoreClose(closes, start, end, keep);
    }
  }

  /** What the kept rows of a window say was realised. */
  function RowsTotal(rows: Daily, start: int, end: int, keep: int -> bool): (real, nat)
    decreases end - start
  {
    if start > end then (0.0, 0)
    else
      var (sum, n) := RowsTotal(rows, start + 1, end, keep);
      if keep(start) && start in rows
      then (sum + rows[start].facts.realized, n + rows[start].facts.nClosed) else (sum, n)
  }

  lemma {:induction false} RowsAddUp(rows: Daily, closes: seq<Close>, start: int, end: int, keep: int -> bool)
    requires forall d :: start <= d <= end && keep(d) ==>
               d in rows && (rows[d].facts.realized, rows[d].facts.nClosed) == RealizedOn(closes, d)
    ensures RowsTotal(rows, start, end, keep) == DaysTotal(closes, start, end, keep)
    decreases end - start
  {
    if start <= end {
      RowsAddUp(rows, closes, start + 1, end, keep);
    }
  }

  predicate IsSampled(h: History, d: int) {
    DaySampleOf(h.samples, d).Some?
  }

  /** How many days a refresh looks back over. */
  ghost predicate LooksBack(daily: Daily, days: Option<int>, n: int) {
    n == if days.Some? then days.value else if daily == map[] then 400 else 3
  }

  /** A refresh rewrites exactly the sampled days among the last n up to today, and stores there what the history says
      of the day. */
  lemma RefreshRewrites(h: History, daily: Daily, days: Option<int>, now: int, n: int, d: int)
    requires LooksBack(daily, days, n)
    ensures var after := Refreshed(h, daily, days, now);
            if DayOf(now) - n < d <= DayOf(now) && IsSampled(h, d)
            then d in after && after[d].computedAt == now && Some(after[d].facts) == FactsOf(h, d)
            else (d in after <==> d in daily) && (d in daily ==> after[d] == daily[d])
  {
    var start := DayOf(now) - n + 1;
    assert start == WindowStart(daily, days, now);
    assert IsSampled(h, d) <==> FactsOf(h, d).Some?;
    RebuiltRow(h, start, DayOf(now), PrevClose(daily, start), now, d);
  }

  lemma RebuiltRow(h: History, start: int, today: int, prev: Option<real>, now: int, d: int)
    ensures var rows := Rebuilt(h, start, today, prev, now);
            && (d in rows <==> start <= d <= today && FactsOf(h, d).Some?)
            && (d in rows ==> rows[d].computedAt == now && Some(rows[d].facts) == FactsOf(h, d))
  {
    RebuiltInWindow(h, start, today, prev, now);
    RebuiltStamped(h, start, today, prev, now);
  }

  /** The realised sums it stores add up to the closings of those days. */
  lemma RefreshedRealized(h: History, daily: Daily, days: Option<int>, now: int, n: int)
    requires LooksBack(daily, days, n)
    ensures var after, today := Refreshed(h, daily, days, now), DayOf(now);
            var sampled := (d: int) => IsSampled(h, d);
            RowsTotal(after, today - n + 1, today, sampled) == TotalOver(h.closes, today - n + 1, today, sampled)
  {
    var after, today := Refreshed(h, daily, days, now), DayOf(now);
    var sampled := (d: int) => IsSampled(h, d);
    forall d | today - n + 1 <= d <= today && sampled(d)
      ensures d in after && (after[d].facts.realized, after[d].facts.nClosed) == RealizedOn(h.closes, d)
    {
      RefreshRewrites(h, daily, days, now, n, d);
      assert Some(after[d].facts) == FactsOf(h, d);
    }
    RowsAddUp(after, h.closes, today - n + 1, today, sampled);
    RealizedAddsUp(h.closes, today - n + 1, today, sampled);
  }

  lemma {:induction false} RebuiltStamped(h: History, start: int, today: int, prev: Option<real>, now: int)
    ensures forall d :: d in Rebuilt(h, start, today, prev, now) ==>
              Rebuilt(h, start, today, prev, now)[d].computedAt == now
    decreases today - start
  {
    if start <= today {
      var f := FactsOf(h, start);
      RebuiltStamped(h, start + 1, today, if f.Some? then Some(f.value.sample.close) else prev, now);
    }
  }

  /** After any run in which every day touched by a closing was later covered, the realised sums stored for any range of
      days add up to the closings on the stored ones. */
  lemma RealizedConserved(events: seq<Event>, start: int, end: int)
    requires Additive(events) && Settled(events, Closings)
    ensures var s := After(events);
            var stored := (d: int) => d in s.daily;
            RowsTotal(s.daily, start, end, stored) == TotalOver(s.h.closes, start, end, stored)
  {
    var s := After(events);
    var stored := (d: int) => d in s.daily;
    forall d | start <= d <= end && stored(d)
      ensures (s.daily[d].facts.realized, s.daily[d].facts.nClosed) == RealizedOn(s.h.closes, d)
    {
      SettledIsCurrent(events, d, Closings);
    }
    RowsAddUp(s.daily, s.h.closes, start, end, stored);
    RealizedAddsUp(s.h.closes, start, end, stored);
  }
}

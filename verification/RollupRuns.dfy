/** Concrete runs of the daily rollup that break the day-over-day chain: a clock that goes back to an earlier day, and a
    stored day that lost its samples inside a refreshed window. */
module RollupRuns {
  import opened Options
  import opened Rollup

  lemma AfterSnoc(events: seq<Event>, e: Event)
    ensures After(events + [e]) == Next(After(events), e)
  {
    assert (events + [e])[..|events|] == events;
  }

  lemma AdditiveSnoc(events: seq<Event>, e: Event)
    requires Additive(events) && OnlyAdds(After(events), e)
    ensures Additive(events + [e])
  {
    assert (events + [e])[..|events|] == events;
  }

  /** No refresh of the run was on a later day. */
  ghost predicate ClockUpTo(events: seq<Event>, day: int) {
    forall i :: 0 <= i < |events| && events[i].Refresh? ==> DayOf(events[i].now) <= day
  }

  lemma ClockSnoc(events: seq<Event>, e: Event, day: int)
    requires ClockForward(events) && ClockUpTo(events, day)
    ensures e.Refresh? && DayOf(e.now) >= day ==>
              ClockForward(events + [e]) && ClockUpTo(events + [e], DayOf(e.now))
    ensures !e.Refresh? ==> ClockForward(events + [e]) && ClockUpTo(events + [e], day)
  {
  }

  lemma DayStarts(d: int)
    ensures DayOf(d * DAY) == d && DayOf(d * DAY + 1) == d
  {
  }

  /** The last sample of a day gives its close. */
  lemma LastSampleCloses(samples: map<int, Option<real>>, d: int, ts: int, v: real)
    requires DayOf(ts) == d && ts in samples && samples[ts] == Some(v)
    requires forall t :: t in samples && samples[t].Some? && DayOf(t) == d ==> t <= ts
    ensures DaySampleOf(samples, d).Some? && DaySampleOf(samples, d).value.close == v
  {
    DaySampleMeaning(samples, d);
  }

  /** A refresh of one sampled day stores its close and moves no other row. */
  lemma OneDayRefresh(s: State, d: int, now: int)
    requires DayOf(now) == d && DaySampleOf(s.h.samples, d).Some?
    ensures var after := Next(s, Refresh(Some(1), now)).daily;
            && d in after && after[d].NetLiqClose() == DaySampleOf(s.h.samples, d).value.close
            && after.Keys == s.daily.Keys + {d}
            && forall q :: q != d && q in s.daily ==> after[q] == s.daily[q]
  {
    RebuiltInWindow(s.h, d, d, PrevClose(s.daily, d), now);
    var after := Next(s, Refresh(Some(1), now)).daily;
    assert forall q :: q in after <==> q in s.daily || q == d;
  }

  // ----- The clock goes back -----

  /** A day is sampled and refreshed. */
  function OneDay(d: int): seq<Event> {
    [] + [Sampled(d * DAY, Some(100.0))] + [Refresh(Some(1), d * DAY)]
  }

  /** What the runs below need of a run so far. */
  ghost predicate Sound(events: seq<Event>, day: int) {
    Additive(events) && ClockForward(events) && ClockUpTo(events, day)
  }

  lemma SoundSnoc(events: seq<Event>, e: Event, day: int, next: int)
    requires Sound(events, day) && OnlyAdds(After(events), e)
    requires next == if e.Refresh? then DayOf(e.now) else day
    requires next >= day
    ensures Sound(events + [e], next)
  {
    AdditiveSnoc(events, e);
    ClockSnoc(events, e, day);
  }

  lemma AfterOneDay(d: int)
    ensures var s := After(OneDay(d));
            s.h.samples == map[d * DAY := Some(100.0)] && s.daily.Keys == {d} && s.daily[d].NetLiqClose() == 100.0
    ensures Sound(OneDay(d), d)
  {
    var e0, e1 := Sampled(d * DAY, Some(100.0)), Refresh(Some(1), d * DAY);
    DayStarts(d);
    AfterSnoc([], e0);
    AfterSnoc([] + [e0], e1);
    var s := After([] + [e0]);
    LastSampleCloses(s.h.samples, d, d * DAY, 100.0);
    OneDayRefresh(s, d, d * DAY);
    SoundSnoc([], e0, d, d);
    SoundSnoc([] + [e0], e1, d, d);
  }

  /** So is the next, on its own day, and then the first day gets a later sample. */
  function TwoDays(d: int): seq<Event> {
    OneDay(d) + [Sampled((d + 1) * DAY, Some(110.0))] + [Refresh(Some(1), (d + 1) * DAY)]
    + [Sampled(d * DAY + 1, Some(105.0))]
  }

  lemma AfterTwoDays(d: int)
    ensures var s := After(TwoDays(d));
            && s.h.samples == map[d * DAY := Some(100.0), (d + 1) * DAY := Some(110.0), d * DAY + 1 := Some(105.0)]
            && s.daily.Keys == {d, d + 1} && s.daily[d].NetLiqClose() == 100.0
    ensures Sound(TwoDays(d), d + 1)
  {
    var e0, e1 := Sampled((d + 1) * DAY, Some(110.0)), Refresh(Some(1), (d + 1) * DAY);
    var e2 := Sampled(d * DAY + 1, Some(105.0));
    DayStarts(d);
    DayStarts(d + 1);
    AfterOneDay(d);
    AfterSnoc(OneDay(d), e0);
    var s := After(OneDay(d) + [e0]);
    LastSampleCloses(s.h.samples, d + 1, (d + 1) * DAY, 110.0);
    AfterSnoc(OneDay(d) + [e0], e1);
    OneDayRefresh(s, d + 1, (d + 1) * DAY);
    AfterSnoc(OneDay(d) + [e0] + [e1], e2);
    SoundSnoc(OneDay(d), e0, d, d);
    SoundSnoc(OneDay(d) + [e0], e1, d, d + 1);
    SoundSnoc(OneDay(d) + [e0] + [e1], e2, d + 1, d + 1);
  }

  lemma SoundIsChained(events: seq<Event>, day: int)
    requires Sound(events, day)
    ensures Chained(After(events).daily)
  {
    AdditiveHasNoHoles(events);
    MtmChain(events);
  }

  lemma SeamMoved(h: History, daily: Daily, d: int)
    requires daily.Keys == {d, d + 1} && daily[d].NetLiqClose() == 100.0
    requires DaySampleOf(h.samples, d).Some? && DaySampleOf(h.samples, d).value.close == 105.0
    ensures !SeamFits(h, daily, d, d)
  {
    var sampled := SampledRows(h, d, d);
    assert d in daily && d + 1 in daily && d in sampled;
    assert IsLatestBefore(daily, d + 1, d) && IsLatestBefore(sampled, d + 1, d);
    LatestIsUnique(daily, d + 1, d);
    LatestIsUnique(sampled, d + 1, d);
  }

  /** Refreshing the first day again, with the clock back on it, moves its close from 100 to 105 and leaves the second
      day's row with the MTM it was given against 100. */
  lemma ClockBackBreaksChain(d: int)
    ensures Additive(TwoDays(d) + [Refresh(Some(1), d * DAY + 1)])
    ensures Chained(After(TwoDays(d)).daily)
    ensures !Chained(After(TwoDays(d) + [Refresh(Some(1), d * DAY + 1)]).daily)
  {
    var back := Refresh(Some(1), d * DAY + 1);
    var s := After(TwoDays(d));
    DayStarts(d);
    DayStarts(d + 1);
    AfterTwoDays(d);
    AdditiveSnoc(TwoDays(d), back);
    AfterSnoc(TwoDays(d), back);
    SoundIsChained(TwoDays(d), d + 1);
    LastSampleCloses(s.h.samples, d, d * DAY + 1, 105.0);
    SeamMoved(s.h, s.daily, d);
    RefreshKeepsChainIff(s.h, s.daily, Some(1), d * DAY + 1);
  }

  // ----- A stored day loses its samples -----

  /** Two days are sampled and refreshed together. */
  function BothDays(d: int): seq<Event> {
    [] + [Sampled(d * DAY, Some(100.0))] + [Sampled((d + 1) * DAY, Some(110.0))] + [Refresh(Some(2), (d + 1) * DAY)]
  }

  lemma TwoSamples(d: int)
    ensures var samples := map[d * DAY := Some(100.0), (d + 1) * DAY := Some(110.0)];
            DaySampleOf(samples, d).Some? && DaySampleOf(samples, d + 1).Some?
  {
    var samples := map[d * DAY := Some(100.0), (d + 1) * DAY := Some(110.0)];
    DayStarts(d);
    DayStarts(d + 1);
    LastSampleCloses(samples, d, d * DAY, 100.0);
    LastSampleCloses(samples, d + 1, (d + 1) * DAY, 110.0);
  }

  lemma TwoDayRefresh(h: History, d: int, now: int)
    requires DayOf(now) == d + 1
    requires DaySampleOf(h.samples, d).Some? && DaySampleOf(h.samples, d + 1).Some?
    ensures Refreshed(h, map[], Some(2), now).Keys == {d, d + 1}
  {
    RebuiltInWindow(h, d, d + 1, PrevClose(map[], d), now);
    var after := Refreshed(h, map[], Some(2), now);
    assert forall q :: q in after <==> q == d || q == d + 1;
  }

  lemma AfterBothDays(d: int)
    ensures var s := After(BothDays(d));
            && s.h.samples == map[d * DAY := Some(100.0), (d + 1) * DAY := Some(110.0)]
            && s.daily.Keys == {d, d + 1}
    ensures Sound(BothDays(d), d + 1)
  {
    var e0, e1 := Sampled(d * DAY, Some(100.0)), Sampled((d + 1) * DAY, Some(110.0));
    var e2 := Refresh(Some(2), (d + 1) * DAY);
    DayStarts(d + 1);
    TwoSamples(d);
    AfterSnoc([], e0);
    AfterSnoc([] + [e0], e1);
    AfterSnoc([] + [e0] + [e1], e2);
    TwoDayRefresh(After([] + [e0] + [e1]).h, d, (d + 1) * DAY);
    SoundSnoc([], e0, d, d);
    SoundSnoc([] + [e0], e1, d, d);
    SoundSnoc([] + [e0] + [e1], e2, d, d + 1);
  }

  /** The retention passes the first of them. */
  function DayLost(d: int): seq<Event> {
    BothDays(d) + [Pruned((d + 1) * DAY)]
  }

  lemma AfterDayLost(d: int)
    ensures var s := After(DayLost(d));
            s.h.samples == map[(d + 1) * DAY := Some(110.0)] && s.daily.Keys == {d, d + 1} && Chained(s.daily)
  {
    AfterBothDays(d);
    SoundIsChained(BothDays(d), d + 1);
    AfterSnoc(BothDays(d), Pruned((d + 1) * DAY));
    assert After(DayLost(d)).daily == After(BothDays(d)).daily;
  }

  lemma OneSampleLeft(d: int)
    ensures var samples := map[(d + 1) * DAY := Some(110.0)];
            DaySampleOf(samples, d).None? && DaySampleOf(samples, d + 1).Some?
  {
    var samples := map[(d + 1) * DAY := Some(110.0)];
    DayStarts(d + 1);
    LastSampleCloses(samples, d + 1, (d + 1) * DAY, 110.0);
    DaySampleMeaning(samples, d);
  }

  /** The first day's row stays stored, but the refresh takes the second for the first it has. */
  lemma LostDayDoesNotFit(daily: Daily, sampled: Daily, d: int)
    requires daily.Keys == {d, d + 1} && sampled.Keys == {d + 1}
    ensures !Fits(daily, sampled, d, d + 1)
  {
    var on := ChainedOn(daily, sampled, d);
    assert d in daily && d !in sampled.Keys && d + 1 in sampled.Keys;
    assert LostDay(daily, sampled, d, d + 1, d);
    assert FollowsSampled(daily, sampled, d, d + 1);
    NoneBefore(on, d) by {
      assert forall q :: q in sampled.Keys ==> q == d + 1;
    }
  }

  lemma RefreshOverLostDay(s: State, d: int, now: int)
    requires DayOf(now) == d + 1 && Chained(s.daily)
    requires !Fits(s.daily, SampledRows(s.h, d, d + 1), d, d + 1)
    ensures !Chained(Next(s, Refresh(Some(2), now)).daily)
  {
    RefreshChainsIffFits(s.h, s.daily, Some(2), now);
  }

  lemma LostDayOfRun(d: int, h: History)
    requires h.samples == map[(d + 1) * DAY := Some(110.0)]
    ensures SampledRows(h, d, d + 1).Keys == {d + 1}
  {
    OneSampleLeft(d);
    var sampled := SampledRows(h, d, d + 1);
    assert forall q :: q in sampled <==> q == d + 1;
  }

  /** A refresh whose window reaches past the retention's cutoff, with the clock standing still: the second day's row
      loses its MTM although the first day's row is still stored before it. */
  lemma LostDayBreaksChain(d: int)
    ensures Chained(After(DayLost(d)).daily)
    ensures !Chained(After(DayLost(d) + [Refresh(Some(2), (d + 1) * DAY)]).daily)
  {
    var s := After(DayLost(d));
    AfterDayLost(d);
    LostDayOfRun(d, s.h);
    LostDayDoesNotFit(s.daily, SampledRows(s.h, d, d + 1), d);
    DayStarts(d + 1);
    RefreshOverLostDay(s, d, (d + 1) * DAY);
    AfterSnoc(DayLost(d), Refresh(Some(2), (d + 1) * DAY));
  }
}

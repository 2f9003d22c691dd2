/** What a close comes to over whole runs: which orders it places, that filling them flattens the legs it closes, and
    what its alert, its audit event and the monitor's queue refer to. */
module CloseOutcomes {
  import opened Options
  import opened Legs
  import opened Close
  import opened OrderBook
  import opened CloseProtocol

  // ----- The orders of a close -----

  /** The order closes what entry order e of that structure has filled, on the other side. */
  ghost predicate Unwinds(orders: seq<Order>, o: Order, structure: nat, e: nat) {
    && e < |orders| && IsEntryOf(orders[e], structure)
    && o.closes == Some(e) && o.role.Closing? && o.legIdx == orders[e].legIdx
    && o.side != orders[e].side && o.qty == orders[e].filled > 0
  }

  /** Where a close puts the order for the j-th filled entry leg. */
  function ClosingId(d: Desk, j: nat): nat {
    |d.orders| + j
  }

  lemma EntryLeg(d: Desk, pid: nat, j: nat)
    requires CanClose(d, pid) && j < |LegsToClose(d, pid)|
    ensures var e := LegsToClose(d, pid)[j];
            e < |d.orders| && IsEntryOf(d.orders[e], d.positions[pid].structure) && d.orders[e].filled > 0
  {
    LegsToCloseAreFilled(d, pid);
    assert LegsToClose(d, pid)[j] in LegsToClose(d, pid);
  }

  /** A close adds one order for each filled entry leg of the position, in leg order and in a structure of its own, and
      each unwinds its leg. */
  lemma CloseUnwinds(d: Desk, pid: nat, alert: Option<nat>, j: nat)
    requires CanClose(d, pid) && j < |LegsToClose(d, pid)|
    ensures var after := AfterClose(d, pid, alert).orders;
            && |after| == |d.orders| + |LegsToClose(d, pid)| && after[..|d.orders|] == d.orders
            && Unwinds(d.orders, after[ClosingId(d, j)], d.positions[pid].structure, LegsToClose(d, pid)[j])
            && after[ClosingId(d, j)].structure == d.structures
            && after[ClosingId(d, j)].filled == 0 && after[ClosingId(d, j)].state.Pending?
  {
    EntryLeg(d, pid, j);
    ClosingOrderAt(d.orders, LegsToClose(d, pid), d.structures);
  }

  // ----- Orders keep what they are -----

  lemma ReplacedKeepsIdentity(orders: seq<Order>, id: nat, o: Order, i: nat)
    requires i < |orders| && id < |orders| && SameIdentity(o, orders[id])
    ensures SameIdentity(orders[id := o][i], orders[i])
  {
  }

  lemma BookKeepsIdentity(d: Desk, s: BookStep, i: nat)
    requires i < |d.orders|
    ensures var after := BookNext(d, s); i < |after.orders| && SameIdentity(after.orders[i], d.orders[i])
  {
    match s
    case Rewrite(id, how) =>
      if id < |d.orders| {
        ReplacedKeepsIdentity(d.orders, id, Rewritten(d.fills, id, d.orders[id], how), i);
      }
    case Executed(_, _, _) =>
    case ComboFilled(_, _, _) =>
    case Ended(_, _) =>
    case _ =>
  }

  lemma StepKeepsIdentity(d: Desk, s: Step, cooldown: int, i: nat)
    requires i < |d.orders|
    ensures var after := Next(d, s, cooldown); i < |after.orders| && SameIdentity(after.orders[i], d.orders[i])
  {
    if s.Book? {
      BookKeepsIdentity(d, s.step, i);
    } else if s.CloseRequest? {
      if CanClose(d, s.pid) {
        CloseLeavesQuantities(d, s.pid, s.alert, i);
      }
    } else {
      BookBlindStays(d, s, cooldown);
    }
  }

  lemma RunSnoc(steps: seq<Step>, later: seq<Step>, cooldown: int)
    requires later != []
    ensures After(steps + later, cooldown)
            == Next(After(steps + later[..|later| - 1], cooldown), later[|later| - 1], cooldown)
  {
    var front, last := later[..|later| - 1], later[|later| - 1];
    assert steps + later == (steps + front) + [last];
    AfterSnoc(steps + front, last, cooldown);
  }

  lemma {:induction false} RunKeepsIdentity(steps: seq<Step>, later: seq<Step>, cooldown: int, i: nat)
    requires i < |After(steps, cooldown).orders|
    ensures var end := After(steps + later, cooldown);
            i < |end.orders| && SameIdentity(end.orders[i], After(steps, cooldown).orders[i])
  {
    if later == [] {
      assert steps + later == steps;
    } else {
      var front, last := later[..|later| - 1], later[|later| - 1];
      RunKeepsIdentity(steps, front, cooldown, i);
      RunSnoc(steps, later, cooldown);
      StepKeepsIdentity(After(steps + front, cooldown), last, cooldown, i);
    }
  }

  // ----- A filled close leaves nothing open -----

  lemma OpenIsSigned(steps: seq<Step>, cooldown: int, i: nat)
    requires NothingBroke(steps, cooldown, i) && i < |After(steps, cooldown).orders|
    ensures var d := After(steps, cooldown);
            RowOf(d.legs, i).openQty == SignedQty(d.orders[i].side, d.orders[i].filled)
  {
    BookStaysSound(steps, cooldown);
    StaysCurrent(steps, cooldown, i);
    OwnSideFold(After(steps, cooldown).fills, i, After(steps, cooldown).orders[i].side);
  }

  /** The j-th order of a close has filled, and its entry leg has not filled further; both still agree with their
      fills. */
  ghost predicate FilledSince(steps: seq<Step>, pid: nat, alert: Option<nat>, later: seq<Step>, cooldown: int, e: nat,
                              k: nat) {
    var run := steps + [CloseRequest(pid, alert)] + later;
    var d, end := After(steps, cooldown), After(run, cooldown);
    && NothingBroke(run, cooldown, e) && NothingBroke(run, cooldown, k)
    && e < |d.orders| && e < |end.orders| && end.orders[e].filled == d.orders[e].filled
    && k < |end.orders| && end.orders[k].filled == end.orders[k].qty
  }

  lemma CloseMirrors(steps: seq<Step>, pid: nat, alert: Option<nat>, later: seq<Step>, cooldown: int, j: nat)
    requires CanClose(After(steps, cooldown), pid) && j < |LegsToClose(After(steps, cooldown), pid)|
    ensures var d := After(steps, cooldown);
            var end, e := After(steps + [CloseRequest(pid, alert)] + later, cooldown), LegsToClose(d, pid)[j];
            && e < |d.orders| && e < |end.orders| && ClosingId(d, j) < |end.orders|
            && end.orders[e].side != end.orders[ClosingId(d, j)].side
            && end.orders[ClosingId(d, j)].qty == d.orders[e].filled
  {
    var d, closed := After(steps, cooldown), steps + [CloseRequest(pid, alert)];
    AfterSnoc(steps, CloseRequest(pid, alert), cooldown);
    EntryLeg(d, pid, j);
    CloseUnwinds(d, pid, alert, j);
    RunKeepsIdentity(closed, later, cooldown, LegsToClose(d, pid)[j]);
    RunKeepsIdentity(closed, later, cooldown, ClosingId(d, j));
  }

  /** Whatever else happens between a close and the moment one of its orders has filled, the open quantities of the
      entry leg and of that order cancel. */
  lemma FilledCloseFlattens(steps: seq<Step>, pid: nat, alert: Option<nat>, later: seq<Step>, cooldown: int, j: nat)
    requires CanClose(After(steps, cooldown), pid) && j < |LegsToClose(After(steps, cooldown), pid)|
    requires var d := After(steps, cooldown);
             FilledSince(steps, pid, alert, later, cooldown, LegsToClose(d, pid)[j], ClosingId(d, j))
    ensures var d, end := After(steps, cooldown), After(steps + [CloseRequest(pid, alert)] + later, cooldown);
            RowOf(end.legs, LegsToClose(d, pid)[j]).openQty + RowOf(end.legs, ClosingId(d, j)).openQty == 0
  {
    var d, run := After(steps, cooldown), steps + [CloseRequest(pid, alert)] + later;
    CloseMirrors(steps, pid, alert, later, cooldown, j);
    OpenIsSigned(run, cooldown, LegsToClose(d, pid)[j]);
    OpenIsSigned(run, cooldown, ClosingId(d, j));
  }

  // ----- What the audit events and the alerts refer to -----

  /** Order i unwinds an entry leg of the position the event names. */
  ghost predicate PartOf(d: Desk, ev: Initiated, i: nat) {
    && i < |d.orders| && ev.position < |d.positions| && d.orders[i].structure == ev.structure
    && d.orders[i].role.Closing? && d.orders[i].closes.Some?
    && var e := d.orders[i].closes.value;
       && e < |d.orders| && IsEntryOf(d.orders[e], d.positions[ev.position].structure)
       && d.orders[i].legIdx == d.orders[e].legIdx && d.orders[i].side != d.orders[e].side
  }

  /** The structure the event names has closing orders, and they all unwind entry legs of its position. */
  ghost predicate Traced(d: Desk, ev: Initiated) {
    && ev.structure < d.structures && (exists i: nat :: PartOf(d, ev, i))
    && forall i: nat :: i < |d.orders| && d.orders[i].structure == ev.structure && d.orders[i].role.Closing? ==>
                          PartOf(d, ev, i)
  }

  ghost predicate LinkKnown(d: Desk, a: nat) {
    a in d.alerts && d.alerts[a].closing.Some? ==>
      exists k :: 0 <= k < |d.initiated| && d.initiated[k].structure == d.alerts[a].closing.value
  }

  lemma NewOrders(d: Desk, s: Step, cooldown: int, i: nat)
    requires |d.orders| <= i < |Next(d, s, cooldown).orders|
    ensures var o := Next(d, s, cooldown).orders[i]; o.role.Closing? ==> o.structure == d.structures
  {
    if s.CloseRequest? {
      ClosingOrderAt(d.orders, LegsToClose(d, s.pid), d.structures);
    } else if !s.Book? {
      BookBlindStays(d, s, cooldown);
    }
  }

  lemma PositionsStay(d: Desk, s: Step, cooldown: int)
    ensures var after := Next(d, s, cooldown);
            && |d.positions| <= |after.positions| && d.structures <= after.structures
            && forall p: nat :: p < |d.positions| ==> after.positions[p].structure == d.positions[p].structure
  {
    if s.Cycle? {
      ScanMovesOnlyAlerts(d, |d.positions|, s.now, s.winners, cooldown, s.auto);
    }
  }

  lemma PartStays(d: Desk, s: Step, cooldown: int, ev: Initiated, i: nat)
    requires PartOf(d, ev, i)
    ensures PartOf(Next(d, s, cooldown), ev, i)
  {
    PositionsStay(d, s, cooldown);
    StepKeepsIdentity(d, s, cooldown, i);
    StepKeepsIdentity(d, s, cooldown, d.orders[i].closes.value);
  }

  lemma StepKeepsTraced(d: Desk, s: Step, cooldown: int, ev: Initiated)
    requires Traced(d, ev)
    ensures Traced(Next(d, s, cooldown), ev)
  {
    var after := Next(d, s, cooldown);
    PositionsStay(d, s, cooldown);
    var part: nat :| PartOf(d, ev, part);
    PartStays(d, s, cooldown, ev, part);
    forall i: nat | i < |after.orders| && after.orders[i].structure == ev.structure && after.orders[i].role.Closing?
      ensures PartOf(after, ev, i)
    {
      if i < |d.orders| {
        StepKeepsIdentity(d, s, cooldown, i);
        PartStays(d, s, cooldown, ev, i);
      } else {
        NewOrders(d, s, cooldown, i);
      }
    }
  }

  lemma CloseIsTraced(d: Desk, pid: nat, alert: Option<nat>)
    requires BookOk(d) && CanClose(d, pid)
    ensures Traced(AfterClose(d, pid, alert), Initiated(pid, d.structures))
  {
    var after, ev, ids := AfterClose(d, pid, alert), Initiated(pid, d.structures), LegsToClose(d, pid);
    forall j: nat | j < |ids|
      ensures PartOf(after, ev, ClosingId(d, j))
    {
      CloseUnwinds(d, pid, alert, j);
      assert after.orders[ids[j]] == d.orders[ids[j]];
    }
    CloseUnwinds(d, pid, alert, 0);
    assert PartOf(after, ev, ClosingId(d, 0));
    assert forall i :: 0 <= i < |d.orders| ==> after.orders[i] == d.orders[i];
    forall i: nat | i < |after.orders| && after.orders[i].structure == ev.structure
      ensures PartOf(after, ev, i)
    {
      if i >= |d.orders| {
        assert i == ClosingId(d, i - |d.orders|);
      }
    }
  }

  /** Audit events are only appended: by a close, the one it initiates. */
  lemma StepInitiates(d: Desk, s: Step, cooldown: int)
    ensures Next(d, s, cooldown).initiated
            == d.initiated + if s.CloseRequest? && CanClose(d, s.pid) then [Initiated(s.pid, d.structures)] else []
  {
    if !s.CloseRequest? {
      OtherStepsInitiateNothing(d, s, cooldown);
    }
  }

  lemma {:induction false} ScanLinksNothing(d: Desk, n: nat, now: int, winners: map<nat, Decision>, cooldown: int,
                                            auto: bool, a: nat)
    ensures var after := Scanned(d, n, now, winners, cooldown, auto);
            a in after.alerts && after.alerts[a].closing.Some? ==> a in d.alerts && after.alerts[a] == d.alerts[a]
  {
    if n > 0 {
      ScanLinksNothing(d, n - 1, now, winners, cooldown, auto, a);
    }
  }

  lemma LinkOrigin(d: Desk, s: Step, cooldown: int, a: nat)
    requires a in Next(d, s, cooldown).alerts && Next(d, s, cooldown).alerts[a].closing.Some?
    ensures (a in d.alerts && Next(d, s, cooldown).alerts[a].closing == d.alerts[a].closing)
            || (s.CloseRequest? && CanClose(d, s.pid)
                && Next(d, s, cooldown).alerts[a].closing == Some(d.structures))
  {
    if s.Cycle? {
      ScanLinksNothing(d, |d.positions|, s.now, s.winners, cooldown, s.auto, a);
    }
  }

  lemma StepKeepsLinks(d: Desk, s: Step, cooldown: int, a: nat)
    requires LinkKnown(d, a)
    ensures LinkKnown(Next(d, s, cooldown), a)
  {
    var after := Next(d, s, cooldown);
    if a in after.alerts && after.alerts[a].closing.Some? {
      StepInitiates(d, s, cooldown);
      LinkOrigin(d, s, cooldown, a);
      if a in d.alerts && after.alerts[a].closing == d.alerts[a].closing {
        var k :| 0 <= k < |d.initiated| && d.initiated[k].structure == d.alerts[a].closing.value;
        assert after.initiated[k] == d.initiated[k];
      } else {
        assert after.initiated[|d.initiated|].structure == d.structures;
      }
    }
  }

  ghost predicate AllTraced(d: Desk) {
    && (forall k {:trigger d.initiated[k]} :: 0 <= k < |d.initiated| ==> Traced(d, d.initiated[k]))
    && forall a: nat :: LinkKnown(d, a)
  }

  lemma StepKeepsAllTraced(d: Desk, s: Step, cooldown: int)
    requires BookOk(d) && AllTraced(d)
    ensures AllTraced(Next(d, s, cooldown))
  {
    var after := Next(d, s, cooldown);
    StepInitiates(d, s, cooldown);
    forall k | 0 <= k < |after.initiated|
      ensures Traced(after, after.initiated[k])
    {
      if k < |d.initiated| {
        StepKeepsTraced(d, s, cooldown, d.initiated[k]);
      } else {
        CloseIsTraced(d, s.pid, s.alert);
      }
    }
    forall a: nat
      ensures LinkKnown(after, a)
    {
      StepKeepsLinks(d, s, cooldown, a);
    }
  }

  /** In every reachable state each audit event names a structure whose closing orders all unwind entry legs of the
      event's position, and each alert linked to a closing structure is linked to one of those. */
  lemma {:induction false} ClosesAreTraced(steps: seq<Step>, cooldown: int)
    ensures AllTraced(After(steps, cooldown))
  {
    if steps != [] {
      var front, last := steps[..|steps| - 1], steps[|steps| - 1];
      ClosesAreTraced(front, cooldown);
      BookStaysSound(front, cooldown);
      StepKeepsAllTraced(After(front, cooldown), last, cooldown);
    }
  }

  // ----- What the monitor raises and queues -----

  /** A cycle numbers its alerts from the next free one on. */
  ghost predicate NewAlert(d: Desk, after: Desk, a: nat) {
    d.nextAlert <= a < after.nextAlert
  }

  ghost predicate AlertsFresh(d: Desk) {
    forall a :: a in d.alerts ==> a < d.nextAlert
  }

  /** The position is open, a rule won for it, and the cooldown has passed since every alert of that rule on it. */
  ghost predicate Due(d: Desk, pid: nat, now: int, winners: map<nat, Decision>, cooldown: int) {
    && OpenAt(d, pid) && pid in winners
    && forall a :: a in d.alerts && d.alerts[a].position == pid && d.alerts[a].rule == winners[pid].rule ==>
                     d.alerts[a].at + cooldown <= now
  }

  ghost predicate IsRaised(d: Desk, after: Desk, pid: nat) {
    exists a: nat :: a in after.alerts && NewAlert(d, after, a) && after.alerts[a].position == pid
  }

  /** Each due position among the first n has one new alert, of the rule that won for it, and there are no others. */
  ghost predicate Raised(d: Desk, after: Desk, n: nat, now: int, winners: map<nat, Decision>, cooldown: int) {
    && AlertsKept(d, after) && InTurn(d, after)
    && (forall a: nat :: a in after.alerts && NewAlert(d, after, a) ==>
          RaisedFor(d, after, n, now, winners, cooldown, a))
    && (forall p: nat :: p < n && Due(d, p, now, winners, cooldown) ==> IsRaised(d, after, p))
  }

  ghost predicate RaisedFor(d: Desk, after: Desk, n: nat, now: int, winners: map<nat, Decision>, cooldown: int, a: nat)
    requires a in after.alerts
  {
    var p := after.alerts[a].position;
    && p < n && Due(d, p, now, winners, cooldown)
    && after.alerts[a] == Alert(p, winners[p].rule, now, winners[p].exit, None)
  }

  /** The old alerts are still there, and the others have the new numbers. */
  ghost predicate AlertsKept(d: Desk, after: Desk) {
    && d.nextAlert <= after.nextAlert && AlertsFresh(after)
    && (forall a :: a in d.alerts ==> a in after.alerts && after.alerts[a] == d.alerts[a])
    && (forall a: nat :: a in after.alerts && a !in d.alerts ==> NewAlert(d, after, a))
    && (forall a: nat :: NewAlert(d, after, a) ==> a in after.alerts)
  }

  /** The new alerts come in the order of their positions, one each. */
  ghost predicate InTurn(d: Desk, after: Desk) {
    forall a: nat, b: nat :: a in after.alerts && b in after.alerts && NewAlert(d, after, a) && a < b ==>
                               after.alerts[a].position < after.alerts[b].position
  }

  /** The closes of the exit alerts among these, in their order. */
  function ExitCloses(alerts: map<nat, Alert>, from: nat, until: nat): seq<PendingClose> {
    if until <= from then []
    else
      var a := until - 1;
      ExitCloses(alerts, from, a)
      + if a in alerts && alerts[a].exit then [PendingClose(alerts[a].position, a)] else []
  }

  lemma {:induction false} ExitClosesStay(alerts: map<nat, Alert>, more: map<nat, Alert>, from: nat, until: nat)
    requires forall a: nat :: a < until ==> (a in alerts <==> a in more) && (a in alerts ==> more[a] == alerts[a])
    ensures ExitCloses(more, from, until) == ExitCloses(alerts, from, until)
  {
    if from < until {
      ExitClosesStay(alerts, more, from, until - 1);
    }
  }

  lemma OthersAreNotRecent(d: Desk, mid: Desk, pid: nat, now: int, winners: map<nat, Decision>, cooldown: int)
    requires Raised(d, mid, pid, now, winners, cooldown) && mid.positions == d.positions
    ensures Due(d, pid, now, winners, cooldown) <==>
            OpenAt(mid, pid) && pid in winners && !RecentAlert(mid.alerts, pid, winners[pid].rule, now - cooldown)
  {
    if OpenAt(d, pid) && pid in winners {
      forall a | a in mid.alerts && mid.alerts[a].position == pid
        ensures a in d.alerts
      {
        assert a !in d.alerts ==> RaisedFor(d, mid, pid, now, winners, cooldown, a);
      }
      forall a | a in d.alerts
        ensures a in mid.alerts && mid.alerts[a] == d.alerts[a]
      {
      }
    }
  }

  lemma RaisedStays(d: Desk, mid: Desk, after: Desk, p: nat)
    requires IsRaised(d, mid, p) && mid.nextAlert <= after.nextAlert
    requires forall a :: a in mid.alerts ==> a in after.alerts && after.alerts[a] == mid.alerts[a]
    ensures IsRaised(d, after, p)
  {
    var a: nat :| a in mid.alerts && NewAlert(d, mid, a) && mid.alerts[a].position == p;
    assert after.alerts[a] == mid.alerts[a] && NewAlert(d, after, a);
  }

  lemma MonitoredKeeps(d: Desk, mid: Desk, pid: nat, now: int, winners: map<nat, Decision>, cooldown: int, auto: bool)
    requires AlertsKept(d, mid)
    ensures AlertsKept(d, Monitored(mid, pid, now, winners, cooldown, auto))
  {
  }

  lemma MonitoredInTurn(d: Desk, mid: Desk, pid: nat, now: int, winners: map<nat, Decision>, cooldown: int, auto: bool)
    requires AlertsKept(d, mid) && InTurn(d, mid)
    requires forall a: nat :: a in mid.alerts && NewAlert(d, mid, a) ==> mid.alerts[a].position < pid
    ensures InTurn(d, Monitored(mid, pid, now, winners, cooldown, auto))
  {
  }

  lemma MonitoredRaisedFor(d: Desk, mid: Desk, pid: nat, now: int, winners: map<nat, Decision>, cooldown: int,
                           auto: bool, a: nat)
    requires Raised(d, mid, pid, now, winners, cooldown) && mid.positions == d.positions
    requires var after := Monitored(mid, pid, now, winners, cooldown, auto); a in after.alerts && NewAlert(d, after, a)
    ensures RaisedFor(d, Monitored(mid, pid, now, winners, cooldown, auto), pid + 1, now, winners, cooldown, a)
  {
    OthersAreNotRecent(d, mid, pid, now, winners, cooldown);
    if a in mid.alerts {
      assert RaisedFor(d, mid, pid, now, winners, cooldown, a);
    }
  }

  lemma MonitoredIsRaised(d: Desk, mid: Desk, pid: nat, now: int, winners: map<nat, Decision>, cooldown: int,
                          auto: bool, p: nat)
    requires Raised(d, mid, pid, now, winners, cooldown) && mid.positions == d.positions
    requires p <= pid && Due(d, p, now, winners, cooldown)
    ensures IsRaised(d, Monitored(mid, pid, now, winners, cooldown, auto), p)
  {
    var after := Monitored(mid, pid, now, winners, cooldown, auto);
    OthersAreNotRecent(d, mid, pid, now, winners, cooldown);
    if p < pid {
      RaisedStays(d, mid, after, p);
    } else {
      assert mid.nextAlert in after.alerts && NewAlert(d, after, mid.nextAlert);
    }
  }

  lemma MonitoredRaises(d: Desk, mid: Desk, pid: nat, now: int, winners: map<nat, Decision>, cooldown: int, auto: bool)
    requires Raised(d, mid, pid, now, winners, cooldown) && mid.positions == d.positions
    ensures Raised(d, Monitored(mid, pid, now, winners, cooldown, auto), pid + 1, now, winners, cooldown)
  {
    var after := Monitored(mid, pid, now, winners, cooldown, auto);
    MonitoredKeeps(d, mid, pid, now, winners, cooldown, auto);
    forall a: nat | a in mid.alerts && NewAlert(d, mid, a)
      ensures mid.alerts[a].position < pid
    {
      assert RaisedFor(d, mid, pid, now, winners, cooldown, a);
    }
    MonitoredInTurn(d, mid, pid, now, winners, cooldown, auto);
    forall a: nat | a in after.alerts && NewAlert(d, after, a)
      ensures RaisedFor(d, after, pid + 1, now, winners, cooldown, a)
    {
      MonitoredRaisedFor(d, mid, pid, now, winners, cooldown, auto, a);
    }
    forall p: nat | p < pid + 1 && Due(d, p, now, winners, cooldown)
      ensures IsRaised(d, after, p)
    {
      MonitoredIsRaised(d, mid, pid, now, winners, cooldown, auto, p);
    }
  }

  lemma NothingRaised(d: Desk, now: int, winners: map<nat, Decision>, cooldown: int)
    requires AlertsFresh(d)
    ensures Raised(d, d, 0, now, winners, cooldown)
  {
  }

  /** A monitor cycle raises one alert for each position that is due and no others. */
  lemma {:induction false} ScanRaises(d: Desk, n: nat, now: int, winners: map<nat, Decision>, cooldown: int, auto: bool)
    requires AlertsFresh(d)
    ensures Raised(d, Scanned(d, n, now, winners, cooldown, auto), n, now, winners, cooldown)
  {
    if n == 0 {
      NothingRaised(d, now, winners, cooldown);
    } else {
      var mid := Scanned(d, n - 1, now, winners, cooldown, auto);
      ScanRaises(d, n - 1, now, winners, cooldown, auto);
      ScanMovesOnlyAlerts(d, n - 1, now, winners, cooldown, auto);
      MonitoredRaises(d, mid, n - 1, now, winners, cooldown, auto);
    }
  }

  lemma MonitoredQueues(mid: Desk, pid: nat, now: int, winners: map<nat, Decision>, cooldown: int, auto: bool)
    ensures var after := Monitored(mid, pid, now, winners, cooldown, auto);
            && (forall a: nat :: a < mid.nextAlert ==>
                  (a in mid.alerts <==> a in after.alerts) && (a in mid.alerts ==> after.alerts[a] == mid.alerts[a]))
            && mid.nextAlert <= after.nextAlert <= mid.nextAlert + 1
            && after.pending
               == mid.pending + if auto then ExitCloses(after.alerts, mid.nextAlert, after.nextAlert) else []
  {
    var after := Monitored(mid, pid, now, winners, cooldown, auto);
    assert ExitCloses(after.alerts, mid.nextAlert, mid.nextAlert) == [];
  }

  lemma {:induction false} ExitClosesJoin(alerts: map<nat, Alert>, from: nat, mid: nat, until: nat)
    requires from <= mid <= until <= mid + 1
    ensures ExitCloses(alerts, from, until) == ExitCloses(alerts, from, mid) + ExitCloses(alerts, mid, until)
  {
    assert ExitCloses(alerts, mid, mid) == [];
  }

  lemma QueueJoins(d: Desk, mid: Desk, after: Desk, auto: bool)
    requires d.nextAlert <= mid.nextAlert <= after.nextAlert <= mid.nextAlert + 1
    requires forall a: nat :: a < mid.nextAlert ==>
               (a in mid.alerts <==> a in after.alerts) && (a in mid.alerts ==> after.alerts[a] == mid.alerts[a])
    requires mid.pending == d.pending + if auto then ExitCloses(mid.alerts, d.nextAlert, mid.nextAlert) else []
    requires after.pending
             == mid.pending + if auto then ExitCloses(after.alerts, mid.nextAlert, after.nextAlert) else []
    ensures after.pending == d.pending + if auto then ExitCloses(after.alerts, d.nextAlert, after.nextAlert) else []
  {
    if auto {
      ExitClosesStay(mid.alerts, after.alerts, d.nextAlert, mid.nextAlert);
      ExitClosesJoin(after.alerts, d.nextAlert, mid.nextAlert, after.nextAlert);
      Associates(d.pending, ExitCloses(after.alerts, d.nextAlert, mid.nextAlert),
                 ExitCloses(after.alerts, mid.nextAlert, after.nextAlert));
    }
  }

  lemma Associates<T>(a: seq<T>, b: seq<T>, c: seq<T>)
    ensures a + b + c == a + (b + c)
  {
  }

  /** It queues a close for exactly the alerts of exit rules it raised, in their order, when closes are automatic. */
  lemma {:induction false} ScanQueues(d: Desk, n: nat, now: int, winners: map<nat, Decision>, cooldown: int, auto: bool)
    ensures var after := Scanned(d, n, now, winners, cooldown, auto);
            d.nextAlert <= after.nextAlert
            && after.pending == d.pending + if auto then ExitCloses(after.alerts, d.nextAlert, after.nextAlert) else []
  {
    if n > 0 {
      var mid := Scanned(d, n - 1, now, winners, cooldown, auto);
      var after := Scanned(d, n, now, winners, cooldown, auto);
      ScanQueues(d, n - 1, now, winners, cooldown, auto);
      MonitoredQueues(mid, n - 1, now, winners, cooldown, auto);
      QueueJoins(d, mid, after, auto);
    }
  }

  // ----- The life of a position -----

  /** How far a position has come. */
  function Stage(state: PositionState): nat {
    match state
    case IsOpen => 0
    case IsClosing => 1
    case IsClosed => 2
  }

  function StageAt(d: Desk, p: nat): nat
    requires p < |d.positions|
  {
    Stage(d.positions[p].state)
  }

  /** Some entry leg of the position has filled. */
  ghost predicate HasFilledLeg(d: Desk, p: nat)
    requires p < |d.positions|
  {
    exists e: nat :: e < |d.orders| && IsEntryOf(d.orders[e], d.positions[p].structure) && d.orders[e].filled > 0
  }

  lemma CanCloseIff(d: Desk, p: nat)
    ensures CanClose(d, p) <==> OpenAt(d, p) && HasFilledLeg(d, p)
  {
    if p < |d.positions| {
      LegsToCloseAreFilled(d, p);
      if LegsToClose(d, p) != [] {
        assert LegsToClose(d, p)[0] in LegsToClose(d, p);
      }
    }
  }

  /** A position never goes back. */
  lemma StepAdvances(d: Desk, s: Step, cooldown: int, p: nat)
    requires p < |d.positions|
    ensures var after := Next(d, s, cooldown); p < |after.positions| && StageAt(d, p) <= StageAt(after, p)
  {
    if s.Book? {
      BookLeavesPositions(d, s.step);
    } else if s.Cycle? {
      ScanMovesOnlyAlerts(d, |d.positions|, s.now, s.winners, cooldown, s.auto);
    }
  }

  lemma BookLeavesPositions(d: Desk, step: BookStep)
    ensures BookNext(d, step).positions == d.positions
  {
    match step
    case Rewrite(_, _) =>
    case Executed(_, _, _) =>
    case ComboFilled(_, _, _) =>
    case Ended(_, _) =>
    case _ =>
  }

  /** An open position leaves that state exactly by a close request that finds a filled leg, by a close by hand, or when
      it is finalised. */
  lemma LeavesOpenIff(d: Desk, s: Step, cooldown: int, p: nat)
    requires OpenAt(d, p)
    ensures !OpenAt(Next(d, s, cooldown), p) <==>
            (s.CloseRequest? && s.pid == p && HasFilledLeg(d, p)) || (s.ManualClose? && s.pid == p) || s == Finalised(p)
  {
    if s.Book? {
      BookLeavesPositions(d, s.step);
    } else if s.CloseRequest? {
      CanCloseIff(d, s.pid);
    } else if s.Cycle? {
      ScanMovesOnlyAlerts(d, |d.positions|, s.now, s.winners, cooldown, s.auto);
    }
  }

  lemma {:induction false} StagesAdvance(steps: seq<Step>, later: seq<Step>, cooldown: int, p: nat)
    requires p < |After(steps, cooldown).positions|
    ensures var end := After(steps + later, cooldown);
            p < |end.positions| && StageAt(After(steps, cooldown), p) <= StageAt(end, p)
  {
    if later == [] {
      assert steps + later == steps;
    } else {
      var front, last := later[..|later| - 1], later[|later| - 1];
      StagesAdvance(steps, front, cooldown, p);
      RunSnoc(steps, later, cooldown);
      StepAdvances(After(steps + front, cooldown), last, cooldown, p);
    }
  }

  /** A finalised position is closed for good. */
  lemma FinalisedForGood(steps: seq<Step>, later: seq<Step>, cooldown: int, p: nat)
    requires p < |After(steps, cooldown).positions|
    ensures var end := After(steps + [Finalised(p)] + later, cooldown);
            p < |end.positions| && end.positions[p].state.IsClosed?
  {
    AfterSnoc(steps, Finalised(p), cooldown);
    StagesAdvance(steps + [Finalised(p)], later, cooldown, p);
  }

  // ----- Closes by hand -----

  /** The alert, if there is one, is not of a close by hand or it tells to exit. */
  ghost predicate ManualExits(d: Desk, a: nat) {
    a in d.alerts && d.alerts[a].rule == MANUAL ==> d.alerts[a].exit
  }

  lemma {:induction false} ScanManualExits(d: Desk, n: nat, now: int, winners: map<nat, Decision>, cooldown: int,
                                           auto: bool, a: nat)
    requires ManualExits(d, a) && AutomaticRules(winners)
    ensures ManualExits(Scanned(d, n, now, winners, cooldown, auto), a)
  {
    if n > 0 {
      ScanManualExits(d, n - 1, now, winners, cooldown, auto, a);
    }
  }

  lemma BookLeavesAlerts(d: Desk, step: BookStep)
    ensures BookNext(d, step).alerts == d.alerts
  {
    match step
    case Rewrite(_, _) =>
    case Executed(_, _, _) =>
    case ComboFilled(_, _, _) =>
    case Ended(_, _) =>
    case _ =>
  }

  lemma StepManualExits(d: Desk, s: Step, cooldown: int, a: nat)
    requires ManualExits(d, a)
    ensures ManualExits(Next(d, s, cooldown), a)
  {
    if s.Book? {
      BookLeavesAlerts(d, s.step);
    } else if s.Cycle? && AutomaticRules(s.winners) {
      ScanManualExits(d, |d.positions|, s.now, s.winners, cooldown, s.auto, a);
    }
  }

  /** In every reachable state the alerts of closes by hand are exits, and a close by hand of an open position raises
      one under the next number. */
  lemma {:induction false} ManualAlertsExit(steps: seq<Step>, cooldown: int, a: nat, pid: nat, now: int)
    ensures ManualExits(After(steps, cooldown), a)
    ensures var d, after := After(steps, cooldown), After(steps + [ManualClose(pid, now)], cooldown);
            OpenAt(d, pid) ==>
              after.nextAlert == d.nextAlert + 1 && d.nextAlert in after.alerts
              && after.alerts[d.nextAlert].position == pid && after.alerts[d.nextAlert].rule == MANUAL
              && after.alerts[d.nextAlert].at == now && after.pending == d.pending
  {
    AfterSnoc(steps, ManualClose(pid, now), cooldown);
    if steps != [] {
      var front, last := steps[..|steps| - 1], steps[|steps| - 1];
      ManualAlertsExit(front, cooldown, a, pid, now);
      StepManualExits(After(front, cooldown), last, cooldown, a);
    }
  }

  // ----- The life of an order -----

  /** How far an order has come; the ways to end are on a par. */
  function Phase(state: OrderState): nat {
    match state
    case Pending => 0
    case Submitted => 1
    case Acknowledged => 2
    case PartiallyFilled => 3
    case _ => 4
  }

  /** The session is an execution of order i, or the answer to the dispatch of a closing order i. */
  predicate MayTurnBack(d: Desk, s: BookStep, i: nat) {
    || (s.Executed? && s.id == i)
    || (s.Rewrite? && s.id == i && s.how.DispatchReply? && i < |d.orders| && d.orders[i].role.Closing?)
  }

  lemma BookAdvancesOrder(d: Desk, s: BookStep, i: nat)
    requires i < |d.orders| && !MayTurnBack(d, s, i)
    ensures var after := BookNext(d, s).orders;
            && i < |after| && Phase(d.orders[i].state) <= Phase(after[i].state)
            && (Phase(d.orders[i].state) == 4 && after[i].state != d.orders[i].state ==>
                  s.ComboFilled? && s.id == i && after[i].state.Filled?)
  {
    match s
    case Rewrite(id, how) =>
      if id == i {
        RewritingAdvances(d.fills, id, d.orders[id], how);
      }
    case Executed(_, _, _) =>
    case ComboFilled(_, _, _) =>
    case Ended(_, _) =>
    case _ =>
  }

  lemma RewritingAdvances(fills: seq<Fill>, id: nat, o: Order, how: Rewriting)
    requires how.DispatchReply? ==> !o.role.Closing?
    ensures var after := Rewritten(fills, id, o, how);
            Phase(o.state) <= Phase(after.state) && (Phase(o.state) == 4 ==> after.state == o.state)
  {
  }

  /** No step turns an order back but its executions and, on a closing order, the answers to its dispatch; and an order
      that has ended changes its state otherwise only when a combo fills it. */
  lemma StepAdvancesOrder(d: Desk, s: Step, cooldown: int, i: nat)
    requires i < |d.orders| && (s.Book? ==> !MayTurnBack(d, s.step, i))
    ensures var after := Next(d, s, cooldown).orders;
            && i < |after| && Phase(d.orders[i].state) <= Phase(after[i].state)
            && (Phase(d.orders[i].state) == 4 && after[i].state != d.orders[i].state ==>
                  s.Book? && s.step.ComboFilled? && s.step.id == i && after[i].state.Filled?)
  {
    if s.Book? {
      BookAdvancesOrder(d, s.step, i);
    } else if s.CloseRequest? {
      if CanClose(d, s.pid) {
        CloseLeavesQuantities(d, s.pid, s.alert, i);
      }
    } else {
      BookBlindStays(d, s, cooldown);
    }
  }

  ghost predicate NeverTurnsBack(steps: seq<Step>, later: seq<Step>, cooldown: int, i: nat) {
    later == [] ||
    var front, last := later[..|later| - 1], later[|later| - 1];
    && NeverTurnsBack(steps, front, cooldown, i)
    && (last.Book? ==> !MayTurnBack(After(steps + front, cooldown), last.step, i))
  }

  ghost predicate NotBehind(orders: seq<Order>, later: seq<Order>, i: nat) {
    i < |orders| && i < |later| && Phase(orders[i].state) <= Phase(later[i].state)
  }

  lemma NotBehindNext(orders: seq<Order>, d: Desk, s: Step, cooldown: int, i: nat)
    requires NotBehind(orders, d.orders, i) && (s.Book? ==> !MayTurnBack(d, s.step, i))
    ensures NotBehind(orders, Next(d, s, cooldown).orders, i)
  {
    StepAdvancesOrder(d, s, cooldown, i);
  }

  /** Over any stretch of a run without those, an order never goes back. */
  lemma {:induction false} OrdersAdvance(steps: seq<Step>, later: seq<Step>, cooldown: int, i: nat)
    requires i < |After(steps, cooldown).orders| && NeverTurnsBack(steps, later, cooldown, i)
    ensures NotBehind(After(steps, cooldown).orders, After(steps + later, cooldown).orders, i)
    decreases |later|
  {
    if later == [] {
      assert steps + later == steps;
    } else {
      var front, last := later[..|later| - 1], later[|later| - 1];
      OrdersAdvance(steps, front, cooldown, i);
      RunSnoc(steps, later, cooldown);
      NotBehindNext(After(steps, cooldown).orders, After(steps + front, cooldown), last, cooldown, i);
    }
  }
}

/** Every interleaving of close requests, monitor cycles, broker events and bookings, one committed session at a
    time: what stays true of the desk and of its leg book. */
module CloseProtocol {
  import opened Options
  import opened Legs
  import opened Close
  import opened OrderBook

  const MANUAL: string := "manual_close"

  datatype Step =
    /** A session on orders, fills and leg rows. */
    | Book(step: BookStep)
    /** A structure filled in full becomes an open position. */
    | Booked(structure: nat)
    /** A close request, from a session or from the dispatch of a queued automatic close. */
    | CloseRequest(pid: nat, alert: Option<nat>)
    /** The manual close endpoint: an alert and a state flip. */
    | ManualClose(pid: nat, now: int)
    /** One monitor cycle with the given winning rules. */
    | Cycle(now: int, winners: map<nat, Decision>, auto: bool, commits: bool)
    /** The dispatch loop takes the queue over. */
    | TakePending
    /** The closing structure is filled, or the broker holds none of the position's legs. */
    | Finalised(pid: nat)

  predicate OpenAt(d: Desk, pid: nat) {
    pid < |d.positions| && d.positions[pid].state.IsOpen?
  }

  function Flip(d: Desk, pid: nat, state: PositionState): Desk
    requires pid < |d.positions|
  {
    d.(positions := d.positions[pid := d.positions[pid].(state := state)])
  }

  function CloseByHand(d: Desk, pid: nat, now: int): Desk {
    if OpenAt(d, pid) then
      Flip(d, pid, IsClosing).(alerts := d.alerts[d.nextAlert := Alert(pid, MANUAL, now, true, None)],
                               nextAlert := d.nextAlert + 1)
    else d
  }

  predicate AutomaticRules(winners: map<nat, Decision>) {
    forall p :: p in winners ==> winners[p].rule != MANUAL
  }

  /** A step whose guard fails leaves the desk as it is. */
  function Next(d: Desk, s: Step, cooldown: int): Desk {
    match s
    case Book(step) => BookNext(d, step)
    case Booked(structure) => d.(positions := d.positions + [Position(structure, IsOpen)])
    case CloseRequest(pid, alert) => CloseStep(d, pid, alert)
    case ManualClose(pid, now) => CloseByHand(d, pid, now)
    case Cycle(now, winners, auto, commits) =>
      if AutomaticRules(winners) then CycleStep(d, now, winners, cooldown, auto, commits) else d
    case TakePending => d.(pending := [])
    case Finalised(pid) => if pid < |d.positions| then Flip(d, pid, IsClosed) else d
  }

  const EMPTY_DESK := Desk([], 0, [], [], map[], map[], 0, [], [])

  function After(steps: seq<Step>, cooldown: int): Desk {
    if steps == [] then EMPTY_DESK else Next(After(steps[..|steps| - 1], cooldown), steps[|steps| - 1], cooldown)
  }

  /** The close requests a dispatch of these items makes. */
  function Requests(items: seq<PendingClose>): seq<Step> {
    seq(|items|, i requires 0 <= i < |items| => CloseRequest(items[i].position, Some(items[i].alert)))
  }

  /** A dispatch is one of the interleavings: the queue is taken over, then each close is a session of its own. */
  lemma {:induction false} DispatchIsRequests(steps: seq<Step>, items: seq<PendingClose>, cooldown: int)
    ensures After(steps + [TakePending] + Requests(items), cooldown)
            == Dispatched(After(steps, cooldown).(pending := []), items)
  {
    var taken := steps + [TakePending];
    if items == [] {
      assert taken + Requests(items) == taken && taken[..|steps|] == steps;
    } else {
      var n := |items| - 1;
      DispatchIsRequests(steps, items[..n], cooldown);
      var all := taken + Requests(items);
      assert all[..|all| - 1] == taken + Requests(items[..n]);
      assert all[|all| - 1] == CloseRequest(items[n].position, Some(items[n].alert));
    }
  }

  // ----- At most one initiated close per position -----

  ghost predicate SingleClose(d: Desk) {
    && (forall i, j :: 0 <= i < j < |d.initiated| ==> d.initiated[i].position != d.initiated[j].position)
    && (forall i :: 0 <= i < |d.initiated| ==>
          d.initiated[i].position < |d.positions| && !OpenAt(d, d.initiated[i].position))
  }

  lemma {:induction false} ScanMovesOnlyAlerts(d: Desk, n: nat, now: int, winners: map<nat, Decision>, cooldown: int,
                                               auto: bool)
    ensures var after := Scanned(d, n, now, winners, cooldown, auto);
            after == d.(alerts := after.alerts, nextAlert := after.nextAlert, pending := after.pending)
            && after.nextAlert >= d.nextAlert
  {
    if n == 0 {
    } else {
      ScanMovesOnlyAlerts(d, n - 1, now, winners, cooldown, auto);
    }
  }

  lemma CloseKeepsSingleClose(d: Desk, pid: nat, alert: Option<nat>)
    requires SingleClose(d)
    ensures SingleClose(CloseStep(d, pid, alert))
  {
  }

  /** No position opens again, and none disappears. */
  ghost predicate NoneReopens(d: Desk, after: Desk) {
    && |d.positions| <= |after.positions|
    && forall p: nat :: p < |d.positions| && OpenAt(after, p) ==> OpenAt(d, p)
  }

  lemma OtherStepsInitiateNothing(d: Desk, s: Step, cooldown: int)
    requires !s.CloseRequest?
    ensures var after := Next(d, s, cooldown); after.initiated == d.initiated && NoneReopens(d, after)
  {
    if s.Cycle? {
      ScanMovesOnlyAlerts(d, |d.positions|, s.now, s.winners, cooldown, s.auto);
    }
  }

  lemma StepKeepsSingleClose(d: Desk, s: Step, cooldown: int)
    requires SingleClose(d)
    ensures SingleClose(Next(d, s, cooldown))
  {
    if s.CloseRequest? {
      CloseKeepsSingleClose(d, s.pid, s.alert);
    } else {
      OtherStepsInitiateNothing(d, s, cooldown);
    }
  }

  /** Over every interleaving, a position is closed by at most one initiated structure,
      and never again once it has left the open state. */
  lemma {:induction false} OneCloseForever(steps: seq<Step>, cooldown: int)
    ensures SingleClose(After(steps, cooldown))
  {
    if steps == [] {
    } else {
      OneCloseForever(steps[..|steps| - 1], cooldown);
      StepKeepsSingleClose(After(steps[..|steps| - 1], cooldown), steps[|steps| - 1], cooldown);
    }
  }

  // ----- Same-rule alerts keep their distance -----

  ghost predicate Spaced(alerts: map<nat, Alert>, cooldown: int) {
    forall a, b :: a in alerts && b in alerts && a < b
                   && alerts[a].position == alerts[b].position && alerts[a].rule == alerts[b].rule ==>
      alerts[b].at - alerts[a].at >= cooldown
  }

  ghost predicate AlertsOk(d: Desk, cooldown: int) {
    && Spaced(d.alerts, cooldown)
    && (forall a :: a in d.alerts ==> a < d.nextAlert && d.alerts[a].position < |d.positions|)
    && (forall a :: a in d.alerts && d.alerts[a].rule == MANUAL ==> !OpenAt(d, d.alerts[a].position))
  }

  lemma AlertAdded(alerts: map<nat, Alert>, id: nat, alert: Alert, cooldown: int)
    requires Spaced(alerts, cooldown) && forall a :: a in alerts ==> a < id
    requires !RecentAlert(alerts, alert.position, alert.rule, alert.at - cooldown)
    ensures Spaced(alerts[id := alert], cooldown)
  {
  }

  lemma MonitoredKeepsAlertsOk(d: Desk, pid: nat, now: int, winners: map<nat, Decision>, cooldown: int, auto: bool)
    requires AlertsOk(d, cooldown) && AutomaticRules(winners)
    ensures AlertsOk(Monitored(d, pid, now, winners, cooldown, auto), cooldown)
  {
    if OpenAt(d, pid) && pid in winners && !RecentAlert(d.alerts, pid, winners[pid].rule, now - cooldown) {
      AlertAdded(d.alerts, d.nextAlert, Alert(pid, winners[pid].rule, now, winners[pid].exit, None), cooldown);
    }
  }

  lemma {:induction false} ScanKeepsAlertsOk(d: Desk, n: nat, now: int, winners: map<nat, Decision>, cooldown: int,
                                             auto: bool)
    requires AlertsOk(d, cooldown) && AutomaticRules(winners)
    ensures AlertsOk(Scanned(d, n, now, winners, cooldown, auto), cooldown)
  {
    if n == 0 {
    } else {
      ScanKeepsAlertsOk(d, n - 1, now, winners, cooldown, auto);
      MonitoredKeepsAlertsOk(Scanned(d, n - 1, now, winners, cooldown, auto), n - 1, now, winners, cooldown, auto);
    }
  }

  lemma ManualKeepsAlertsOk(d: Desk, pid: nat, now: int, cooldown: int)
    requires AlertsOk(d, cooldown) && OpenAt(d, pid)
    ensures AlertsOk(CloseByHand(d, pid, now), cooldown)
  {
    AlertAdded(d.alerts, d.nextAlert, Alert(pid, MANUAL, now, true, None), cooldown);
  }

  lemma CloseKeepsAlertsOk(d: Desk, pid: nat, alert: Option<nat>, cooldown: int)
    requires AlertsOk(d, cooldown)
    ensures AlertsOk(CloseStep(d, pid, alert), cooldown)
  {
    if CanClose(d, pid) {
      var after := AfterClose(d, pid, alert);
      assert forall a :: a in after.alerts ==>
               a in d.alerts && after.alerts[a] == d.alerts[a].(closing := after.alerts[a].closing);
    }
  }

  /** The steps other than cycles, manual closes and close requests raise no alert. */
  lemma AlertsBlindStays(d: Desk, s: Step, cooldown: int)
    requires !s.Cycle? && !s.ManualClose? && !s.CloseRequest?
    ensures var after := Next(d, s, cooldown);
            after.alerts == d.alerts && after.nextAlert == d.nextAlert && NoneReopens(d, after)
  {
    OtherStepsInitiateNothing(d, s, cooldown);
  }

  lemma SameAlertsOk(d: Desk, after: Desk, cooldown: int)
    requires AlertsOk(d, cooldown)
    requires after.alerts == d.alerts && after.nextAlert == d.nextAlert && NoneReopens(d, after)
    ensures AlertsOk(after, cooldown)
  {
  }

  lemma CycleKeepsAlertsOk(d: Desk, now: int, winners: map<nat, Decision>, auto: bool, commits: bool, cooldown: int)
    requires AlertsOk(d, cooldown) && AutomaticRules(winners)
    ensures AlertsOk(CycleStep(d, now, winners, cooldown, auto, commits), cooldown)
  {
    ScanMovesOnlyAlerts(d, |d.positions|, now, winners, cooldown, auto);
    ScanKeepsAlertsOk(d, |d.positions|, now, winners, cooldown, auto);
  }

  lemma StepKeepsAlertsOk(d: Desk, s: Step, cooldown: int)
    requires AlertsOk(d, cooldown)
    ensures AlertsOk(Next(d, s, cooldown), cooldown)
  {
    match s
    case Cycle(now, winners, auto, commits) =>
      if AutomaticRules(winners) {
        CycleKeepsAlertsOk(d, now, winners, auto, commits, cooldown);
      }
    case ManualClose(pid, now) =>
      if OpenAt(d, pid) {
        ManualKeepsAlertsOk(d, pid, now, cooldown);
      }
    case CloseRequest(pid, alert) => CloseKeepsAlertsOk(d, pid, alert, cooldown);
    case _ =>
      AlertsBlindStays(d, s, cooldown);
      SameAlertsOk(d, Next(d, s, cooldown), cooldown);
  }

  /** Two alerts of one rule on one position are at least the cooldown apart, whatever the clock does. */
  lemma {:induction false} AlertsKeepDistance(steps: seq<Step>, cooldown: int)
    ensures AlertsOk(After(steps, cooldown), cooldown)
  {
    if steps == [] {
    } else {
      AlertsKeepDistance(steps[..|steps| - 1], cooldown);
      StepKeepsAlertsOk(After(steps[..|steps| - 1], cooldown), steps[|steps| - 1], cooldown);
    }
  }

  // ----- The order book over whole runs -----

  lemma AfterSnoc(steps: seq<Step>, s: Step, cooldown: int)
    ensures After(steps + [s], cooldown) == Next(After(steps, cooldown), s, cooldown)
  {
    assert (steps + [s])[..|steps|] == steps;
  }

  /** The steps that leave orders, fills and legs alone. */
  predicate BookBlind(s: Step) {
    !s.Book? && !s.CloseRequest?
  }

  lemma BookBlindStays(d: Desk, s: Step, cooldown: int)
    requires BookBlind(s)
    ensures var after := Next(d, s, cooldown);
            && after.orders == d.orders && after.fills == d.fills && after.legs == d.legs
            && after.structures == d.structures
  {
    if s.Cycle? {
      ScanMovesOnlyAlerts(d, |d.positions|, s.now, s.winners, cooldown, s.auto);
    }
  }

  lemma LegsToCloseAreFilled(d: Desk, pid: nat)
    requires pid < |d.positions|
    ensures var ids := LegsToClose(d, pid);
            && Distinct(ids)
            && (forall k :: 0 <= k < |ids| ==> d.orders[ids[k]].filled > 0)
            && forall e: nat :: e in ids <==>
                 e < |d.orders| && IsEntryOf(d.orders[e], d.positions[pid].structure) && d.orders[e].filled > 0
  {
    var structure := d.positions[pid].structure;
    var entries := EntryIds(d.orders, structure, |d.orders|);
    var ids := LegsToClose(d, pid);
    EntryIdsDistinct(d.orders, structure, |d.orders|);
    FilledOfDistinct(d.orders, entries);
    forall e: nat
      ensures e in ids <==> e < |d.orders| && IsEntryOf(d.orders[e], structure) && d.orders[e].filled > 0
    {
      EntryMember(d.orders, structure, |d.orders|, e);
      FilledMember(d.orders, entries, e);
    }
    forall k | 0 <= k < |ids|
      ensures d.orders[ids[k]].filled > 0
    {
      assert ids[k] in ids;
    }
  }

  lemma FillsStayMatched(orders: seq<Order>, more: seq<Order>, fills: seq<Fill>)
    requires FillsMatch(orders, fills)
    ensures FillsMatch(orders + more, fills)
  {
  }

  lemma CloseKeepsBook(d: Desk, pid: nat, alert: Option<nat>)
    requires BookOk(d) && CanClose(d, pid)
    ensures BookOk(AfterClose(d, pid, alert))
  {
    var ids, after := LegsToClose(d, pid), AfterClose(d, pid, alert);
    ClosingOrderAt(d.orders, ids, d.structures);
    CloseKeepsUniqueLegs(d, pid, alert);
    FillsStayMatched(d.orders, ClosingOrders(d.orders, ids, d.structures), d.fills);
    forall x | x in after.legs
      ensures x < |after.orders|
    {
      if x in Members(ids) {
        var k :| 0 <= k < |ids| && ids[k] == x;
      }
    }
  }

  lemma StepKeepsBook(d: Desk, s: Step, cooldown: int)
    requires BookOk(d)
    ensures BookOk(Next(d, s, cooldown))
  {
    if s.Book? {
      BookStepKeepsBook(d, s.step);
    } else if s.CloseRequest? {
      if CanClose(d, s.pid) {
        CloseKeepsBook(d, s.pid, s.alert);
      }
    } else {
      BookBlindStays(d, s, cooldown);
    }
  }

  /** In every reachable state ids are sound, every fill is on its order's side, and no structure has two orders of one
      role for one leg. */
  lemma {:induction false} BookStaysSound(steps: seq<Step>, cooldown: int)
    ensures BookOk(After(steps, cooldown))
  {
    if steps == [] {
    } else {
      BookStaysSound(steps[..|steps| - 1], cooldown);
      StepKeepsBook(After(steps[..|steps| - 1], cooldown), steps[|steps| - 1], cooldown);
    }
  }

  // ----- Which orders agree with their fills -----

  predicate StepBreaks(d: Desk, s: Step, i: nat) {
    s.Book? && Breaks(d, s.step, i)
  }

  /** Unfilled orders appended to the table agree with their fills at once. */
  lemma UnfilledAreCurrent(d: Desk, after: Desk, i: nat)
    requires BookOk(d) && Current(d, i) && d.orders <= after.orders && after.fills == d.fills
    requires |d.orders| <= i < |after.orders| ==> after.orders[i].filled == 0
    requires RowOf(after.legs, i).openQty == RowOf(d.legs, i).openQty
    ensures Current(after, i)
  {
    if i < |d.orders| {
      assert after.orders[i] == d.orders[i];
    } else {
      NoFillsNoFold(d.fills, i);
      assert i !in d.legs;
    }
  }

  lemma CloseLeavesQuantities(d: Desk, pid: nat, alert: Option<nat>, i: nat)
    requires CanClose(d, pid)
    ensures var after := AfterClose(d, pid, alert);
            && d.orders <= after.orders && after.fills == d.fills
            && (|d.orders| <= i < |after.orders| ==> after.orders[i].filled == 0)
            && RowOf(after.legs, i).openQty == RowOf(d.legs, i).openQty
  {
    var ids := LegsToClose(d, pid);
    ClosingOrderAt(d.orders, ids, d.structures);
    RecomputedEachQuantities(d.orders + ClosingOrders(d.orders, ids, d.structures), d.legs, Members(ids), i);
  }

  lemma RecomputedEachQuantities(orders: seq<Order>, legs: LegTable, ids: set<nat>, i: nat)
    ensures RowOf(RecomputedEach(orders, legs, ids), i).openQty == RowOf(legs, i).openQty
  {
  }

  lemma CloseKeepsCurrent(d: Desk, pid: nat, alert: Option<nat>, i: nat)
    requires BookOk(d) && CanClose(d, pid) && Current(d, i)
    ensures Current(AfterClose(d, pid, alert), i)
  {
    CloseLeavesQuantities(d, pid, alert, i);
    UnfilledAreCurrent(d, AfterClose(d, pid, alert), i);
  }

  /** In every reachable state a step leaves an order in agreement with its fills and its leg row exactly when it is not
      one of the four sessions that write a filled quantity past them. */
  lemma StepCurrentIff(steps: seq<Step>, s: Step, cooldown: int, i: nat)
    requires Current(After(steps, cooldown), i)
    ensures Current(After(steps + [s], cooldown), i) <==> !StepBreaks(After(steps, cooldown), s, i)
  {
    var d := After(steps, cooldown);
    AfterSnoc(steps, s, cooldown);
    BookStaysSound(steps, cooldown);
    if s.Book? {
      CurrentIff(d, s.step, i);
    } else if s.CloseRequest? {
      if CanClose(d, s.pid) {
        CloseKeepsCurrent(d, s.pid, s.alert, i);
      }
    } else {
      BookBlindStays(d, s, cooldown);
    }
  }

  ghost predicate NothingBroke(steps: seq<Step>, cooldown: int, i: nat) {
    steps == [] ||
    var front, last := steps[..|steps| - 1], steps[|steps| - 1];
    NothingBroke(front, cooldown, i) && !StepBreaks(After(front, cooldown), last, i)
  }

  /** An order's filled quantity is the sum of its fills and its leg row their signed sum in every run in which none of
      the four sessions touched it. */
  lemma {:induction false} StaysCurrent(steps: seq<Step>, cooldown: int, i: nat)
    requires NothingBroke(steps, cooldown, i)
    ensures Current(After(steps, cooldown), i)
  {
    if steps == [] {
    } else {
      var front, last := steps[..|steps| - 1], steps[|steps| - 1];
      StaysCurrent(front, cooldown, i);
      StepCurrentIff(front, last, cooldown, i);
      assert front + [last] == steps;
    }
  }

  // ----- The stored reservations -----

  predicate StepRecomputes(d: Desk, s: Step, e: nat) {
    || (s.Book? && Recomputes(d, s.step, e))
    || (s.CloseRequest? && CanClose(d, s.pid) && e in LegsToClose(d, s.pid))
  }

  function StepDrift(d: Desk, s: Step, e: nat): int {
    if s.Book? then Drift(d, s.step, e) else 0
  }

  /** Closing orders for distinct filled legs reserve each leg's filled quantity once. */
  lemma {:induction false} ClosingOrdersReserve(orders: seq<Order>, ids: seq<nat>, structure: nat, e: nat)
    requires InRange(orders, ids) && Distinct(ids) && forall k :: 0 <= k < |ids| ==> orders[ids[k]].filled > 0
    ensures Reserved(orders + ClosingOrders(orders, ids, structure), e)
            == Reserved(orders, e) + (if e in ids then orders[e].filled else 0)
  {
    if ids == [] {
      assert orders + ClosingOrders(orders, ids, structure) == orders;
    } else {
      var front, last := ids[..|ids| - 1], ids[|ids| - 1];
      DistinctFront(ids);
      LastIn(ids, e);
      ClosingOrdersReserve(orders, front, structure, e);
      var before, o := orders + ClosingOrders(orders, front, structure), ClosingOrder(orders, last, structure);
      assert orders + ClosingOrders(orders, ids, structure) == before + [o];
      ReservedAfterAppend(before, o, e);
    }
  }

  lemma CloseMovesExcess(d: Desk, pid: nat, alert: Option<nat>, e: nat)
    requires CanClose(d, pid)
    ensures Excess(AfterClose(d, pid, alert), e) == if e in LegsToClose(d, pid) then 0 else Excess(d, e)
  {
    var ids := LegsToClose(d, pid);
    LegsToCloseAreFilled(d, pid);
    ClosingOrdersReserve(d.orders, ids, d.structures, e);
    assert e in Members(ids) <==> e in ids;
  }

  /** A step makes a leg's stored reservation exact if it recomputes it, and otherwise moves its excess by exactly what
      the order it rewrote holds less than before. */
  lemma StepMovesExcess(d: Desk, s: Step, cooldown: int, e: nat)
    ensures Excess(Next(d, s, cooldown), e)
            == if StepRecomputes(d, s, e) then 0 else Excess(d, e) + StepDrift(d, s, e)
  {
    if s.Book? {
      BookMovesExcess(d, s.step, e);
    } else if s.CloseRequest? {
      if CanClose(d, s.pid) {
        CloseMovesExcess(d, s.pid, s.alert, e);
      }
    } else {
      BookBlindStays(d, s, cooldown);
    }
  }

  /** The drifts since the leg was last recomputed. */
  function Drifted(steps: seq<Step>, cooldown: int, e: nat): int {
    if steps == [] then 0
    else
      var front, last := steps[..|steps| - 1], steps[|steps| - 1];
      if StepRecomputes(After(front, cooldown), last, e) then 0
      else Drifted(front, cooldown, e) + StepDrift(After(front, cooldown), last, e)
  }

  /** In every reachable state the stored reservation of a leg is what is in flight against it plus the drifts since its
      last recompute. */
  lemma {:induction false} ReservationIsDrifted(steps: seq<Step>, cooldown: int, e: nat)
    ensures Excess(After(steps, cooldown), e) == Drifted(steps, cooldown, e)
  {
    if steps == [] {
    } else {
      var front, last := steps[..|steps| - 1], steps[|steps| - 1];
      ReservationIsDrifted(front, cooldown, e);
      StepMovesExcess(After(front, cooldown), last, cooldown, e);
    }
  }

  /** The step is a session that ends, shortens or revives a closing order of the leg and recomputes nothing. */
  predicate StepReleases(d: Desk, s: Step, e: nat) {
    s.Book? && s.step.Rewrite? && Linked(d, s.step.id, e)
    && Releases(d.fills, s.step.id, d.orders[s.step.id], s.step.how)
  }

  predicate StepRevives(d: Desk, s: Step, e: nat) {
    s.Book? && s.step.Rewrite? && Linked(d, s.step.id, e)
    && Revives(d.fills, s.step.id, d.orders[s.step.id], s.step.how)
  }

  lemma StepDriftSign(d: Desk, s: Step, e: nat)
    ensures StepDrift(d, s, e) > 0 <==> StepReleases(d, s, e)
    ensures StepDrift(d, s, e) < 0 <==> StepRevives(d, s, e)
    ensures StepReleases(d, s, e) || StepRevives(d, s, e) ==> !StepRecomputes(d, s, e)
  {
    if s.Book? && s.step.Rewrite? {
      DriftSign(d, s.step.id, s.step.how, e);
    }
  }

  /** From an exact reservation, a step leaves it too high exactly when it releases a closing order of the leg, too low
      exactly when it revives one, and exact otherwise. */
  lemma StaleIffReleasedOrRevived(steps: seq<Step>, s: Step, cooldown: int, e: nat)
    requires Excess(After(steps, cooldown), e) == 0
    ensures Excess(After(steps + [s], cooldown), e) > 0 <==> StepReleases(After(steps, cooldown), s, e)
    ensures Excess(After(steps + [s], cooldown), e) < 0 <==> StepRevives(After(steps, cooldown), s, e)
  {
    AfterSnoc(steps, s, cooldown);
    StepMovesExcess(After(steps, cooldown), s, cooldown, e);
    StepDriftSign(After(steps, cooldown), s, e);
  }

  ghost predicate NothingRevived(steps: seq<Step>, cooldown: int, e: nat) {
    steps == [] ||
    var front, last := steps[..|steps| - 1], steps[|steps| - 1];
    NothingRevived(front, cooldown, e) && !StepRevives(After(front, cooldown), last, e)
  }

  /** In a run that revived no closing order of a leg, the leg reserves at least what is in flight against it. */
  lemma {:induction false} ReservationsCover(steps: seq<Step>, cooldown: int, e: nat)
    requires NothingRevived(steps, cooldown, e)
    ensures Excess(After(steps, cooldown), e) >= 0
  {
    if steps == [] {
    } else {
      var front, last := steps[..|steps| - 1], steps[|steps| - 1];
      ReservationsCover(front, cooldown, e);
      StepMovesExcess(After(front, cooldown), last, cooldown, e);
      StepDriftSign(After(front, cooldown), last, e);
    }
  }

  ghost predicate NothingReleased(steps: seq<Step>, cooldown: int, e: nat) {
    steps == [] ||
    var front, last := steps[..|steps| - 1], steps[|steps| - 1];
    NothingReleased(front, cooldown, e) && !StepReleases(After(front, cooldown), last, e)
  }

  /** If none was released either, exactly that. */
  lemma {:induction false} ReservationsExact(steps: seq<Step>, cooldown: int, e: nat)
    requires NothingRevived(steps, cooldown, e) && NothingReleased(steps, cooldown, e)
    ensures Excess(After(steps, cooldown), e) == 0
  {
    if steps == [] {
    } else {
      var front, last := steps[..|steps| - 1], steps[|steps| - 1];
      ReservationsExact(front, cooldown, e);
      StepMovesExcess(After(front, cooldown), last, cooldown, e);
      StepDriftSign(After(front, cooldown), last, e);
    }
  }

  // ----- Runs whose closing orders agree with their fills -----

  /** No step broke the agreement of a closing order of the leg, and none wrote one that had ended short back to
      submitted. */
  ghost predicate Timely(steps: seq<Step>, cooldown: int, e: nat) {
    steps == [] ||
    var front, last := steps[..|steps| - 1], steps[|steps| - 1];
    Timely(front, cooldown, e) && TimelyStep(After(front, cooldown), last, e)
  }

  ghost predicate TimelyStep(d: Desk, s: Step, e: nat) {
    && (forall id: nat :: Linked(d, id, e) ==> !StepBreaks(d, s, id))
    && !(s.Book? && s.step.Rewrite? && Linked(d, s.step.id, e) && LateReply(d.orders[s.step.id], s.step.how))
  }

  /** Every closing order of the leg agrees with its fills. */
  ghost predicate LinkedCurrent(d: Desk, e: nat) {
    forall id: nat :: Linked(d, id, e) ==> Current(d, id)
  }

  /** A step links no order that is there already, and an order born broken is no closing order. */
  lemma LinkedBefore(d: Desk, s: Step, cooldown: int, id: nat, e: nat)
    requires Linked(Next(d, s, cooldown), id, e)
    ensures id < |d.orders| ==> Linked(d, id, e)
    ensures id >= |d.orders| ==> !StepBreaks(d, s, id)
  {
    if BookBlind(s) {
      BookBlindStays(d, s, cooldown);
    } else if s.Book? {
      BookLinkedBefore(d, s.step, id, e);
    }
  }

  lemma LinkedStayCurrent(steps: seq<Step>, s: Step, cooldown: int, e: nat)
    requires LinkedCurrent(After(steps, cooldown), e) && TimelyStep(After(steps, cooldown), s, e)
    ensures LinkedCurrent(After(steps + [s], cooldown), e)
  {
    var d, next := After(steps, cooldown), After(steps + [s], cooldown);
    AfterSnoc(steps, s, cooldown);
    forall id: nat | Linked(next, id, e)
      ensures Current(next, id)
    {
      LinkedBefore(d, s, cooldown, id, e);
      StepCurrentIff(steps, s, cooldown, id);
    }
  }

  /** In every run in which the closing orders of a leg agree with their fills and no late answer writes one back to
      submitted, the leg reserves at least what is in flight against it. */
  lemma {:induction false} TimelyRunsCover(steps: seq<Step>, cooldown: int, e: nat)
    requires Timely(steps, cooldown, e)
    ensures LinkedCurrent(After(steps, cooldown), e) && NothingRevived(steps, cooldown, e)
    ensures Excess(After(steps, cooldown), e) >= 0
  {
    if steps == [] {
    } else {
      var front, last := steps[..|steps| - 1], steps[|steps| - 1];
      TimelyRunsCover(front, cooldown, e);
      LinkedStayCurrent(front, last, cooldown, e);
      assert front + [last] == steps;
      TimelyRevivesNothing(After(front, cooldown), last, e);
    }
    ReservationsCover(steps, cooldown, e);
  }

  lemma TimelyRevivesNothing(d: Desk, s: Step, e: nat)
    requires LinkedCurrent(d, e) && TimelyStep(d, s, e)
    ensures !StepRevives(d, s, e)
  {
    if s.Book? && s.step.Rewrite? && Linked(d, s.step.id, e) {
      OnlyLateRepliesRevive(d, s.step.id, s.step.how);
    }
  }

  // ----- What a close leaves available -----

  function Abs(x: int): int {
    if x < 0 then -x else x
  }

  function Available(d: Desk, e: nat): int {
    Abs(RowOf(d.legs, e).openQty) - RowOf(d.legs, e).reserved
  }

  /** On any desk, initiating a close leaves a filled entry leg of the position with its open quantity minus its filled
      quantity minus what other closes hold: nothing exactly when the open quantity is the sum of the two. */
  lemma CloseLeavesAvailable(d: Desk, pid: nat, alert: Option<nat>, e: nat)
    requires CanClose(d, pid) && e in LegsToClose(d, pid)
    ensures var after, open := AfterClose(d, pid, alert), Abs(RowOf(d.legs, e).openQty);
            && Available(after, e) == open - d.orders[e].filled - Reserved(d.orders, e)
            && (Available(after, e) == 0 <==> open == d.orders[e].filled + Reserved(d.orders, e))
  {
    LegsToCloseAreFilled(d, pid);
    CloseMovesExcess(d, pid, alert, e);
    ClosingOrdersReserve(d.orders, LegsToClose(d, pid), d.structures, e);
  }

  /** In every run that kept the leg in agreement with its fills, the close leaves nothing available exactly when no
      other close of the leg was in flight; otherwise the leg is over-reserved by what was. */
  lemma CloseReservesEverything(steps: seq<Step>, cooldown: int, pid: nat, alert: Option<nat>, e: nat)
    requires CanClose(After(steps, cooldown), pid) && e in LegsToClose(After(steps, cooldown), pid)
    requires NothingBroke(steps, cooldown, e)
    ensures var d := After(steps, cooldown);
            var after := AfterClose(d, pid, alert);
            && Available(after, e) == -Reserved(d.orders, e)
            && (Available(after, e) == 0 <==> Reserved(d.orders, e) == 0)
  {
    var d := After(steps, cooldown);
    LegsToCloseAreFilled(d, pid);
    BookStaysSound(steps, cooldown);
    StaysCurrent(steps, cooldown, e);
    OwnSideFold(d.fills, e, d.orders[e].side);
    CloseLeavesAvailable(d, pid, alert, e);
  }
}

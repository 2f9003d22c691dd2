/** The close protocol over booked positions: initiating a close (src/api/orchestration/position_close.py up to its
    commit), the exit alerts and the dispatch of automatic closes (src/api/orchestration/position_monitor.py).
    One database session up to its commit is one atomic step; the winning exit rule of a position is an input. */
module Close {
  import opened Options
  import opened Legs

  datatype PositionState = IsOpen | IsClosing | IsClosed

  datatype Position = Position(structure: nat, state: PositionState)

  datatype Alert = Alert(position: nat, rule: string, at: int, exit: bool, closing: Option<nat>)

  /** The exit rule that won for a position in one cycle. */
  datatype Decision = Decision(rule: string, exit: bool)

  /** The audit event of an initiated close. */
  datatype Initiated = Initiated(position: nat, structure: nat)

  datatype PendingClose = PendingClose(position: nat, alert: nat)

  datatype Desk = Desk(positions: seq<Position>, structures: nat, orders: seq<Order>, fills: seq<Fill>, legs: LegTable,
                       alerts: map<nat, Alert>, nextAlert: nat, initiated: seq<Initiated>, pending: seq<PendingClose>)

  datatype CloseResult = NotFound | Skipped(state: PositionState) | NothingFilled | Started(structure: nat, nLegs: nat)

  function Opposite(s: Side): Side {
    if s.Buy? then Sell else Buy
  }

  // ----- The entry legs of a structure -----

  predicate InRange(orders: seq<Order>, ids: seq<nat>) {
    forall k :: 0 <= k < |ids| ==> ids[k] < |orders|
  }

  /** Inserts an id after the ids whose leg index is not greater. */
  function InsertByLeg(orders: seq<Order>, ids: seq<nat>, id: nat): (r: seq<nat>)
    requires id < |orders| && InRange(orders, ids)
    ensures InRange(orders, r)
  {
    if ids == [] || orders[ids[|ids| - 1]].legIdx <= orders[id].legIdx then ids + [id]
    else InsertByLeg(orders, ids[..|ids| - 1], id) + [ids[|ids| - 1]]
  }

  predicate IsEntryOf(o: Order, structure: nat) {
    o.role.Entry? && o.structure == structure
  }

  /** Ids of the entry orders of a structure among the first n orders, ordered by leg index. */
  function EntryIds(orders: seq<Order>, structure: nat, n: nat): (ids: seq<nat>)
    requires n <= |orders|
    ensures InRange(orders, ids)
  {
    if n == 0 then []
    else
      var ids := EntryIds(orders, structure, n - 1);
      if IsEntryOf(orders[n - 1], structure) then InsertByLeg(orders, ids, n - 1) else ids
  }

  lemma LastIn<T>(s: seq<T>, x: T)
    requires s != []
    ensures x in s <==> x in s[..|s| - 1] || x == s[|s| - 1]
  {
    assert s == s[..|s| - 1] + [s[|s| - 1]];
  }

  lemma {:induction false} InsertedMember(orders: seq<Order>, ids: seq<nat>, id: nat, x: nat)
    requires id < |orders| && InRange(orders, ids)
    ensures x in InsertByLeg(orders, ids, id) <==> x in ids || x == id
  {
    if ids != [] && orders[ids[|ids| - 1]].legIdx > orders[id].legIdx {
      InsertedMember(orders, ids[..|ids| - 1], id, x);
      LastIn(ids, x);
    }
  }

  /** The list holds exactly the entry orders of the structure. */
  lemma {:induction false} EntryMember(orders: seq<Order>, structure: nat, n: nat, x: nat)
    requires n <= |orders|
    ensures x in EntryIds(orders, structure, n) <==> x < n && IsEntryOf(orders[x], structure)
  {
    if n == 0 {
    } else {
      EntryMember(orders, structure, n - 1, x);
      if IsEntryOf(orders[n - 1], structure) {
        InsertedMember(orders, EntryIds(orders, structure, n - 1), n - 1, x);
      }
    }
  }

  ghost predicate ByLeg(orders: seq<Order>, ids: seq<nat>)
    requires InRange(orders, ids)
  {
    forall i, j :: 0 <= i < j < |ids| ==> orders[ids[i]].legIdx <= orders[ids[j]].legIdx
  }

  lemma {:induction false} InsertKeepsOrder(orders: seq<Order>, ids: seq<nat>, id: nat)
    requires id < |orders| && InRange(orders, ids) && ByLeg(orders, ids)
    ensures ByLeg(orders, InsertByLeg(orders, ids, id))
  {
    if ids != [] && orders[ids[|ids| - 1]].legIdx > orders[id].legIdx {
      var front, last := ids[..|ids| - 1], ids[|ids| - 1];
      InsertKeepsOrder(orders, front, id);
      var inserted := InsertByLeg(orders, front, id);
      forall i | 0 <= i < |inserted|
        ensures orders[inserted[i]].legIdx <= orders[last].legIdx
      {
        InsertedMember(orders, front, id, inserted[i]);
      }
    }
  }

  /** The entry orders come in leg order. */
  lemma {:induction false} EntryIdsByLeg(orders: seq<Order>, structure: nat, n: nat)
    requires n <= |orders|
    ensures ByLeg(orders, EntryIds(orders, structure, n))
  {
    if n == 0 {
    } else {
      EntryIdsByLeg(orders, structure, n - 1);
      if IsEntryOf(orders[n - 1], structure) {
        InsertKeepsOrder(orders, EntryIds(orders, structure, n - 1), n - 1);
      }
    }
  }

  ghost predicate Distinct(ids: seq<nat>) {
    forall i, j :: 0 <= i < j < |ids| ==> ids[i] != ids[j]
  }

  lemma DistinctSnoc(ids: seq<nat>, id: nat)
    requires Distinct(ids) && id !in ids
    ensures Distinct(ids + [id])
  {
  }

  lemma DistinctFront(ids: seq<nat>)
    requires Distinct(ids) && ids != []
    ensures Distinct(ids[..|ids| - 1]) && ids[|ids| - 1] !in ids[..|ids| - 1]
  {
  }

  lemma {:induction false} InsertKeepsDistinct(orders: seq<Order>, ids: seq<nat>, id: nat)
    requires id < |orders| && InRange(orders, ids) && Distinct(ids) && id !in ids
    ensures Distinct(InsertByLeg(orders, ids, id))
  {
    if ids != [] && orders[ids[|ids| - 1]].legIdx > orders[id].legIdx {
      var front, last := ids[..|ids| - 1], ids[|ids| - 1];
      DistinctFront(ids);
      InsertKeepsDistinct(orders, front, id);
      InsertedMember(orders, front, id, last);
      DistinctSnoc(InsertByLeg(orders, front, id), last);
    } else {
      DistinctSnoc(ids, id);
    }
  }

  lemma {:induction false} EntryIdsDistinct(orders: seq<Order>, structure: nat, n: nat)
    requires n <= |orders|
    ensures Distinct(EntryIds(orders, structure, n))
  {
    if n == 0 {
    } else {
      EntryIdsDistinct(orders, structure, n - 1);
      if IsEntryOf(orders[n - 1], structure) {
        EntryMember(orders, structure, n - 1, n - 1);
        InsertKeepsDistinct(orders, EntryIds(orders, structure, n - 1), n - 1);
      }
    }
  }

  /** The ids with something filled, in order. */
  function FilledOf(orders: seq<Order>, ids: seq<nat>): (kept: seq<nat>)
    requires InRange(orders, ids)
    ensures InRange(orders, kept)
  {
    if ids == [] then []
    else
      var kept := FilledOf(orders, ids[..|ids| - 1]);
      if orders[ids[|ids| - 1]].filled > 0 then kept + [ids[|ids| - 1]] else kept
  }

  lemma {:induction false} FilledMember(orders: seq<Order>, ids: seq<nat>, x: nat)
    requires InRange(orders, ids)
    ensures x in FilledOf(orders, ids) <==> x in ids && orders[x].filled > 0
  {
    if ids == [] {
    } else {
      FilledMember(orders, ids[..|ids| - 1], x);
      LastIn(ids, x);
    }
  }

  lemma {:induction false} FilledOfDistinct(orders: seq<Order>, ids: seq<nat>)
    requires InRange(orders, ids) && Distinct(ids)
    ensures Distinct(FilledOf(orders, ids))
  {
    if ids == [] {
    } else {
      var front, last := ids[..|ids| - 1], ids[|ids| - 1];
      DistinctFront(ids);
      FilledOfDistinct(orders, front);
      FilledMember(orders, front, last);
      if orders[last].filled > 0 {
        DistinctSnoc(FilledOf(orders, front), last);
      }
    }
  }

  // ----- Initiating a close -----

  /** The filled entry legs of a position. */
  function LegsToClose(d: Desk, pid: nat): seq<nat>
    requires pid < |d.positions|
  {
    FilledOf(d.orders, EntryIds(d.orders, d.positions[pid].structure, |d.orders|))
  }

  predicate CanClose(d: Desk, pid: nat) {
    pid < |d.positions| && d.positions[pid].state.IsOpen? && LegsToClose(d, pid) != []
  }

  /** The closing order of one entry leg: other side, the quantity that was filled, linked to the leg. */
  function ClosingOrder(orders: seq<Order>, id: nat, structure: nat): Order
    requires id < |orders|
  {
    Order(structure, orders[id].legIdx, Closing, Opposite(orders[id].side), orders[id].filled, 0, Pending, Some(id))
  }

  function ClosingOrders(orders: seq<Order>, ids: seq<nat>, structure: nat): seq<Order>
    requires InRange(orders, ids)
  {
    if ids == [] then []
    else ClosingOrders(orders, ids[..|ids| - 1], structure) + [ClosingOrder(orders, ids[|ids| - 1], structure)]
  }

  function Members(ids: seq<nat>): set<nat> {
    set i | i in ids
  }

  /** The reservation recomputed for each of the legs. */
  function RecomputedEach(orders: seq<Order>, legs: LegTable, ids: set<nat>): LegTable {
    map x | x in legs.Keys + ids :: if x in ids then Recomputed(orders, legs, x)[x] else legs[x]
  }

  lemma RecomputeOneMore(orders: seq<Order>, legs: LegTable, done: set<nat>, id: nat)
    requires id !in done
    ensures Recomputed(orders, RecomputedEach(orders, legs, done), id) == RecomputedEach(orders, legs, done + {id})
  {
  }

  function LinkAlert(alerts: map<nat, Alert>, alert: Option<nat>, structure: nat): map<nat, Alert> {
    if alert.Some? && alert.value in alerts
    then alerts[alert.value := alerts[alert.value].(closing := Some(structure))]
    else alerts
  }

  /** The desk once the close of `pid` over the entry legs `ids` is committed. */
  function CloseOver(d: Desk, pid: nat, alert: Option<nat>, ids: seq<nat>): Desk
    requires pid < |d.positions| && InRange(d.orders, ids)
  {
    var orders := d.orders + ClosingOrders(d.orders, ids, d.structures);
    d.(orders := orders,
       legs := RecomputedEach(orders, d.legs, Members(ids)),
       structures := d.structures + 1,
       positions := d.positions[pid := d.positions[pid].(state := IsClosing)],
       alerts := LinkAlert(d.alerts, alert, d.structures),
       initiated := d.initiated + [Initiated(pid, d.structures)])
  }

  function AfterClose(d: Desk, pid: nat, alert: Option<nat>): Desk
    requires CanClose(d, pid)
  {
    CloseOver(d, pid, alert, LegsToClose(d, pid))
  }

  /** What the caller is told. */
  function CloseReply(d: Desk, pid: nat): CloseResult {
    if pid >= |d.positions| then NotFound
    else if !d.positions[pid].state.IsOpen? then Skipped(d.positions[pid].state)
    else if LegsToClose(d, pid) == [] then NothingFilled
    else Started(d.structures, |LegsToClose(d, pid)|)
  }

  function CloseStep(d: Desk, pid: nat, alert: Option<nat>): Desk {
    if CanClose(d, pid) then AfterClose(d, pid, alert) else d
  }

  // ----- One monitor cycle -----

  predicate RecentAlert(alerts: map<nat, Alert>, pid: nat, rule: string, cutoff: int) {
    exists a :: a in alerts && alerts[a].position == pid && alerts[a].rule == rule && alerts[a].at > cutoff
  }

  /** The alert branch for one position. */
  function Monitored(d: Desk, pid: nat, now: int, winners: map<nat, Decision>, cooldown: int, auto: bool): Desk {
    if pid < |d.positions| && d.positions[pid].state.IsOpen? && pid in winners
       && !RecentAlert(d.alerts, pid, winners[pid].rule, now - cooldown) then
      var w := winners[pid];
      d.(alerts := d.alerts[d.nextAlert := Alert(pid, w.rule, now, w.exit, None)],
         nextAlert := d.nextAlert + 1,
         pending := d.pending + if w.exit && auto then [PendingClose(pid, d.nextAlert)] else [])
    else d
  }

  function Scanned(d: Desk, n: nat, now: int, winners: map<nat, Decision>, cooldown: int, auto: bool): Desk {
    if n == 0 then d
    else Monitored(Scanned(d, n - 1, now, winners, cooldown, auto), n - 1, now, winners, cooldown, auto)
  }

  /** A cycle whose commit fails loses its alert rows but not the closes it queued. */
  function CycleStep(d: Desk, now: int, winners: map<nat, Decision>, cooldown: int, auto: bool, commits: bool): Desk {
    var scanned := Scanned(d, |d.positions|, now, winners, cooldown, auto);
    if commits then scanned else scanned.(alerts := d.alerts)
  }

  function Dispatched(d: Desk, items: seq<PendingClose>): Desk {
    if items == [] then d
    else
      var last := items[|items| - 1];
      CloseStep(Dispatched(d, items[..|items| - 1]), last.position, Some(last.alert))
  }

  /** At most one order per structure, leg and role, a unique constraint of the order table. */
  ghost predicate UniqueLegs(orders: seq<Order>) {
    forall i, j :: 0 <= i < j < |orders| ==> !SameLeg(orders[i], orders[j])
  }

  predicate SameLeg(a: Order, b: Order) {
    a.structure == b.structure && a.legIdx == b.legIdx && a.role == b.role
  }

  ghost predicate LegsDiffer(orders: seq<Order>, ids: seq<nat>)
    requires InRange(orders, ids)
  {
    forall i, j :: 0 <= i < j < |ids| ==> orders[ids[i]].legIdx != orders[ids[j]].legIdx
  }

  lemma EntryLegsDiffer(orders: seq<Order>, structure: nat)
    requires UniqueLegs(orders)
    ensures LegsDiffer(orders, EntryIds(orders, structure, |orders|))
  {
    var ids := EntryIds(orders, structure, |orders|);
    EntryIdsDistinct(orders, structure, |orders|);
    forall i, j | 0 <= i < j < |ids|
      ensures orders[ids[i]].legIdx != orders[ids[j]].legIdx
    {
      EntryMember(orders, structure, |orders|, ids[i]);
      EntryMember(orders, structure, |orders|, ids[j]);
      assert ids[i] in ids && ids[j] in ids;
      assert !SameLeg(orders[ids[i]], orders[ids[j]]);
    }
  }

  ghost predicate Indexed(orders: seq<Order>, ids: seq<nat>, byLeg: map<int, nat>)
    requires InRange(orders, ids)
  {
    forall k :: 0 <= k < |ids| ==> orders[ids[k]].legIdx in byLeg && byLeg[orders[ids[k]].legIdx] == ids[k]
  }

  lemma IndexedWhenFilled(orders: seq<Order>, entries: seq<nat>, byLeg: map<int, nat>)
    requires InRange(orders, entries)
    requires Indexed(orders, entries, byLeg)
    ensures Indexed(orders, FilledOf(orders, entries), byLeg)
  {
    var ids := FilledOf(orders, entries);
    forall k | 0 <= k < |ids|
      ensures orders[ids[k]].legIdx in byLeg && byLeg[orders[ids[k]].legIdx] == ids[k]
    {
      FilledMember(orders, entries, ids[k]);
      var j :| 0 <= j < |entries| && entries[j] == ids[k];
    }
  }

  /** Structure ids are handed out in sequence. */
  ghost predicate OldStructures(orders: seq<Order>, structures: nat) {
    forall i :: 0 <= i < |orders| ==> orders[i].structure < structures
  }

  lemma {:induction false} ClosingOrderAt(orders: seq<Order>, ids: seq<nat>, structure: nat)
    requires InRange(orders, ids)
    ensures |ClosingOrders(orders, ids, structure)| == |ids|
    ensures forall k :: 0 <= k < |ids| ==>
              ClosingOrders(orders, ids, structure)[k] == ClosingOrder(orders, ids[k], structure)
  {
    if ids == [] {
    } else {
      ClosingOrderAt(orders, ids[..|ids| - 1], structure);
    }
  }

  lemma CloseKeepsUniqueLegs(d: Desk, pid: nat, alert: Option<nat>)
    requires UniqueLegs(d.orders) && OldStructures(d.orders, d.structures)
    ensures var after := CloseStep(d, pid, alert);
            UniqueLegs(after.orders) && OldStructures(after.orders, after.structures)
  {
    if CanClose(d, pid) {
      var ids := LegsToClose(d, pid);
      var entries := EntryIds(d.orders, d.positions[pid].structure, |d.orders|);
      EntryLegsDiffer(d.orders, d.positions[pid].structure);
      FilledLegsDiffer(d.orders, entries);
      ClosingOrderAt(d.orders, ids, d.structures);
      NewStructureUnique(d.orders, ids, d.structures);
    }
  }

  lemma NewStructureUnique(orders: seq<Order>, ids: seq<nat>, structure: nat)
    requires UniqueLegs(orders) && OldStructures(orders, structure) && InRange(orders, ids) && LegsDiffer(orders, ids)
    ensures var all := orders + ClosingOrders(orders, ids, structure);
            UniqueLegs(all) && OldStructures(all, structure + 1)
  {
    ClosingOrderAt(orders, ids, structure);
    var all := orders + ClosingOrders(orders, ids, structure);
    forall i, j | 0 <= i < j < |all|
      ensures !SameLeg(all[i], all[j])
    {
      if i >= |orders| {
        assert all[i] == ClosingOrder(orders, ids[i - |orders|], structure);
        assert all[j] == ClosingOrder(orders, ids[j - |orders|], structure);
      }
    }
  }

  lemma {:induction false} FilledLegsDiffer(orders: seq<Order>, entries: seq<nat>)
    requires InRange(orders, entries) && LegsDiffer(orders, entries)
    ensures LegsDiffer(orders, FilledOf(orders, entries))
  {
    if entries == [] {
    } else {
      var front, last := entries[..|entries| - 1], entries[|entries| - 1];
      FilledLegsDiffer(orders, front);
      var kept := FilledOf(orders, front);
      forall k | 0 <= k < |kept|
        ensures orders[kept[k]].legIdx != orders[last].legIdx
      {
        FilledMember(orders, front, kept[k]);
        var j :| 0 <= j < |front| && front[j] == kept[k];
        assert entries[j] == kept[k];
      }
    }
  }

  /** The tables and the monitor's queue of closes to dispatch. */
  class CloseDesk {
    const book: LegBook
    const cooldown: int
    var positions: seq<Position>
    var structures: nat
    var alerts: map<nat, Alert>
    var nextAlert: nat
    var initiated: seq<Initiated>
    var pending: seq<PendingClose>

    constructor (book: LegBook, cooldown: int)
      ensures this.book == book && this.cooldown == cooldown
      ensures View() == Desk([], 0, book.orders, book.fills, book.legs, map[], 0, [], [])
    {
      this.book, this.cooldown := book, cooldown;
      positions, structures, alerts, nextAlert, initiated, pending := [], 0, map[], 0, [], [];
    }

    function View(): Desk
      reads this, book
    {
      Desk(positions, structures, book.orders, book.fills, book.legs, alerts, nextAlert, initiated, pending)
    }

    /** The dictionary from leg index to entry order. */
    method IndexByLeg(entries: seq<nat>) returns (byLeg: map<int, nat>)
      requires InRange(book.orders, entries) && LegsDiffer(book.orders, entries)
      ensures Indexed(book.orders, entries, byLeg)
    {
      byLeg := map[];
      for n := 0 to |entries|
        invariant forall k :: 0 <= k < n ==>
                    book.orders[entries[k]].legIdx in byLeg && byLeg[book.orders[entries[k]].legIdx] == entries[k]
      {
        byLeg := byLeg[book.orders[entries[n]].legIdx := entries[n]];
      }
    }

    /** Adds one closing order per leg, linked to its entry order by leg index, and returns the entry orders touched. */
    method AddClosingOrders(ids: seq<nat>, byLeg: map<int, nat>, structure: nat) returns (touched: set<nat>)
      requires InRange(book.orders, ids)
      requires Indexed(book.orders, ids, byLeg)
      modifies book`orders
      ensures book.orders == old(book.orders) + ClosingOrders(old(book.orders), ids, structure)
      ensures touched == Members(ids)
    {
      touched := {};
      var entries := book.orders;
      for k := 0 to |ids|
        invariant book.orders == entries + ClosingOrders(entries, ids[..k], structure)
        invariant touched == Members(ids[..k])
      {
        var e := entries[ids[k]];
        assert ids[..k + 1][..k] == ids[..k];
        var entry := byLeg[e.legIdx];
        book.orders := book.orders
          + [Order(structure, e.legIdx, Closing, Opposite(e.side), e.filled, 0, Pending, Some(entry))];
        touched := touched + {entry};
      }
      assert ids[..|ids|] == ids;
    }

    method RecomputeTouched(touched: set<nat>)
      modifies book`legs
      ensures book.legs == RecomputedEach(book.orders, old(book.legs), touched)
    {
      var left := touched;
      ghost var done: set<nat> := {};
      assert book.legs == RecomputedEach(book.orders, book.legs, {});
      while left != {}
        invariant done !! left && done + left == touched
        invariant book.legs == RecomputedEach(book.orders, old(book.legs), done)
        decreases left
      {
        var id :| id in left;
        RecomputeOneMore(book.orders, old(book.legs), done, id);
        var _ := book.RecomputeReservation(id);
        left, done := left - {id}, done + {id};
      }
      assert done == touched;
    }

    /** The filled entry legs of a position and the leg-index dictionary of all its entry legs. */
    method EntryLegs(pid: nat) returns (ids: seq<nat>, byLeg: map<int, nat>)
      requires UniqueLegs(book.orders) && pid < |positions|
      ensures ids == LegsToClose(View(), pid)
      ensures Indexed(book.orders, ids, byLeg)
    {
      var entries := EntryIds(book.orders, positions[pid].structure, |book.orders|);
      ids := FilledOf(book.orders, entries);
      EntryLegsDiffer(book.orders, positions[pid].structure);
      byLeg := IndexByLeg(entries);
      IndexedWhenFilled(book.orders, entries, byLeg);
    }

    /** The closing structure, its orders, their reservations, the state flip and the audit rows. */
    method SubmitClose(pid: nat, alert: Option<nat>, ids: seq<nat>, byLeg: map<int, nat>)
      requires pid < |positions| && InRange(book.orders, ids) && Indexed(book.orders, ids, byLeg)
      modifies this`positions, this`structures, this`alerts, this`initiated, book`orders, book`legs
      ensures View() == CloseOver(old(View()), pid, alert, ids)
    {
      var touched := AddClosingOrders(ids, byLeg, structures);
      RecomputeTouched(touched);
      positions := positions[pid := positions[pid].(state := IsClosing)];
      if alert.Some? && alert.value in alerts {
        alerts := alerts[alert.value := alerts[alert.value].(closing := Some(structures))];
      }
      initiated := initiated + [Initiated(pid, structures)];
      structures := structures + 1;
    }

    /** Creates the closing structure of an open position and reserves its legs, or changes nothing. */
    method InitiatePositionClose(pid: nat, alert: Option<nat>) returns (r: CloseResult)
      requires UniqueLegs(book.orders)
      modifies this`positions, this`structures, this`alerts, this`initiated, book`orders, book`legs
      ensures View() == CloseStep(old(View()), pid, alert)
      ensures r == CloseReply(old(View()), pid)
    {
      if pid >= |positions| {
        return NotFound;
      }
      if !positions[pid].state.IsOpen? {
        return Skipped(positions[pid].state);
      }
      var ids, byLeg := EntryLegs(pid);
      if ids == [] {
        return NothingFilled;
      }
      r := Started(structures, |ids|);
      SubmitClose(pid, alert, ids, byLeg);
    }

    /** The alert branch over all open positions, in one transaction. */
    method Scan(now: int, winners: map<nat, Decision>, auto: bool, commits: bool)
      modifies this`alerts, this`nextAlert, this`pending
      ensures View() == CycleStep(old(View()), now, winners, cooldown, auto, commits)
    {
      var before := alerts;
      for pid := 0 to |positions|
        invariant View() == Scanned(old(View()), pid, now, winners, cooldown, auto)
      {
        if positions[pid].state.IsOpen? && pid in winners
           && !RecentAlert(alerts, pid, winners[pid].rule, now - cooldown) {
          var w := winners[pid];
          alerts := alerts[nextAlert := Alert(pid, w.rule, now, w.exit, None)];
          if w.exit && auto {
            pending := pending + [PendingClose(pid, nextAlert)];
          }
          nextAlert := nextAlert + 1;
        }
      }
      if !commits {
        alerts := before;
      }
    }

    /** Copies and clears the queue, then initiates each close in its own transaction; errors are swallowed. */
    method DispatchPendingCloses()
      requires UniqueLegs(book.orders) && OldStructures(book.orders, structures)
      modifies this`pending, this`positions, this`structures, this`alerts, this`initiated, book`orders, book`legs
      ensures View() == Dispatched(old(View()).(pending := []), old(pending))
    {
      var items := pending;
      pending := [];
      ghost var start := View();
      for i := 0 to |items|
        invariant View() == Dispatched(start, items[..i])
        invariant UniqueLegs(book.orders) && OldStructures(book.orders, structures)
      {
        assert items[..i + 1][..i] == items[..i];
        CloseKeepsUniqueLegs(View(), items[i].position, Some(items[i].alert));
        var _ := InitiatePositionClose(items[i].position, Some(items[i].alert));
      }
      assert items[..|items|] == items;
    }
  }
}

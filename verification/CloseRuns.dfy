/** Concrete runs of the close protocol in which the book and the reservations are not what their documentation says:
    each ends in a state the sessions really reach. */
module CloseRuns {
  import opened Options
  import opened Legs
  import opened Close
  import opened OrderBook
  import opened CloseProtocol

  function Entry(side: Side, qty: int): Order {
    Order(0, 0, Role.Entry, side, qty, 0, Pending, None)
  }

  /** A desk with one structure and nothing in flight on the monitor's side. */
  function OneStructure(positions: seq<Position>, orders: seq<Order>, fills: seq<Fill>, legs: LegTable): Desk {
    Desk(positions, 1, orders, fills, legs, map[], 0, [], [])
  }

  /** An entry order is placed. */
  function Placed(side: Side, qty: int): seq<Step> {
    [] + [Book(NewStructure)] + [Book(NewOrder(Entry(side, qty)))] + [Book(Rewrite(0, Status(Submitted)))]
  }

  lemma AfterPlaced(side: Side, qty: int, cooldown: int)
    ensures After(Placed(side, qty), cooldown)
            == OneStructure([], [Entry(side, qty).(state := Submitted)], [], map[])
  {
    var order := Book(NewOrder(Entry(side, qty)));
    AfterSnoc([], Book(NewStructure), cooldown);
    AfterSnoc([] + [Book(NewStructure)], order, cooldown);
    AfterSnoc([] + [Book(NewStructure)] + [order], Book(Rewrite(0, Status(Submitted))), cooldown);
  }

  lemma OneFill(id: nat, side: Side, qty: int, price: real)
    ensures OpenOf([Fill(id, side, qty, price)], id) == SignedQty(side, qty)
    ensures FilledSum([Fill(id, side, qty, price)], id) == qty
  {
    var fills := [Fill(id, side, qty, price)];
    assert fills[..|fills| - 1] == [];
    assert FoldOf([], id) == (0, 0, 0.0);
  }

  lemma FirstLegCloses(d: Desk, pid: nat)
    requires OpenAt(d, pid) && |d.orders| > 0
    requires IsEntryOf(d.orders[0], d.positions[pid].structure) && d.orders[0].filled > 0
    ensures CanClose(d, pid) && 0 in LegsToClose(d, pid)
  {
    LegsToCloseAreFilled(d, pid);
    assert 0 in LegsToClose(d, pid);
  }

  /** The order is reconciled from a broker position and booked. */
  function HeldRun(side: Side, qty: int): seq<Step> {
    Placed(side, qty) + [Book(Rewrite(0, HeldAtBroker))] + [Booked(0)]
  }

  /** A position booked from a broker-held order has no leg row: with nothing else in flight, its close reserves the
      whole quantity against an open quantity of zero. */
  lemma HeldPositionOverReserves(side: Side, qty: int, cooldown: int)
    requires qty > 0
    ensures var d := After(HeldRun(side, qty), cooldown);
            CanClose(d, 0) && Reserved(d.orders, 0) == 0 && Available(AfterClose(d, 0, None), 0) == -qty
  {
    var o := InFull(Entry(side, qty));
    AfterPlaced(side, qty, cooldown);
    AfterSnoc(Placed(side, qty), Book(Rewrite(0, HeldAtBroker)), cooldown);
    AfterSnoc(Placed(side, qty) + [Book(Rewrite(0, HeldAtBroker))], Booked(0), cooldown);
    var d := OneStructure([Position(0, IsOpen)], [o], [], map[]);
    assert After(HeldRun(side, qty), cooldown) == d;
    FirstLegCloses(d, 0);
    assert [o][..0] == [];
    CloseLeavesAvailable(d, 0, None, 0);
  }

  /** A mock submit of one leg. */
  function MockRun(side: Side, qty: int, price: real): seq<Step> {
    [] + [Book(NewStructure)] + [Book(MockLeg(InFull(Entry(side, qty)), price))] + [Booked(0)]
  }

  /** So does a position opened by a mock submit. */
  lemma MockPositionOverReserves(side: Side, qty: int, price: real, cooldown: int)
    requires qty > 0
    ensures var d := After(MockRun(side, qty, price), cooldown);
            CanClose(d, 0) && Reserved(d.orders, 0) == 0 && Available(AfterClose(d, 0, None), 0) == -qty
  {
    var o := InFull(Entry(side, qty));
    AfterSnoc([], Book(NewStructure), cooldown);
    AfterSnoc([] + [Book(NewStructure)], Book(MockLeg(o, price)), cooldown);
    AfterSnoc([] + [Book(NewStructure)] + [Book(MockLeg(o, price))], Booked(0), cooldown);
    var d := OneStructure([Position(0, IsOpen)], [o], [Fill(0, side, qty, price)], map[]);
    assert After(MockRun(side, qty, price), cooldown) == d;
    FirstLegCloses(d, 0);
    assert [o][..0] == [];
    CloseLeavesAvailable(d, 0, None, 0);
  }

  // ----- A combo over a partial fill -----

  function Second(side: Side, qty: int): Order {
    Entry(side, qty).(legIdx := 1)
  }

  /** Both legs of a combo are placed, and one is filled in part on its own contract. */
  function ComboPlaced(side: Side, qty: int, part: int, price: real): seq<Step> {
    FirstOrdered(side, qty) + [Book(NewOrder(Second(side, qty)))] + [Book(Rewrite(0, Status(Submitted)))]
    + [Book(Rewrite(1, Status(Submitted)))] + [Book(Executed(0, part, price))]
  }

  /** Then the combo is filled and both legs are booked in full. */
  function ComboRun(side: Side, qty: int, part: int, price: real): seq<Step> {
    ComboPlaced(side, qty, part, price) + [Book(ComboFilled(0, price, false))] + [Book(ComboFilled(1, price, false))]
    + [Booked(0)]
  }

  lemma SecondIsFresh(side: Side, qty: int)
    ensures FreshOrder(OneStructure([], [Entry(side, qty)], [], map[]), Second(side, qty))
  {
    var d := OneStructure([], [Entry(side, qty)], [], map[]);
    assert !SameLeg(d.orders[0], Second(side, qty));
  }

  function FirstOrdered(side: Side, qty: int): seq<Step> {
    [] + [Book(NewStructure)] + [Book(NewOrder(Entry(side, qty)))]
  }

  lemma AfterFirstOrdered(side: Side, qty: int, cooldown: int)
    ensures After(FirstOrdered(side, qty), cooldown) == OneStructure([], [Entry(side, qty)], [], map[])
  {
    AfterSnoc([], Book(NewStructure), cooldown);
    AfterSnoc([] + [Book(NewStructure)], Book(NewOrder(Entry(side, qty))), cooldown);
  }

  lemma AfterComboOrders(side: Side, qty: int, cooldown: int)
    ensures After(FirstOrdered(side, qty) + [Book(NewOrder(Second(side, qty)))], cooldown)
            == OneStructure([], [Entry(side, qty), Second(side, qty)], [], map[])
  {
    AfterFirstOrdered(side, qty, cooldown);
    SecondIsFresh(side, qty);
    AfterSnoc(FirstOrdered(side, qty), Book(NewOrder(Second(side, qty))), cooldown);
    assert [Entry(side, qty)] + [Second(side, qty)] == [Entry(side, qty), Second(side, qty)];
  }

  lemma AfterComboPlaced(side: Side, qty: int, part: int, price: real, cooldown: int)
    requires 0 < part < qty
    ensures var d := After(ComboPlaced(side, qty, part, price), cooldown);
            && d.positions == [] && d.fills == [Fill(0, side, part, price)]
            && d.orders == [Entry(side, qty).(filled := part, state := PartiallyFilled),
                            Second(side, qty).(state := Submitted)]
            && RowOf(d.legs, 0).openQty == SignedQty(side, part)
  {
    var s0, s1 := Book(Rewrite(0, Status(Submitted))), Book(Rewrite(1, Status(Submitted)));
    var placed := FirstOrdered(side, qty) + [Book(NewOrder(Second(side, qty)))];
    AfterComboOrders(side, qty, cooldown);
    AfterSnoc(placed, s0, cooldown);
    AfterSnoc(placed + [s0], s1, cooldown);
    AfterSnoc(placed + [s0] + [s1], Book(Executed(0, part, price)), cooldown);
    assert [] + [Fill(0, side, part, price)] == [Fill(0, side, part, price)];
    OneFill(0, side, part, price);
  }

  lemma TwoFills(side: Side, part: int, qty: int, price: real)
    ensures OpenOf([Fill(0, side, part, price), Fill(0, side, qty, price)], 0) == SignedQty(side, part + qty)
  {
    var f := Fill(0, side, part, price);
    OneFill(0, side, part, price);
    FoldSnoc([f], Fill(0, side, qty, price), 0);
    assert [f] + [Fill(0, side, qty, price)] == [f, Fill(0, side, qty, price)];
  }

  lemma FirstLegBooked(d: Desk, side: Side, qty: int, part: int, price: real)
    requires |d.orders| == 2 && d.fills == [Fill(0, side, part, price)]
    requires d.orders[0] == Entry(side, qty).(filled := part, state := PartiallyFilled)
    ensures var after := BookCombo(d, 0, price, false);
            && after.orders == d.orders[0 := InFull(d.orders[0])] && after.positions == d.positions
            && RowOf(after.legs, 0).openQty == SignedQty(side, part + qty)
  {
    TwoFills(side, part, qty, price);
    var f := Fill(0, side, part, price);
    assert [f] + [Fill(0, side, qty, price)] == [f, Fill(0, side, qty, price)];
  }

  lemma SecondLegBooked(d: Desk, price: real)
    requires |d.orders| == 2 && d.orders[1].closes.None? && !d.orders[1].state.Filled?
    ensures var after := BookCombo(d, 1, price, false);
            && after.orders == d.orders[1 := InFull(d.orders[1])] && after.positions == d.positions
            && RowOf(after.legs, 0).openQty == RowOf(d.legs, 0).openQty
  {
  }

  lemma AfterCombo(side: Side, qty: int, part: int, price: real, cooldown: int)
    requires 0 < part < qty
    ensures var d := After(ComboRun(side, qty, part, price), cooldown);
            && d.positions == [Position(0, IsOpen)]
            && d.orders == [InFull(Entry(side, qty)), InFull(Second(side, qty))]
            && RowOf(d.legs, 0).openQty == SignedQty(side, part + qty)
  {
    var placed, first := ComboPlaced(side, qty, part, price), Book(ComboFilled(0, price, false));
    var second := Book(ComboFilled(1, price, false));
    AfterComboPlaced(side, qty, part, price, cooldown);
    AfterSnoc(placed, first, cooldown);
    FirstLegBooked(After(placed, cooldown), side, qty, part, price);
    AfterSnoc(placed + [first], second, cooldown);
    SecondLegBooked(After(placed + [first], cooldown), price);
    AfterSnoc(placed + [first] + [second], Booked(0), cooldown);
  }

  /** A close of the position then leaves the partial fill available, although nothing else is in flight. */
  lemma ComboPositionStaysAvailable(side: Side, qty: int, part: int, price: real, cooldown: int)
    requires 0 < part < qty
    ensures var d := After(ComboRun(side, qty, part, price), cooldown);
            CanClose(d, 0) && Reserved(d.orders, 0) == 0 && Available(AfterClose(d, 0, None), 0) == part
  {
    var d := After(ComboRun(side, qty, part, price), cooldown);
    AfterCombo(side, qty, part, price, cooldown);
    FirstLegCloses(d, 0);
    ReservedByTwo(d.orders[0], d.orders[1]);
    CloseLeavesAvailable(d, 0, None, 0);
  }

  // ----- Runs without any of these sessions -----

  /** An entry order is filled and booked, and part of its leg is being closed. */
  function ClosingRun(side: Side, qty: int, price: real, part: int): seq<Step> {
    Placed(side, qty) + [Book(Executed(0, qty, price))] + [Booked(0)]
    + [Book(LegClose(Some(0), Opposite(side), part))]
  }

  function PartClose(side: Side, part: int): Order {
    Order(1, 0, Closing, Opposite(side), part, 0, Pending, Some(0))
  }

  lemma ReservedByTwo(o: Order, c: Order)
    requires Holds(o, 0) == 0
    ensures Reserved([o, c], 0) == Holds(c, 0)
  {
    var two, one := [o, c], [o];
    assert two[..|two| - 1] == one && one[..|one| - 1] == [];
    assert Reserved(one, 0) == 0;
  }

  lemma AfterClosing(side: Side, qty: int, price: real, part: int, cooldown: int)
    requires qty > 0 && part > 0
    ensures var d := After(ClosingRun(side, qty, price, part), cooldown);
            && d.positions == [Position(0, IsOpen)] && d.structures == 2
            && d.orders == [InFull(Entry(side, qty)), PartClose(side, part)]
            && d.fills == [Fill(0, side, qty, price)]
            && RowOf(d.legs, 0).openQty == SignedQty(side, qty) && RowOf(d.legs, 0).reserved == part
    ensures NothingBroke(ClosingRun(side, qty, price, part), cooldown, 0)
  {
    AfterPlaced(side, qty, cooldown);
    OneFill(0, side, qty, price);
    var executed := Placed(side, qty) + [Book(Executed(0, qty, price))];
    AfterSnoc(Placed(side, qty), Book(Executed(0, qty, price)), cooldown);
    assert [] + [Fill(0, side, qty, price)] == [Fill(0, side, qty, price)];
    assert After(executed, cooldown).orders == [InFull(Entry(side, qty))];
    AfterSnoc(executed, Booked(0), cooldown);
    AfterSnoc(executed + [Booked(0)], Book(LegClose(Some(0), Opposite(side), part)), cooldown);
    ReservedByTwo(InFull(Entry(side, qty)), PartClose(side, part));
    ClosingBreaksNothing(side, qty, price, part, cooldown);
  }

  lemma NothingBrokeSnoc(steps: seq<Step>, s: Step, cooldown: int, i: nat)
    requires NothingBroke(steps, cooldown, i) && !StepBreaks(After(steps, cooldown), s, i)
    ensures NothingBroke(steps + [s], cooldown, i)
  {
    assert (steps + [s])[..|steps|] == steps;
  }

  lemma ClosingBreaksNothing(side: Side, qty: int, price: real, part: int, cooldown: int)
    ensures NothingBroke(ClosingRun(side, qty, price, part), cooldown, 0)
  {
    var order, status := Book(NewOrder(Entry(side, qty))), Book(Rewrite(0, Status(Submitted)));
    var executed := Placed(side, qty) + [Book(Executed(0, qty, price))];
    NothingBrokeSnoc([], Book(NewStructure), cooldown, 0);
    NothingBrokeSnoc([] + [Book(NewStructure)], order, cooldown, 0);
    NothingBrokeSnoc([] + [Book(NewStructure)] + [order], status, cooldown, 0);
    NothingBrokeSnoc(Placed(side, qty), Book(Executed(0, qty, price)), cooldown, 0);
    NothingBrokeSnoc(executed, Booked(0), cooldown, 0);
    NothingBrokeSnoc(executed + [Booked(0)], Book(LegClose(Some(0), Opposite(side), part)), cooldown, 0);
  }

  /** A close over a leg with another close in flight leaves less than nothing available. */
  lemma SecondCloseOverReserves(side: Side, qty: int, price: real, part: int, cooldown: int)
    requires qty > 0 && part > 0
    ensures var d := After(ClosingRun(side, qty, price, part), cooldown);
            CanClose(d, 0) && 0 in LegsToClose(d, 0) && Available(AfterClose(d, 0, None), 0) == -part
  {
    var d := After(ClosingRun(side, qty, price, part), cooldown);
    AfterClosing(side, qty, price, part, cooldown);
    ReservedByTwo(d.orders[0], d.orders[1]);
    FirstLegCloses(d, 0);
    CloseReservesEverything(ClosingRun(side, qty, price, part), cooldown, 0, None, 0);
  }

  /** The broker rejects the close. */
  function RejectedRun(side: Side, qty: int, price: real, part: int): seq<Step> {
    ClosingRun(side, qty, price, part) + [Book(Rewrite(1, Status(Rejected)))]
  }

  /** A rejected close keeps its reservation. */
  lemma RejectedCloseStaysReserved(side: Side, qty: int, price: real, part: int, cooldown: int)
    requires qty > 0 && part > 0
    ensures Excess(After(RejectedRun(side, qty, price, part), cooldown), 0) == part
  {
    var d := After(ClosingRun(side, qty, price, part), cooldown);
    AfterClosing(side, qty, price, part, cooldown);
    ReservedByTwo(d.orders[0], d.orders[1]);
    AfterSnoc(ClosingRun(side, qty, price, part), Book(Rewrite(1, Status(Rejected))), cooldown);
    RewriteMovesExcess(d, 1, Status(Rejected), 0);
  }

  /** The broker rejects the close, a second close of the leg recomputes its reservation, and then the api, which was
      still waiting for its answer, writes the first close back to submitted. */
  function RevivedRun(side: Side, qty: int, price: real, part: int, other: int): seq<Step> {
    RejectedRun(side, qty, price, part) + [Book(LegClose(Some(0), Opposite(side), other))]
    + [Book(Rewrite(1, DispatchReply(Submitted)))]
  }

  lemma AfterRejected(side: Side, qty: int, price: real, part: int, cooldown: int)
    requires qty > 0 && part > 0
    ensures var d := After(RejectedRun(side, qty, price, part), cooldown);
            d.orders == [InFull(Entry(side, qty)), PartClose(side, part).(state := Rejected)]
  {
    AfterClosing(side, qty, price, part, cooldown);
    AfterSnoc(ClosingRun(side, qty, price, part), Book(Rewrite(1, Status(Rejected))), cooldown);
  }

  lemma LegClosedAgain(d: Desk, side: Side, other: int)
    requires |d.orders| == 2 && !d.orders[0].role.Closing? && other > 0
    ensures var after := CloseLeg(d, Some(0), side, other);
            Excess(after, 0) == 0 && |after.orders| == 3 && after.orders[1] == d.orders[1]
  {
    BookMovesExcess(d, LegClose(Some(0), side, other), 0);
  }

  /** The leg then reserves less than what is in flight against it. */
  lemma RevivedCloseIsNotReserved(side: Side, qty: int, price: real, part: int, other: int, cooldown: int)
    requires qty > 0 && part > 0 && other > 0
    ensures Excess(After(RevivedRun(side, qty, price, part, other), cooldown), 0) == -part
  {
    var rejected := RejectedRun(side, qty, price, part);
    var again := Book(LegClose(Some(0), Opposite(side), other));
    AfterRejected(side, qty, price, part, cooldown);
    AfterSnoc(rejected, again, cooldown);
    LegClosedAgain(After(rejected, cooldown), Opposite(side), other);
    AfterSnoc(rejected + [again], Book(Rewrite(1, DispatchReply(Submitted))), cooldown);
    RewriteMovesExcess(After(rejected + [again], cooldown), 1, DispatchReply(Submitted), 0);
  }
}

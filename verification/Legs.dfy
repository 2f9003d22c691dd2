/** The per-leg book: the forward projection of fills (src/persistence/projection.py) and the reservation
    ledger (src/persistence/reservation.py), two writers of one row that own different columns. Orders and
    fills are tables with row ids 0, 1, 2, ...; quantities are integers. */
module Legs {

  import opened Options

  datatype Side = Buy | Sell

  datatype Role = Entry | Closing | Unwind | Hedge

  datatype OrderState = Pending | Submitted | Acknowledged | PartiallyFilled | Filled | Rejected | Cancelled | Expired

  datatype Order = Order(structure: nat, legIdx: int, role: Role, side: Side, qty: int, filled: int,
                         state: OrderState, closes: Option<nat>)

  datatype Fill = Fill(order: nat, side: Side, qty: int, price: real)

  /** One leg_position row; `openQty` and `avgPrice` belong to the projection, `reserved` to the reservation ledger. */
  datatype Leg = Leg(openQty: int, avgPrice: Option<real>, reserved: int)

  type LegTable = map<nat, Leg>

  const NEW_LEG := Leg(0, None, 0)

  function RowOf(legs: LegTable, order: nat): Leg {
    if order in legs then legs[order] else NEW_LEG
  }

  // ----- The two folds -----

  predicate InFlight(state: OrderState) {
    state.Pending? || state.Submitted? || state.Acknowledged? || state.PartiallyFilled?
  }

  function Remaining(o: Order): int {
    if o.qty - o.filled > 0 then o.qty - o.filled else 0
  }

  /** What one order holds back on an entry leg. */
  function Holds(o: Order, entry: nat): int {
    if o.closes == Some(entry) && o.role.Closing? && InFlight(o.state) then Remaining(o) else 0
  }

  function Reserved(orders: seq<Order>, entry: nat): (sum: int)
    ensures sum >= 0
  {
    if orders == [] then 0
    else Reserved(orders[..|orders| - 1], entry) + Holds(orders[|orders| - 1], entry)
  }

  function Signed(f: Fill): int {
    if f.side.Buy? then f.qty else -f.qty
  }

  function Notional(f: Fill): real {
    f.qty as real * f.price
  }

  /** Signed quantity, unsigned quantity and notional of the fills of one order. */
  function FoldOf(fills: seq<Fill>, order: nat): (int, int, real) {
    if fills == [] then (0, 0, 0.0)
    else
      var (open, filled, notional) := FoldOf(fills[..|fills| - 1], order);
      var f := fills[|fills| - 1];
      if f.order == order then (open + Signed(f), filled + f.qty, notional + Notional(f))
      else (open, filled, notional)
  }

  function OpenOf(fills: seq<Fill>, order: nat): int {
    FoldOf(fills, order).0
  }

  function AvgOf(fills: seq<Fill>, order: nat): Option<real> {
    var (_, filled, notional) := FoldOf(fills, order);
    if filled == 0 then None else Some(notional / filled as real)
  }

  // ----- The two writers -----

  function Recomputed(orders: seq<Order>, legs: LegTable, entry: nat): LegTable {
    legs[entry := RowOf(legs, entry).(reserved := Reserved(orders, entry))]
  }

  function Rebuilt(fills: seq<Fill>, legs: LegTable, order: nat): LegTable {
    legs[order := RowOf(legs, order).(openQty := OpenOf(fills, order), avgPrice := AvgOf(fills, order))]
  }

  class LegBook {
    var orders: seq<Order>
    var fills: seq<Fill>
    var legs: LegTable

    constructor ()
      ensures orders == [] && fills == [] && legs == map[]
    {
      orders, fills, legs := [], [], map[];
    }

    /** Finds or creates the leg row and overwrites its reserved quantity. */
    method RecomputeReservation(entry: nat) returns (reserved: int)
      modifies this`legs
      ensures legs == Recomputed(orders, old(legs), entry)
      ensures reserved == Reserved(orders, entry) == legs[entry].reserved
    {
      reserved := 0;
      for i := 0 to |orders|
        invariant reserved == Reserved(orders[..i], entry)
      {
        assert orders[..i + 1][..i] == orders[..i];
        if orders[i].closes == Some(entry) && orders[i].role.Closing? && InFlight(orders[i].state) {
          var left := orders[i].qty - orders[i].filled;
          reserved := reserved + if left > 0 then left else 0;
        }
      }
      assert orders[..|orders|] == orders;
      var row := if entry in legs then legs[entry] else NEW_LEG;
      legs := legs[entry := row.(reserved := reserved)];
    }

    /** Rebuilds the fill-derived columns of one leg row from the fills. */
    method RebuildLeg(order: nat)
      modifies this`legs
      ensures legs == Rebuilt(fills, old(legs), order)
    {
      var open, filled, notional := 0, 0, 0.0;
      for i := 0 to |fills|
        invariant (open, filled, notional) == FoldOf(fills[..i], order)
      {
        assert fills[..i + 1][..i] == fills[..i];
        if fills[i].order == order {
          open := open + Signed(fills[i]);
          filled := filled + fills[i].qty;
          notional := notional + Notional(fills[i]);
        }
      }
      assert fills[..|fills|] == fills;
      var row := if order in legs then legs[order] else NEW_LEG;
      var avg := if filled == 0 then None else Some(notional / filled as real);
      legs := legs[order := row.(openQty := open, avgPrice := avg)];
    }

    /** Rebuilds every leg that has at least one fill, in no particular order. */
    method RebuildAll() returns (count: nat)
      modifies this`legs
      ensures legs == RebuiltEach(fills, old(legs), OrdersWithFills(fills))
      ensures count == |OrdersWithFills(fills)|
    {
      var ids := OrdersWithFills(fills);
      count := |ids|;
      ghost var done: set<nat> := {};
      assert legs == RebuiltEach(fills, legs, {});
      while ids != {}
        invariant done !! ids && done + ids == OrdersWithFills(fills)
        invariant legs == RebuiltEach(fills, old(legs), done)
        decreases ids
      {
        var id :| id in ids;
        RebuildOneMore(fills, old(legs), done, id);
        RebuildLeg(id);
        ids, done := ids - {id}, done + {id};
      }
      assert done == OrdersWithFills(fills);
    }
  }

  lemma RebuildOneMore(fills: seq<Fill>, legs: LegTable, done: set<nat>, id: nat)
    requires id !in done
    ensures Rebuilt(fills, RebuiltEach(fills, legs, done), id) == RebuiltEach(fills, legs, done + {id})
  {
  }

  function OrdersWithFills(fills: seq<Fill>): set<nat> {
    set i | 0 <= i < |fills| :: fills[i].order
  }

  function RebuiltEach(fills: seq<Fill>, legs: LegTable, ids: set<nat>): LegTable {
    map x | x in legs.Keys + ids :: if x in ids then Rebuilt(fills, legs, x)[x] else legs[x]
  }

  // ----- The two writers commute -----

  datatype LegOp = Rebuild(order: nat) | Recompute(order: nat)

  function Apply(orders: seq<Order>, fills: seq<Fill>, legs: LegTable, op: LegOp): LegTable {
    match op
    case Rebuild(id) => Rebuilt(fills, legs, id)
    case Recompute(id) => Recomputed(orders, legs, id)
  }

  function ApplyAll(orders: seq<Order>, fills: seq<Fill>, legs: LegTable, ops: seq<LegOp>): LegTable {
    if ops == [] then legs
    else Apply(orders, fills, ApplyAll(orders, fills, legs, ops[..|ops| - 1]), ops[|ops| - 1])
  }

  /** Each column of a row depends only on whether its own writer ran for that row: it is the fold if it did and
      the old value (the column default, when the other writer created the row) if it did not. */
  lemma {:induction false} ColumnsAreIndependent(orders: seq<Order>, fills: seq<Fill>, legs: LegTable,
                                                 ops: seq<LegOp>, id: nat)
    ensures var after := ApplyAll(orders, fills, legs, ops);
            && (id in after <==> id in legs || Rebuild(id) in ops || Recompute(id) in ops)
            && RowOf(after, id).openQty == (if Rebuild(id) in ops then OpenOf(fills, id) else RowOf(legs, id).openQty)
            && RowOf(after, id).avgPrice == (if Rebuild(id) in ops then AvgOf(fills, id) else RowOf(legs, id).avgPrice)
            && RowOf(after, id).reserved
               == if Recompute(id) in ops then Reserved(orders, id) else RowOf(legs, id).reserved
  {
    if ops == [] {
    } else {
      var front, last := ops[..|ops| - 1], ops[|ops| - 1];
      ColumnsAreIndependent(orders, fills, legs, front, id);
      assert forall op :: op in ops <==> op in front || op == last;
    }
  }

  /** Any two interleavings and repetitions of the same writer calls end with the same table. */
  lemma WritersCommute(orders: seq<Order>, fills: seq<Fill>, legs: LegTable, a: seq<LegOp>, b: seq<LegOp>)
    requires forall op :: op in a <==> op in b
    ensures ApplyAll(orders, fills, legs, a) == ApplyAll(orders, fills, legs, b)
  {
    var x, y := ApplyAll(orders, fills, legs, a), ApplyAll(orders, fills, legs, b);
    forall id
      ensures id in x <==> id in y
      ensures RowOf(x, id) == RowOf(y, id)
    {
      ColumnsAreIndependent(orders, fills, legs, a, id);
      ColumnsAreIndependent(orders, fills, legs, b, id);
    }
    assert forall id :: id in x ==> x[id] == RowOf(x, id) && y[id] == RowOf(y, id);
  }

  // ----- The reservation as an incremental ledger -----

  /** What happens to closing orders; `Terminated` carries the state it ends in. */
  datatype CloseEvent =
    | Created(entry: nat, order: Order)
    | PartFilled(id: nat, n: int)
    | Terminated(id: nat, state: OrderState)

  predicate Allowed(orders: seq<Order>, e: CloseEvent) {
    match e
    case Created(entry, o) =>
      o.role.Closing? && o.closes == Some(entry) && o.state.Pending? && o.qty > 0 && o.filled == 0
    case PartFilled(id, n) => LiveClosing(orders, id) && 0 < n <= orders[id].qty - orders[id].filled
    case Terminated(id, st) => LiveClosing(orders, id) && !InFlight(st)
  }

  predicate LiveClosing(orders: seq<Order>, id: nat) {
    id < |orders| && orders[id].role.Closing? && orders[id].closes.Some? && InFlight(orders[id].state)
  }

  /** The leg the event reserves or releases on. */
  function EntryOf(orders: seq<Order>, e: CloseEvent): nat
    requires Allowed(orders, e)
  {
    match e
    case Created(entry, _) => entry
    case PartFilled(id, _) => orders[id].closes.value
    case Terminated(id, _) => orders[id].closes.value
  }

  /** An order after one more fill, as the fill handler leaves it. */
  function AfterFill(o: Order, n: int): Order {
    o.(filled := o.filled + n, state := if o.filled + n >= o.qty then Filled else PartiallyFilled)
  }

  function OrdersAfter(orders: seq<Order>, e: CloseEvent): seq<Order>
    requires Allowed(orders, e)
  {
    match e
    case Created(_, o) => orders + [o]
    case PartFilled(id, n) => orders[id := AfterFill(orders[id], n)]
    case Terminated(id, st) => orders[id := orders[id].(state := st)]
  }

  /** The incremental rule: add the quantity on creation, subtract each fill, release the rest on termination. */
  function Delta(orders: seq<Order>, e: CloseEvent): int
    requires Allowed(orders, e)
  {
    match e
    case Created(_, o) => o.qty
    case PartFilled(_, n) => -n
    case Terminated(id, _) => -(orders[id].qty - orders[id].filled)
  }

  ghost predicate AllAllowed(orders: seq<Order>, events: seq<CloseEvent>)
    decreases |events|
  {
    events == [] || (Allowed(orders, events[0]) && AllAllowed(OrdersAfter(orders, events[0]), events[1..]))
  }

  /** The materialised path: each event is followed by a recompute of its leg. */
  ghost function Materialised(orders: seq<Order>, legs: LegTable, events: seq<CloseEvent>): LegTable
    requires AllAllowed(orders, events)
    decreases |events|
  {
    if events == [] then legs
    else
      var after := OrdersAfter(orders, events[0]);
      Materialised(after, Recomputed(after, legs, EntryOf(orders, events[0])), events[1..])
  }

  /** The incremental path, for one leg. */
  ghost function Incremental(orders: seq<Order>, events: seq<CloseEvent>, entry: nat, balance: int): int
    requires AllAllowed(orders, events)
    decreases |events|
  {
    if events == [] then balance
    else
      Incremental(OrdersAfter(orders, events[0]), events[1..], entry,
                  if EntryOf(orders, events[0]) == entry then balance + Delta(orders, events[0]) else balance)
  }

  lemma {:induction false} ReservedAfterUpdate(orders: seq<Order>, id: nat, o: Order, entry: nat)
    requires id < |orders|
    ensures Reserved(orders[id := o], entry) == Reserved(orders, entry) - Holds(orders[id], entry) + Holds(o, entry)
  {
    var front, n := orders[..|orders| - 1], |orders| - 1;
    if id < n {
      ReservedAfterUpdate(front, id, o, entry);
      assert orders[id := o][..n] == front[id := o];
    } else {
      assert orders[id := o][..n] == front;
    }
  }

  lemma ReservedAfterAppend(orders: seq<Order>, o: Order, entry: nat)
    ensures Reserved(orders + [o], entry) == Reserved(orders, entry) + Holds(o, entry)
  {
    assert (orders + [o])[..|orders|] == orders;
  }

  lemma ReservedMovesByDelta(orders: seq<Order>, e: CloseEvent, entry: nat)
    requires Allowed(orders, e) && Sane(orders)
    ensures Reserved(OrdersAfter(orders, e), entry)
            == Reserved(orders, entry) + if EntryOf(orders, e) == entry then Delta(orders, e) else 0
    ensures Sane(OrdersAfter(orders, e))
  {
    match e
    case Created(_, o) => ReservedAfterAppend(orders, o, entry);
    case PartFilled(id, n) => ReservedAfterUpdate(orders, id, AfterFill(orders[id], n), entry);
    case Terminated(id, st) => ReservedAfterUpdate(orders, id, orders[id].(state := st), entry);
  }

  /** No live order is filled past its quantity. */
  ghost predicate Sane(orders: seq<Order>) {
    forall i :: 0 <= i < |orders| && InFlight(orders[i].state) ==> orders[i].filled <= orders[i].qty
  }

  /** For every sequence of creations, fills and terminations, the recomputed column is the incremental ledger,
      and it never goes negative. */
  lemma {:induction false} ReservationRefinesLedger(orders: seq<Order>, legs: LegTable, events: seq<CloseEvent>,
                                                    entry: nat)
    requires AllAllowed(orders, events) && Sane(orders)
    requires RowOf(legs, entry).reserved == Reserved(orders, entry)
    ensures RowOf(Materialised(orders, legs, events), entry).reserved
            == Incremental(orders, events, entry, Reserved(orders, entry)) >= 0
    decreases |events|
  {
    if events == [] {
    } else {
      var e := events[0];
      var after := OrdersAfter(orders, e);
      ReservedMovesByDelta(orders, e, entry);
      ReservationRefinesLedger(after, Recomputed(after, legs, EntryOf(orders, e)), events[1..], entry);
    }
  }

  /** An order the broker cancels through the status handler is not followed by a recompute. The stored reservation
      is then right exactly when the cancelled order had nothing left to fill. */
  lemma CancelWithoutRecomputeStaleIff(orders: seq<Order>, legs: LegTable, id: nat, st: OrderState)
    requires LiveClosing(orders, id) && !InFlight(st)
    requires var e := orders[id].closes.value; RowOf(legs, e).reserved == Reserved(orders, e)
    ensures var e := orders[id].closes.value;
            RowOf(legs, e).reserved == Reserved(orders[id := orders[id].(state := st)], e)
            <==> orders[id].filled >= orders[id].qty
  {
    ReservedAfterUpdate(orders, id, orders[id].(state := st), orders[id].closes.value);
  }

  /** A fill that arrives after its closing order was terminated puts the order back in flight when it is still short,
      and its remainder is reserved again. */
  lemma LateFillReservesAgain(orders: seq<Order>, id: nat, n: int)
    requires id < |orders| && orders[id].role.Closing? && orders[id].closes.Some? && !InFlight(orders[id].state)
    ensures var o := AfterFill(orders[id], n);
            && (InFlight(o.state) <==> orders[id].filled + n < orders[id].qty)
            && Reserved(orders[id := o], orders[id].closes.value)
               == Reserved(orders, orders[id].closes.value) + Remaining(o)
  {
    ReservedAfterUpdate(orders, id, AfterFill(orders[id], n), orders[id].closes.value);
  }
}

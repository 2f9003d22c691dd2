/** The sessions that write orders, fills and leg rows: the fills handler, the combo booking, the stuck-order
    reconciler, the reaper, the mock submit and the single-leg close (src/engines/execution and src/api/routers).
    A session over several orders is the sequence of its steps, one order each. */
module OrderBook {
  import opened Options
  import opened Legs
  import opened Close

  /** How a session rewrites one order when it recomputes no reservation. */
  datatype Rewriting =
    /** A broker status, a placement or a cancel request. */
    | Status(state: OrderState)
    /** What the api learns of a close it dispatched, written over whatever state the order has reached by then. */
    | DispatchReply(state: OrderState)
    /** A commission report: the order's fills are summed again. */
    | CommissionReport
    /** Reconciliation with the order's own fills; its leg row is rebuilt. */
    | RecordedFills
    /** Reconciliation with a position held at the broker: filled in full, without a fill or a leg row. */
    | HeldAtBroker

  datatype BookStep =
    /** A structure row with its own id. */
    | NewStructure
    /** An entry, hedge or unwind order of a submitted structure. */
    | NewOrder(o: Order)
    /** One leg of a mock submit: a filled order and its fill, without a leg row. */
    | MockLeg(o: Order, price: real)
    /** One execution of an order, on the order's own side. */
    | Executed(id: nat, n: int, price: real)
    /** A filled combo books one of its legs in full, with a fill unless it booked that leg before. */
    | ComboFilled(id: nat, price: real, again: bool)
    | Rewrite(id: nat, how: Rewriting)
    /** An order expired by the reaper, together with a recompute of its leg. */
    | Ended(id: nat, state: OrderState)
    /** The close of part of one leg, linked to its order where that could be resolved. */
    | LegClose(entry: Option<nat>, side: Side, qty: int)
    /** The startup rebuild of every leg row that has a fill. */
    | RebuildLegs

  function FilledSum(fills: seq<Fill>, id: nat): int {
    FoldOf(fills, id).1
  }

  predicate HasFill(fills: seq<Fill>, id: nat) {
    exists k :: 0 <= k < |fills| && fills[k].order == id
  }

  /** An order whose fills add up to `sum`. */
  function Aggregated(o: Order, sum: int): Order {
    o.(filled := sum, state := if sum != 0 && sum >= o.qty then Filled else PartiallyFilled)
  }

  predicate Stuck(state: OrderState) {
    state.Submitted? || state.Acknowledged? || state.PartiallyFilled?
  }

  /** The state a stuck order's own fills prove, if they prove one. */
  function RecordedState(o: Order, sum: int): Option<OrderState> {
    if sum <= 0 then None
    else if sum >= o.qty then Some(Filled)
    else if o.state.Submitted? then Some(PartiallyFilled)
    else None
  }

  function Least(a: int, b: int): int {
    if a < b then a else b
  }

  /** The order as the session leaves it; a guard that fails leaves it as it is. */
  function Rewritten(fills: seq<Fill>, id: nat, o: Order, how: Rewriting): Order {
    match how
    case Status(st) =>
      if InFlight(o.state) && ((st.Submitted? && o.state.Pending?) || st.Rejected? || st.Cancelled?)
      then o.(state := st) else o
    case DispatchReply(st) =>
      if o.role.Closing? && (st.Submitted? || st.Rejected?) then o.(state := st) else o
    case CommissionReport =>
      if HasFill(fills, id) then o.(filled := FilledSum(fills, id)) else o
    case RecordedFills =>
      var proved := RecordedState(o, FilledSum(fills, id));
      if Stuck(o.state) && proved.Some? then o.(state := proved.value, filled := Least(FilledSum(fills, id), o.qty))
      else o
    case HeldAtBroker =>
      if Stuck(o.state) && RecordedState(o, FilledSum(fills, id)).None? then InFull(o) else o
  }

  function Recompute(d: Desk, closes: Option<nat>): Desk {
    if closes.Some? then d.(legs := Recomputed(d.orders, d.legs, closes.value)) else d
  }

  /** One order is replaced, its leg row rebuilt from the fills, and the reservation it is linked to recomputed. */
  function Replace(d: Desk, fills: seq<Fill>, id: nat, o: Order): Desk
    requires id < |d.orders|
  {
    Recompute(d.(fills := fills, orders := d.orders[id := o], legs := Rebuilt(fills, d.legs, id)), o.closes)
  }

  predicate Executes(d: Desk, id: nat, n: int) {
    id < |d.orders| && n > 0
  }

  function Execute(d: Desk, id: nat, n: int, price: real): Desk {
    if Executes(d, id, n) then
      var fills := d.fills + [Fill(id, d.orders[id].side, n, price)];
      Replace(d, fills, id, Aggregated(d.orders[id], FilledSum(fills, id)))
    else d
  }

  predicate Books(d: Desk, id: nat, again: bool) {
    id < |d.orders| && !d.orders[id].state.Filled? && (again ==> HasFill(d.fills, id))
  }

  function InFull(o: Order): Order {
    o.(filled := o.qty, state := Filled)
  }

  function ComboFills(fills: seq<Fill>, id: nat, o: Order, price: real, again: bool): seq<Fill> {
    if again then fills else fills + [Fill(id, o.side, o.qty, price)]
  }

  function BookCombo(d: Desk, id: nat, price: real, again: bool): Desk {
    if Books(d, id, again)
    then Replace(d, ComboFills(d.fills, id, d.orders[id], price, again), id, InFull(d.orders[id]))
    else d
  }

  function RewriteOrder(d: Desk, id: nat, how: Rewriting): Desk {
    if id < |d.orders| then
      var o := Rewritten(d.fills, id, d.orders[id], how);
      d.(orders := d.orders[id := o],
         legs := if how.RecordedFills? && o != d.orders[id] then Rebuilt(d.fills, d.legs, id) else d.legs)
    else d
  }

  predicate Ends(d: Desk, id: nat, st: OrderState) {
    id < |d.orders| && InFlight(d.orders[id].state) && !InFlight(st)
  }

  function End(d: Desk, id: nat, st: OrderState): Desk {
    if Ends(d, id, st) then
      Recompute(d.(orders := d.orders[id := d.orders[id].(state := st)]), d.orders[id].closes)
    else d
  }

  predicate NewLeg(d: Desk, o: Order) {
    && !o.role.Closing? && o.closes.None? && o.structure < d.structures
    && forall i :: 0 <= i < |d.orders| ==> !SameLeg(d.orders[i], o)
  }

  predicate FreshOrder(d: Desk, o: Order) {
    NewLeg(d, o) && o.filled == 0 && o.state.Pending?
  }

  predicate MockOrder(d: Desk, o: Order) {
    NewLeg(d, o) && o.role.Entry? && o.filled == o.qty && o.state.Filled?
  }

  function SubmitMock(d: Desk, o: Order, price: real): Desk {
    if MockOrder(d, o) then
      d.(orders := d.orders + [o], fills := d.fills + [Fill(|d.orders|, o.side, o.qty, price)])
    else d
  }

  predicate ClosesLeg(d: Desk, entry: Option<nat>, qty: int) {
    (entry.Some? ==> entry.value < |d.orders| && !d.orders[entry.value].role.Closing?) && qty > 0
  }

  function CloseLeg(d: Desk, entry: Option<nat>, side: Side, qty: int): Desk {
    if ClosesLeg(d, entry, qty) then
      Recompute(d.(orders := d.orders + [Order(d.structures, 0, Closing, side, qty, 0, Pending, entry)],
                   structures := d.structures + 1),
                entry)
    else d
  }

  function BookNext(d: Desk, s: BookStep): Desk {
    match s
    case NewStructure => d.(structures := d.structures + 1)
    case NewOrder(o) => if FreshOrder(d, o) then d.(orders := d.orders + [o]) else d
    case MockLeg(o, price) => SubmitMock(d, o, price)
    case Executed(id, n, price) => Execute(d, id, n, price)
    case ComboFilled(id, price, again) => BookCombo(d, id, price, again)
    case Rewrite(id, how) => RewriteOrder(d, id, how)
    case Ended(id, st) => End(d, id, st)
    case LegClose(entry, side, qty) => CloseLeg(d, entry, side, qty)
    case RebuildLegs => d.(legs := RebuiltEach(d.fills, d.legs, OrdersWithFills(d.fills)))
  }

  // ----- What every session keeps -----

  ghost predicate IdsInRange(d: Desk) {
    && (forall x :: x in d.legs ==> x < |d.orders|)
    && (forall i :: 0 <= i < |d.orders| && d.orders[i].closes.Some? ==> d.orders[i].closes.value < |d.orders|)
  }

  /** Every fill belongs to an order and is on its side. */
  ghost predicate FillsMatch(orders: seq<Order>, fills: seq<Fill>) {
    forall k :: 0 <= k < |fills| ==> fills[k].order < |orders| && fills[k].side == orders[fills[k].order].side
  }

  ghost predicate BookOk(d: Desk) {
    IdsInRange(d) && FillsMatch(d.orders, d.fills) && UniqueLegs(d.orders) && OldStructures(d.orders, d.structures)
  }

  /** The new version of an order is still the same leg of the same structure. */
  predicate SameIdentity(a: Order, b: Order) {
    SameLeg(a, b) && a.side == b.side && a.closes == b.closes && a.qty == b.qty
  }

  lemma SameLegsStayUnique(orders: seq<Order>, id: nat, o: Order)
    requires id < |orders| && UniqueLegs(orders) && SameLeg(o, orders[id])
    ensures UniqueLegs(orders[id := o])
  {
    var all := orders[id := o];
    forall i, j | 0 <= i < j < |all|
      ensures !SameLeg(all[i], all[j])
    {
      assert !SameLeg(orders[i], orders[j]);
    }
  }

  /** Replacing an order and adding fills of that order keeps the tables sound. */
  lemma ReplacedKeepsBook(d: Desk, after: Desk, id: nat, o: Order)
    requires BookOk(d) && id < |d.orders| && SameIdentity(o, d.orders[id])
    requires after.orders == d.orders[id := o] && after.structures == d.structures && d.fills <= after.fills
    requires forall k :: |d.fills| <= k < |after.fills| ==> after.fills[k].order == id && after.fills[k].side == o.side
    requires forall x :: x in after.legs ==> x < |d.orders|
    ensures BookOk(after)
  {
    SameLegsStayUnique(d.orders, id, o);
    forall k | 0 <= k < |after.fills|
      ensures after.fills[k].order < |after.orders|
      ensures after.fills[k].side == after.orders[after.fills[k].order].side
    {
      if k < |d.fills| {
        assert after.fills[k] == d.fills[k];
      }
    }
  }

  /** Appending one order, with fills of it or without, keeps the tables sound. */
  lemma AppendedKeepsBook(d: Desk, after: Desk, o: Order)
    requires BookOk(d) && after.orders == d.orders + [o] && after.structures >= d.structures
    requires o.structure < after.structures && (o.closes.Some? ==> o.closes.value < |d.orders|)
    requires forall i :: 0 <= i < |d.orders| ==> !SameLeg(d.orders[i], o)
    requires after.fills == d.fills
             || exists f :: after.fills == d.fills + [f] && f.order == |d.orders| && f.side == o.side
    requires forall x :: x in after.legs ==> x < |after.orders|
    ensures BookOk(after)
  {
  }

  lemma ReplaceKeepsBook(d: Desk, fills: seq<Fill>, id: nat, o: Order)
    requires BookOk(d) && id < |d.orders| && SameIdentity(o, d.orders[id]) && d.fills <= fills
    requires forall k :: |d.fills| <= k < |fills| ==> fills[k].order == id && fills[k].side == o.side
    ensures BookOk(Replace(d, fills, id, o))
  {
    ReplacedKeepsBook(d, Replace(d, fills, id, o), id, o);
  }

  lemma ExecuteKeepsBook(d: Desk, id: nat, n: int, price: real)
    requires BookOk(d)
    ensures BookOk(Execute(d, id, n, price))
  {
    if Executes(d, id, n) {
      var fills := d.fills + [Fill(id, d.orders[id].side, n, price)];
      ReplaceKeepsBook(d, fills, id, Aggregated(d.orders[id], FilledSum(fills, id)));
    }
  }

  lemma ComboKeepsBook(d: Desk, id: nat, price: real, again: bool)
    requires BookOk(d)
    ensures BookOk(BookCombo(d, id, price, again))
  {
    if Books(d, id, again) {
      ReplaceKeepsBook(d, ComboFills(d.fills, id, d.orders[id], price, again), id, InFull(d.orders[id]));
    }
  }

  lemma RewriteKeepsBook(d: Desk, id: nat, how: Rewriting)
    requires BookOk(d)
    ensures BookOk(RewriteOrder(d, id, how))
  {
    if id < |d.orders| {
      ReplacedKeepsBook(d, RewriteOrder(d, id, how), id, Rewritten(d.fills, id, d.orders[id], how));
    }
  }

  lemma EndKeepsBook(d: Desk, id: nat, st: OrderState)
    requires BookOk(d)
    ensures BookOk(End(d, id, st))
  {
    if Ends(d, id, st) {
      ReplacedKeepsBook(d, End(d, id, st), id, d.orders[id].(state := st));
    }
  }

  lemma AppendStepKeepsBook(d: Desk, s: BookStep)
    requires BookOk(d) && (s.NewOrder? || s.MockLeg? || s.LegClose?)
    ensures BookOk(BookNext(d, s))
  {
    var after := BookNext(d, s);
    if |after.orders| > |d.orders| {
      AppendedKeepsBook(d, after, after.orders[|d.orders|]);
    }
  }

  /** Every session keeps the ids sound, the fills on their orders' sides and the legs of a structure unique. */
  lemma BookStepKeepsBook(d: Desk, s: BookStep)
    requires BookOk(d)
    ensures BookOk(BookNext(d, s))
  {
    match s
    case NewStructure =>
    case RebuildLegs =>
    case NewOrder(_) => AppendStepKeepsBook(d, s);
    case MockLeg(_, _) => AppendStepKeepsBook(d, s);
    case LegClose(_, _, _) => AppendStepKeepsBook(d, s);
    case Executed(id, n, price) => ExecuteKeepsBook(d, id, n, price);
    case ComboFilled(id, price, again) => ComboKeepsBook(d, id, price, again);
    case Rewrite(id, how) => RewriteKeepsBook(d, id, how);
    case Ended(id, st) => EndKeepsBook(d, id, st);
  }

  // ----- Filled quantities and leg rows against the fills -----

  /** The order's filled quantity is the sum of its fills and its leg row is their signed sum. */
  ghost predicate OrderCurrent(d: Desk, i: nat)
    requires i < |d.orders|
  {
    d.orders[i].filled == FilledSum(d.fills, i) && RowOf(d.legs, i).openQty == OpenOf(d.fills, i)
  }

  /** There is no such order yet or it is current. */
  ghost predicate Current(d: Desk, i: nat) {
    i < |d.orders| ==> OrderCurrent(d, i)
  }

  function SignedQty(side: Side, qty: int): int {
    if side.Buy? then qty else -qty
  }

  lemma {:induction false} OwnSideFold(fills: seq<Fill>, i: nat, side: Side)
    requires forall k :: 0 <= k < |fills| && fills[k].order == i ==> fills[k].side == side
    ensures OpenOf(fills, i) == SignedQty(side, FilledSum(fills, i))
  {
    if fills == [] {
    } else {
      OwnSideFold(fills[..|fills| - 1], i, side);
    }
  }

  lemma FoldSnoc(fills: seq<Fill>, f: Fill, order: nat)
    ensures FilledSum(fills + [f], order) == FilledSum(fills, order) + (if f.order == order then f.qty else 0)
    ensures OpenOf(fills + [f], order) == OpenOf(fills, order) + (if f.order == order then Signed(f) else 0)
  {
    assert (fills + [f])[..|fills|] == fills;
  }

  lemma {:induction false} NoFillsNoFold(fills: seq<Fill>, order: nat)
    requires forall k :: 0 <= k < |fills| ==> fills[k].order != order
    ensures FoldOf(fills, order) == (0, 0, 0.0)
  {
    if fills == [] {
    } else {
      NoFillsNoFold(fills[..|fills| - 1], order);
    }
  }

  /** The session leaves order i out of step with its fills or its leg row. */
  predicate Breaks(d: Desk, s: BookStep, i: nat) {
    match s
    case MockLeg(o, _) => MockOrder(d, o) && i == |d.orders| && o.qty != 0
    case ComboFilled(id, _, again) =>
      Books(d, id, again) && i == id && d.orders[id].filled != if again then d.orders[id].qty else 0
    case Rewrite(id, HeldAtBroker) =>
      id < |d.orders| && i == id && Stuck(d.orders[id].state) && d.orders[id].filled != d.orders[id].qty
      && RecordedState(d.orders[id], FilledSum(d.fills, id)).None?
    case Rewrite(id, RecordedFills) =>
      id < |d.orders| && i == id && Stuck(d.orders[id].state) && d.orders[id].filled > d.orders[id].qty
      && FilledSum(d.fills, id) > 0
    case _ => false
  }

  lemma ReplaceCurrentIff(d: Desk, fills: seq<Fill>, id: nat, o: Order, i: nat)
    requires id < |d.orders|
    requires FilledSum(fills, i) == FilledSum(d.fills, i) || i == id
    requires OpenOf(fills, i) == OpenOf(d.fills, i) || i == id
    requires Current(d, i)
    ensures Current(Replace(d, fills, id, o), i) <==> (i == id ==> o.filled == FilledSum(fills, id))
  {
    var after := Replace(d, fills, id, o);
    assert RowOf(after.legs, i).openQty == if i == id then OpenOf(fills, i) else RowOf(d.legs, i).openQty;
  }

  lemma ExecutedStaysCurrent(d: Desk, id: nat, n: int, price: real, i: nat)
    requires Current(d, i)
    ensures Current(Execute(d, id, n, price), i)
  {
    if Executes(d, id, n) {
      var f := Fill(id, d.orders[id].side, n, price);
      FoldSnoc(d.fills, f, i);
      ReplaceCurrentIff(d, d.fills + [f], id, Aggregated(d.orders[id], FilledSum(d.fills + [f], id)), i);
    }
  }

  lemma ComboFold(fills: seq<Fill>, id: nat, o: Order, price: real, again: bool, i: nat)
    ensures var after := ComboFills(fills, id, o, price, again);
            && FilledSum(after, i) == FilledSum(fills, i) + (if i == id && !again then o.qty else 0)
            && (i != id ==> OpenOf(after, i) == OpenOf(fills, i))
  {
    FoldSnoc(fills, Fill(id, o.side, o.qty, price), i);
  }

  lemma ComboCurrentIff(d: Desk, id: nat, price: real, again: bool, i: nat)
    requires Current(d, i)
    ensures Current(BookCombo(d, id, price, again), i) <==> !Breaks(d, ComboFilled(id, price, again), i)
  {
    if Books(d, id, again) {
      var fills := ComboFills(d.fills, id, d.orders[id], price, again);
      ComboFold(d.fills, id, d.orders[id], price, again, i);
      ReplaceCurrentIff(d, fills, id, InFull(d.orders[id]), i);
    }
  }

  lemma RewriteCurrentIff(d: Desk, id: nat, how: Rewriting, i: nat)
    requires Current(d, i)
    ensures Current(RewriteOrder(d, id, how), i) <==> !Breaks(d, Rewrite(id, how), i)
  {
    if id < |d.orders| {
      var after := RewriteOrder(d, id, how);
      assert i < |d.orders| && i != id ==> after.orders[i] == d.orders[i];
    }
  }

  lemma NewOrderCurrentIff(d: Desk, s: BookStep, i: nat)
    requires BookOk(d) && Current(d, i) && (s.NewOrder? || s.MockLeg? || s.LegClose?)
    ensures Current(BookNext(d, s), i) <==> !Breaks(d, s, i)
  {
    NoFillsNoFold(d.fills, |d.orders|);
    assert |d.orders| !in d.legs;
    if s.MockLeg? {
      FoldSnoc(d.fills, Fill(|d.orders|, s.o.side, s.o.qty, s.price), i);
    }
  }

  lemma RebuildKeepsCurrent(d: Desk, i: nat)
    requires Current(d, i)
    ensures Current(BookNext(d, RebuildLegs), i)
  {
  }

  /** An order that agrees with its fills and its leg row still does after a session exactly when the session is not
      one of four: a mock leg, a combo booked over other fills, a fill taken from a broker position, and a
      reconciliation of an overfilled order. */
  lemma CurrentIff(d: Desk, s: BookStep, i: nat)
    requires BookOk(d) && Current(d, i)
    ensures Current(BookNext(d, s), i) <==> !Breaks(d, s, i)
  {
    match s
    case NewStructure =>
    case RebuildLegs => RebuildKeepsCurrent(d, i);
    case NewOrder(_) => NewOrderCurrentIff(d, s, i);
    case MockLeg(_, _) => NewOrderCurrentIff(d, s, i);
    case LegClose(_, _, _) => NewOrderCurrentIff(d, s, i);
    case Executed(id, n, price) => ExecutedStaysCurrent(d, id, n, price, i);
    case ComboFilled(id, price, again) => ComboCurrentIff(d, id, price, again, i);
    case Rewrite(id, how) => RewriteCurrentIff(d, id, how, i);
    case Ended(_, _) =>
  }

  /** An execution makes its order current whatever it was before, and Filled exactly if its fills reach its
      quantity. */
  lemma ExecutionRepairs(d: Desk, id: nat, n: int, price: real)
    requires Executes(d, id, n)
    ensures var after := Execute(d, id, n, price);
            && OrderCurrent(after, id)
            && after.fills == d.fills + [Fill(id, d.orders[id].side, n, price)]
            && after.orders[id].state
               == if FilledSum(after.fills, id) != 0 && FilledSum(after.fills, id) >= d.orders[id].qty then Filled
                  else PartiallyFilled
  {
  }

  // ----- Stored reservations -----

  /** By how much the stored reservation of a leg exceeds what is in flight against it. */
  function Excess(d: Desk, e: nat): int {
    RowOf(d.legs, e).reserved - Reserved(d.orders, e)
  }

  /** The session recomputes the reservation of leg e. */
  predicate Recomputes(d: Desk, s: BookStep, e: nat) {
    match s
    case Executed(id, n, _) => Executes(d, id, n) && d.orders[id].closes == Some(e)
    case ComboFilled(id, _, again) => Books(d, id, again) && d.orders[id].closes == Some(e)
    case Ended(id, st) => Ends(d, id, st) && d.orders[id].closes == Some(e)
    case LegClose(entry, _, qty) => ClosesLeg(d, entry, qty) && entry == Some(e)
    case _ => false
  }

  /** What a rewritten order holds less of leg e than before, with nobody recomputing. */
  function Drift(d: Desk, s: BookStep, e: nat): int {
    if s.Rewrite? && s.id < |d.orders|
    then Holds(d.orders[s.id], e) - Holds(Rewritten(d.fills, s.id, d.orders[s.id], s.how), e)
    else 0
  }

  /** The session ends or shortens an order that is in flight and still short: its leg holds less than before. */
  predicate Releases(fills: seq<Fill>, id: nat, o: Order, how: Rewriting) {
    var sum := FilledSum(fills, id);
    match how
    case Status(st) => InFlight(o.state) && (st.Rejected? || st.Cancelled?) && o.filled < o.qty
    case DispatchReply(st) => InFlight(o.state) && st.Rejected? && o.filled < o.qty
    case CommissionReport => InFlight(o.state) && HasFill(fills, id) && o.filled < o.qty && o.filled < sum
    case RecordedFills =>
      Stuck(o.state) && 0 < sum && o.filled < o.qty && (sum >= o.qty || (o.state.Submitted? && o.filled < sum))
    case HeldAtBroker => Stuck(o.state) && o.filled < o.qty && (sum <= 0 || (sum < o.qty && !o.state.Submitted?))
  }

  /** The session puts an order that is still short back in flight, or takes filled quantity from one in flight: its leg
      holds more than before. */
  predicate Revives(fills: seq<Fill>, id: nat, o: Order, how: Rewriting) {
    var sum := FilledSum(fills, id);
    match how
    case Status(_) => false
    case DispatchReply(st) => !InFlight(o.state) && st.Submitted? && o.filled < o.qty
    case CommissionReport => InFlight(o.state) && HasFill(fills, id) && sum < o.qty && sum < o.filled
    case RecordedFills => o.state.Submitted? && 0 < sum < o.qty && sum < o.filled
    case HeldAtBroker => false
  }

  /** The order is a closing order of leg e. */
  predicate Linked(d: Desk, id: nat, e: nat) {
    id < |d.orders| && d.orders[id].closes == Some(e) && d.orders[id].role.Closing?
  }

  /** What a session does to a leg that it does not recompute is read off the order it rewrites, before it does. */
  lemma DriftSign(d: Desk, id: nat, how: Rewriting, e: nat)
    ensures Drift(d, Rewrite(id, how), e) > 0 <==>
            Linked(d, id, e) && Releases(d.fills, id, d.orders[id], how)
    ensures Drift(d, Rewrite(id, how), e) < 0 <==>
            Linked(d, id, e) && Revives(d.fills, id, d.orders[id], how)
  {
  }

  /** An order that agrees with its fills is revived only by the late answer to its dispatch. */
  lemma OnlyLateRepliesRevive(d: Desk, id: nat, how: Rewriting)
    requires id < |d.orders| && OrderCurrent(d, id)
    ensures Revives(d.fills, id, d.orders[id], how) <==> LateReply(d.orders[id], how)
  {
  }

  /** The api writes an order back to submitted that has ended short of its quantity. */
  predicate LateReply(o: Order, how: Rewriting) {
    how == DispatchReply(Submitted) && !InFlight(o.state) && o.filled < o.qty
  }

  lemma BookLinkedBefore(d: Desk, s: BookStep, id: nat, e: nat)
    requires Linked(BookNext(d, s), id, e)
    ensures id < |d.orders| ==> Linked(d, id, e)
    ensures id >= |d.orders| ==> !Breaks(d, s, id)
  {
    match s
    case Rewrite(_, _) =>
    case Executed(_, _, _) =>
    case ComboFilled(_, _, _) =>
    case Ended(_, _) =>
    case _ =>
  }

  lemma ReplacedOrder(d: Desk, fills: seq<Fill>, id: nat, o: Order, e: nat)
    requires id < |d.orders| && o.closes == d.orders[id].closes
    ensures Excess(Replace(d, fills, id, o), e) == if o.closes == Some(e) then 0 else Excess(d, e)
  {
    ReservedAfterUpdate(d.orders, id, o, e);
  }

  lemma AppendedOrder(d: Desk, o: Order, e: nat)
    requires o.closes.Some? ==> o.role.Closing?
    ensures Excess(Recompute(d.(orders := d.orders + [o]), o.closes), e)
            == if o.closes == Some(e) then 0 else Excess(d, e)
  {
    ReservedAfterAppend(d.orders, o, e);
  }

  lemma ExecuteMovesExcess(d: Desk, id: nat, n: int, price: real, e: nat)
    ensures Excess(Execute(d, id, n, price), e)
            == if Executes(d, id, n) && d.orders[id].closes == Some(e) then 0 else Excess(d, e)
  {
    if Executes(d, id, n) {
      var fills := d.fills + [Fill(id, d.orders[id].side, n, price)];
      ReplacedOrder(d, fills, id, Aggregated(d.orders[id], FilledSum(fills, id)), e);
    }
  }

  lemma ComboMovesExcess(d: Desk, id: nat, price: real, again: bool, e: nat)
    ensures Excess(BookCombo(d, id, price, again), e)
            == if Books(d, id, again) && d.orders[id].closes == Some(e) then 0 else Excess(d, e)
  {
    if Books(d, id, again) {
      ReplacedOrder(d, ComboFills(d.fills, id, d.orders[id], price, again), id, InFull(d.orders[id]), e);
    }
  }

  lemma RewriteMovesExcess(d: Desk, id: nat, how: Rewriting, e: nat)
    ensures Excess(RewriteOrder(d, id, how), e) == Excess(d, e) + Drift(d, Rewrite(id, how), e)
  {
    if id < |d.orders| {
      ReservedAfterUpdate(d.orders, id, Rewritten(d.fills, id, d.orders[id], how), e);
    }
  }

  lemma EndMovesExcess(d: Desk, id: nat, st: OrderState, e: nat)
    ensures Excess(End(d, id, st), e)
            == if Ends(d, id, st) && d.orders[id].closes == Some(e) then 0 else Excess(d, e)
  {
    if Ends(d, id, st) {
      ReservedAfterUpdate(d.orders, id, d.orders[id].(state := st), e);
    }
  }

  lemma AppendMovesExcess(d: Desk, s: BookStep, e: nat)
    requires s.NewOrder? || s.MockLeg? || s.LegClose?
    ensures Excess(BookNext(d, s), e) == if Recomputes(d, s, e) then 0 else Excess(d, e)
  {
    match s
    case LegClose(entry, side, qty) =>
      AppendedOrder(d, Order(d.structures, 0, Closing, side, qty, 0, Pending, entry), e);
    case NewOrder(o) => AppendedOrder(d, o.(closes := None), e);
    case MockLeg(o, _) => AppendedOrder(d, o.(closes := None), e);
  }

  /** A session makes a leg's stored reservation exact if it recomputes it, and otherwise moves its excess by exactly
      what the order it rewrote holds less. */
  lemma BookMovesExcess(d: Desk, s: BookStep, e: nat)
    ensures Excess(BookNext(d, s), e) == if Recomputes(d, s, e) then 0 else Excess(d, e) + Drift(d, s, e)
  {
    match s
    case NewStructure =>
    case RebuildLegs =>
    case NewOrder(_) => AppendMovesExcess(d, s, e);
    case MockLeg(_, _) => AppendMovesExcess(d, s, e);
    case LegClose(_, _, _) => AppendMovesExcess(d, s, e);
    case Executed(id, n, price) => ExecuteMovesExcess(d, id, n, price, e);
    case ComboFilled(id, price, again) => ComboMovesExcess(d, id, price, again, e);
    case Rewrite(id, how) => RewriteMovesExcess(d, id, how, e);
    case Ended(id, st) => EndMovesExcess(d, id, st, e);
  }
}

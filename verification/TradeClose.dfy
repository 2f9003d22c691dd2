/** Planning the close of one trade from its own entry legs (src/api/routers/trades.py, plan_trade_close). */
module TradeClose {

  import opened Options

  /** An entry leg: order id, IB contract once filled, filled quantity. */
  datatype EntryLeg = EntryLeg(order: int, symbol: Option<string>, filled: int)

  datatype Plan = Plan(symbol: string, qty: int, order: int)

  datatype SkipReason = NoContract | NoMirror | ZeroQty

  datatype Skip = Skip(order: int, reason: SkipReason)

  /** Absolute netted broker quantity per contract. */
  type Mirror = map<string, int>

  function Min(a: int, b: int): int {
    if a < b then a else b
  }

  /** The symbol a leg would trade: None and the empty string both mean not filled yet. */
  predicate HasContract(l: EntryLeg) {
    l.symbol.Some? && l.symbol.value != ""
  }

  /** A leg is planned when its contract is in the mirror and both quantities are positive. */
  predicate IsPlanned(l: EntryLeg, mirror: Mirror) {
    HasContract(l) && l.symbol.value in mirror && l.filled > 0 && mirror[l.symbol.value] > 0
  }

  method PlanTradeClose(legs: seq<EntryLeg>, mirror: Mirror) returns (plans: seq<Plan>, skips: seq<Skip>)
    ensures plans == PlansOf(legs, mirror) && skips == SkipsOf(legs, mirror)
  {
    plans, skips := [], [];
    for i := 0 to |legs|
      invariant plans == PlansOf(legs[..i], mirror) && skips == SkipsOf(legs[..i], mirror)
    {
      var leg := legs[i];
      assert legs[..i + 1][..i] == legs[..i];
      if leg.symbol == None || leg.symbol.value == "" {
        skips := skips + [Skip(leg.order, NoContract)];
        continue;
      }
      var symbol := leg.symbol.value;
      if symbol !in mirror {
        skips := skips + [Skip(leg.order, NoMirror)];
        continue;
      }
      var qty := Min(leg.filled, mirror[symbol]);
      if qty <= 0 {
        skips := skips + [Skip(leg.order, ZeroQty)];
        continue;
      }
      plans := plans + [Plan(symbol, qty, leg.order)];
    }
    assert legs[..|legs|] == legs;
  }

  // ----- The two lists as functions of the legs -----

  function PlansOf(legs: seq<EntryLeg>, mirror: Mirror): seq<Plan> {
    if legs == [] then []
    else
      var l := legs[|legs| - 1];
      PlansOf(legs[..|legs| - 1], mirror)
      + (if IsPlanned(l, mirror) then [Plan(l.symbol.value, Min(l.filled, mirror[l.symbol.value]), l.order)] else [])
  }

  function SkipsOf(legs: seq<EntryLeg>, mirror: Mirror): seq<Skip> {
    if legs == [] then []
    else
      var l := legs[|legs| - 1];
      SkipsOf(legs[..|legs| - 1], mirror)
      + (if IsPlanned(l, mirror) then []
         else [Skip(l.order, if !HasContract(l) then NoContract
                             else if l.symbol.value !in mirror then NoMirror else ZeroQty)])
  }

  /** Puts planned and skipped order ids back together leg by leg. */
  function Merge(legs: seq<EntryLeg>, mirror: Mirror, plans: seq<Plan>, skips: seq<Skip>): seq<int>
    requires |plans| == |PlansOf(legs, mirror)| && |skips| == |SkipsOf(legs, mirror)|
  {
    if legs == [] then []
    else
      var front, l := legs[..|legs| - 1], legs[|legs| - 1];
      if IsPlanned(l, mirror) then Merge(front, mirror, plans[..|plans| - 1], skips) + [plans[|plans| - 1].order]
      else Merge(front, mirror, plans, skips[..|skips| - 1]) + [skips[|skips| - 1].order]
  }

  function OrderIds(legs: seq<EntryLeg>): seq<int> {
    if legs == [] then [] else OrderIds(legs[..|legs| - 1]) + [legs[|legs| - 1].order]
  }

  lemma FrontOfSnoc<T>(s: seq<T>, x: T)
    ensures (s + [x])[..|s + [x]| - 1] == s && (s + [x])[|s + [x]| - 1] == x
  {
  }

  /** Every leg is in exactly one of the two lists, and the lists keep the legs' order. */
  lemma {:induction false} EveryLegOnce(legs: seq<EntryLeg>, mirror: Mirror)
    ensures |PlansOf(legs, mirror)| + |SkipsOf(legs, mirror)| == |legs|
    ensures Merge(legs, mirror, PlansOf(legs, mirror), SkipsOf(legs, mirror)) == OrderIds(legs)
  {
    if legs == [] {
    } else {
      var front, l := legs[..|legs| - 1], legs[|legs| - 1];
      EveryLegOnce(front, mirror);
      if IsPlanned(l, mirror) {
        FrontOfSnoc(PlansOf(front, mirror), PlansOf(legs, mirror)[|PlansOf(front, mirror)|]);
        assert SkipsOf(legs, mirror) == SkipsOf(front, mirror);
      } else {
        FrontOfSnoc(SkipsOf(front, mirror), SkipsOf(legs, mirror)[|SkipsOf(front, mirror)|]);
        assert PlansOf(legs, mirror) == PlansOf(front, mirror);
      }
    }
  }

  /** A planned quantity is positive and at most both the leg's own fill and the mirror. */
  lemma {:induction false} PlansAreCapped(legs: seq<EntryLeg>, mirror: Mirror, p: Plan)
    requires p in PlansOf(legs, mirror)
    ensures p.symbol in mirror && 0 < p.qty <= mirror[p.symbol]
    ensures exists i :: 0 <= i < |legs| && legs[i].order == p.order && legs[i].symbol == Some(p.symbol)
              && p.qty <= legs[i].filled
  {
    var front := legs[..|legs| - 1];
    if p in PlansOf(front, mirror) {
      PlansAreCapped(front, mirror, p);
      var i :| 0 <= i < |front| && front[i].order == p.order && front[i].symbol == Some(p.symbol)
               && p.qty <= front[i].filled;
      assert legs[i] == front[i];
    } else {
      assert legs[|legs| - 1].order == p.order;
    }
  }

  // ----- Totals per contract -----

  function PlannedQty(plans: seq<Plan>, symbol: string): int {
    if plans == [] then 0
    else PlannedQty(plans[..|plans| - 1], symbol)
         + if plans[|plans| - 1].symbol == symbol then plans[|plans| - 1].qty else 0
  }

  /** What the legs hold of a contract. */
  function FilledQty(legs: seq<EntryLeg>, symbol: string): int {
    if legs == [] then 0
    else
      var l := legs[|legs| - 1];
      FilledQty(legs[..|legs| - 1], symbol) + if l.symbol == Some(symbol) && l.filled > 0 then l.filled else 0
  }

  /** Number of legs that hold some of a contract. */
  function HoldingLegs(legs: seq<EntryLeg>, symbol: string): nat {
    if legs == [] then 0
    else
      var l := legs[|legs| - 1];
      HoldingLegs(legs[..|legs| - 1], symbol) + if l.symbol == Some(symbol) && l.filled > 0 then 1 else 0
  }

  /** The quantity one leg plans of a contract. */
  function LegQty(l: EntryLeg, mirror: Mirror, symbol: string): int {
    if l.symbol == Some(symbol) && IsPlanned(l, mirror) then Min(l.filled, mirror[symbol]) else 0
  }

  lemma PlannedOneMore(legs: seq<EntryLeg>, mirror: Mirror, symbol: string)
    requires legs != []
    ensures PlannedQty(PlansOf(legs, mirror), symbol)
            == PlannedQty(PlansOf(legs[..|legs| - 1], mirror), symbol) + LegQty(legs[|legs| - 1], mirror, symbol)
  {
    var before, all := PlansOf(legs[..|legs| - 1], mirror), PlansOf(legs, mirror);
    if IsPlanned(legs[|legs| - 1], mirror) {
      assert all[..|all| - 1] == before;
    } else {
      assert all == before;
    }
  }

  /** The total planned of a contract never exceeds what the trade's own legs hold of it. */
  lemma {:induction false} OwnFillsCapTotal(legs: seq<EntryLeg>, mirror: Mirror, symbol: string)
    ensures 0 <= PlannedQty(PlansOf(legs, mirror), symbol) <= FilledQty(legs, symbol)
  {
    if legs == [] {
    } else {
      OwnFillsCapTotal(legs[..|legs| - 1], mirror, symbol);
      PlannedOneMore(legs, mirror, symbol);
    }
  }

  /** When the mirror is the same-side sum of this trade and its siblings, the close leaves the siblings whole. */
  lemma SiblingsStayCovered(legs: seq<EntryLeg>, siblings: seq<EntryLeg>, mirror: Mirror, symbol: string)
    requires symbol in mirror && mirror[symbol] == FilledQty(legs, symbol) + FilledQty(siblings, symbol)
    ensures mirror[symbol] - PlannedQty(PlansOf(legs, mirror), symbol) >= FilledQty(siblings, symbol)
  {
    OwnFillsCapTotal(legs, mirror, symbol);
  }

  lemma {:induction false} HoldingAtLeastOneEach(legs: seq<EntryLeg>, symbol: string)
    ensures FilledQty(legs, symbol) >= HoldingLegs(legs, symbol)
  {
    if legs == [] {
    } else {
      HoldingAtLeastOneEach(legs[..|legs| - 1], symbol);
    }
  }

  /** Planned total against a positive mirror: the sum of the capped fills, read off leg by leg. */
  lemma {:induction false} PlannedAgainstMirror(legs: seq<EntryLeg>, mirror: Mirror, symbol: string)
    requires symbol != "" && symbol in mirror && mirror[symbol] > 0
    ensures var planned, m := PlannedQty(PlansOf(legs, mirror), symbol), mirror[symbol];
            && (HoldingLegs(legs, symbol) == 0 ==> planned == 0 == FilledQty(legs, symbol))
            && (HoldingLegs(legs, symbol) == 1 ==> 0 < planned <= m)
            && (FilledQty(legs, symbol) <= m ==> planned == FilledQty(legs, symbol))
            && (HoldingLegs(legs, symbol) >= 2 && FilledQty(legs, symbol) > m ==> planned > m)
            && (HoldingLegs(legs, symbol) >= 1 ==> planned > 0)
            && (HoldingLegs(legs, symbol) >= 1 && FilledQty(legs, symbol) > m ==> planned >= m)
  {
    if legs == [] {
    } else {
      HoldingAtLeastOneEach(legs[..|legs| - 1], symbol);
      PlannedAgainstMirror(legs[..|legs| - 1], mirror, symbol);
      PlannedOneMore(legs, mirror, symbol);
    }
  }

  /** Each leg is capped on its own, so the total of a contract can pass the mirror when several legs hold it.
      It stays within the mirror exactly when the mirror is empty, or at most one leg holds the contract, or
      the legs together hold no more than the mirror. */
  lemma TotalWithinMirrorIff(legs: seq<EntryLeg>, mirror: Mirror, symbol: string)
    requires symbol != "" && symbol in mirror && mirror[symbol] >= 0
    ensures PlannedQty(PlansOf(legs, mirror), symbol) <= mirror[symbol]
            <==> mirror[symbol] == 0 || HoldingLegs(legs, symbol) <= 1 || FilledQty(legs, symbol) <= mirror[symbol]
  {
    if mirror[symbol] == 0 {
      NothingFromEmptyMirror(legs, mirror, symbol);
    } else {
      PlannedAgainstMirror(legs, mirror, symbol);
    }
  }

  /** Two legs of one contract, each filled up to the whole mirror, plan twice the mirror. */
  lemma TwoLegsPassMirror(symbol: string, qty: int)
    requires symbol != "" && qty > 0
    ensures var legs := [EntryLeg(0, Some(symbol), qty), EntryLeg(1, Some(symbol), qty)];
            PlannedQty(PlansOf(legs, map[symbol := qty]), symbol) == 2 * qty
  {
    var one := [EntryLeg(0, Some(symbol), qty)];
    var legs := [EntryLeg(0, Some(symbol), qty), EntryLeg(1, Some(symbol), qty)];
    assert legs[..|legs| - 1] == one && one[..|one| - 1] == [];
    PlannedOneMore(one, map[symbol := qty], symbol);
    PlannedOneMore(legs, map[symbol := qty], symbol);
  }

  lemma {:induction false} NothingFromEmptyMirror(legs: seq<EntryLeg>, mirror: Mirror, symbol: string)
    requires symbol in mirror && mirror[symbol] == 0
    ensures PlannedQty(PlansOf(legs, mirror), symbol) == 0
  {
    if legs == [] {
    } else {
      NothingFromEmptyMirror(legs[..|legs| - 1], mirror, symbol);
      PlannedOneMore(legs, mirror, symbol);
    }
  }

  /** The leg was skipped for that reason. */
  predicate SkippedFor(l: EntryLeg, mirror: Mirror, reason: SkipReason) {
    match reason
    case NoContract => l.symbol == None || l.symbol == Some("")
    case NoMirror => l.symbol.Some? && l.symbol.value != "" && l.symbol.value !in mirror
    case ZeroQty => l.symbol.Some? && l.symbol.value in mirror && (l.filled <= 0 || mirror[l.symbol.value] <= 0)
  }

  /** Each skip names a leg and the first reason that applies to it: no contract yet, no mirror of its contract, or
      nothing left to trade. */
  lemma {:induction false} SkipsHaveReasons(legs: seq<EntryLeg>, mirror: Mirror, s: Skip)
    requires s in SkipsOf(legs, mirror)
    ensures exists i :: 0 <= i < |legs| && legs[i].order == s.order && SkippedFor(legs[i], mirror, s.reason)
  {
    var front := legs[..|legs| - 1];
    if s in SkipsOf(front, mirror) {
      SkipsHaveReasons(front, mirror, s);
      var i :| 0 <= i < |front| && front[i].order == s.order && SkippedFor(front[i], mirror, s.reason);
      assert legs[i] == front[i];
    } else {
      assert SkippedFor(legs[|legs| - 1], mirror, s.reason);
    }
  }
}

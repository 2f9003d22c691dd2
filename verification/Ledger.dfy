/** The average-cost position ledger (src/core/ledger.py): fills are folded into one record
    per contract. Prices, quantities and P&L are exact reals. */
module Ledger {

  import opened Options

  datatype Side = Buy | Sell

  /** One execution, consumed in the order it happened. */
  datatype Fill = Fill(contract: string, side: Side, qty: real, price: real, commission: real, multiplier: real)
  {
    function Signed(): real {
      if side == Buy then qty else -qty
    }
  }

  /** The folded state of one contract. */
  datatype Position = Position(netQty: real, avgCost: real, realizedPnl: real, commission: real, multiplier: real)

  const EMPTY := Position(0.0, 0.0, 0.0, 0.0, 1.0)

  function Abs(x: real): real {
    if x < 0.0 then -x else x
  }

  /** Average price of `held` units at `cost` and `qty` more at `price`. */
  function Blend(cost: real, held: real, price: real, qty: real): real
    requires held >= 0.0 && qty > 0.0
  {
    (cost * held + price * qty) / (held + qty)
  }

  /** USD made by closing `closed` units of a long (or short) position that cost `cost`. */
  function Gain(long: bool, cost: real, price: real, closed: real, multiplier: real): real {
    if long then (price - cost) * closed * multiplier else (cost - price) * closed * multiplier
  }

  /** What one fill does to a position: open or add, reduce, close, or flip through zero. */
  function Step(p: Position, f: Fill): Position
    requires f.qty > 0.0
  {
    var booked := p.(commission := p.commission + f.commission,
                     realizedPnl := p.realizedPnl - f.commission,
                     multiplier := f.multiplier);
    var held := p.netQty;
    var net := held + f.Signed();
    if Adds(p, f) then
      booked.(netQty := net, avgCost := Blend(p.avgCost, Abs(held), f.price, f.qty))
    else
      var closed := if f.qty < Abs(held) then f.qty else Abs(held);
      booked.(netQty := net,
              realizedPnl := booked.realizedPnl + Gain(held > 0.0, p.avgCost, f.price, closed, f.multiplier),
              avgCost := if net == 0.0 then 0.0
                         else if (net > 0.0) != (held > 0.0) then f.price
                         else p.avgCost)
  }

  /** The fill opens the position or goes the same way as it. */
  predicate Adds(p: Position, f: Fill) {
    p.netQty == 0.0 || (p.netQty > 0.0) == (f.Signed() > 0.0)
  }

  ghost predicate Positive(fills: seq<Fill>) {
    forall i :: 0 <= i < |fills| ==> fills[i].qty > 0.0
  }

  /** The position after a whole fill sequence. */
  function Fold(p: Position, fills: seq<Fill>): Position
    requires Positive(fills)
  {
    if fills == [] then p
    else Step(Fold(p, fills[..|fills| - 1]), fills[|fills| - 1])
  }

  /** The fills of one contract, in their own order. */
  function FillsOf(fills: seq<Fill>, contract: string): (own: seq<Fill>)
    ensures Positive(fills) ==> Positive(own)
  {
    if fills == [] then []
    else
      var last := fills[|fills| - 1];
      FillsOf(fills[..|fills| - 1], contract) + (if last.contract == contract then [last] else [])
  }

  /** The mutable record of one contract. */
  class ContractLedger {
    const contract: string
    var netQty: real
    var avgCost: real
    var realizedPnl: real
    var commission: real
    var multiplier: real

    function View(): Position
      reads this
    {
      Position(netQty, avgCost, realizedPnl, commission, multiplier)
    }

    constructor (contract: string, multiplier: real)
      ensures this.contract == contract
      ensures View() == EMPTY.(multiplier := multiplier)
    {
      this.contract := contract;
      this.netQty, this.avgCost, this.realizedPnl, this.commission := 0.0, 0.0, 0.0, 0.0;
      this.multiplier := multiplier;
    }

    method Apply(f: Fill)
      requires f.qty > 0.0
      modifies this
      ensures View() == Step(old(View()), f)
    {
      var signed := if f.side == Buy then f.qty else -f.qty;
      commission := commission + f.commission;
      realizedPnl := realizedPnl - f.commission;
      multiplier := f.multiplier;
      var before := netQty;
      if before == 0.0 || (before > 0.0) == (signed > 0.0) {
        avgCost := Blend(avgCost, Abs(before), f.price, f.qty);
        netQty := before + signed;
        return;
      }
      var closeQty := if f.qty < Abs(before) then f.qty else Abs(before);
      realizedPnl := realizedPnl + Gain(before > 0.0, avgCost, f.price, closeQty, f.multiplier);
      netQty := before + signed;
      if netQty == 0.0 {
        avgCost := 0.0;
      } else if (netQty > 0.0) != (before > 0.0) {
        avgCost := f.price;
      }
    }
  }

  lemma OneMoreFill(fills: seq<Fill>, n: nat, c: string)
    requires Positive(fills) && n < |fills|
    ensures fills[n].contract != c ==> FillsOf(fills[..n + 1], c) == FillsOf(fills[..n], c)
    ensures fills[n].contract == c ==>
              Fold(EMPTY, FillsOf(fills[..n + 1], c)) == Step(Fold(EMPTY, FillsOf(fills[..n], c)), fills[n])
  {
    assert fills[..n + 1][..n] == fills[..n];
    var own := FillsOf(fills[..n], c);
    assert (own + [fills[n]])[..|own|] == own;
  }

  lemma FirstMultiplierIsMoot(p: Position, m: real, f: Fill)
    requires f.qty > 0.0
    ensures Step(p.(multiplier := m), f) == Step(p, f)
  {
  }

  /** The ledger of contract c holds the fold of c's fills; there is one as soon as c has a fill. */
  ghost predicate Tracks(out: map<string, ContractLedger>, fills: seq<Fill>, c: string)
    requires Positive(fills)
    reads out.Values
  {
    if c in out then out[c].contract == c && out[c].View() == Fold(EMPTY, FillsOf(fills, c))
    else FillsOf(fills, c) == []
  }

  /** Folding the whole log gives, for exactly the contracts seen, the fold of that contract's own fills. */
  method FoldFills(fills: seq<Fill>) returns (out: map<string, ContractLedger>)
    requires Positive(fills)
    ensures out.Keys == set i | 0 <= i < |fills| :: fills[i].contract
    ensures forall c :: c in out ==> out[c].contract == c && out[c].View() == Fold(EMPTY, FillsOf(fills, c))
  {
    out := map[];
    for n := 0 to |fills|
      invariant out.Keys == set i | 0 <= i < n :: fills[i].contract
      invariant forall c :: c in out ==> fresh(out[c])
      invariant forall c :: Tracks(out, fills[..n], c)
    {
      var f := fills[n];
      assert Tracks(out, fills[..n], f.contract);
      var led;
      if f.contract in out {
        led := out[f.contract];
      } else {
        led := new ContractLedger(f.contract, f.multiplier);
        FirstMultiplierIsMoot(EMPTY, f.multiplier, f);
      }
      ghost var before := out;
      out := out[f.contract := led];
      label applying:
      led.Apply(f);
      ghost var seen := fills[..n + 1];
      forall c
        ensures Tracks(out, seen, c)
      {
        OneMoreFill(fills, n, c);
        assert old@applying(Tracks(before, fills[..n], c));
        if c != f.contract && c in out {
          assert out[c] != led;
        }
      }
    }
    assert fills[..|fills|] == fills;
    forall c | c in out
      ensures out[c].contract == c && out[c].View() == Fold(EMPTY, FillsOf(fills, c))
    {
      assert Tracks(out, fills, c);
    }
  }

  /** Mark-to-market P&L of the open position: 0 when flat, undefined when open without a mark. */
  function UnrealizedPnl(p: Position, mark: Option<real>): Option<real> {
    if p.netQty == 0.0 then Some(0.0)
    else if mark == None then None
    else Some(Gain(true, p.avgCost, mark.value, p.netQty, p.multiplier))
  }

  // ----- Totals of a fill sequence that do not mention the ledger -----

  function NetOf(fills: seq<Fill>): real {
    if fills == [] then 0.0 else NetOf(fills[..|fills| - 1]) + fills[|fills| - 1].Signed()
  }

  function CashOf(fills: seq<Fill>): real {
    if fills == [] then 0.0
    else CashOf(fills[..|fills| - 1]) + fills[|fills| - 1].Signed() * fills[|fills| - 1].price
  }

  function FeesOf(fills: seq<Fill>): real {
    if fills == [] then 0.0 else FeesOf(fills[..|fills| - 1]) + fills[|fills| - 1].commission
  }

  ghost predicate ConstantMultiplier(fills: seq<Fill>, m: real) {
    forall i :: 0 <= i < |fills| ==> fills[i].multiplier == m
  }

  // ----- Conservation of total P&L -----

  /** Realised P&L minus the cost basis of what is still open, in USD. */
  function Settled(p: Position, m: real): real {
    p.realizedPnl - Usd(p.avgCost, p.netQty, m)
  }

  function Usd(price: real, qty: real, m: real): real {
    price * qty * m
  }

  lemma BlendKeepsBasis(cost: real, held: real, price: real, qty: real, m: real)
    requires held >= 0.0 && qty > 0.0
    ensures Usd(Blend(cost, held, price, qty), held + qty, m) == Usd(cost, held, m) + Usd(price, qty, m)
  {
    var blended := Blend(cost, held, price, qty);
    assert blended * (held + qty) == cost * held + price * qty;
    assert (cost * held + price * qty) * m == cost * held * m + price * qty * m;
  }

  lemma UsdNegates(price: real, qty: real, m: real)
    ensures Usd(price, -qty, m) == -Usd(price, qty, m)
    ensures Usd(price, 0.0, m) == 0.0
  {
    assert price * -qty == -(price * qty);
  }

  lemma GainIsUsd(long: bool, cost: real, price: real, closed: real, m: real)
    ensures Gain(long, cost, price, closed, m) ==
            if long then Usd(price, closed, m) - Usd(cost, closed, m) else Usd(cost, closed, m) - Usd(price, closed, m)
  {
    assert (price - cost) * closed == price * closed - cost * closed;
    assert (cost - price) * closed == cost * closed - price * closed;
  }

  lemma UsdAdds(price: real, a: real, b: real, m: real)
    ensures Usd(price, a + b, m) == Usd(price, a, m) + Usd(price, b, m)
  {
    assert price * (a + b) == price * a + price * b;
  }

  lemma AddSettles(p: Position, f: Fill, m: real)
    requires f.qty > 0.0 && f.multiplier == m && Adds(p, f)
    ensures Settled(Step(p, f), m) == Settled(p, m) - Usd(f.price, f.Signed(), m) - f.commission
  {
    var held, cost := Abs(p.netQty), Blend(p.avgCost, Abs(p.netQty), f.price, f.qty);
    BlendKeepsBasis(p.avgCost, held, f.price, f.qty, m);
    UsdNegates(p.avgCost, held, m);
    UsdNegates(f.price, f.qty, m);
    UsdNegates(cost, held + f.qty, m);
  }

  lemma ReduceSettles(p: Position, f: Fill, m: real)
    requires f.qty > 0.0 && f.multiplier == m && !Adds(p, f)
    ensures Settled(Step(p, f), m) == Settled(p, m) - Usd(f.price, f.Signed(), m) - f.commission
  {
    var held := p.netQty;
    var closed := if f.qty < Abs(held) then f.qty else Abs(held);
    GainIsUsd(held > 0.0, p.avgCost, f.price, closed, m);
    UsdNegates(p.avgCost, closed, m);
    UsdNegates(f.price, closed, m);
    UsdNegates(0.0, 0.0, m);
    UsdAdds(p.avgCost, held, f.Signed(), m);
    UsdAdds(f.price, held, f.Signed(), m);
    UsdNegates(p.avgCost, f.qty, m);
    UsdNegates(f.price, f.qty, m);
  }

  lemma StepSettles(p: Position, f: Fill, m: real)
    requires f.qty > 0.0 && f.multiplier == m
    ensures Settled(Step(p, f), m) == Settled(p, m) - Usd(f.price, f.Signed(), m) - f.commission
  {
    if Adds(p, f) {
      AddSettles(p, f, m);
    } else {
      ReduceSettles(p, f, m);
    }
  }

  /** CashOf in USD: each fill is converted on its own. */
  function UsdPaid(fills: seq<Fill>, m: real): real {
    if fills == [] then 0.0
    else UsdPaid(fills[..|fills| - 1], m) + Usd(fills[|fills| - 1].price, fills[|fills| - 1].Signed(), m)
  }

  lemma {:induction false} UsdPaidIsScaledCash(fills: seq<Fill>, m: real)
    ensures UsdPaid(fills, m) == m * CashOf(fills)
  {
    if fills == [] {
    } else {
      var front, last := fills[..|fills| - 1], fills[|fills| - 1];
      UsdPaidIsScaledCash(front, m);
      Distribute(m, CashOf(front), last.Signed() * last.price);
      assert Usd(last.price, last.Signed(), m) == m * (last.Signed() * last.price);
    }
  }

  lemma Distribute(m: real, x: real, y: real)
    ensures m * (x + y) == m * x + m * y
  {
  }

  lemma {:induction false} FoldTotals(fills: seq<Fill>)
    requires Positive(fills)
    ensures Fold(EMPTY, fills).netQty == NetOf(fills)
    ensures Fold(EMPTY, fills).commission == FeesOf(fills)
  {
    if fills == [] {
    } else {
      FoldTotals(fills[..|fills| - 1]);
    }
  }

  lemma Accrues(p: Position, q: Position, fills: seq<Fill>, m: real)
    requires fills != []
    requires Settled(p, m) == -UsdPaid(fills[..|fills| - 1], m) - FeesOf(fills[..|fills| - 1])
    requires var last := fills[|fills| - 1];
             Settled(q, m) == Settled(p, m) - Usd(last.price, last.Signed(), m) - last.commission
    ensures Settled(q, m) == -UsdPaid(fills, m) - FeesOf(fills)
  {
  }

  lemma {:induction false} FoldSettles(fills: seq<Fill>, m: real)
    requires Positive(fills) && ConstantMultiplier(fills, m)
    ensures Settled(Fold(EMPTY, fills), m) == -UsdPaid(fills, m) - FeesOf(fills)
  {
    if fills != [] {
      var front, last := fills[..|fills| - 1], fills[|fills| - 1];
      FoldSettles(front, m);
      StepSettles(Fold(EMPTY, front), last, m);
      Accrues(Fold(EMPTY, front), Fold(EMPTY, fills), fills, m);
    } else {
      UsdNegates(0.0, 0.0, m);
    }
  }

  lemma LastMultiplier(fills: seq<Fill>)
    requires fills != [] && Positive(fills)
    ensures Fold(EMPTY, fills).multiplier == fills[|fills| - 1].multiplier
  {
  }

  lemma MarkToMarket(p: Position, fills: seq<Fill>, m: real, mark: real)
    requires p.multiplier == m && p.netQty == NetOf(fills)
    requires Settled(p, m) == -(m * CashOf(fills)) - FeesOf(fills)
    ensures UnrealizedPnl(p, Some(mark)) ==
            Some(Usd(mark, NetOf(fills), m) - m * CashOf(fills) - FeesOf(fills) - p.realizedPnl)
    ensures UnrealizedPnl(p, None) ==
            if NetOf(fills) == 0.0 then Some(-(m * CashOf(fills)) - FeesOf(fills) - p.realizedPnl) else None
  {
    UsdNegates(p.avgCost, 0.0, m);
    UsdNegates(mark, 0.0, m);
    GainIsUsd(true, p.avgCost, mark, p.netQty, m);
  }

  /** At every mark, realised plus unrealised P&L is the value of the net position
      minus the cash paid for it minus all commissions, whatever path the fills took. */
  lemma TotalPnlConserved(fills: seq<Fill>, m: real, mark: real)
    requires fills != [] && Positive(fills) && ConstantMultiplier(fills, m)
    ensures var p := Fold(EMPTY, fills);
            UnrealizedPnl(p, Some(mark)) ==
            Some(Usd(mark, NetOf(fills), m) - m * CashOf(fills) - FeesOf(fills) - p.realizedPnl)
    ensures var p := Fold(EMPTY, fills);
            UnrealizedPnl(p, None) ==
            if NetOf(fills) == 0.0 then Some(-(m * CashOf(fills)) - FeesOf(fills) - p.realizedPnl) else None
  {
    FoldTotals(fills);
    FoldSettles(fills, m);
    UsdPaidIsScaledCash(fills, m);
    LastMultiplier(fills);
    MarkToMarket(Fold(EMPTY, fills), fills, m, mark);
  }

  // ----- Only a reduction realises P&L -----

  /** Realised P&L before commissions. */
  function Gross(p: Position): real {
    p.realizedPnl + p.commission
  }

  ghost predicate OneSided(fills: seq<Fill>, side: Side) {
    forall i :: 0 <= i < |fills| ==> fills[i].side == side
  }

  /** What the open quantity cost, negative for a short one. */
  function Basis(p: Position): real {
    Usd(p.avgCost, p.netQty, 1.0)
  }

  /** A fill that opens or adds realises nothing and costs what was paid for it. */
  lemma AddPaysBasis(p: Position, f: Fill)
    requires f.qty > 0.0 && Adds(p, f)
    ensures Gross(Step(p, f)) == Gross(p)
    ensures Basis(Step(p, f)) == Basis(p) + Usd(f.price, f.Signed(), 1.0)
  {
    var held, blended := Abs(p.netQty), Blend(p.avgCost, Abs(p.netQty), f.price, f.qty);
    BlendKeepsBasis(p.avgCost, held, f.price, f.qty, 1.0);
    UsdNegates(p.avgCost, held, 1.0);
    UsdNegates(f.price, f.qty, 1.0);
    UsdNegates(blended, held + f.qty, 1.0);
  }

  predicate Holds(p: Position, side: Side) {
    if side.Buy? then p.netQty > 0.0 else p.netQty < 0.0
  }

  lemma OneSidedAdds(p: Position, f: Fill)
    requires f.qty > 0.0 && (p.netQty == 0.0 || Holds(p, f.side))
    ensures Adds(p, f) && Step(p, f).netQty == p.netQty + f.Signed() && Holds(Step(p, f), f.side)
  {
  }

  lemma {:induction false} OneSidedHolds(fills: seq<Fill>, side: Side)
    requires Positive(fills) && OneSided(fills, side)
    ensures if fills == [] then Fold(EMPTY, fills) == EMPTY else Holds(Fold(EMPTY, fills), side)
  {
    if fills != [] {
      OneSidedHolds(fills[..|fills| - 1], side);
      OneSidedAdds(Fold(EMPTY, fills[..|fills| - 1]), fills[|fills| - 1]);
    }
  }

  lemma {:induction false} OneSidedGross(fills: seq<Fill>, side: Side)
    requires Positive(fills) && OneSided(fills, side)
    ensures Gross(Fold(EMPTY, fills)) == 0.0
  {
    if fills != [] {
      var front, last := fills[..|fills| - 1], fills[|fills| - 1];
      OneSidedGross(front, side);
      OneSidedHolds(front, side);
      OneSidedAdds(Fold(EMPTY, front), last);
      AddPaysBasis(Fold(EMPTY, front), last);
    }
  }

  lemma PaidOnce(p: Position, q: Position, fills: seq<Fill>)
    requires fills != [] && Basis(p) == UsdPaid(fills[..|fills| - 1], 1.0)
    requires var last := fills[|fills| - 1]; Basis(q) == Basis(p) + Usd(last.price, last.Signed(), 1.0)
    ensures Basis(q) == UsdPaid(fills, 1.0)
  {
  }

  lemma {:induction false} OneSidedBasis(fills: seq<Fill>, side: Side)
    requires Positive(fills) && OneSided(fills, side)
    ensures Basis(Fold(EMPTY, fills)) == UsdPaid(fills, 1.0)
  {
    if fills != [] {
      var front, last := fills[..|fills| - 1], fills[|fills| - 1];
      OneSidedBasis(front, side);
      OneSidedHolds(front, side);
      OneSidedAdds(Fold(EMPTY, front), last);
      AddPaysBasis(Fold(EMPTY, front), last);
      PaidOnce(Fold(EMPTY, front), Fold(EMPTY, fills), fills);
    } else {
      UsdNegates(0.0, 0.0, 1.0);
    }
  }

  /** Fills on one side realise nothing but their commissions, and their average cost is the cash paid per unit. */
  lemma OneSidedCost(fills: seq<Fill>, side: Side)
    requires Positive(fills) && OneSided(fills, side)
    ensures Fold(EMPTY, fills).realizedPnl == -FeesOf(fills)
    ensures Usd(Fold(EMPTY, fills).avgCost, NetOf(fills), 1.0) == CashOf(fills)
  {
    OneSidedGross(fills, side);
    OneSidedBasis(fills, side);
    FoldTotals(fills);
    UsdPaidIsScaledCash(fills, 1.0);
  }

  /** What is promised of one fill: quantities add up, cash and commission settle, a fill on the position's own side
      realises nothing, and the cost of a reduced position stays, of a flipped one is the price, of a flat one 0. */
  ghost predicate Follows(p: Position, f: Fill, q: Position) {
    && q.netQty == p.netQty + f.Signed() && q.commission == p.commission + f.commission
    && q.multiplier == f.multiplier
    && Settled(q, f.multiplier) == Settled(p, f.multiplier) - Usd(f.price, f.Signed(), f.multiplier) - f.commission
    && if Adds(p, f) then Gross(q) == Gross(p)
       else q.avgCost == if q.netQty == 0.0 then 0.0 else if Abs(p.netQty) < f.qty then f.price else p.avgCost
  }

  lemma UsdFixesPrice(a: real, b: real, qty: real, m: real)
    requires qty != 0.0 && m != 0.0 && Usd(a, qty, m) == Usd(b, qty, m)
    ensures a == b
  {
    assert (a * qty - b * qty) * m == Usd(a, qty, m) - Usd(b, qty, m);
    assert (a - b) * qty == a * qty - b * qty;
  }

  /** These promises leave no other ledger. */
  lemma StepIffFollows(p: Position, f: Fill, q: Position)
    requires f.qty > 0.0 && f.multiplier != 0.0
    ensures q == Step(p, f) <==> Follows(p, f, q)
  {
    var r := Step(p, f);
    StepSettles(p, f, f.multiplier);
    if Follows(p, f, q) && Adds(p, f) {
      UsdFixesPrice(q.avgCost, r.avgCost, r.netQty, f.multiplier);
    }
  }

  // ----- Splitting a fill -----

  lemma {:induction false} FoldConcat(p: Position, a: seq<Fill>, b: seq<Fill>)
    requires Positive(a) && Positive(b)
    ensures Positive(a + b) && Fold(p, a + b) == Fold(Fold(p, a), b)
  {
    if b == [] {
      assert a + b == a;
    } else {
      var front := b[..|b| - 1];
      assert (a + b)[..|a + b| - 1] == a + front;
      FoldConcat(p, a, front);
    }
  }

  /** `one` and `two` together are the execution `f`, done in two pieces. */
  ghost predicate IsSplit(f: Fill, one: Fill, two: Fill) {
    && one.qty > 0.0 && two.qty > 0.0
    && one == f.(qty := one.qty, commission := one.commission)
    && two == f.(qty := f.qty - one.qty, commission := f.commission - one.commission)
  }

  lemma BlendTwice(avg: real, held: real, price: real, q1: real, q2: real)
    requires held >= 0.0 && q1 > 0.0 && q2 > 0.0
    ensures Blend(Blend(avg, held, price, q1), held + q1, price, q2) == Blend(avg, held, price, q1 + q2)
  {
    assert Blend(avg, held, price, q1) * (held + q1) == avg * held + price * q1;
    assert price * (q1 + q2) == price * q1 + price * q2;
  }

  lemma Cancel(price: real, qty: real)
    requires qty != 0.0
    ensures price * qty / qty == price
  {
    var r := price * qty / qty;
    assert r * qty == price * qty;
    assert (r - price) * qty == 0.0;
  }

  lemma BlendSame(price: real, q1: real, q2: real)
    requires q1 > 0.0 && q2 > 0.0
    ensures Blend(price, q1, price, q2) == price
    ensures Blend(0.0, 0.0, price, q2) == price
  {
    Cancel(price, q1 + q2);
    Cancel(price, q2);
    assert price * q1 + price * q2 == price * (q1 + q2);
  }

  lemma GainSplits(long: bool, cost: real, price: real, q1: real, q2: real, m: real)
    ensures Gain(long, cost, price, q1, m) + Gain(long, cost, price, q2, m) == Gain(long, cost, price, q1 + q2, m)
  {
    GainIsUsd(long, cost, price, q1, m);
    GainIsUsd(long, cost, price, q2, m);
    GainIsUsd(long, cost, price, q1 + q2, m);
    UsdAdds(price, q1, q2, m);
    UsdAdds(cost, q1, q2, m);
  }

  /** The split fill opens or adds. */
  lemma SplitAdd(p: Position, f: Fill, one: Fill, two: Fill)
    requires IsSplit(f, one, two)
    requires Adds(p, f)
    ensures Step(Step(p, one), two) == Step(p, f)
  {
    BlendTwice(p.avgCost, Abs(p.netQty), f.price, one.qty, two.qty);
    assert Abs(Step(p, one).netQty) == Abs(p.netQty) + one.qty;
  }

  /** The split fill reduces, and its first piece already closes or flips the position. */
  lemma SplitPastZero(p: Position, f: Fill, one: Fill, two: Fill)
    requires IsSplit(f, one, two)
    requires !Adds(p, f)
    requires Abs(p.netQty) <= one.qty
    ensures Step(Step(p, one), two) == Step(p, f)
  {
    var mid := Step(p, one);
    BlendSame(f.price, if mid.netQty == 0.0 then 1.0 else Abs(mid.netQty), two.qty);
  }

  /** The split fill reduces, and its first piece leaves part of the position open. */
  lemma SplitBeforeZero(p: Position, f: Fill, one: Fill, two: Fill)
    requires IsSplit(f, one, two)
    requires !Adds(p, f)
    requires one.qty < Abs(p.netQty)
    ensures Step(Step(p, one), two) == Step(p, f)
  {
    var left := Abs(p.netQty) - one.qty;
    assert Abs(Step(p, one).netQty) == left;
    GainSplits(p.netQty > 0.0, p.avgCost, f.price, one.qty, if two.qty < left then two.qty else left, f.multiplier);
  }

  lemma StepSplit(p: Position, f: Fill, one: Fill, two: Fill)
    requires IsSplit(f, one, two)
    ensures Step(Step(p, one), two) == Step(p, f)
  {
    if Adds(p, f) {
      SplitAdd(p, f, one, two);
    } else if Abs(p.netQty) <= one.qty {
      SplitPastZero(p, f, one, two);
    } else {
      SplitBeforeZero(p, f, one, two);
    }
  }

  /** Executing one order in two pieces at the same price never changes the ledger,
      wherever the cut falls relative to zero. */
  lemma SplitInvariance(before: seq<Fill>, f: Fill, one: Fill, two: Fill, after: seq<Fill>)
    requires Positive(before) && Positive(after) && IsSplit(f, one, two)
    ensures Positive(before + [f] + after) && Positive(before + [one, two] + after)
    ensures Fold(EMPTY, before + [one, two] + after) == Fold(EMPTY, before + [f] + after)
  {
    var p := Fold(EMPTY, before);
    StepSplit(p, f, one, two);
    assert Fold(p, [f]) == Step(p, f);
    assert [one, two][..1] == [one] && Fold(p, [one]) == Step(p, one);
    assert Fold(p, [one, two]) == Step(p, f);
    FoldConcat(EMPTY, before, [f]);
    FoldConcat(EMPTY, before, [one, two]);
    FoldConcat(EMPTY, before + [f], after);
    FoldConcat(EMPTY, before + [one, two], after);
  }

  // ----- Mirroring every side -----

  function Flip(f: Fill): Fill {
    f.(side := if f.side == Buy then Sell else Buy)
  }

  function FlipAll(fills: seq<Fill>): seq<Fill> {
    seq(|fills|, i requires 0 <= i < |fills| => Flip(fills[i]))
  }

  ghost predicate Mirrors(p: Position, q: Position) {
    && q.netQty == -p.netQty
    && q.avgCost == p.avgCost
    && q.commission == p.commission
    && q.multiplier == p.multiplier
    && q.realizedPnl + q.commission == -(p.realizedPnl + p.commission)
  }

  lemma StepMirrors(p: Position, q: Position, f: Fill)
    requires f.qty > 0.0 && Mirrors(p, q)
    ensures Mirrors(Step(p, f), Step(q, Flip(f)))
  {
    assert Abs(p.netQty) == Abs(q.netQty);
    var closed := if f.qty < Abs(p.netQty) then f.qty else Abs(p.netQty);
    GainIsUsd(true, p.avgCost, f.price, closed, f.multiplier);
    GainIsUsd(false, p.avgCost, f.price, closed, f.multiplier);
  }

  /** Trading the other side of everything negates the net quantity and the gross realised P&L
      and leaves the average cost as it is. */
  lemma {:induction false} MirrorInvariance(fills: seq<Fill>)
    requires Positive(fills)
    ensures Positive(FlipAll(fills))
    ensures Mirrors(Fold(EMPTY, fills), Fold(EMPTY, FlipAll(fills)))
  {
    if fills == [] {
    } else {
      var front := fills[..|fills| - 1];
      MirrorInvariance(front);
      assert FlipAll(fills)[..|fills| - 1] == FlipAll(front);
      StepMirrors(Fold(EMPTY, front), Fold(EMPTY, FlipAll(front)), fills[|fills| - 1]);
    }
  }

  // ----- The average cost is bounded by the prices of the current episode -----

  /** Index of the fill that opened the position still held: the first fill after the
      contract was last flat, or the fill that last flipped it through zero. */
  function EpisodeStart(fills: seq<Fill>): (k: nat)
    requires Positive(fills)
    ensures k <= |fills|
  {
    if fills == [] then 0
    else
      var front := fills[..|fills| - 1];
      var before, now := NetOf(front), NetOf(fills);
      if now == 0.0 then |fills|
      else if before == 0.0 || (before > 0.0) != (now > 0.0) then |fills| - 1
      else EpisodeStart(front)
  }

  /** Every fill of the episode that was on the position's own side was priced within [lo, hi]. */
  ghost predicate EpisodePricedWithin(fills: seq<Fill>, lo: real, hi: real)
    requires Positive(fills)
  {
    forall i :: EpisodeStart(fills) <= i < |fills| && (fills[i].Signed() > 0.0) == (NetOf(fills) > 0.0)
      ==> lo <= fills[i].price <= hi
  }

  lemma BlendWithin(avg: real, held: real, price: real, qty: real, lo: real, hi: real)
    requires held >= 0.0 && qty > 0.0 && lo <= price <= hi
    requires held > 0.0 ==> lo <= avg <= hi
    ensures lo <= Blend(avg, held, price, qty) <= hi
  {
    var total := held + qty;
    var blended := Blend(avg, held, price, qty);
    assert blended * total == avg * held + price * qty;
    assert (avg - lo) * held >= 0.0 && (hi - avg) * held >= 0.0;
    assert (price - lo) * qty >= 0.0 && (hi - price) * qty >= 0.0;
    Distribute(lo, held, qty);
    Distribute(hi, held, qty);
    assert (blended - lo) * total >= 0.0 && (hi - blended) * total >= 0.0;
  }

  lemma StepWithin(p: Position, f: Fill, lo: real, hi: real)
    requires f.qty > 0.0
    requires p.netQty == 0.0 ==> p.avgCost == 0.0
    ensures Step(p, f).netQty == 0.0 ==> Step(p, f).avgCost == 0.0
    ensures Step(p, f).netQty != 0.0
            && (p.netQty != 0.0 && (p.netQty > 0.0) == (Step(p, f).netQty > 0.0) ==> lo <= p.avgCost <= hi)
            && ((f.Signed() > 0.0) == (Step(p, f).netQty > 0.0) ==> lo <= f.price <= hi)
            ==> lo <= Step(p, f).avgCost <= hi
  {
    if Adds(p, f) && lo <= f.price <= hi && (p.netQty != 0.0 ==> lo <= p.avgCost <= hi) {
      BlendWithin(p.avgCost, Abs(p.netQty), f.price, f.qty, lo, hi);
    }
  }

  /** A flat contract carries no average cost; an open one carries a cost between the lowest and
      the highest price of the same-side fills since it last went flat or flipped. */
  lemma {:induction false} AverageCostBound(fills: seq<Fill>, lo: real, hi: real)
    requires Positive(fills)
    ensures NetOf(fills) == 0.0 ==> Fold(EMPTY, fills).avgCost == 0.0
    ensures NetOf(fills) != 0.0 && EpisodePricedWithin(fills, lo, hi)
            ==> lo <= Fold(EMPTY, fills).avgCost <= hi
  {
    if fills == [] {
    } else {
      var front, last := fills[..|fills| - 1], fills[|fills| - 1];
      AverageCostBound(front, lo, hi);
      FoldTotals(front);
      FoldTotals(fills);
      StepWithin(Fold(EMPTY, front), last, lo, hi);
      if NetOf(fills) != 0.0 && EpisodePricedWithin(fills, lo, hi) {
        EpisodeShrinks(fills, lo, hi);
      }
    }
  }

  lemma EpisodeShrinks(fills: seq<Fill>, lo: real, hi: real)
    requires Positive(fills) && fills != [] && NetOf(fills) != 0.0 && EpisodePricedWithin(fills, lo, hi)
    ensures var front, last := fills[..|fills| - 1], fills[|fills| - 1];
            && (NetOf(front) != 0.0 && (NetOf(front) > 0.0) == (NetOf(fills) > 0.0)
                ==> EpisodePricedWithin(front, lo, hi))
            && ((last.Signed() > 0.0) == (NetOf(fills) > 0.0) ==> lo <= last.price <= hi)
  {
    var front := fills[..|fills| - 1];
    assert EpisodeStart(front) <= |front|;
    if NetOf(front) != 0.0 && (NetOf(front) > 0.0) == (NetOf(fills) > 0.0) {
      assert EpisodeStart(fills) == EpisodeStart(front);
      forall i | EpisodeStart(front) <= i < |front| && (front[i].Signed() > 0.0) == (NetOf(front) > 0.0)
        ensures lo <= front[i].price <= hi
      {
        assert front[i] == fills[i];
      }
    }
  }

  // ----- Contracts do not influence each other -----

  /** The whole book as a value: one folded position per contract seen. */
  ghost function Book(fills: seq<Fill>): map<string, Position>
    requires Positive(fills)
  {
    map c | c in (set i | 0 <= i < |fills| :: fills[i].contract) :: Fold(EMPTY, FillsOf(fills, c))
  }

  lemma {:induction false} SeenIffNonEmpty(fills: seq<Fill>, c: string)
    ensures (exists i :: 0 <= i < |fills| && fills[i].contract == c) <==> FillsOf(fills, c) != []
  {
    if fills == [] {
    } else {
      var front := fills[..|fills| - 1];
      SeenIffNonEmpty(front, c);
      if FillsOf(front, c) != [] {
        var i :| 0 <= i < |front| && front[i].contract == c;
        assert fills[i].contract == c;
      } else if exists i :: 0 <= i < |fills| && fills[i].contract == c {
        var i :| 0 <= i < |fills| && fills[i].contract == c;
        assert i < |front| ==> front[i].contract == c;
      }
    }
  }

  /** Any reordering that keeps each contract's own order gives the same book. */
  lemma ReorderInvariance(a: seq<Fill>, b: seq<Fill>)
    requires Positive(a) && Positive(b)
    requires forall c :: FillsOf(a, c) == FillsOf(b, c)
    ensures Book(a) == Book(b)
  {
    forall c
      ensures c in Book(a) <==> c in Book(b)
    {
      SeenIffNonEmpty(a, c);
      SeenIffNonEmpty(b, c);
    }
  }
}

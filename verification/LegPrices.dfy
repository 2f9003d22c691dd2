/** What the columns of a leg row mean: the open quantity is what was bought less what was sold, and the average price
    is the one that weighs every fill by its quantity. */
module LegPrices {
  import opened Options
  import opened Legs

  /** What the fills of one order add up to on one side. */
  function SideQty(fills: seq<Fill>, order: nat, side: Side): int {
    if fills == [] then 0
    else
      var f := fills[|fills| - 1];
      SideQty(fills[..|fills| - 1], order, side) + if f.order == order && f.side == side then f.qty else 0
  }

  /** The open quantity is positive for what was bought and negative for what was sold, the filled one counts both. */
  lemma {:induction false} OpenIsBoughtLessSold(fills: seq<Fill>, order: nat)
    ensures OpenOf(fills, order) == SideQty(fills, order, Buy) - SideQty(fills, order, Sell)
    ensures FoldOf(fills, order).1 == SideQty(fills, order, Buy) + SideQty(fills, order, Sell)
  {
    if fills != [] {
      OpenIsBoughtLessSold(fills[..|fills| - 1], order);
    }
  }

  function Filled(fills: seq<Fill>, order: nat): int {
    FoldOf(fills, order).1
  }

  function Paid(fills: seq<Fill>, order: nat): real {
    FoldOf(fills, order).2
  }

  lemma {:induction false} FoldJoins(a: seq<Fill>, b: seq<Fill>, order: nat)
    ensures Filled(a + b, order) == Filled(a, order) + Filled(b, order)
    ensures Paid(a + b, order) == Paid(a, order) + Paid(b, order)
  {
    if b == [] {
      assert a + b == a;
    } else {
      assert (a + b)[..|a + b| - 1] == a + b[..|b| - 1];
      FoldJoins(a, b[..|b| - 1], order);
    }
  }

  lemma AvgTimesFilled(fills: seq<Fill>, order: nat)
    requires Filled(fills, order) != 0
    ensures AvgOf(fills, order).Some?
    ensures AvgOf(fills, order).value * Filled(fills, order) as real == Paid(fills, order)
  {
  }

  /** The average over two batches of fills is their averages weighed by what each filled. */
  lemma AvgJoins(a: seq<Fill>, b: seq<Fill>, order: nat)
    requires Filled(a, order) != 0 && Filled(b, order) != 0 && Filled(a, order) + Filled(b, order) != 0
    ensures AvgOf(a, order).Some? && AvgOf(b, order).Some? && AvgOf(a + b, order).Some?
    ensures AvgOf(a + b, order).value * (Filled(a, order) + Filled(b, order)) as real
            == AvgOf(a, order).value * Filled(a, order) as real + AvgOf(b, order).value * Filled(b, order) as real
  {
    FoldJoins(a, b, order);
    AvgTimesFilled(a, order);
    AvgTimesFilled(b, order);
    AvgTimesFilled(a + b, order);
  }

  /** Executions of the order have positive quantities and prices within [lo, hi]. */
  ghost predicate PricedWithin(fills: seq<Fill>, order: nat, lo: real, hi: real) {
    forall i :: 0 <= i < |fills| && fills[i].order == order ==> fills[i].qty > 0 && lo <= fills[i].price <= hi
  }

  lemma WithinStep(qty: int, price: real, filled: int, paid: real, lo: real, hi: real)
    requires qty > 0 && lo <= price <= hi && lo * filled as real <= paid <= hi * filled as real
    ensures lo * (filled + qty) as real <= paid + qty as real * price <= hi * (filled + qty) as real
  {
    var q := qty as real;
    assert (filled + qty) as real == filled as real + q;
    assert (price - lo) * q >= 0.0 && (hi - price) * q >= 0.0;
  }

  lemma {:induction false} PaidWithin(fills: seq<Fill>, order: nat, lo: real, hi: real)
    requires PricedWithin(fills, order, lo, hi)
    ensures Filled(fills, order) >= 0
    ensures lo * Filled(fills, order) as real <= Paid(fills, order) <= hi * Filled(fills, order) as real
    ensures Filled(fills, order) == 0 <==> forall i :: 0 <= i < |fills| ==> fills[i].order != order
  {
    if fills != [] {
      var front, f := fills[..|fills| - 1], fills[|fills| - 1];
      PaidWithin(front, order, lo, hi);
      assert forall i :: 0 <= i < |front| ==> fills[i] == front[i];
      if f.order == order {
        WithinStep(f.qty, f.price, Filled(front, order), Paid(front, order), lo, hi);
      }
    }
  }

  /** An order with a fill has an average price, within the prices of its fills; one without has none. */
  lemma AvgWithin(fills: seq<Fill>, order: nat, lo: real, hi: real)
    requires PricedWithin(fills, order, lo, hi)
    ensures AvgOf(fills, order).Some? <==> exists i :: 0 <= i < |fills| && fills[i].order == order
    ensures AvgOf(fills, order).Some? ==> lo <= AvgOf(fills, order).value <= hi
  {
    PaidWithin(fills, order, lo, hi);
    if Filled(fills, order) > 0 {
      AvgTimesFilled(fills, order);
      Between(AvgOf(fills, order).value, Filled(fills, order) as real, lo, hi);
    }
  }

  lemma Between(avg: real, filled: real, lo: real, hi: real)
    requires filled > 0.0 && lo * filled <= avg * filled <= hi * filled
    ensures lo <= avg <= hi
  {
    assert (avg - lo) * filled >= 0.0 && (hi - avg) * filled >= 0.0;
  }
}

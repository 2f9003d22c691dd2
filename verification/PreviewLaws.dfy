/** What a Black-76 price and its greeks must satisfy, whatever computes them: signs, bounds, symmetry, homogeneity and
    the heat equation between theta and gamma; and what follows for premiums in USD. */
module PreviewLaws {
  import opened Options
  import opened Preview

  /** The elementary facts about erf, sqrt, ln and exp that these laws rest on. */
  ghost predicate Standard(m: Maths) {
    && Lawful(m)
    && (forall x, y :: x < y ==> m.erf(x) < m.erf(y))
    && (forall x :: -1.0 < m.erf(x) < 1.0)
    && (forall x :: x > 0.0 ==> m.sqrt(x) * m.sqrt(x) == x)
    && (forall x, y :: 0.0 < x < y ==> m.ln(x) < m.ln(y))
    && (forall x, y :: x > 0.0 && y > 0.0 && x * y == 1.0 ==> m.ln(x) == -m.ln(y))
    && (forall x :: m.exp(x) > 0.0)
  }

  // ----- The distribution function -----

  lemma QuotientGrows(x: real, y: real, s: real)
    requires s > 0.0 && x < y
    ensures x / s < y / s
  {
    assert (x / s) * s == x && (y / s) * s == y;
    assert (y / s - x / s) * s > 0.0;
  }

  lemma CdfGrows(m: Maths, x: real, y: real)
    requires Standard(m) && x < y
    ensures Cdf(m, x) < Cdf(m, y)
  {
    QuotientGrows(x, y, m.sqrt(2.0));
    assert m.erf(x / m.sqrt(2.0)) < m.erf(y / m.sqrt(2.0));
  }

  lemma CdfWithin(m: Maths, x: real)
    requires Standard(m)
    ensures 0.0 < Cdf(m, x) < 1.0
  {
    assert -1.0 < m.erf(x / m.sqrt(2.0)) < 1.0;
  }

  lemma D1AboveD2(m: Maths, F: real, K: real, T: real, sigma: real)
    requires Standard(m) && !Degenerate(F, K, T, sigma)
    ensures D2(m, F, K, T, sigma) < D1(m, F, K, T, sigma)
  {
    Product(sigma, m.sqrt(T));
  }

  // ----- Signs and bounds -----

  lemma WeightedGap(a: real, b: real, x: real, y: real)
    requires a >= b > 0.0 && x > y > 0.0
    ensures a * x - b * y > 0.0
  {
    assert a * x - b * y == (a - b) * x + b * (x - y);
    assert (a - b) * x >= 0.0;
    assert b * (x - y) > 0.0;
  }

  lemma WeightedBound(a: real, b: real, x: real, y: real)
    requires a > 0.0 && b > 0.0 && x < 1.0 && y > 0.0
    ensures a * x - b * y < a
  {
    assert a * (1.0 - x) > 0.0;
    assert b * y > 0.0;
  }

  lemma CallBounds(m: Maths, F: real, K: real, d1: real, d2: real)
    requires Standard(m) && F > 0.0 && K > 0.0 && d2 < d1
    ensures F >= K ==> CallFormula(m, F, K, d1, d2) > 0.0
    ensures CallFormula(m, F, K, d1, d2) < F
  {
    CdfGrows(m, d2, d1);
    CdfWithin(m, d1);
    CdfWithin(m, d2);
    Weighted(F, K, Cdf(m, d1), Cdf(m, d2));
  }

  lemma Weighted(a: real, b: real, x: real, y: real)
    requires a > 0.0 && b > 0.0 && 1.0 > x > y > 0.0
    ensures a >= b ==> a * x - b * y > 0.0
    ensures a * x - b * y < a
  {
    WeightedBound(a, b, x, y);
    if a >= b {
      WeightedGap(a, b, x, y);
    }
  }

  lemma MirroredFormula(m: Maths, F: real, K: real, d1: real, d2: real)
    requires Lawful(m)
    ensures PutFormula(m, K, F, -d2, -d1) == CallFormula(m, F, K, d1, d2)
  {
    assert -(-d1) == d1 && -(-d2) == d2;
  }

  /** An option that is not out of the money costs something, a call costs less than its forward and a put less than its
      strike. */
  lemma PriceBounds(m: Maths, F: real, K: real, T: real, sigma: real)
    requires Standard(m) && !Degenerate(F, K, T, sigma)
    ensures F >= K ==> BsPrice(m, F, K, T, sigma, Call) > 0.0
    ensures K >= F ==> BsPrice(m, F, K, T, sigma, Put) > 0.0
    ensures BsPrice(m, F, K, T, sigma, Call) < F && BsPrice(m, F, K, T, sigma, Put) < K
  {
    D1AboveD2(m, F, K, T, sigma);
    var d1, d2 := D1(m, F, K, T, sigma), D2(m, F, K, T, sigma);
    CallBounds(m, F, K, d1, d2);
    CallBounds(m, K, F, -d2, -d1);
    MirroredFormula(m, K, F, -d2, -d1);
    assert -(-d1) == d1 && -(-d2) == d2;
  }

  // ----- Symmetry, homogeneity, variance -----

  /** The two arguments for log-moneyness l and standard deviation v to expiry. */
  function Upper(l: real, v: real): real
    requires v > 0.0
  {
    (l + 0.5 * (v * v)) / v
  }

  function Lower(l: real, v: real): real
    requires v > 0.0
  {
    (l - 0.5 * (v * v)) / v
  }

  lemma Arguments(m: Maths, F: real, K: real, T: real, sigma: real, v: real)
    requires Standard(m) && !Degenerate(F, K, T, sigma) && v == sigma * m.sqrt(T)
    ensures v > 0.0 && D1(m, F, K, T, sigma) == Upper(m.ln(F / K), v) && D2(m, F, K, T, sigma) == Lower(m.ln(F / K), v)
  {
    Product(sigma, m.sqrt(T));
    assert m.sqrt(T) * m.sqrt(T) == T;
    SquareOf(sigma, m.sqrt(T), T, v);
    LessOne(m.ln(F / K), v);
  }

  lemma SquareOf(sigma: real, root: real, T: real, v: real)
    requires root * root == T && v == sigma * root
    ensures 0.5 * sigma * sigma * T == 0.5 * (v * v)
  {
    assert v * v == sigma * sigma * (root * root);
  }

  lemma LessOne(l: real, v: real)
    requires v > 0.0
    ensures Upper(l, v) - v == Lower(l, v)
  {
    var h := 0.5 * (v * v);
    assert Upper(l, v) * v == l + h && Lower(l, v) * v == l - h;
    assert (Upper(l, v) - v - Lower(l, v)) * v == 0.0;
  }

  lemma Mirrored(l: real, v: real)
    requires v > 0.0
    ensures Upper(-l, v) == -Lower(l, v) && Lower(-l, v) == -Upper(l, v)
  {
    var h := 0.5 * (v * v);
    assert Upper(-l, v) * v == -l + h && Lower(l, v) * v == l - h;
    assert (Upper(-l, v) + Lower(l, v)) * v == 0.0;
    assert Lower(-l, v) * v == -l - h && Upper(l, v) * v == l + h;
    assert (Lower(-l, v) + Upper(l, v)) * v == 0.0;
  }

  lemma Reciprocal(x: real, y: real)
    requires x > 0.0 && y > 0.0
    ensures x / y > 0.0 && y / x > 0.0 && (y / x) * (x / y) == 1.0
  {
    var a, b := x / y, y / x;
    assert a * y == x && b * x == y;
    assert (b * a) * y == b * (a * y);
    assert (b * a - 1.0) * y == 0.0;
  }

  /** A call on F struck at K is a put on K struck at F. */
  lemma CallPutSymmetry(m: Maths, F: real, K: real, T: real, sigma: real)
    requires Standard(m) && !Degenerate(F, K, T, sigma)
    ensures BsPrice(m, F, K, T, sigma, Call) == BsPrice(m, K, F, T, sigma, Put)
  {
    var v := sigma * m.sqrt(T);
    Arguments(m, F, K, T, sigma, v);
    Arguments(m, K, F, T, sigma, v);
    Reciprocal(F, K);
    assert m.ln(K / F) == -m.ln(F / K);
    Mirrored(m.ln(F / K), v);
    MirroredFormula(m, F, K, D1(m, F, K, T, sigma), D2(m, F, K, T, sigma));
  }

  lemma ScaledRatio(c: real, x: real, y: real)
    requires c > 0.0 && x > 0.0 && y > 0.0
    ensures (c * x) / (c * y) == x / y && c * x > 0.0 && c * y > 0.0
  {
    var a, b := (c * x) / (c * y), x / y;
    assert b * y == x && a * (c * y) == c * x;
    assert (a * y - x) * c == 0.0;
    assert (a - b) * y == 0.0;
  }

  lemma ScaledFormula(m: Maths, c: real, F: real, K: real, d1: real, d2: real)
    requires Lawful(m)
    ensures CallFormula(m, c * F, c * K, d1, d2) == Times(c, CallFormula(m, F, K, d1, d2))
    ensures PutFormula(m, c * F, c * K, d1, d2) == Times(c, PutFormula(m, F, K, d1, d2))
  {
    ScaledGap(c, F, K, Cdf(m, d1), Cdf(m, d2));
    ScaledGap(c, K, F, Cdf(m, -d2), Cdf(m, -d1));
  }

  /** Prices scale with forward and strike. */
  lemma PriceScales(m: Maths, c: real, F: real, K: real, T: real, sigma: real, right: Right)
    requires Lawful(m) && c > 0.0 && !Degenerate(F, K, T, sigma)
    ensures c * F > 0.0 && c * K > 0.0
    ensures BsPrice(m, c * F, c * K, T, sigma, right) == Times(c, BsPrice(m, F, K, T, sigma, right))
  {
    ScaledRatio(c, F, K);
    ScaledFormula(m, c, F, K, D1(m, F, K, T, sigma), D2(m, F, K, T, sigma));
  }

  lemma ScaledGap(c: real, a: real, b: real, x: real, y: real)
    ensures c * (a * x - b * y) == (c * a) * x - (c * b) * y
  {
  }

  lemma SameSquare(x: real, y: real)
    requires x > 0.0 && y > 0.0 && x * x == y * y
    ensures x == y
  {
    assert (x - y) * (x + y) == 0.0;
  }

  /** Volatility and time to expiry enter only through the variance to expiry. */
  lemma VarianceIsAll(m: Maths, F: real, K: real, T: real, sigma: real, T': real, sigma': real, right: Right)
    requires Standard(m) && !Degenerate(F, K, T, sigma) && !Degenerate(F, K, T', sigma')
    requires sigma * sigma * T == sigma' * sigma' * T'
    ensures BsPrice(m, F, K, T, sigma, right) == BsPrice(m, F, K, T', sigma', right)
  {
    var v, v' := sigma * m.sqrt(T), sigma' * m.sqrt(T');
    Arguments(m, F, K, T, sigma, v);
    Arguments(m, F, K, T', sigma', v');
    assert m.sqrt(T) * m.sqrt(T) == T && m.sqrt(T') * m.sqrt(T') == T';
    SquareOf(sigma, m.sqrt(T), T, v);
    SquareOf(sigma', m.sqrt(T'), T', v');
    SameSquare(v, v');
  }

  // ----- Greeks -----

  lemma PositiveQuotient(a: real, b: real)
    requires a > 0.0 && b > 0.0
    ensures a / b > 0.0
  {
    assert (a / b) * b == a;
  }

  lemma DensityIsPositive(m: Maths, x: real)
    requires Standard(m)
    ensures Density(m, x) > 0.0
  {
    assert 2.0 * m.pi > 0.0;
    PositiveQuotient(m.exp(-0.5 * x * x), m.sqrt(2.0 * m.pi));
  }

  lemma GreekArithmetic(F: real, sigma: real, root: real, T: real, n: real)
    requires F > 0.0 && sigma > 0.0 && root > 0.0 && n > 0.0 && root * root == T
    ensures F * sigma * root > 0.0
    ensures var gamma := n / (F * sigma * root);
            && gamma > 0.0 && F * n * root > 0.0
            && F * n * root == sigma * T * (F * F * gamma)
            && -F * n * sigma / (2.0 * root) == -0.5 * (sigma * sigma) * (F * F * gamma)
  {
    Product(F, sigma);
    Product(F * sigma, root);
    PositiveQuotient(n, F * sigma * root);
    Product(F, n);
    Product(F * n, root);
    var gamma := n / (F * sigma * root);
    assert gamma * (F * sigma * root) == n;
    var g := F * F * gamma;
    assert g * (sigma * root) == F * n by {
      assert g * (sigma * root) == F * (gamma * (F * sigma * root));
    }
    assert sigma * T * g == (g * (sigma * root)) * root;
    assert (-0.5 * (sigma * sigma) * g) * (2.0 * root) == -(g * (sigma * root)) * sigma;
    assert -F * n * sigma == (-0.5 * (sigma * sigma) * g) * (2.0 * root);
    Quotient(-F * n * sigma, -0.5 * (sigma * sigma) * g, 2.0 * root);
  }

  lemma Quotient(x: real, q: real, y: real)
    requires y > 0.0 && x == q * y
    ensures x / y == q
  {
  }

  /** Vega and gamma are positive and in the ratio of the variance to expiry, and theta and gamma satisfy the heat
      equation. */
  ghost predicate CurvatureAgrees(F: real, T: real, sigma: real, g: Greeks) {
    && g.gamma > 0.0 && g.vega > 0.0
    && g.vega == sigma * T * (F * F * g.gamma)
    && g.theta == -0.5 * (sigma * sigma) * (F * F * g.gamma)
  }

  lemma CurvatureFrom(F: real, T: real, sigma: real, root: real, n: real, g: Greeks)
    requires F > 0.0 && sigma > 0.0 && root > 0.0 && n > 0.0 && root * root == T && F * sigma * root > 0.0
    requires g.vega == F * n * root && g.gamma == n / (F * sigma * root) && g.theta == -F * n * sigma / (2.0 * root)
    ensures CurvatureAgrees(F, T, sigma, g)
  {
    GreekArithmetic(F, sigma, root, T, n);
  }

  lemma GreeksCurve(m: Maths, F: real, K: real, T: real, sigma: real, right: Right)
    requires Standard(m) && !Degenerate(F, K, T, sigma)
    ensures CurvatureAgrees(F, T, sigma, BsGreeks(m, F, K, T, sigma, right))
  {
    var root, n := m.sqrt(T), Density(m, D1(m, F, K, T, sigma));
    assert root * root == T;
    Product(F, sigma);
    Product(F * sigma, root);
    DensityIsPositive(m, D1(m, F, K, T, sigma));
    CurvatureFrom(F, T, sigma, root, n, BsGreeks(m, F, K, T, sigma, right));
  }

  /** A call's delta is between 0 and 1, and worth more than the call. */
  lemma CallDelta(m: Maths, F: real, K: real, T: real, sigma: real)
    requires Standard(m) && !Degenerate(F, K, T, sigma)
    ensures 0.0 < BsGreeks(m, F, K, T, sigma, Call).delta < 1.0
    ensures BsPrice(m, F, K, T, sigma, Call) < Times(F, BsGreeks(m, F, K, T, sigma, Call).delta)
  {
    CdfWithin(m, D1(m, F, K, T, sigma));
    DeltaCovers(m, F, K, D1(m, F, K, T, sigma), D2(m, F, K, T, sigma));
  }

  /** A put has the call's greeks but for the delta, which is one less. */
  lemma PutGreeks(m: Maths, F: real, K: real, T: real, sigma: real)
    requires Lawful(m) && !Degenerate(F, K, T, sigma)
    ensures var g := BsGreeks(m, F, K, T, sigma, Call);
            BsGreeks(m, F, K, T, sigma, Put) == g.(delta := g.delta - 1.0)
  {
  }

  lemma DeltaCovers(m: Maths, F: real, K: real, d1: real, d2: real)
    requires Standard(m) && K > 0.0
    ensures CallFormula(m, F, K, d1, d2) < Times(F, Cdf(m, d1))
  {
    CdfWithin(m, d2);
    Product(K, Cdf(m, d2));
  }

  /** A call's delta rises with the forward, as its positive gamma says. */
  lemma DeltaRises(m: Maths, F: real, F': real, K: real, T: real, sigma: real)
    requires Standard(m) && !Degenerate(F, K, T, sigma) && F < F'
    ensures BsGreeks(m, F, K, T, sigma, Call).delta < BsGreeks(m, F', K, T, sigma, Call).delta
  {
    var v := sigma * m.sqrt(T);
    Arguments(m, F, K, T, sigma, v);
    Arguments(m, F', K, T, sigma, v);
    QuotientGrows(F, F', K);
    PositiveQuotient(F, K);
    assert m.ln(F / K) < m.ln(F' / K);
    QuotientGrows(m.ln(F / K) + 0.5 * (v * v), m.ln(F' / K) + 0.5 * (v * v), v);
    CdfGrows(m, D1(m, F, K, T, sigma), D1(m, F', K, T, sigma));
  }

  // ----- Premiums -----

  /** A priced option outside the degenerate branch, in or at the money. */
  ghost predicate NotOut(l: Leg, spot: real) {
    && Priced(ContractOf(l)) && !DegenerateAt(l, spot)
    && if l.contract.right.Call? then spot >= l.strike.value else l.strike.value >= spot
  }

  lemma BoughtLegCosts(m: Maths, l: Leg, spot: real)
    requires Standard(m) && NotOut(l, spot) && l.side.Buy? && l.qtyFactor > 0
    ensures Times(ContractPrice(m, ContractOf(l), spot), SignedQty(l)) > 0.0
  {
    NotOutCosts(m, ContractOf(l), spot);
    Product(ContractPrice(m, ContractOf(l), spot), l.qtyFactor as real);
  }

  lemma NotOutCosts(m: Maths, c: Contract, spot: real)
    requires Standard(m) && Priced(c)
    requires !Degenerate(spot, c.strike.value, c.dte as real / 365.0, c.ivPct.value / 100.0)
    requires if c.kind.right.Call? then spot >= c.strike.value else c.strike.value >= spot
    ensures ContractPrice(m, c, spot) > 0.0
  {
    var T, sigma := c.dte as real / 365.0, c.ivPct.value / 100.0;
    PriceBounds(m, spot, c.strike.value, T, sigma);
    var price := BsPrice(m, spot, c.strike.value, T, sigma, c.kind.right);
    Product(price, EUR_FOP_MULTIPLIER);
  }

  /** Buying options that are not out of the money costs something. */
  lemma {:induction false} BoughtPremium(m: Maths, legs: seq<Leg>, spot: real)
    requires Standard(m)
    requires forall i :: 0 <= i < |legs| ==> NotOut(legs[i], spot) && legs[i].side.Buy? && legs[i].qtyFactor > 0
    ensures if legs == [] then Premium(m, legs, spot) == 0.0 else Premium(m, legs, spot) > 0.0
  {
    if legs != [] {
      BoughtPremium(m, legs[..|legs| - 1], spot);
      BoughtLegCosts(m, legs[|legs| - 1], spot);
    }
  }

  predicate BuysOnly(name: StructureName) {
    name.VanillaCall? || name.VanillaPut? || name.StraddleAtm? || name.LongStrangle25d?
  }

  lemma BuysTemplates(name: StructureName)
    requires BuysOnly(name)
    ensures TemplateOf(name).Some? && TemplateOf(name).value.legs != []
    ensures forall t :: t in TemplateOf(name).value.legs ==> t.side.Buy? && t.qtyFactor == 1
  {
    match name
    case VanillaCall =>
    case VanillaPut =>
    case StraddleAtm =>
    case LongStrangle25d =>
  }

  lemma BuiltSides(ts: seq<LegTemplate>, surface: Surface, q: Request)
    requires forall t :: t in ts ==> t.side.Buy? && t.qtyFactor == 1
    ensures forall i :: 0 <= i < |ts| ==>
              BuildLegs(ts, surface, q)[i].side.Buy? && BuildLegs(ts, surface, q)[i].qtyFactor == 1
  {
    forall i | 0 <= i < |ts|
      ensures BuildLegs(ts, surface, q)[i].side.Buy? && BuildLegs(ts, surface, q)[i].qtyFactor == 1
    {
      assert ts[i] in ts;
    }
  }

  ghost predicate NoneOut(legs: seq<Leg>, spot: real) {
    forall i :: 0 <= i < |legs| ==> NotOut(legs[i], spot)
  }

  /** The total of a bought vanilla, straddle or strangle is positive, and that of its counterpart negative, on every
      surface on which its legs are priced and not out of the money. */
  lemma BoughtTotal(m: Maths, name: StructureName, surface: Surface, q: Request)
    requires Standard(m) && BuysOnly(name)
    requires Built(name, surface, q).Some? ==> NoneOut(Built(name, surface, q).value.legs, SpotOf(surface))
    ensures var a, b := Built(name, surface, q), Built(Counterpart(name), surface, q);
            && a.Some? && b.Some?
            && Premium(m, a.value.legs, SpotOf(surface)) > 0.0 && Premium(m, b.value.legs, SpotOf(surface)) < 0.0
  {
    CounterpartsCancel(m, name, surface, q);
    BuysTemplates(name);
    BuiltSides(TemplateOf(name).value.legs, surface, q);
    BoughtPremium(m, Built(name, surface, q).value.legs, SpotOf(surface));
  }

  // ----- Greeks in USD -----

  /** The same relations with vega per volatility point, gamma per squared pip and theta per day. */
  ghost predicate UsdCurvature(T: real, sigma: real, spot: real, u: Greeks) {
    && u.gamma > 0.0 && u.vega > 0.0
    && u.vega / 0.01 == sigma * T * (spot * spot * (u.gamma / 0.000_000_01))
    && u.theta * 365.0 == -0.5 * (sigma * sigma) * (spot * spot * (u.gamma / 0.000_000_01))
  }

  lemma ScaledCurvature(T: real, sigma: real, spot: real, g: Greeks)
    requires CurvatureAgrees(spot, T, sigma, g)
    ensures UsdCurvature(T, sigma, spot, InUsd(g, spot))
  {
    var u, M := InUsd(g, spot), 125_000.0;
    assert u.gamma / 0.000_000_01 == g.gamma * M;
    assert u.vega / 0.01 == g.vega * M;
    assert u.theta * 365.0 == g.theta * M;
    Scaled(sigma * T, spot * spot, g.gamma, M);
    Scaled(-0.5 * (sigma * sigma), spot * spot, g.gamma, M);
  }

  lemma Scaled(a: real, b: real, c: real, k: real)
    ensures a * (b * c) * k == a * (b * (c * k))
  {
  }

  /** So do the greeks of one contract in USD. */
  lemma DollarCurvature(m: Maths, c: Contract, spot: real, multiplier: real, T: real, sigma: real)
    requires Standard(m) && Priced(c) && T == c.dte as real / 365.0 && sigma == c.ivPct.value / 100.0
    requires !Degenerate(spot, c.strike.value, T, sigma)
    ensures UsdCurvature(T, sigma, spot, ContractGreeks(m, c, spot, multiplier))
  {
    GreeksCurve(m, spot, c.strike.value, T, sigma, c.kind.right);
    ScaledCurvature(T, sigma, spot, BsGreeks(m, spot, c.strike.value, T, sigma, c.kind.right));
  }

  /** A call's delta in USD lies between its premium and the notional. */
  lemma DollarDelta(m: Maths, c: Contract, spot: real, multiplier: real)
    requires Standard(m) && Priced(c) && c.kind.right.Call?
    requires !Degenerate(spot, c.strike.value, c.dte as real / 365.0, c.ivPct.value / 100.0)
    ensures ContractPrice(m, c, spot) < ContractGreeks(m, c, spot, multiplier).delta < Times(spot, EUR_FOP_MULTIPLIER)
  {
    var T, sigma := c.dte as real / 365.0, c.ivPct.value / 100.0;
    var g := BsGreeks(m, spot, c.strike.value, T, sigma, Call);
    CallDelta(m, spot, c.strike.value, T, sigma);
    DeltaBetween(BsPrice(m, spot, c.strike.value, T, sigma, Call), g.delta, spot);
  }

  lemma DeltaBetween(price: real, delta: real, spot: real)
    requires price < Times(spot, delta) && delta < 1.0 && spot > 0.0
    ensures price * EUR_FOP_MULTIPLIER < delta * spot * EUR_FOP_MULTIPLIER < Times(spot, EUR_FOP_MULTIPLIER)
  {
    assert spot * (1.0 - delta) > 0.0;
  }

  // ----- What the builder reads off the surface -----

  /** The tenor a leg of that role trades. */
  predicate OnTenor(role: TenorRole, q: Request, tenor: string) {
    tenor == if role.Far? && q.far.Some? && q.far.value != "" then q.far.value else q.near
  }

  /** A built option is priced with the strike and volatility its surface node quotes, on the tenor its role names. */
  lemma BuiltFromNode(m: Maths, ts: seq<LegTemplate>, surface: Surface, q: Request, i: nat, tenor: string, iv: real,
                      strike: real)
    requires Lawful(m) && i < |ts| && ts[i].contract.Option? && OnTenor(ts[i].role, q, tenor)
    requires NodeAt(surface, tenor, PillarFor(ts[i], q)) == Node(Some(strike), Some(iv)) && iv != 0.0 && strike != 0.0
    requires q.strike.Some? ==> |ts| > 1
    ensures var leg := BuildLegs(ts, surface, q)[i];
            && leg.tenor == tenor && leg.expiry == q.today + TenorToDte(tenor)
            && ContractPrice(m, ContractOf(leg), SpotOf(surface))
               == BsPrice(m, SpotOf(surface), strike, TenorToDte(tenor) as real / 365.0, iv, ts[i].contract.right)
                  * EUR_FOP_MULTIPLIER
  {
    var c := ContractOf(BuildLegs(ts, surface, q)[i]);
    Percent(iv);
    assert c == Contract(ts[i].contract, TenorToDte(tenor), Some(strike), Some(iv * 100.0));
  }

  lemma Percent(iv: real)
    ensures iv * 100.0 / 100.0 == iv && (iv != 0.0 ==> iv * 100.0 != 0.0)
  {
  }

  /** A calendar trades the near tenor on one side and the far tenor on the other. */
  lemma CalendarTenors(surface: Surface, q: Request)
    requires q.far.Some? && q.far.value != ""
    ensures var legs := Built(CalendarLong, surface, q).value.legs;
            && |legs| == 2 && legs[0].contract == legs[1].contract && legs[0].qtyFactor == legs[1].qtyFactor == 1
            && legs[0].side.Sell? && legs[0].tenor == q.near && legs[0].dte == TenorToDte(q.near)
            && legs[1].side.Buy? && legs[1].tenor == q.far.value && legs[1].dte == TenorToDte(q.far.value)
  {
  }

  lemma OverriddenLeg(t: LegTemplate, idx: nat, single: bool, surface: Surface, q: Request, strike: real)
    ensures var plain := BuildLeg(t, idx, single, surface, q.(strike := None));
            BuildLeg(t, idx, single, surface, q.(strike := Some(strike)))
            == if single && t.contract.Option? then plain.(strike := Some(strike)) else plain
  {
    assert PillarFor(t, q.(strike := None)) == PillarFor(t, q.(strike := Some(strike)));
  }

  /** A strike override sets the strike of a single option and changes nothing else anywhere. */
  lemma StrikeOverride(ts: seq<LegTemplate>, surface: Surface, q: Request, strike: real)
    ensures var plain := BuildLegs(ts, surface, q.(strike := None));
            BuildLegs(ts, surface, q.(strike := Some(strike)))
            == if |ts| == 1 && ts[0].contract.Option? then [plain[0].(strike := Some(strike))] else plain
  {
    var a, b := BuildLegs(ts, surface, q.(strike := None)), BuildLegs(ts, surface, q.(strike := Some(strike)));
    forall i | 0 <= i < |ts|
      ensures b[i] == if |ts| == 1 && ts[0].contract.Option? then a[i].(strike := Some(strike)) else a[i]
    {
      OverriddenLeg(ts[i], i, |ts| == 1, surface, q, strike);
    }
  }

  // ----- The sign of vega -----

  lemma BoughtLegVega(m: Maths, l: Leg, spot: real, multiplier: real)
    requires Standard(m) && Priced(ContractOf(l)) && !DegenerateAt(l, spot) && l.side.Buy? && l.qtyFactor > 0
    ensures LegGreeks(m, l, spot, multiplier).vega > 0.0
  {
    DollarCurvature(m, ContractOf(l), spot, multiplier, l.dte as real / 365.0, l.entryIvPct.value / 100.0);
    Product(ContractGreeks(m, ContractOf(l), spot, multiplier).vega, l.qtyFactor as real);
  }

  lemma {:induction false} VegasAdd(gs: seq<Greeks>)
    requires forall i :: 0 <= i < |gs| ==> gs[i].vega > 0.0
    ensures if gs == [] then SumGreeks(gs).vega == 0.0 else SumGreeks(gs).vega > 0.0
  {
    if gs != [] {
      VegasAdd(gs[..|gs| - 1]);
    }
  }

  /** Bought options outside the degenerate branch. */
  ghost predicate BoughtLive(legs: seq<Leg>, spot: real) {
    forall i :: 0 <= i < |legs| ==>
      Priced(ContractOf(legs[i])) && !DegenerateAt(legs[i], spot) && legs[i].side.Buy? && legs[i].qtyFactor > 0
  }

  lemma BoughtVega(m: Maths, legs: seq<Leg>, spot: real, multiplier: real)
    requires Standard(m) && legs != [] && BoughtLive(legs, spot)
    ensures NetGreeks(m, legs, spot, multiplier).vega > 0.0
  {
    forall i | 0 <= i < |legs|
      ensures EachGreeks(m, legs, spot, multiplier)[i].vega > 0.0
    {
      BoughtLegVega(m, legs[i], spot, multiplier);
    }
    VegasAdd(EachGreeks(m, legs, spot, multiplier));
  }

  /** A bought vanilla, straddle or strangle is labelled long vega and its counterpart short, and their net vegas have
      those signs on every surface on which the legs are priced outside the degenerate branch. */
  lemma VegaSignHolds(m: Maths, name: StructureName, surface: Surface, q: Request)
    requires Standard(m) && BuysOnly(name)
    requires Built(name, surface, q).Some? ==> BoughtLive(Built(name, surface, q).value.legs, SpotOf(surface))
    ensures var a, b, spot := Built(name, surface, q), Built(Counterpart(name), surface, q), SpotOf(surface);
            && a.Some? && b.Some? && a.value.vegaSign.VegaPositive? && b.value.vegaSign.VegaNegative?
            && NetGreeks(m, a.value.legs, spot, SizeMultiplier(a.value.futureSize)).vega > 0.0
            && NetGreeks(m, b.value.legs, spot, SizeMultiplier(b.value.futureSize)).vega < 0.0
  {
    CounterpartsCancel(m, name, surface, q);
    BuysTemplates(name);
    Labels(name);
    var a, b := Built(name, surface, q).value, Built(Counterpart(name), surface, q).value;
    assert |a.legs| == |TemplateOf(name).value.legs|;
    OppositeVegas(m, a, b, SpotOf(surface));
  }

  lemma OppositeVegas(m: Maths, a: Structure, b: Structure, spot: real)
    requires Standard(m) && a.legs != [] && BoughtLive(a.legs, spot)
    requires Plus(NetGreeks(m, a.legs, spot, SizeMultiplier(a.futureSize)),
                  NetGreeks(m, b.legs, spot, SizeMultiplier(b.futureSize))) == NO_GREEKS
    ensures NetGreeks(m, a.legs, spot, SizeMultiplier(a.futureSize)).vega > 0.0
    ensures NetGreeks(m, b.legs, spot, SizeMultiplier(b.futureSize)).vega < 0.0
  {
    BoughtVega(m, a.legs, spot, SizeMultiplier(a.futureSize));
  }

  lemma Labels(name: StructureName)
    requires BuysOnly(name)
    ensures TemplateOf(name).Some? && TemplateOf(name).value.vegaSign.VegaPositive?
    ensures TemplateOf(Counterpart(name)).Some? && TemplateOf(Counterpart(name)).value.vegaSign.VegaNegative?
  {
    match name
    case VanillaCall =>
    case VanillaPut =>
    case StraddleAtm =>
    case LongStrangle25d =>
  }

  // ----- Tenors, spot, futures, pillars -----

  /** The tenor of n months as the surface names it. */
  function Months(n: int): string
    requires 1 <= n <= 6
  {
    [('0' as int + n) as char, 'M']
  }

  /** A month counts thirty days, and a tenor outside the grid is taken for three months. */
  lemma TenorDays(n: int, other: string)
    requires 1 <= n <= 6
    ensures TenorToDte(Months(n)) == 30 * n
    ensures (forall k :: 1 <= k <= 6 ==> other != Months(k)) ==> TenorToDte(other) == 90
  {
    assert Months(1) == "1M" && Months(2) == "2M" && Months(3) == "3M";
    assert Months(4) == "4M" && Months(5) == "5M" && Months(6) == "6M";
  }

  predicate Quotes(surface: Surface, n: int)
    requires 1 <= n <= 6
  {
    NodeAt(surface, Months(n), "atm").strike.Some?
  }

  /** The spot is the at-the-money strike of the shortest tenor up to three months that quotes one, and 1 without
      any. */
  lemma SpotIsShortest(surface: Surface, n: int)
    requires 1 <= n <= 3
    ensures Quotes(surface, n) && (forall k :: 1 <= k <= 3 && Quotes(surface, k) ==>
                                     TenorToDte(Months(n)) <= TenorToDte(Months(k))) ==>
              Some(SpotOf(surface)) == NodeAt(surface, Months(n), "atm").strike
    ensures !Quotes(surface, 1) && !Quotes(surface, 2) && !Quotes(surface, 3) ==> SpotOf(surface) == 1.0
  {
    assert Months(1) == "1M" && Months(2) == "2M" && Months(3) == "3M";
  }

  /** The delta a bought future of that size contributes. */
  function FutureDelta(m: Maths, surface: Surface, q: Request, size: Option<FutureSize>): real
    requires Lawful(m)
  {
    var future := Built(FutureBuy, surface, q.(futureSize := size)).value;
    NetGreeks(m, future.legs, SpotOf(surface), SizeMultiplier(future.futureSize)).delta
  }

  /** A future moves like the notional of one option contract, a micro future like a tenth of it, and the full size is
      the default. */
  lemma FutureSizes(m: Maths, surface: Surface, q: Request)
    requires Lawful(m)
    ensures FutureDelta(m, surface, q, Some(Full)) == SpotOf(surface) * EUR_FOP_MULTIPLIER
    ensures FutureDelta(m, surface, q, Some(Full)) == 10.0 * FutureDelta(m, surface, q, Some(Micro))
    ensures FutureDelta(m, surface, q, None) == FutureDelta(m, surface, q, Some(Full))
  {
    FutureDeltaIs(m, surface, q, Some(Full));
    FutureDeltaIs(m, surface, q, Some(Micro));
    FutureDeltaIs(m, surface, q, None);
  }

  lemma FutureDeltaIs(m: Maths, surface: Surface, q: Request, size: Option<FutureSize>)
    requires Lawful(m)
    ensures FutureDelta(m, surface, q, size) == SizeMultiplier(size) * SpotOf(surface)
  {
    var future := Built(FutureBuy, surface, q.(futureSize := size)).value;
    OneLeg(m, future.legs[0], SpotOf(surface), SizeMultiplier(future.futureSize));
    assert future.legs == [future.legs[0]];
  }

  /** A pillar override moves an overridable option leg to the node it names, and leaves every other leg alone. */
  lemma PillarOverride(ts: seq<LegTemplate>, surface: Surface, q: Request, pillar: string, i: nat)
    requires i < |ts| && pillar != ""
    ensures var plain := BuildLegs(ts, surface, q.(pillar := None))[i];
            BuildLegs(ts, surface, q.(pillar := Some(pillar)))[i]
            == if ts[i].overridable && ts[i].contract.Option?
               then BuildLeg(ts[i].(pillar := MirrorPillar(pillar, ts[i].pillar, ts[i].contract)), i, |ts| == 1,
                             surface, q.(pillar := None))
               else plain
  {
  }
}

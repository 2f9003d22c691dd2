/** The trade preview engine (src/core/trade_preview.py): Black-76 primitives, the structure builder over its
    templates, and the pricing and greek folds. Arithmetic is over the reals and before rounding; exp, log,
    sqrt and erf are arbitrary functions of which only the laws in `Lawful` are used. */
module Preview {

  import opened Options

  // ----- Black-76 -----

  datatype Maths = Maths(exp: real -> real, ln: real -> real, sqrt: real -> real, erf: real -> real, pi: real)

  ghost predicate Lawful(m: Maths) {
    && m.pi > 0.0
    && (forall x :: x > 0.0 ==> m.sqrt(x) > 0.0)
    && (forall x :: m.erf(-x) == -m.erf(x))
  }

  function Density(m: Maths, x: real): real
    requires Lawful(m)
  {
    m.exp(-0.5 * x * x) / m.sqrt(2.0 * m.pi)
  }

  function Cdf(m: Maths, x: real): real
    requires Lawful(m)
  {
    0.5 * (1.0 + m.erf(x / m.sqrt(2.0)))
  }

  datatype Right = Call | Put

  /** The inputs for which the formulas are not evaluated. */
  predicate Degenerate(F: real, K: real, T: real, sigma: real) {
    T <= 0.0 || sigma <= 0.0 || F <= 0.0 || K <= 0.0
  }

  function D1(m: Maths, F: real, K: real, T: real, sigma: real): real
    requires Lawful(m) && !Degenerate(F, K, T, sigma)
  {
    Product(sigma, m.sqrt(T));
    (m.ln(F / K) + 0.5 * sigma * sigma * T) / (sigma * m.sqrt(T))
  }

  function D2(m: Maths, F: real, K: real, T: real, sigma: real): real
    requires Lawful(m) && !Degenerate(F, K, T, sigma)
  {
    D1(m, F, K, T, sigma) - sigma * m.sqrt(T)
  }

  lemma Product(a: real, b: real)
    requires a > 0.0 && b > 0.0
    ensures a * b > 0.0
  {
  }

  function Positive(x: real): real {
    if x > 0.0 then x else 0.0
  }

  function BsPrice(m: Maths, F: real, K: real, T: real, sigma: real, right: Right): real
    requires Lawful(m)
  {
    if Degenerate(F, K, T, sigma) then Positive(if right.Call? then F - K else K - F)
    else
      var d1, d2 := D1(m, F, K, T, sigma), D2(m, F, K, T, sigma);
      if right.Call? then CallFormula(m, F, K, d1, d2) else PutFormula(m, F, K, d1, d2)
  }

  function CallFormula(m: Maths, F: real, K: real, d1: real, d2: real): real
    requires Lawful(m)
  {
    F * Cdf(m, d1) - K * Cdf(m, d2)
  }

  function PutFormula(m: Maths, F: real, K: real, d1: real, d2: real): real
    requires Lawful(m)
  {
    K * Cdf(m, -d2) - F * Cdf(m, -d1)
  }

  datatype Greeks = Greeks(vega: real, gamma: real, theta: real, delta: real)

  const NO_GREEKS := Greeks(0.0, 0.0, 0.0, 0.0)

  function BsGreeks(m: Maths, F: real, K: real, T: real, sigma: real, right: Right): Greeks
    requires Lawful(m)
  {
    if Degenerate(F, K, T, sigma) then NO_GREEKS
    else
      var root := m.sqrt(T);
      Product(sigma, root);
      Product(F, sigma);
      Product(F * sigma, root);
      var d1 := D1(m, F, K, T, sigma);
      Greeks(F * Density(m, d1) * root,
             Density(m, d1) / (F * sigma * root),
             -F * Density(m, d1) * sigma / (2.0 * root),
             if right.Call? then Cdf(m, d1) else Cdf(m, d1) - 1.0)
  }

  lemma CdfReflects(m: Maths, x: real)
    requires Lawful(m)
    ensures Cdf(m, x) + Cdf(m, -x) == 1.0
  {
    var s := m.sqrt(2.0);
    assert (-x) / s == -(x / s) by {
      var q, r := x / s, (-x) / s;
      assert q * s == x && r * s == -x;
      assert (q + r) * s == 0.0;
    }
    assert m.erf(-(x / s)) == -m.erf(x / s);
  }

  lemma FormulaParity(m: Maths, F: real, K: real, d1: real, d2: real)
    requires Lawful(m)
    ensures CallFormula(m, F, K, d1, d2) - PutFormula(m, F, K, d1, d2) == F - K
  {
    CdfReflects(m, d1);
    CdfReflects(m, d2);
    ParityArithmetic(F, K, Cdf(m, d1), Cdf(m, -d1), Cdf(m, d2), Cdf(m, -d2));
  }

  /** Call minus put is forward minus strike, in every branch. */
  lemma PutCallParity(m: Maths, F: real, K: real, T: real, sigma: real)
    requires Lawful(m)
    ensures BsPrice(m, F, K, T, sigma, Call) - BsPrice(m, F, K, T, sigma, Put) == F - K
  {
    if !Degenerate(F, K, T, sigma) {
      FormulaParity(m, F, K, D1(m, F, K, T, sigma), D2(m, F, K, T, sigma));
    }
  }

  lemma ParityArithmetic(F: real, K: real, a: real, a': real, b: real, b': real)
    requires a + a' == 1.0 && b + b' == 1.0
    ensures (F * a - K * b) - (K * b' - F * a') == F - K
  {
    assert F * a + F * a' == F * (a + a');
    assert K * b + K * b' == K * (b + b');
  }

  // ----- Templates -----

  datatype Side = Buy | Sell

  function Other(s: Side): Side {
    if s.Buy? then Sell else Buy
  }

  datatype ContractType = Option(right: Right) | Future

  datatype TenorRole = Near | Far

  datatype LegTemplate = LegTemplate(contract: ContractType, pillar: string, role: TenorRole, side: Side,
                                     qtyFactor: int, overridable: bool)

  datatype VegaSign = VegaPositive | VegaNegative | VegaNeutral

  datatype Template = Template(requiresDeltaHedge: bool, vegaSign: VegaSign, legs: seq<LegTemplate>)

  datatype StructureName =
    | StraddleAtm | ShortStrangle | CalendarLong | CalendarShort | LongButterfly25d | ShortButterfly25d
    | ShortStraddleAtm | LongStrangle25d | FutureBuy | FutureSell
    | VanillaCall | ShortVanillaCall | VanillaPut | ShortVanillaPut
    | Unlisted(name: string)

  function OptionLeg(right: Right, pillar: string, side: Side): LegTemplate {
    LegTemplate(ContractType.Option(right), pillar, Near, side, 1, true)
  }

  function TemplateOf(name: StructureName): Option<Template> {
    match name
    case StraddleAtm => Some(Template(true, VegaPositive, [OptionLeg(Call, "atm", Buy), OptionLeg(Put, "atm", Buy)]))
    case ShortStrangle => Some(Template(true, VegaNegative,
        [OptionLeg(Call, "25dc", Sell), OptionLeg(Put, "25dp", Sell)]))
    case CalendarLong => Some(Template(true, VegaPositive,
        [OptionLeg(Call, "atm", Sell), OptionLeg(Call, "atm", Buy).(role := Far)]))
    case CalendarShort => Some(Template(true, VegaNegative,
        [OptionLeg(Call, "atm", Buy), OptionLeg(Call, "atm", Sell).(role := Far)]))
    case LongButterfly25d => Some(Template(true, VegaNeutral,
        [OptionLeg(Call, "10dc", Buy), OptionLeg(Call, "atm", Sell).(qtyFactor := 2, overridable := false),
         OptionLeg(Call, "10dp", Buy)]))
    case ShortButterfly25d => Some(Template(true, VegaNeutral,
        [OptionLeg(Call, "10dc", Sell), OptionLeg(Call, "atm", Buy).(qtyFactor := 2, overridable := false),
         OptionLeg(Call, "10dp", Sell)]))
    case ShortStraddleAtm => Some(Template(true, VegaNegative,
        [OptionLeg(Call, "atm", Sell), OptionLeg(Put, "atm", Sell)]))
    case LongStrangle25d => Some(Template(true, VegaPositive,
        [OptionLeg(Call, "25dc", Buy), OptionLeg(Put, "25dp", Buy)]))
    case FutureBuy => Some(Template(false, VegaNeutral, [LegTemplate(Future, "atm", Near, Buy, 1, true)]))
    case FutureSell => Some(Template(false, VegaNeutral, [LegTemplate(Future, "atm", Near, Sell, 1, true)]))
    case VanillaCall => Some(Template(true, VegaPositive, [OptionLeg(Call, "atm", Buy)]))
    case ShortVanillaCall => Some(Template(true, VegaNegative, [OptionLeg(Call, "atm", Sell)]))
    case VanillaPut => Some(Template(true, VegaPositive, [OptionLeg(Put, "atm", Buy)]))
    case ShortVanillaPut => Some(Template(true, VegaNegative, [OptionLeg(Put, "atm", Sell)]))
    case Unlisted(_) => None
  }

  // ----- The builder -----

  /** A surface cell; None stands for a missing or non-numeric entry. */
  datatype Node = Node(strike: Option<real>, iv: Option<real>)

  type Surface = map<string, map<string, Node>>

  const EMPTY_NODE := Node(None, None)

  function NodeAt(surface: Surface, tenor: string, pillar: string): Node {
    if tenor in surface && pillar in surface[tenor] then surface[tenor][pillar] else EMPTY_NODE
  }

  datatype Leg = Leg(idx: nat, contract: ContractType, tenor: string, expiry: int, dte: int, strike: Option<real>,
                     qtyFactor: int, side: Side, entryIvPct: Option<real>)

  datatype FutureSize = Full | Micro

  datatype Structure = Structure(name: StructureName, near: string, far: Option<string>, legs: seq<Leg>,
                                 requiresDeltaHedge: bool, vegaSign: VegaSign, futureSize: Option<FutureSize>)

  function TenorToDte(tenor: string): int {
    if tenor == "1M" then 30 else if tenor == "2M" then 60 else if tenor == "3M" then 90
    else if tenor == "4M" then 120 else if tenor == "5M" then 150 else if tenor == "6M" then 180 else 90
  }

  function ResolveTenor(role: TenorRole, near: string, far: Option<string>): string {
    if role.Far? && far.Some? && far.value != "" then far.value else near
  }

  /** All occurrences of `pat` removed, left to right. */
  function Without(s: string, pat: string): string
    requires pat != ""
  {
    if |s| < |pat| then s
    else if s[..|pat|] == pat then Without(s[|pat|..], pat)
    else [s[0]] + Without(s[1..], pat)
  }

  predicate IsBlank(c: char) {
    c == ' ' || c == '\t' || c == '\n' || c == '\r'
  }

  function Strip(s: string): string
    decreases |s|
  {
    if s == "" then s
    else if IsBlank(s[0]) then Strip(s[1..])
    else if IsBlank(s[|s| - 1]) then Strip(s[..|s| - 1])
    else s
  }

  predicate EndsWith(s: string, suffix: string) {
    |suffix| <= |s| && s[|s| - |suffix|..] == suffix
  }

  /** A user-picked delta pillar carried over to one leg. */
  function MirrorPillar(chosen: string, pillar: string, contract: ContractType): string {
    if chosen == "atm" then "atm"
    else
      var level := Strip(Without(Without(chosen, "dc"), "dp"));
      if EndsWith(pillar, "dc") then level + "dc"
      else if EndsWith(pillar, "dp") then level + "dp"
      else if contract == ContractType.Option(Call) then level + "dc" else level + "dp"
  }

  /** The wing suffixes of a quoted pillar. */
  predicate IsWing(wing: string) {
    wing == "dc" || wing == "dp"
  }

  /** A two-character level such as "10" or "25". */
  predicate IsLevel(level: string) {
    |level| == 2 && level[0] != 'd' && level[1] != 'd' && !IsBlank(level[0]) && !IsBlank(level[1])
  }

  lemma WingAlone(wing: string, pat: string)
    requires IsWing(wing) && IsWing(pat)
    ensures Without(wing, pat) == if wing == pat then "" else wing
    ensures Without("", pat) == ""
  {
    if wing != pat {
      assert wing[..2] == wing;
      assert |wing[1..]| < |pat|;
      assert wing == [wing[0]] + wing[1..];
    }
  }

  lemma LevelOf(level: string, wing: string)
    requires IsLevel(level) && IsWing(wing)
    ensures Strip(Without(Without(level + wing, "dc"), "dp")) == level
  {
    WithoutLevel(level, wing, "dc");
    WingAlone(wing, "dc");
    WithoutLevel(level, Without(wing, "dc"), "dp");
    WingAlone(wing, "dp");
    assert level + "" == level;
  }

  /** Two leading characters that cannot start the pattern are kept. */
  lemma WithoutLevel(level: string, rest: string, pat: string)
    requires |level| == 2 && pat != "" && level[0] != pat[0] && level[1] != pat[0]
    ensures Without(level + rest, pat) == level + Without(rest, pat)
  {
    var s := level + rest;
    assert s[1..] == [level[1]] + rest && s[1..][1..] == rest;
    if |s| >= |pat| {
      assert s[..|pat|][0] == level[0];
    }
    if |s[1..]| >= |pat| {
      assert s[1..][..|pat|][0] == level[1];
    }
    if |rest| < |pat| {
    }
  }

  /** An override keeps the delta level it names and the strike direction of the template's wing; on an at-the-money
      leg the direction is the contract's. */
  lemma MirrorPillarMeaning(level: string, wing: string, pillar: string, contract: ContractType)
    requires IsLevel(level) && IsWing(wing)
    ensures MirrorPillar(level + wing, pillar, contract)
            == level + (if EndsWith(pillar, "dc") then "dc"
                        else if EndsWith(pillar, "dp") then "dp"
                        else if contract == ContractType.Option(Call) then "dc" else "dp")
  {
    LevelOf(level, wing);
    assert |level + wing| == 4;
  }

  /** What the trader chose beyond the template. */
  datatype Request = Request(near: string, far: Option<string>, pillar: Option<string>, strike: Option<real>,
                             futureSize: Option<FutureSize>, today: int)

  function PillarFor(t: LegTemplate, q: Request): string {
    if q.pillar.Some? && q.pillar.value != "" && t.overridable && !t.contract.Future?
    then MirrorPillar(q.pillar.value, t.pillar, t.contract) else t.pillar
  }

  function BuildLeg(t: LegTemplate, idx: nat, single: bool, surface: Surface, q: Request): Leg {
    var tenor := ResolveTenor(t.role, q.near, q.far);
    var node := NodeAt(surface, tenor, PillarFor(t, q));
    var dte := TenorToDte(tenor);
    Leg(idx, t.contract, tenor, q.today + dte, dte,
        if t.contract.Future? then None else if single && q.strike.Some? then q.strike else node.strike,
        t.qtyFactor, t.side,
        if t.contract.Future? || node.iv == None then None else Some(node.iv.value * 100.0))
  }

  function BuildLegs(ts: seq<LegTemplate>, surface: Surface, q: Request): (legs: seq<Leg>)
    ensures |legs| == |ts|
  {
    seq(|ts|, i requires 0 <= i < |ts| => BuildLeg(ts[i], i, |ts| == 1, surface, q))
  }

  /** The builder's loop over the template legs. */
  method BuildLegList(ts: seq<LegTemplate>, surface: Surface, q: Request) returns (legs: seq<Leg>)
    ensures legs == BuildLegs(ts, surface, q)
  {
    legs := [];
    var single := |ts| == 1;
    for i := 0 to |ts|
      invariant |legs| == i && forall k :: 0 <= k < i ==> legs[k] == BuildLeg(ts[k], k, |ts| == 1, surface, q)
    {
      var t := ts[i];
      var tenor := ResolveTenor(t.role, q.near, q.far);
      var pillar := t.pillar;
      if q.pillar.Some? && q.pillar.value != "" && t.overridable && !t.contract.Future? {
        pillar := MirrorPillar(q.pillar.value, t.pillar, t.contract);
      }
      var node := NodeAt(surface, tenor, pillar);
      var dte := TenorToDte(tenor);
      var strike := node.strike;
      if t.contract.Future? {
        strike := None;
      } else if single && q.strike.Some? {
        strike := q.strike;
      }
      var iv := if t.contract.Future? || node.iv == None then None else Some(node.iv.value * 100.0);
      legs := legs + [Leg(i, t.contract, tenor, q.today + dte, dte, strike, t.qtyFactor, t.side, iv)];
    }
  }

  function FutureSizeOf(name: StructureName, chosen: Option<FutureSize>): Option<FutureSize> {
    if name.FutureBuy? || name.FutureSell? then (if chosen.Some? then chosen else Some(Full)) else None
  }

  function FromTemplate(name: StructureName, tpl: Template, surface: Surface, q: Request): Structure {
    Structure(name, q.near, q.far, BuildLegs(tpl.legs, surface, q), tpl.requiresDeltaHedge, tpl.vegaSign,
              FutureSizeOf(name, q.futureSize))
  }

  method BuildStructure(name: StructureName, surface: Surface, q: Request) returns (r: Option<Structure>)
    ensures r == Built(name, surface, q)
  {
    var found := TemplateOf(name);
    if found == None {
      return None;
    }
    var tpl := found.value;
    var legs := BuildLegList(tpl.legs, surface, q);
    r := Some(Structure(name, q.near, q.far, legs, tpl.requiresDeltaHedge, tpl.vegaSign,
                        FutureSizeOf(name, q.futureSize)));
  }

  function Built(name: StructureName, surface: Surface, q: Request): Option<Structure> {
    match TemplateOf(name)
    case None => None
    case Some(tpl) => Some(FromTemplate(name, tpl, surface, q))
  }

  // ----- Pricing and greek folds -----

  const VOLPT: real := 0.01
  const PIP_SIZE: real := 0.0001
  const EUR_FOP_MULTIPLIER: real := 125_000.0

  function SpotOf(surface: Surface): real {
    if NodeAt(surface, "1M", "atm").strike.Some? then NodeAt(surface, "1M", "atm").strike.value
    else if NodeAt(surface, "2M", "atm").strike.Some? then NodeAt(surface, "2M", "atm").strike.value
    else if NodeAt(surface, "3M", "atm").strike.Some? then NodeAt(surface, "3M", "atm").strike.value
    else 1.0
  }

  /** What a leg trades, whichever side and however many. */
  datatype Contract = Contract(kind: ContractType, dte: int, strike: Option<real>, ivPct: Option<real>)

  function ContractOf(l: Leg): Contract {
    Contract(l.contract, l.dte, l.strike, l.entryIvPct)
  }

  /** An option with a non-zero strike and volatility; only these are priced. */
  predicate Priced(c: Contract) {
    c.kind.Option? && c.strike.Some? && c.strike.value != 0.0 && c.ivPct.Some? && c.ivPct.value != 0.0
  }

  function SignedQty(l: Leg): real {
    if l.side.Buy? then l.qtyFactor as real else -(l.qtyFactor as real)
  }

  /** Unsigned premium of one contract in USD. */
  function ContractPrice(m: Maths, c: Contract, spot: real): real
    requires Lawful(m)
  {
    if Priced(c)
    then BsPrice(m, spot, c.strike.value, c.dte as real / 365.0, c.ivPct.value / 100.0, c.kind.right)
         * EUR_FOP_MULTIPLIER
    else 0.0
  }

  function Times(x: real, y: real): real {
    x * y
  }

  function Premium(m: Maths, legs: seq<Leg>, spot: real): real
    requires Lawful(m)
  {
    if legs == [] then 0.0
    else
      var l := legs[|legs| - 1];
      Premium(m, legs[..|legs| - 1], spot) + Times(ContractPrice(m, ContractOf(l), spot), SignedQty(l))
  }

  function SizeMultiplier(size: Option<FutureSize>): real {
    if size == Some(Micro) then 12_500.0 else 125_000.0
  }

  /** Greeks of one bought contract in USD, by the units convention. */
  function ContractGreeks(m: Maths, c: Contract, spot: real, futureMultiplier: real): Greeks
    requires Lawful(m)
  {
    if c.kind.Future? then NO_GREEKS.(delta := futureMultiplier * spot)
    else if Priced(c) then
      InUsd(BsGreeks(m, spot, c.strike.value, c.dte as real / 365.0, c.ivPct.value / 100.0, c.kind.right), spot)
    else NO_GREEKS
  }

  function InUsd(g: Greeks, spot: real): Greeks {
    Greeks(g.vega * VOLPT * EUR_FOP_MULTIPLIER,
           g.gamma * (PIP_SIZE * PIP_SIZE) * EUR_FOP_MULTIPLIER,
           g.theta / 365.0 * EUR_FOP_MULTIPLIER,
           g.delta * spot * EUR_FOP_MULTIPLIER)
  }

  function Scale(g: Greeks, n: real): Greeks {
    Greeks(Times(g.vega, n), Times(g.gamma, n), Times(g.theta, n), Times(g.delta, n))
  }

  function LegGreeks(m: Maths, l: Leg, spot: real, futureMultiplier: real): Greeks
    requires Lawful(m)
  {
    Scale(ContractGreeks(m, ContractOf(l), spot, futureMultiplier), SignedQty(l))
  }

  function Plus(a: Greeks, b: Greeks): Greeks {
    Greeks(a.vega + b.vega, a.gamma + b.gamma, a.theta + b.theta, a.delta + b.delta)
  }

  function SumGreeks(gs: seq<Greeks>): Greeks {
    if gs == [] then NO_GREEKS else Plus(SumGreeks(gs[..|gs| - 1]), gs[|gs| - 1])
  }

  function EachGreeks(m: Maths, legs: seq<Leg>, spot: real, futureMultiplier: real): seq<Greeks>
    requires Lawful(m)
  {
    seq(|legs|, i requires 0 <= i < |legs| => LegGreeks(m, legs[i], spot, futureMultiplier))
  }

  function NetGreeks(m: Maths, legs: seq<Leg>, spot: real, futureMultiplier: real): Greeks
    requires Lawful(m)
  {
    SumGreeks(EachGreeks(m, legs, spot, futureMultiplier))
  }

  method PriceStructure(m: Maths, s: Structure, surface: Surface)
    returns (prices: seq<real>, total: real, maxLoss: real, maxLossAtExpiryOnly: bool)
    requires Lawful(m)
    ensures total == Premium(m, s.legs, SpotOf(surface))
    ensures |prices| == |s.legs|
    ensures forall i :: 0 <= i < |s.legs| ==>
              prices[i] == ContractPrice(m, ContractOf(s.legs[i]), SpotOf(surface))
    ensures maxLossAtExpiryOnly <==> total > 0.0
    ensures maxLoss == if total > 0.0 then total else 1_000_000_000.0
  {
    var spot := SpotOf(surface);
    prices, total := [], 0.0;
    for i := 0 to |s.legs|
      invariant total == Premium(m, s.legs[..i], spot)
      invariant |prices| == i && forall k :: 0 <= k < i ==> prices[k] == ContractPrice(m, ContractOf(s.legs[k]), spot)
    {
      assert s.legs[..i + 1][..i] == s.legs[..i];
      var price := ContractPrice(m, ContractOf(s.legs[i]), spot);
      prices := prices + [price];
      total := total + Times(price, SignedQty(s.legs[i]));
    }
    assert s.legs[..|s.legs|] == s.legs;
    maxLoss := if total > 0.0 then total else 1_000_000_000.0;
    maxLossAtExpiryOnly := total > 0.0;
  }

  method ComputeNetGreeks(m: Maths, s: Structure, surface: Surface) returns (net: Greeks, deltaPostHedge: real)
    requires Lawful(m)
    ensures net == NetGreeks(m, s.legs, SpotOf(surface), SizeMultiplier(s.futureSize))
    ensures deltaPostHedge == if s.requiresDeltaHedge then 0.0 else net.delta
  {
    var spot, futureMultiplier := SpotOf(surface), SizeMultiplier(s.futureSize);
    net := NO_GREEKS;
    ghost var each := EachGreeks(m, s.legs, spot, futureMultiplier);
    for i := 0 to |s.legs|
      invariant net == SumGreeks(each[..i])
    {
      assert each[..i + 1][..i] == each[..i];
      net := Plus(net, LegGreeks(m, s.legs[i], spot, futureMultiplier));
    }
    assert each[..|s.legs|] == each;
    deltaPostHedge := if s.requiresDeltaHedge then 0.0 else net.delta;
  }

  // ----- Long and short templates mirror each other -----

  function Counterpart(name: StructureName): StructureName {
    match name
    case StraddleAtm => ShortStraddleAtm
    case ShortStraddleAtm => StraddleAtm
    case LongStrangle25d => ShortStrangle
    case ShortStrangle => LongStrangle25d
    case CalendarLong => CalendarShort
    case CalendarShort => CalendarLong
    case LongButterfly25d => ShortButterfly25d
    case ShortButterfly25d => LongButterfly25d
    case FutureBuy => FutureSell
    case FutureSell => FutureBuy
    case VanillaCall => ShortVanillaCall
    case ShortVanillaCall => VanillaCall
    case VanillaPut => ShortVanillaPut
    case ShortVanillaPut => VanillaPut
    case Unlisted(n) => Unlisted(n)
  }

  ghost predicate FlippedTemplates(a: seq<LegTemplate>, b: seq<LegTemplate>) {
    |a| == |b| && forall i :: 0 <= i < |a| ==> b[i] == a[i].(side := Other(a[i].side))
  }

  ghost predicate Flipped(a: seq<Leg>, b: seq<Leg>) {
    |a| == |b| && forall i :: 0 <= i < |a| ==> b[i] == a[i].(side := Other(a[i].side))
  }

  lemma CounterpartTemplates(name: StructureName)
    ensures TemplateOf(name) == None <==> TemplateOf(Counterpart(name)) == None
    ensures TemplateOf(name).Some? ==>
              var a, b := TemplateOf(name).value, TemplateOf(Counterpart(name)).value;
              FlippedTemplates(a.legs, b.legs) && a.requiresDeltaHedge == b.requiresDeltaHedge
  {
    match name
    case StraddleAtm =>
    case ShortStraddleAtm =>
    case LongStrangle25d =>
    case ShortStrangle =>
    case CalendarLong =>
    case CalendarShort =>
    case LongButterfly25d =>
    case ShortButterfly25d =>
    case _ =>
  }

  lemma FlippedTemplatesBuildFlippedLegs(a: seq<LegTemplate>, b: seq<LegTemplate>, surface: Surface, q: Request)
    requires FlippedTemplates(a, b)
    ensures Flipped(BuildLegs(a, surface, q), BuildLegs(b, surface, q))
  {
  }

  lemma OppositesCancel(x: real, g: Greeks, n: real)
    ensures Times(x, n) + Times(x, -n) == 0.0
    ensures Plus(Scale(g, n), Scale(g, -n)) == NO_GREEKS
  {
  }

  lemma FlippedLegCancels(m: Maths, l: Leg, k: Leg, spot: real, futureMultiplier: real)
    requires Lawful(m) && k == l.(side := Other(l.side))
    ensures Times(ContractPrice(m, ContractOf(l), spot), SignedQty(l))
            + Times(ContractPrice(m, ContractOf(k), spot), SignedQty(k)) == 0.0
    ensures Plus(LegGreeks(m, l, spot, futureMultiplier), LegGreeks(m, k, spot, futureMultiplier)) == NO_GREEKS
  {
    assert ContractOf(k) == ContractOf(l) && SignedQty(k) == -SignedQty(l);
    OppositesCancel(ContractPrice(m, ContractOf(l), spot), ContractGreeks(m, ContractOf(l), spot, futureMultiplier),
                    SignedQty(l));
  }

  lemma CancelingSums(a: Greeks, b: Greeks, x: Greeks, y: Greeks)
    requires Plus(a, b) == NO_GREEKS && Plus(x, y) == NO_GREEKS
    ensures Plus(Plus(a, x), Plus(b, y)) == NO_GREEKS
  {
  }

  lemma {:induction false} FlippedPremiumsCancel(m: Maths, a: seq<Leg>, b: seq<Leg>, spot: real)
    requires Lawful(m) && Flipped(a, b)
    ensures Premium(m, a, spot) + Premium(m, b, spot) == 0.0
  {
    if a == [] {
    } else {
      var a', b', l, k := a[..|a| - 1], b[..|b| - 1], a[|a| - 1], b[|b| - 1];
      FlippedPremiumsCancel(m, a', b', spot);
      FlippedLegCancels(m, l, k, spot, 1.0);
    }
  }

  lemma {:induction false} CancelingLists(x: seq<Greeks>, y: seq<Greeks>)
    requires |x| == |y| && forall i :: 0 <= i < |x| ==> Plus(x[i], y[i]) == NO_GREEKS
    ensures Plus(SumGreeks(x), SumGreeks(y)) == NO_GREEKS
  {
    if x == [] {
    } else {
      var n := |x| - 1;
      CancelingLists(x[..n], y[..n]);
      CancelingSums(SumGreeks(x[..n]), SumGreeks(y[..n]), x[n], y[n]);
    }
  }

  lemma FlippedGreeksCancel(m: Maths, a: seq<Leg>, b: seq<Leg>, spot: real, futureMultiplier: real)
    requires Lawful(m) && Flipped(a, b)
    ensures Plus(NetGreeks(m, a, spot, futureMultiplier), NetGreeks(m, b, spot, futureMultiplier)) == NO_GREEKS
  {
    var x, y := EachGreeks(m, a, spot, futureMultiplier), EachGreeks(m, b, spot, futureMultiplier);
    forall i | 0 <= i < |x|
      ensures Plus(x[i], y[i]) == NO_GREEKS
    {
      FlippedLegCancels(m, a[i], b[i], spot, futureMultiplier);
    }
    CancelingLists(x, y);
  }

  lemma Listed(name: StructureName)
    requires !name.Unlisted?
    ensures TemplateOf(name).Some?
    ensures FutureSizeOf(name, None) == FutureSizeOf(Counterpart(name), None)
  {
  }

  lemma CounterpartStructures(name: StructureName, surface: Surface, q: Request)
    requires !name.Unlisted?
    ensures var a, b := Built(name, surface, q), Built(Counterpart(name), surface, q);
            a.Some? && b.Some? && Flipped(a.value.legs, b.value.legs) && a.value.futureSize == b.value.futureSize
            && a.value.requiresDeltaHedge == b.value.requiresDeltaHedge
  {
    CounterpartTemplates(name);
    Listed(name);
    FlippedTemplatesBuildFlippedLegs(TemplateOf(name).value.legs, TemplateOf(Counterpart(name)).value.legs, surface, q);
  }

  /** For every surface, tenor pair and override, a template and its counterpart build the same legs on opposite sides,
      and their premiums and greeks sum to zero. */
  lemma CounterpartsCancel(m: Maths, name: StructureName, surface: Surface, q: Request)
    requires Lawful(m) && !name.Unlisted?
    ensures var a, b := Built(name, surface, q), Built(Counterpart(name), surface, q);
            && a.Some? && b.Some?
            && Flipped(a.value.legs, b.value.legs)
            && a.value.futureSize == b.value.futureSize
            && Premium(m, a.value.legs, SpotOf(surface)) + Premium(m, b.value.legs, SpotOf(surface)) == 0.0
            && Plus(NetGreeks(m, a.value.legs, SpotOf(surface), SizeMultiplier(a.value.futureSize)),
                    NetGreeks(m, b.value.legs, SpotOf(surface), SizeMultiplier(b.value.futureSize))) == NO_GREEKS
  {
    CounterpartStructures(name, surface, q);
    var a, b := Built(name, surface, q).value, Built(Counterpart(name), surface, q).value;
    FlippedPremiumsCancel(m, a.legs, b.legs, SpotOf(surface));
    FlippedGreeksCancel(m, a.legs, b.legs, SpotOf(surface), SizeMultiplier(a.futureSize));
  }

  // ----- The synthetic forward -----

  /** A bought call and a sold put with the same strike, expiry, volatility and quantity. */
  predicate IsSynthetic(call: Leg, put: Leg) {
    && call.contract == ContractType.Option(Call) && call.side.Buy?
    && put == call.(idx := put.idx, contract := ContractType.Option(Put), side := Sell)
    && Priced(ContractOf(call))
  }

  predicate DegenerateAt(l: Leg, spot: real)
    requires Priced(ContractOf(l))
  {
    Degenerate(spot, l.strike.value, l.dte as real / 365.0, l.entryIvPct.value / 100.0)
  }

  lemma TwoGreeks(x: Greeks, y: Greeks)
    ensures SumGreeks([x, y]) == Plus(x, y)
  {
    assert [x, y][..1] == [x] && [x][..0] == [];
    assert SumGreeks([x]) == x;
  }

  lemma TwoLegs(m: Maths, a: Leg, b: Leg, spot: real, futureMultiplier: real)
    requires Lawful(m)
    ensures Premium(m, [a, b], spot)
            == Times(ContractPrice(m, ContractOf(a), spot), SignedQty(a))
               + Times(ContractPrice(m, ContractOf(b), spot), SignedQty(b))
    ensures NetGreeks(m, [a, b], spot, futureMultiplier)
            == Plus(LegGreeks(m, a, spot, futureMultiplier), LegGreeks(m, b, spot, futureMultiplier))
  {
    assert [a, b][..1] == [a] && [a][..0] == [];
    assert Premium(m, [a], spot) == Times(ContractPrice(m, ContractOf(a), spot), SignedQty(a));
    var x, y := LegGreeks(m, a, spot, futureMultiplier), LegGreeks(m, b, spot, futureMultiplier);
    assert EachGreeks(m, [a, b], spot, futureMultiplier) == [x, y];
    TwoGreeks(x, y);
  }

  lemma Difference(a: real, b: real, n: real)
    ensures Times(a, n) + Times(b, -n) == Times(a - b, n)
  {
  }

  lemma PriceGap(m: Maths, call: Leg, put: Leg, spot: real)
    requires Lawful(m) && IsSynthetic(call, put)
    ensures ContractPrice(m, ContractOf(call), spot) - ContractPrice(m, ContractOf(put), spot)
            == Times(spot - call.strike.value, EUR_FOP_MULTIPLIER)
  {
    var K, T, sigma := call.strike.value, call.dte as real / 365.0, call.entryIvPct.value / 100.0;
    PutCallParity(m, spot, K, T, sigma);
    var c, p := BsPrice(m, spot, K, T, sigma, Call), BsPrice(m, spot, K, T, sigma, Put);
    assert c * EUR_FOP_MULTIPLIER - p * EUR_FOP_MULTIPLIER == Times(c - p, EUR_FOP_MULTIPLIER);
  }

  /** Its premium is (spot - strike) times the notional in every pricing branch. */
  lemma SyntheticPremium(m: Maths, call: Leg, put: Leg, spot: real)
    requires Lawful(m) && IsSynthetic(call, put)
    ensures Premium(m, [call, put], spot)
            == Times(Times(spot - call.strike.value, EUR_FOP_MULTIPLIER), call.qtyFactor as real)
  {
    TwoLegs(m, call, put, spot, 125_000.0);
    PriceGap(m, call, put, spot);
    Difference(ContractPrice(m, ContractOf(call), spot), ContractPrice(m, ContractOf(put), spot),
               call.qtyFactor as real);
  }

  /** Two contracts that differ only in delta, by one unit where `unit` says so. */
  lemma OffsettingContracts(c: Greeks, p: Greeks, spot: real, n: real, unit: bool)
    requires c == p.(delta := c.delta) && c.delta - p.delta == if unit then 1.0 else 0.0
    ensures var net := Plus(Scale(InUsd(c, spot), n), Scale(InUsd(p, spot), -n));
            && net.vega == 0.0 && net.gamma == 0.0 && net.theta == 0.0
            && net.delta == if unit then Times(125_000.0 * spot, n) else 0.0
  {
    Difference(InUsd(c, spot).vega, InUsd(p, spot).vega, n);
    Difference(InUsd(c, spot).gamma, InUsd(p, spot).gamma, n);
    Difference(InUsd(c, spot).theta, InUsd(p, spot).theta, n);
    Difference(InUsd(c, spot).delta, InUsd(p, spot).delta, n);
    assert c.delta * spot - p.delta * spot == (c.delta - p.delta) * spot;
    assert InUsd(c, spot).delta - InUsd(p, spot).delta == if unit then 125_000.0 * spot else 0.0;
    assert Times(0.0, n) == 0.0;
  }

  lemma CallPutGreeks(m: Maths, F: real, K: real, T: real, sigma: real)
    requires Lawful(m)
    ensures var c, p := BsGreeks(m, F, K, T, sigma, Call), BsGreeks(m, F, K, T, sigma, Put);
            c == p.(delta := c.delta) && c.delta - p.delta == if Degenerate(F, K, T, sigma) then 0.0 else 1.0
  {
  }

  lemma SyntheticNet(m: Maths, call: Leg, put: Leg, spot: real)
    requires Lawful(m) && IsSynthetic(call, put)
    ensures var net := NetGreeks(m, [call, put], spot, 125_000.0);
            && net.vega == 0.0 && net.gamma == 0.0 && net.theta == 0.0
            && net.delta == if DegenerateAt(call, spot) then 0.0 else Times(125_000.0 * spot, call.qtyFactor as real)
  {
    var K, T, sigma := call.strike.value, call.dte as real / 365.0, call.entryIvPct.value / 100.0;
    var n := call.qtyFactor as real;
    var c, p := BsGreeks(m, spot, K, T, sigma, Call), BsGreeks(m, spot, K, T, sigma, Put);
    TwoLegs(m, call, put, spot, 125_000.0);
    CallPutGreeks(m, spot, K, T, sigma);
    OffsettingContracts(c, p, spot, n, !DegenerateAt(call, spot));
    assert LegGreeks(m, call, spot, 125_000.0) == Scale(InUsd(c, spot), n);
    assert LegGreeks(m, put, spot, 125_000.0) == Scale(InUsd(p, spot), -n);
  }

  lemma ZeroProduct(x: real, n: real)
    ensures Times(x, n) == 0.0 <==> x == 0.0 || n == 0.0
  {
  }

  /** It has no vega, gamma or theta, and the delta of the same quantity of full-size futures exactly when
      the option formulas apply (or there is no notional at all). */
  lemma SyntheticGreeks(m: Maths, call: Leg, put: Leg, future: Leg, spot: real)
    requires Lawful(m) && IsSynthetic(call, put)
    requires future.contract.Future? && future.side.Buy? && future.qtyFactor == call.qtyFactor
    ensures var net, hedge := NetGreeks(m, [call, put], spot, 125_000.0), LegGreeks(m, future, spot, 125_000.0);
            && net.vega == hedge.vega == 0.0 && net.gamma == hedge.gamma == 0.0 && net.theta == hedge.theta == 0.0
            && (net.delta == hedge.delta <==> !DegenerateAt(call, spot) || spot == 0.0 || call.qtyFactor == 0)
  {
    SyntheticNet(m, call, put, spot);
    ZeroProduct(125_000.0 * spot, call.qtyFactor as real);
    assert Times(0.0, call.qtyFactor as real) == 0.0;
  }

  /** A surface with one node, quoting a negative volatility, which the builder takes over like any number. */
  function NegativeVolSurface(): Surface {
    map["3M" := map["atm" := Node(Some(1.0), Some(-0.1))]]
  }

  function AtThreeMonths(today: int): Request {
    Request("3M", None, None, None, None, today)
  }

  function OnlyLeg(name: StructureName, today: int): Leg
    requires TemplateOf(name).Some? && TemplateOf(name).value.legs != []
  {
    BuildLeg(TemplateOf(name).value.legs[0], 0, true, NegativeVolSurface(), AtThreeMonths(today))
  }

  lemma NegativeVolLegs(today: int)
    ensures Built(VanillaCall, NegativeVolSurface(), AtThreeMonths(today)).value.legs == [OnlyLeg(VanillaCall, today)]
    ensures Built(ShortVanillaPut, NegativeVolSurface(), AtThreeMonths(today)).value.legs
            == [OnlyLeg(ShortVanillaPut, today)]
    ensures Built(FutureBuy, NegativeVolSurface(), AtThreeMonths(today)).value.legs == [OnlyLeg(FutureBuy, today)]
    ensures SpotOf(NegativeVolSurface()) == 1.0
    ensures IsSynthetic(OnlyLeg(VanillaCall, today), OnlyLeg(ShortVanillaPut, today))
    ensures DegenerateAt(OnlyLeg(VanillaCall, today), 1.0) && OnlyLeg(VanillaCall, today).qtyFactor == 1
    ensures var future := OnlyLeg(FutureBuy, today);
            future.contract.Future? && future.side.Buy? && future.qtyFactor == 1
  {
  }

  /** A built call and put, and the built future, at the degenerate branch: the pair has no delta at all. */
  lemma BuiltSyntheticLosesDelta(m: Maths, today: int)
    requires Lawful(m)
    ensures var surface, q := NegativeVolSurface(), AtThreeMonths(today);
            var call, put := Built(VanillaCall, surface, q).value.legs, Built(ShortVanillaPut, surface, q).value.legs;
            var future := Built(FutureBuy, surface, q).value.legs;
            NetGreeks(m, call + put, SpotOf(surface), 125_000.0).delta
            != NetGreeks(m, future, SpotOf(surface), 125_000.0).delta
  {
    var call, put := OnlyLeg(VanillaCall, today), OnlyLeg(ShortVanillaPut, today);
    NegativeVolLegs(today);
    assert [call] + [put] == [call, put];
    PairLosesDelta(m, call, put, OnlyLeg(FutureBuy, today));
  }

  lemma PairLosesDelta(m: Maths, call: Leg, put: Leg, future: Leg)
    requires Lawful(m) && IsSynthetic(call, put) && DegenerateAt(call, 1.0) && call.qtyFactor == 1
    requires future.contract.Future? && future.side.Buy? && future.qtyFactor == 1
    ensures NetGreeks(m, [call, put], 1.0, 125_000.0).delta != NetGreeks(m, [future], 1.0, 125_000.0).delta
  {
    SyntheticGreeks(m, call, put, future, 1.0);
    OneLeg(m, future, 1.0, 125_000.0);
  }

  lemma OneLeg(m: Maths, l: Leg, spot: real, futureMultiplier: real)
    requires Lawful(m)
    ensures NetGreeks(m, [l], spot, futureMultiplier) == LegGreeks(m, l, spot, futureMultiplier)
  {
    var x := LegGreeks(m, l, spot, futureMultiplier);
    assert EachGreeks(m, [l], spot, futureMultiplier) == [x];
    assert [x][..0] == [] && SumGreeks([x]) == Plus(NO_GREEKS, x);
  }
}

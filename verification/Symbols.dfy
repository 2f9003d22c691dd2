/** IB local symbols (src/shared/contracts.py): the printer of a leg's symbol and the parser of symbols.
    Strikes are exact reals. The parser's digit class is the regular-expression one, which is wider than ASCII:
    which other characters are digits, and of which value, is a parameter. */
module Symbols {

  import opened Options

  datatype Instrument = FUTURE | OPTION

  datatype Right = Call | Put

  datatype Spec = Spec(symbol: string, instrument: Instrument, multiplier: real, strike: Option<real>,
                            right: Option<Right>)

  const MONTH_LETTERS := "FGHJKMNQUVXZ"
  const DEFAULT_MULTIPLIER: real := 125_000.0

  function MultiplierFor(symbol: string): real {
    if symbol == "EUR" then 125_000.0 else if symbol == "M6E" then 12_500.0 else DEFAULT_MULTIPLIER
  }

  // ----- The printer -----

  type Month = m: int | 1 <= m <= 12 witness 1

  datatype Expiry = Expiry(year: nat, month: Month)

  function DigitChar(n: int): char
    requires 0 <= n <= 9
  {
    ('0' as int + n) as char
  }

  function Decimal(n: nat): string {
    if n < 10 then [DigitChar(n)] else Decimal(n / 10) + [DigitChar(n % 10)]
  }

  function Zeros(n: nat): string {
    if n == 0 then "" else Zeros(n - 1) + "0"
  }

  function ZeroPad(s: string, width: nat): string {
    if |s| < width then Zeros(width - |s|) + s else s
  }

  /** A number in a field of width four: zeros go between the sign and the digits. */
  function Pad4(k: int): string {
    if k >= 0 then ZeroPad(Decimal(k), 4) else "-" + ZeroPad(Decimal(-k), 3)
  }

  /** Truncation toward zero. */
  function Trunc(x: real): int {
    if x >= 0.0 then x.Floor else -((-x).Floor)
  }

  function Lower(s: string): string {
    seq(|s|, i requires 0 <= i < |s| => if 'A' <= s[i] <= 'Z' then (s[i] as int + 32) as char else s[i])
  }

  function MonthYear(e: Expiry): string {
    [MONTH_LETTERS[e.month - 1], DigitChar(e.year % 10)]
  }

  function PrintFuture(micro: bool, e: Expiry): string {
    (if micro then "M6E" else "6E") + MonthYear(e)
  }

  function PrintOption(right: Right, e: Expiry, thousandths: int): string {
    "EUU" + MonthYear(e) + " " + (if right.Call? then "C" else "P") + Pad4(thousandths)
  }

  function Build(contractType: Option<string>, expiry: Option<Expiry>, strike: Option<real>,
                 symbol: Option<string>): Option<string> {
    if expiry == None then None
    else
      var ct := if contractType.Some? then Lower(contractType.value) else "";
      if ct == "future" then Some(PrintFuture(symbol == Some("M6E"), expiry.value))
      else if (ct == "call" || ct == "put") && strike.Some? && strike.value != 0.0 then
        Some(PrintOption(if ct == "call" then Call else Put, expiry.value, Trunc(strike.value * 1000.0)))
      else None
  }

  // ----- The parser -----

  /** The value of a digit character, negative for any other character. */
  type Digits = char -> int

  ghost predicate Lawful(d: Digits) {
    forall c :: d(c) <= 9 && (c < 128 as char ==> d(c) == if '0' <= c <= '9' then c as int - '0' as int else -1)
  }

  predicate IsMonthLetter(c: char) {
    c in MONTH_LETTERS
  }

  predicate FourDigits(d: Digits, s: string) {
    |s| == 4 && d(s[0]) >= 0 && d(s[1]) >= 0 && d(s[2]) >= 0 && d(s[3]) >= 0
  }

  function FourValue(d: Digits, s: string): int
    requires |s| == 4
  {
    d(s[0]) * 1000 + d(s[1]) * 100 + d(s[2]) * 10 + d(s[3])
  }

  predicate MatchesOption(d: Digits, s: string) {
    |s| == 11 && s[..3] == "EUU" && IsMonthLetter(s[3]) && d(s[4]) >= 0 && s[5] == ' '
    && (s[6] == 'C' || s[6] == 'P') && FourDigits(d, s[7..])
  }

  predicate MatchesFuture(d: Digits, s: string) {
    || (|s| == 5 && s[..3] == "M6E" && IsMonthLetter(s[3]) && d(s[4]) >= 0)
    || (|s| == 4 && s[..2] == "6E" && IsMonthLetter(s[2]) && d(s[3]) >= 0)
  }

  /** The end anchor also matches before one trailing newline. */
  function Anchored(ls: string): string {
    if ls != "" && ls[|ls| - 1] == '\n' then ls[..|ls| - 1] else ls
  }

  function Parse(d: Digits, ls: Option<string>): Option<Spec> {
    if ls == None || ls.value == "" then None
    else
      var s := Anchored(ls.value);
      if MatchesOption(d, s) then
        Some(Spec("EUR", OPTION, MultiplierFor("EUR"), Some(FourValue(d, s[7..]) as real / 1000.0),
                  Some(if s[6] == 'C' then Call else Put)))
      else if MatchesFuture(d, s) then
        var symbol := if |s| == 4 then "EUR" else "M6E";
        Some(Spec(symbol, FUTURE, MultiplierFor(symbol), None, None))
      else None
  }

  // ----- Printed numbers read back -----

  predicate AsciiDigits(s: string) {
    forall i :: 0 <= i < |s| ==> '0' <= s[i] <= '9'
  }

  function ValueOf(s: string): int {
    if s == "" then 0 else ValueOf(s[..|s| - 1]) * 10 + (s[|s| - 1] as int - '0' as int)
  }

  lemma {:induction false} DecimalReads(n: nat)
    ensures AsciiDigits(Decimal(n)) && ValueOf(Decimal(n)) == n && |Decimal(n)| >= 1
  {
    if n >= 10 {
      DecimalReads(n / 10);
      assert Decimal(n)[..|Decimal(n)| - 1] == Decimal(n / 10);
    } else {
      assert [DigitChar(n)][..0] == "";
    }
  }

  lemma {:induction false} DecimalWidth(n: nat, w: nat, bound: nat)
    requires w >= 1 && bound == Pow10(w)
    ensures |Decimal(n)| <= w <==> n < bound
    decreases w
  {
    if n >= 10 {
      if w == 1 {
        DecimalReads(n / 10);
      } else {
        DecimalWidth(n / 10, w - 1, Pow10(w - 1));
      }
    } else {
      Pow10Positive(w);
    }
  }

  function Pow10(w: nat): nat {
    if w == 0 then 1 else 10 * Pow10(w - 1)
  }

  lemma {:induction false} Pow10Positive(w: nat)
    ensures Pow10(w) >= 1 && (w >= 1 ==> Pow10(w) >= 10)
  {
    if w >= 1 {
      Pow10Positive(w - 1);
    }
  }

  lemma {:induction false} ZerosRead(n: nat, s: string)
    requires AsciiDigits(s)
    ensures |Zeros(n)| == n && AsciiDigits(Zeros(n) + s) && ValueOf(Zeros(n) + s) == ValueOf(s)
    decreases n + |s|
  {
    if s == "" {
      assert Zeros(n) + s == Zeros(n);
      if n > 0 {
        ZerosRead(n - 1, "");
        assert Zeros(n - 1) + "" == Zeros(n - 1) && Zeros(n)[..n - 1] == Zeros(n - 1);
      }
    } else {
      var front := s[..|s| - 1];
      ZerosRead(n, front);
      assert (Zeros(n) + s)[..|Zeros(n) + s| - 1] == Zeros(n) + front;
      assert Zeros(n) + s == Zeros(n) + front + [s[|s| - 1]];
    }
  }

  lemma PaddedReads(n: nat, width: nat)
    ensures AsciiDigits(ZeroPad(Decimal(n), width)) && ValueOf(ZeroPad(Decimal(n), width)) == n
    ensures ZeroPad(Decimal(n), width) != ""
    ensures |Decimal(n)| <= width ==> |ZeroPad(Decimal(n), width)| == width
    ensures |Decimal(n)| > width ==> |ZeroPad(Decimal(n), width)| > width
  {
    DecimalReads(n);
    if |Decimal(n)| < width {
      ZerosRead(width - |Decimal(n)|, Decimal(n));
    }
  }

  /** The printed strike field has four digits exactly for 0..9999 thousandths, and then reads back. */
  lemma Pad4Reads(d: Digits, k: int)
    requires Lawful(d)
    ensures FourDigits(d, Pad4(k)) <==> 0 <= k <= 9999
    ensures FourDigits(d, Pad4(k)) ==> FourValue(d, Pad4(k)) == k
  {
    if k >= 0 {
      PaddedReads(k, 4);
      DecimalWidth(k, 4, 10_000);
      if k <= 9999 {
        FourDigitsRead(d, Pad4(k));
      }
    } else {
      assert Pad4(k)[0] == '-' && d('-') == -1;
    }
  }

  lemma FourDigitsRead(d: Digits, s: string)
    requires Lawful(d) && |s| == 4 && AsciiDigits(s)
    ensures FourDigits(d, s) && FourValue(d, s) == ValueOf(s)
  {
    var a, b, c := s[..1], s[..2], s[..3];
    assert a[..0] == "" && b[..1] == a && c[..2] == b && s[..3] == c;
    assert ValueOf(a) == d(s[0]);
    assert ValueOf(b) == ValueOf(a) * 10 + d(s[1]);
    assert ValueOf(c) == ValueOf(b) * 10 + d(s[2]);
  }

  /** Different numbers print differently, whatever their size and sign. */
  lemma Pad4Injective(j: int, k: int)
    requires Pad4(j) == Pad4(k)
    ensures j == k
  {
    PaddedReads(if j >= 0 then j else -j, if j >= 0 then 4 else 3);
    PaddedReads(if k >= 0 then k else -k, if k >= 0 then 4 else 3);
    if j < 0 {
      assert Pad4(j)[0] == '-' && Pad4(j)[1..] == ZeroPad(Decimal(-j), 3);
    }
    if k < 0 {
      assert Pad4(k)[0] == '-' && Pad4(k)[1..] == ZeroPad(Decimal(-k), 3);
    }
  }

  // ----- Round trips -----

  lemma MonthYearShape(d: Digits, e: Expiry)
    requires Lawful(d)
    ensures |MonthYear(e)| == 2 && IsMonthLetter(MonthYear(e)[0]) && d(MonthYear(e)[1]) == e.year % 10
  {
  }

  lemma OptionShape(right: Right, e: Expiry, k: int)
    ensures var s := PrintOption(right, e, k);
            && |s| >= 7 && s[..3] == "EUU" && s[3..5] == MonthYear(e) && s[5] == ' '
            && s[6] == (if right.Call? then 'C' else 'P') && s[7..] == Pad4(k)
            && |s| == 7 + |Pad4(k)| && |Pad4(k)| >= 1 && s[|s| - 1] == Pad4(k)[|Pad4(k)| - 1]
  {
    Pad4NoNewline(k);
    PartsShape(MonthYear(e), if right.Call? then "C" else "P", Pad4(k));
  }

  lemma PartsShape(my: string, side: string, pad: string)
    requires |my| == 2 && |side| == 1 && pad != ""
    ensures var s := "EUU" + my + " " + side + pad;
            && |s| == 7 + |pad| && s[..3] == "EUU" && s[3..5] == my && s[5] == ' ' && s[6] == side[0]
            && s[7..] == pad && s[|s| - 1] == pad[|pad| - 1]
  {
    var s := "EUU" + my + " " + side + pad;
    assert s == "EUU" + (my + " " + side + pad);
    assert s == "EUU" + my + (" " + side + pad);
  }

  lemma Pad4NoNewline(k: int)
    ensures Pad4(k) != "" && Pad4(k)[|Pad4(k)| - 1] != '\n'
  {
    PaddedReads(if k >= 0 then k else -k, if k >= 0 then 4 else 3);
    if k < 0 {
      var digits := ZeroPad(Decimal(-k), 3);
      assert Pad4(k)[|Pad4(k)| - 1] == digits[|digits| - 1];
    }
  }

  /** A printed option parses back to its class, multiplier, type and strike exactly when the strike is
      0 to 9.999 in whole thousandths; any other strike prints a symbol the parser refuses. */
  lemma OptionRoundTrip(d: Digits, right: Right, e: Expiry, k: int)
    requires Lawful(d)
    ensures Parse(d, Some(PrintOption(right, e, k)))
            == if 0 <= k <= 9999 then Some(Spec("EUR", OPTION, 125_000.0, Some(k as real / 1000.0), Some(right)))
               else None
  {
    var s := PrintOption(right, e, k);
    OptionShape(right, e, k);
    Pad4Reads(d, k);
    Pad4NoNewline(k);
    MonthYearShape(d, e);
    assert s[3] == s[3..5][0] && s[4] == s[3..5][1];
    assert Anchored(s) == s;
    assert s[0] == s[..3][0] == 'E';
    assert !MatchesFuture(d, s);
  }

  lemma FutureRoundTrip(d: Digits, micro: bool, e: Expiry)
    requires Lawful(d)
    ensures Parse(d, Some(PrintFuture(micro, e)))
            == Some(if micro then Spec("M6E", FUTURE, 12_500.0, None, None)
                    else Spec("EUR", FUTURE, 125_000.0, None, None))
  {
    var s, my := PrintFuture(micro, e), MonthYear(e);
    MonthYearShape(d, e);
    assert s[|s| - 2] == my[0] && s[|s| - 1] == my[1];
    assert DigitChar(e.year % 10) != '\n';
    assert Anchored(s) == s;
    if micro {
      assert s[..3] == "M6E";
    } else {
      assert s[..2] == "6E";
    }
  }

  lemma ThousandthsTruncate(k: int)
    ensures Trunc(k as real / 1000.0 * 1000.0) == k
  {
    assert k as real / 1000.0 * 1000.0 == k as real;
  }

  /** On strikes that are exact thousandths 0.001 to 9.999 the parser undoes the printer. */
  lemma BuildRoundTrip(d: Digits, contractType: string, e: Expiry, k: int, symbol: Option<string>)
    requires Lawful(d) && 1 <= k <= 9999 && (Lower(contractType) == "call" || Lower(contractType) == "put")
    ensures Parse(d, Build(Some(contractType), Some(e), Some(k as real / 1000.0), symbol))
            == Some(Spec("EUR", OPTION, 125_000.0, Some(k as real / 1000.0),
                         Some(if Lower(contractType) == "call" then Call else Put)))
  {
    ThousandthsTruncate(k);
    OptionRoundTrip(d, if Lower(contractType) == "call" then Call else Put, e, k);
  }

  // ----- Injectivity -----

  /** What a symbol identifies. */
  datatype Printed =
    | Fut(micro: bool, month: int, yearDigit: int)
    | Opt(right: Right, month: int, yearDigit: int, thousandths: int)

  function Print(p: Printed): string
    requires 1 <= p.month <= 12 && 0 <= p.yearDigit <= 9
  {
    match p
    case Fut(micro, month, y) => PrintFuture(micro, Expiry(y, month))
    case Opt(right, month, y, k) => PrintOption(right, Expiry(y, month), k)
  }

  lemma MonthYearInjective(a: Expiry, b: Expiry)
    requires MonthYear(a) == MonthYear(b)
    ensures a.month == b.month && a.year % 10 == b.year % 10
  {
    assert MonthYear(a)[0] == MonthYear(b)[0] && MonthYear(a)[1] == MonthYear(b)[1];
    LettersDiffer(a.month - 1, b.month - 1);
  }

  lemma LettersDiffer(i: int, j: int)
    requires 0 <= i < 12 && 0 <= j < 12 && MONTH_LETTERS[i] == MONTH_LETTERS[j]
    ensures i == j
  {
  }

  lemma FutureShape(micro: bool, e: Expiry)
    ensures var s := PrintFuture(micro, e);
            && |s| == (if micro then 5 else 4) && s[|s| - 2..] == MonthYear(e) && s[0] == (if micro then 'M' else '6')
  {
  }

  lemma OptionsDiffer(r: Right, a: Expiry, j: int, q: Right, b: Expiry, k: int)
    requires PrintOption(r, a, j) == PrintOption(q, b, k)
    ensures r == q && a.month == b.month && a.year % 10 == b.year % 10 && j == k
  {
    OptionShape(r, a, j);
    OptionShape(q, b, k);
    MonthYearInjective(a, b);
    Pad4Injective(j, k);
  }

  lemma FuturesDiffer(m: bool, a: Expiry, n: bool, b: Expiry)
    requires PrintFuture(m, a) == PrintFuture(n, b)
    ensures m == n && a.month == b.month && a.year % 10 == b.year % 10
  {
    FutureShape(m, a);
    FutureShape(n, b);
    MonthYearInjective(a, b);
  }

  lemma ClassesDiffer(r: Right, a: Expiry, k: int, micro: bool, b: Expiry)
    ensures PrintOption(r, a, k) != PrintFuture(micro, b)
  {
    OptionShape(r, a, k);
    FutureShape(micro, b);
    var s := PrintOption(r, a, k);
    assert s[0] == s[..3][0];
  }

  /** Symbols are printed differently unless class, month, year digit, right and thousandths all agree. */
  lemma PrintInjective(p: Printed, q: Printed)
    requires 1 <= p.month <= 12 && 0 <= p.yearDigit <= 9 && 1 <= q.month <= 12 && 0 <= q.yearDigit <= 9
    requires Print(p) == Print(q)
    ensures p == q
  {
    var a, b := Expiry(p.yearDigit, p.month), Expiry(q.yearDigit, q.month);
    match (p, q)
    case (Opt(r, _, _, j), Opt(t, _, _, k)) => OptionsDiffer(r, a, j, t, b, k);
    case (Fut(m, _, _), Fut(n, _, _)) => FuturesDiffer(m, a, n, b);
    case (Opt(r, _, _, j), Fut(n, _, _)) => ClassesDiffer(r, a, j, n, b);
    case (Fut(m, _, _), Opt(t, _, _, k)) => ClassesDiffer(t, b, k, m, a);
  }

  /** What a call of the printer identifies, when it prints anything. */
  function Identity(contractType: Option<string>, expiry: Option<Expiry>, strike: Option<real>,
                    symbol: Option<string>): Option<Printed> {
    if expiry == None then None
    else
      var ct := if contractType.Some? then Lower(contractType.value) else "";
      if ct == "future" then Some(Fut(symbol == Some("M6E"), expiry.value.month, expiry.value.year % 10))
      else if (ct == "call" || ct == "put") && strike.Some? && strike.value != 0.0 then
        Some(Opt(if ct == "call" then Call else Put, expiry.value.month, expiry.value.year % 10,
                 Trunc(strike.value * 1000.0)))
      else None
  }

  lemma BuildPrints(ct: Option<string>, e: Option<Expiry>, k: Option<real>, symbol: Option<string>)
    ensures Build(ct, e, k, symbol) == match Identity(ct, e, k, symbol) case None => None case Some(p) => Some(Print(p))
  {
    if e.Some? {
      assert MonthYear(e.value) == MonthYear(Expiry(e.value.year % 10, e.value.month));
    }
  }

  /** Two calls that print the same symbol agree on everything the symbol stands for. */
  lemma BuildInjective(ct1: Option<string>, e1: Option<Expiry>, k1: Option<real>, s1: Option<string>,
                       ct2: Option<string>, e2: Option<Expiry>, k2: Option<real>, s2: Option<string>)
    requires Build(ct1, e1, k1, s1).Some? && Build(ct1, e1, k1, s1) == Build(ct2, e2, k2, s2)
    ensures Identity(ct1, e1, k1, s1) == Identity(ct2, e2, k2, s2)
  {
    BuildPrints(ct1, e1, k1, s1);
    BuildPrints(ct2, e2, k2, s2);
    PrintInjective(Identity(ct1, e1, k1, s1).value, Identity(ct2, e2, k2, s2).value);
  }

  // ----- Which accepted symbols are printouts -----

  ghost predicate IsPrintout(ls: string) {
    exists ct, e, k, symbol :: Build(ct, e, k, symbol) == Some(ls)
  }

  predicate PlainAscii(ls: string) {
    forall i :: 0 <= i < |ls| ==> ls[i] < 128 as char && ls[i] != '\n'
  }

  lemma PlainAppend(s: string, t: string)
    ensures PlainAscii(s + t) <==> PlainAscii(s) && PlainAscii(t)
  {
    if PlainAscii(s + t) {
      assert forall i :: 0 <= i < |s| ==> s[i] == (s + t)[i];
      assert forall i :: 0 <= i < |t| ==> t[i] == (s + t)[|s| + i];
    }
  }

  lemma PlainParts(a: string, b: string, c: string, s: string, t: string)
    requires PlainAscii(a) && PlainAscii(b) && PlainAscii(c) && PlainAscii(s) && PlainAscii(t)
    ensures PlainAscii(a + b + c + s + t)
  {
    PlainAppend(a, b);
    PlainAppend(a + b, c);
    PlainAppend(a + b + c, s);
    PlainAppend(a + b + c + s, t);
  }

  lemma PlainPad4(k: int)
    ensures PlainAscii(Pad4(k))
  {
    PaddedReads(if k >= 0 then k else -k, if k >= 0 then 4 else 3);
    if k < 0 {
      PlainAppend("-", ZeroPad(Decimal(-k), 3));
    }
  }

  lemma PrintsPlain(p: Printed)
    requires 1 <= p.month <= 12 && 0 <= p.yearDigit <= 9
    ensures PlainAscii(Print(p))
  {
    var my := MonthYear(Expiry(p.yearDigit, p.month));
    assert PlainAscii(my);
    match p
    case Fut(micro, _, _) =>
      PlainAppend(if micro then "M6E" else "6E", my);
    case Opt(right, _, _, k) =>
      PlainPad4(k);
      PlainParts("EUU", my, " ", if right.Call? then "C" else "P", Pad4(k));
  }

  /** Digit strings of one length are told apart by their values. */
  lemma {:induction false} ValueInjective(s: string, t: string)
    requires AsciiDigits(s) && AsciiDigits(t) && |s| == |t| && ValueOf(s) == ValueOf(t)
    ensures s == t
  {
    if s == "" {
    } else {
      var n := |s| - 1;
      ValueInjective(s[..n], t[..n]);
      assert s == s[..n] + [s[n]] && t == t[..n] + [t[n]];
    }
  }

  lemma FourPrints(d: Digits, s: string)
    requires Lawful(d) && |s| == 4 && AsciiDigits(s)
    ensures 0 <= FourValue(d, s) <= 9999 && Pad4(FourValue(d, s)) == s
  {
    var k := FourValue(d, s);
    FourDigitsRead(d, s);
    PaddedReads(k, 4);
    DecimalWidth(k, 4, 10_000);
    ValueInjective(Pad4(k), s);
  }

  lemma MonthYearOf(d: Digits, letter: char, digit: char) returns (e: Expiry)
    requires Lawful(d) && IsMonthLetter(letter) && d(digit) >= 0 && digit < 128 as char
    ensures MonthYear(e) == [letter, digit]
  {
    var i :| 0 <= i < |MONTH_LETTERS| && MONTH_LETTERS[i] == letter;
    e := Expiry(d(digit), i + 1);
  }

  function TypeName(spec: Spec): string {
    if spec.instrument.FUTURE? then "future" else if spec.right == Some(Call) then "call" else "put"
  }

  /** The strike itself; a zero strike, which the printer refuses, is replaced by half a thousandth. */
  function PrintableStrike(spec: Spec): Option<real> {
    if spec.strike == Some(0.0) then Some(0.0005) else spec.strike
  }

  lemma OptionReprints(d: Digits, s: string) returns (e: Expiry)
    requires Lawful(d) && PlainAscii(s) && MatchesOption(d, s)
    ensures PrintOption(if s[6] == 'C' then Call else Put, e, FourValue(d, s[7..])) == s
  {
    e := MonthYearOf(d, s[3], s[4]);
    var strike := s[7..];
    assert forall i :: 0 <= i < 4 ==> strike[i] == s[7 + i];
    FourPrints(d, strike);
    assert s == s[..3] + [s[3], s[4]] + [s[5]] + [s[6]] + strike;
  }

  lemma FutureReprints(d: Digits, s: string) returns (e: Expiry)
    requires Lawful(d) && PlainAscii(s) && MatchesFuture(d, s)
    ensures PrintFuture(|s| == 5, e) == s
  {
    var n := |s| - 2;
    e := MonthYearOf(d, s[n], s[n + 1]);
    assert s == s[..n] + [s[n], s[n + 1]];
  }

  lemma LowerNames()
    ensures Lower("future") == "future" && Lower("call") == "call" && Lower("put") == "put"
  {
  }

  lemma BuildOption(right: Right, e: Expiry, strike: real, symbol: Option<string>)
    requires strike != 0.0
    ensures Build(Some(if right.Call? then "call" else "put"), Some(e), Some(strike), symbol)
            == Some(PrintOption(right, e, Trunc(strike * 1000.0)))
  {
    LowerNames();
  }

  lemma BuildFuture(micro: bool, e: Expiry, strike: Option<real>)
    ensures Build(Some("future"), Some(e), strike, Some(if micro then "M6E" else "EUR")) == Some(PrintFuture(micro, e))
  {
    LowerNames();
  }

  lemma PrintableThousandths(k: int, spec: Spec)
    requires spec.strike == Some(k as real / 1000.0)
    ensures PrintableStrike(spec).Some? && PrintableStrike(spec).value != 0.0
    ensures Trunc(PrintableStrike(spec).value * 1000.0) == k
  {
    ThousandthsTruncate(k);
  }

  ghost predicate ReadAsOption(d: Digits, s: string, spec: Spec) {
    && MatchesOption(d, s) && spec.instrument.OPTION? && spec.strike == Some(FourValue(d, s[7..]) as real / 1000.0)
    && spec.right == Some(if s[6] == 'C' then Call else Put)
  }

  ghost predicate ReadAsFuture(d: Digits, s: string, spec: Spec) {
    MatchesFuture(d, s) && spec.instrument.FUTURE? && spec.symbol == if |s| == 5 then "M6E" else "EUR"
  }

  lemma Readings(d: Digits, s: string, spec: Spec)
    requires Anchored(s) == s && Parse(d, Some(s)) == Some(spec)
    ensures ReadAsOption(d, s, spec) || ReadAsFuture(d, s, spec)
  {
  }

  lemma SpecBuilds(spec: Spec, right: Right, k: int, e: Expiry)
    requires spec.instrument.OPTION? && spec.right == Some(right) && spec.strike == Some(k as real / 1000.0)
    ensures Build(Some(TypeName(spec)), Some(e), PrintableStrike(spec), Some(spec.symbol))
            == Some(PrintOption(right, e, k))
  {
    PrintableThousandths(k, spec);
    BuildOption(right, e, PrintableStrike(spec).value, Some(spec.symbol));
  }

  lemma OptionRebuilt(d: Digits, s: string, spec: Spec) returns (e: Expiry)
    requires Lawful(d) && PlainAscii(s) && ReadAsOption(d, s, spec)
    ensures Build(Some(TypeName(spec)), Some(e), PrintableStrike(spec), Some(spec.symbol)) == Some(s)
  {
    e := OptionReprints(d, s);
    SpecBuilds(spec, if s[6] == 'C' then Call else Put, FourValue(d, s[7..]), e);
  }

  lemma FutureRebuilt(d: Digits, s: string, spec: Spec) returns (e: Expiry)
    requires Lawful(d) && PlainAscii(s) && ReadAsFuture(d, s, spec)
    ensures Build(Some(TypeName(spec)), Some(e), PrintableStrike(spec), Some(spec.symbol)) == Some(s)
  {
    e := FutureReprints(d, s);
    BuildFuture(|s| == 5, e, PrintableStrike(spec));
  }

  lemma PlainIsAnchored(s: string)
    requires PlainAscii(s)
    ensures Anchored(s) == s
  {
  }

  /** Every accepted symbol in plain ASCII is what the printer makes of its own parsed fields
      and the month and year it names. */
  lemma AcceptedReprints(d: Digits, ls: string, spec: Spec) returns (e: Expiry)
    requires Lawful(d) && PlainAscii(ls) && Parse(d, Some(ls)) == Some(spec)
    ensures Build(Some(TypeName(spec)), Some(e), PrintableStrike(spec), Some(spec.symbol)) == Some(ls)
  {
    PlainIsAnchored(ls);
    Readings(d, ls, spec);
    if ReadAsOption(d, ls, spec) {
      e := OptionRebuilt(d, ls, spec);
    } else {
      e := FutureRebuilt(d, ls, spec);
    }
  }

  /** Among the accepted symbols the printouts are those in plain ASCII: the parser also takes
      digits of other scripts and one trailing newline, which the printer never writes. */
  lemma PrintoutIffPlain(d: Digits, ls: string)
    requires Lawful(d) && Parse(d, Some(ls)).Some?
    ensures IsPrintout(ls) <==> PlainAscii(ls)
  {
    if IsPrintout(ls) {
      var ct, e, k, symbol :| Build(ct, e, k, symbol) == Some(ls);
      BuildPrints(ct, e, k, symbol);
      PrintsPlain(Identity(ct, e, k, symbol).value);
    }
    if PlainAscii(ls) {
      var e := AcceptedReprints(d, ls, Parse(d, Some(ls)).value);
    }
  }

  /** A trailing newline is ignored on every symbol that does not already end in one. */
  lemma NewlineIgnored(d: Digits, s: string)
    requires s != "" && s[|s| - 1] != '\n'
    ensures Parse(d, Some(s + "\n")) == Parse(d, Some(s))
  {
    assert (s + "\n")[..|s|] == s;
  }

  /** A printed future with a newline after it is accepted, and no printout. */
  lemma NewlineIsAccepted(d: Digits, micro: bool, e: Expiry)
    requires Lawful(d)
    ensures var ls := PrintFuture(micro, e) + "\n";
            Parse(d, Some(ls)).Some? && !IsPrintout(ls)
  {
    var s := PrintFuture(micro, e);
    var ls := s + "\n";
    FutureRoundTrip(d, micro, e);
    FutureShape(micro, e);
    assert s[|s| - 1] == s[|s| - 2..][1] == DigitChar(e.year % 10);
    NewlineIgnored(d, s);
    assert ls[|s|] == '\n';
    PrintoutIffPlain(d, ls);
  }

  // ----- Month letters and year digits -----

  /** Later months have later letters, and the year digit is the last one of the year as printed. */
  lemma MonthYearReads(e: Expiry, f: Expiry)
    ensures |MonthYear(e)| == 2
    ensures e.month < f.month ==> MonthYear(e)[0] < MonthYear(f)[0]
    ensures MonthYear(e)[1] == Decimal(e.year)[|Decimal(e.year)| - 1]
  {
    assert forall i, j :: 0 <= i < j < |MONTH_LETTERS| ==> MONTH_LETTERS[i] < MONTH_LETTERS[j];
  }

  /** The option the source gives as its example: the October 2026 call at 1.160. */
  lemma OctoberCall()
    ensures Build(Some("call"), Some(Expiry(2026, 10)), Some(1.160), Some("EUR")) == Some("EUUV6 C1160")
  {
    assert Lower("call") == "call";
    assert Trunc(1.160 * 1000.0) == 1160;
    assert Decimal(1) == "1" && Decimal(11) == "11" && Decimal(116) == "116" && Decimal(1160) == "1160";
    assert MonthYear(Expiry(2026, 10)) == "V6";
    assert PrintOption(Call, Expiry(2026, 10), 1160) == "EUUV6 C1160";
  }
}

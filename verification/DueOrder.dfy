/** The fixed-width due-time code of the Redis schedule index.

    A due time is a number with eighteen significant decimal digits, which is
    what both encoders read from its `%.17e` text. The code turns numeric order
    into lexicographic order, for both signs and zero. */
module DueOrder {
  import opened TextOrder

  type Digit = d: nat | d < 10

  const WIDTH := 18
  const BIAS := 500

  function Pow10(n: nat): (p: int)
    ensures p >= 1
  {
    if n == 0 then 1 else 10 * Pow10(n - 1)
  }

  /** The number that a big-endian run of decimal digits denotes. */
  function Number(ds: seq<Digit>): (n: int)
    ensures 0 <= n < Pow10(|ds|)
  {
    if ds == [] then 0
    else
      var p := Pow10(|ds| - 1);
      NonNegative(ds[0], p);
      NonNegative(9 - ds[0], p);
      ds[0] * p + Number(ds[1..])
  }

  predicate Normalised(digits: seq<Digit>, exponent: int) {
    |digits| == WIDTH && digits[0] != 0 && -BIAS <= exponent < BIAS
  }

  datatype RawDecimal =
    | Zero
    | Scientific(negative: bool, digits: seq<Digit>, exponent: int)

  /** Zero, or d.ddddddddddddddddd x 10^exponent of either sign. Every finite
      double has an exponent between -324 and 308, well inside the range. */
  type Decimal = d: RawDecimal | d.Scientific? ==> Normalised(d.digits, d.exponent) witness Zero

  function Magnitude(digits: seq<Digit>, exponent: int): int
    requires Normalised(digits, exponent)
  {
    Number(digits) * Pow10(exponent + BIAS)
  }

  function TenTo(e: int): (p: real)
    ensures p > 0.0
    decreases if e < 0 then -e else e
  {
    if e == 0 then 1.0 else if e > 0 then 10.0 * TenTo(e - 1) else TenTo(e + 1) / 10.0
  }

  function Value(d: Decimal): real {
    match d
    case Zero => 0.0
    case Scientific(negative, digits, exponent) =>
      var magnitude := Number(digits) as real * TenTo(exponent - |digits| + 1);
      if negative then -magnitude else magnitude
  }

  /** Scaled by one power of ten every such number is an integer. */
  function Scaled(d: Decimal): int {
    match d
    case Zero => 0
    case Scientific(negative, digits, exponent) =>
      if negative then -Magnitude(digits, exponent) else Magnitude(digits, exponent)
  }

  lemma {:induction false} TenToShift(e: int, n: nat)
    ensures TenTo(e + n) == TenTo(e) * Pow10(n) as real
  {
    if n > 0 {
      TenToShift(e, n - 1);
      assert TenTo(e + n) == 10.0 * TenTo(e + n - 1);
    }
  }

  lemma ScaledValue(d: Decimal, shift: nat)
    requires d.Scientific? ==> shift == BIAS + |d.digits| - 1
    ensures Scaled(d) as real == Value(d) * Pow10(shift) as real
  {
    hide Number, TenTo, Pow10;
    if d.Scientific? {
      var low := d.exponent - |d.digits| + 1;
      TenToShift(low, shift);
      TenToPow(d.exponent + BIAS);
      assert low + shift == d.exponent + BIAS;
      ProductLaw(Number(d.digits), Pow10(d.exponent + BIAS), TenTo(low), Pow10(shift) as real);
    }
  }

  lemma TenToPow(n: nat)
    ensures TenTo(n) == Pow10(n) as real
  {
    TenToShift(0, n);
  }

  lemma ProductLaw(n: int, m: int, t: real, p: real)
    requires m as real == t * p
    ensures (n * m) as real == (n as real * t) * p
    ensures (-(n * m)) as real == (-(n as real * t)) * p
  {
    assert (n * m) as real == n as real * m as real;
    assert n as real * (t * p) == (n as real * t) * p;
    Negated(n as real * t, p);
  }

  lemma Negated(x: real, p: real)
    ensures (-x) * p == -(x * p)
  {}

  // ----- the `%.17e` text both encoders start from -----

  function DigitChar(d: Digit): char { '0' + d as char }

  function Text(ds: seq<Digit>): (t: string)
    ensures |t| == |ds| && forall i :: 0 <= i < |ds| ==> t[i] == DigitChar(ds[i])
  {
    seq(|ds|, i requires 0 <= i < |ds| => DigitChar(ds[i]))
  }

  function Repeat(c: char, n: nat): string { seq(n, i => c) }

  predicate IsDigit(c: char) { '0' <= c <= '9' }

  /** Three digits of a number below a thousand, `%03d`. */
  function ThreeDigits(n: nat): (ds: seq<Digit>)
    requires n < 1000
    ensures |ds| == 3
  {
    [n / 100, n % 100 / 10, n % 100 % 10]
  }

  lemma ThreeDigitsOf(a: Digit, b: Digit, c: Digit)
    ensures ThreeDigits(100 * a + 10 * b + c) == [a, b, c]
  {}

  lemma ThreeDigitsAre(n: nat) returns (a: Digit, b: Digit, c: Digit)
    requires n < 1000
    ensures n == 100 * a + 10 * b + c && ThreeDigits(n) == [a, b, c]
  {
    a, b, c := n / 100, n % 100 / 10, n % 100 % 10;
  }

  lemma ThreeDigitsNumber(n: nat)
    requires n < 1000
    ensures Number(ThreeDigits(n)) == n
  {
    var a, b, c := ThreeDigitsAre(n);
    hide ThreeDigits;
    assert [a, b, c][1..] == [b, c] && [b, c][1..] == [c] && [c][1..] == [];
    assert Pow10(2) == 100 && Pow10(1) == 10 && Pow10(0) == 1;
    assert Number([c]) == c;
    assert Number([b, c]) == b as int * 10 + c;
  }

  function Pad3(n: int): string {
    if 0 <= n < 1000 then Text(ThreeDigits(n)) else ""
  }

  /** The exponent as C prints it: a sign and at least two digits. */
  function ExponentText(e: int): string
    requires -1000 < e < 1000
  {
    var n := if e < 0 then -e else e;
    (if e < 0 then "-" else "+") + (if n < 100 then Text(ThreeDigits(n))[1..] else Text(ThreeDigits(n)))
  }

  function ScientificText(digits: seq<Digit>, exponent: int): string
    requires Normalised(digits, exponent)
  {
    Text(digits[..1]) + "." + Text(digits[1..]) + "e" + ExponentText(exponent)
  }

  function CharDigit(c: char): Digit {
    if IsDigit(c) then c as int - '0' as int else 0
  }

  function ParseDigits(t: string): nat {
    if t == "" then 0 else ParseDigits(t[..|t| - 1]) * 10 + CharDigit(t[|t| - 1])
  }

  /** Python's `int(...)` and Lua's `tonumber(...)` on a signed run of digits. */
  function ParseSigned(t: string): int {
    if t == "" then 0
    else if t[0] == '-' then 0 - ParseDigits(t[1..])
    else ParseDigits(t[1..])
  }

  lemma ExponentRoundTrip(e: int)
    requires -1000 < e < 1000
    ensures ParseSigned(ExponentText(e)) == e
  {
    var n := if e < 0 then -e else e;
    ExponentDigits(n);
    assert ExponentText(e)[1..] == if n < 100 then Text(ThreeDigits(n))[1..] else Text(ThreeDigits(n));
  }

  lemma ExponentDigits(n: nat)
    requires n < 1000
    ensures ParseDigits(Text(ThreeDigits(n))) == n
    ensures n < 100 ==> ParseDigits(Text(ThreeDigits(n))[1..]) == n
  {
    var a, b, c := ThreeDigitsAre(n);
    hide ThreeDigits;
    var t := Text([a, b, c]);
    ThreeChars(t);
    TwoChars(t[1..]);
    CharRoundTrip(a);
    CharRoundTrip(b);
    CharRoundTrip(c);
  }

  lemma CharRoundTrip(d: Digit)
    ensures IsDigit(DigitChar(d)) && CharDigit(DigitChar(d)) == d
  {}

  lemma TwoChars(t: string)
    requires |t| == 2
    ensures ParseDigits(t) == 10 * CharDigit(t[0]) + CharDigit(t[1])
  {
    assert t[..1][..0] == "";
    assert ParseDigits(t[..1]) == CharDigit(t[0]);
  }

  lemma ThreeChars(t: string)
    requires |t| == 3
    ensures ParseDigits(t) == 100 * CharDigit(t[0]) + 10 * CharDigit(t[1]) + CharDigit(t[2])
  {
    TwoChars(t[..2]);
  }

  /** The sign, the exponent code and the digits, as both encoders lay them out. */
  function Layout(negative: bool, exponentCode: int, digits: string, inverted: string): string {
    if negative then "0" + Pad3(999 - exponentCode) + inverted else "1" + Pad3(exponentCode) + digits
  }

  // ----- Python: encode_due_order -----

  /** Index of the first occurrence, or the length when there is none. */
  function IndexOf(c: char, t: string): (i: nat)
    ensures i <= |t| && c !in t[..i] && (i < |t| ==> t[i] == c)
  {
    if t == "" || t[0] == c then 0 else 1 + IndexOf(c, t[1..])
  }

  /** `t.replace(c, "")`. */
  function Replaced(c: char, t: string): string {
    if t == "" then "" else (if t[0] == c then "" else [t[0]]) + Replaced(c, t[1..])
  }

  function Drop(t: string, n: nat): string {
    if n <= |t| then t[n..] else ""
  }

  function PythonEncode(d: Decimal): string {
    match d
    case Zero => "1000" + Repeat('0', 18)
    case Scientific(negative, ds, exponent) => PythonScientific(negative, ScientificText(ds, exponent))
  }

  function PythonScientific(negative: bool, scientific: string): string {
    var e := IndexOf('e', scientific);
    var digits := Replaced('.', scientific[..e]);
    var exponentCode := ParseSigned(Drop(scientific, e + 1)) + BIAS;
    Layout(negative, exponentCode, digits, PythonInverted(digits))
  }

  /** `"".join(str(9 - int(digit)) for digit in digits)`. */
  function PythonInverted(digits: string): string {
    seq(|digits|, i requires 0 <= i < |digits| => DigitChar(9 - CharDigit(digits[i])))
  }

  // ----- Lua: due_order -----

  /** Length of the longest prefix matched by `[0-9]*`. */
  function DigitRun(t: string): (n: nat)
    ensures n <= |t|
  {
    if t == "" || !IsDigit(t[0]) then 0 else 1 + DigitRun(t[1..])
  }

  /** The captures of `([0-9])%.([0-9]+)e([+-][0-9]+)`, or nothing. */
  function LuaMatch(t: string): (string, string, string) {
    if |t| < 2 || !IsDigit(t[0]) || t[1] != '.' then ("", "", "")
    else
      var rest := t[2..];
      var n := DigitRun(rest);
      if n == 0 || |rest| < n + 2 || rest[n] != 'e' || rest[n + 1] !in "+-" then ("", "", "")
      else
        var m := DigitRun(rest[n + 2..]);
        (t[..1], rest[..n], rest[n + 1..n + 2 + m])
  }

  function LuaEncode(d: Decimal): string {
    match d
    case Zero => "1000" + Repeat('0', 18)
    case Scientific(negative, ds, exponent) => LuaScientific(negative, ScientificText(ds, exponent))
  }

  function LuaScientific(negative: bool, scientific: string): string {
    var (mantissa, fraction, exponentText) := LuaMatch(scientific);
    var exponentCode := ParseSigned(exponentText) + BIAS;
    var digits := mantissa + fraction;
    Layout(negative, exponentCode, digits, LuaInverted(digits))
  }

  /** `string.gsub(digits, '%d', ...)`: a digit becomes '9' - (digit - '0'). */
  function LuaInverted(t: string): string {
    if t == "" then ""
    else [if IsDigit(t[0]) then ('9' as int - (t[0] as int - '0' as int)) as char else t[0]] + LuaInverted(t[1..])
  }

  // ----- the code itself -----

  /** Three exponent digits, then the eighteen significant digits. */
  function KeyDigits(digits: seq<Digit>, exponent: int): (k: seq<Digit>)
    requires Normalised(digits, exponent)
    ensures |k| == WIDTH + 3
  {
    ThreeDigits(exponent + BIAS) + digits
  }

  function Complement(ds: seq<Digit>): (r: seq<Digit>)
    ensures |r| == |ds| && forall i :: 0 <= i < |ds| ==> r[i] == 9 - ds[i]
  {
    seq(|ds|, i requires 0 <= i < |ds| => 9 - ds[i])
  }

  function Code(d: Decimal): (code: string)
    ensures |code| == WIDTH + 4
  {
    match d
    case Zero => "1" + Text(seq(WIDTH + 3, i => 0))
    case Scientific(negative, ds, e) =>
      if negative then "0" + Text(Complement(KeyDigits(ds, e))) else "1" + Text(KeyDigits(ds, e))
  }

  lemma {:induction false} IndexAfter(c: char, t: string, u: string)
    requires c !in t
    ensures IndexOf(c, t + [c] + u) == |t|
  {
    if t != "" {
      assert (t + [c] + u)[1..] == t[1..] + [c] + u;
      IndexAfter(c, t[1..], u);
    }
  }

  lemma {:induction false} WithoutAbsent(c: char, t: string)
    requires c !in t
    ensures Replaced(c, t) == t
  {
    if t != "" {
      WithoutAbsent(c, t[1..]);
      assert t == [t[0]] + t[1..];
    }
  }

  lemma {:induction false} DigitRunOf(ds: seq<Digit>, rest: string)
    requires rest == "" || !IsDigit(rest[0])
    ensures DigitRun(Text(ds) + rest) == |ds|
  {
    if ds != [] {
      assert (Text(ds) + rest)[1..] == Text(ds[1..]) + rest;
      DigitRunOf(ds[1..], rest);
    } else {
      assert Text(ds) + rest == rest;
    }
  }

  lemma {:induction false} InvertedText(ds: seq<Digit>)
    ensures LuaInverted(Text(ds)) == Text(Complement(ds))
  {
    if ds != [] {
      assert Text(ds)[1..] == Text(ds[1..]);
      InvertedText(ds[1..]);
      assert Text(Complement(ds)) == [DigitChar(9 - ds[0])] + Text(Complement(ds[1..]));
    }
  }

  /** Both programs print the exponent code of the complement directly; digit by
      digit it is the complement of the exponent code. */
  lemma ComplementOfThree(n: nat)
    requires n < 1000
    ensures ThreeDigits(999 - n) == Complement(ThreeDigits(n))
  {
    var a, b, c := ThreeDigitsAre(n);
    ThreeDigitsOf(9 - a, 9 - b, 9 - c);
  }

  lemma ScientificParts(ds: seq<Digit>, e: int)
    requires Normalised(ds, e)
    ensures var t := ScientificText(ds, e);
            IndexOf('e', t) == WIDTH + 1 && Drop(t, WIDTH + 2) == ExponentText(e) &&
            Replaced('.', t[..WIDTH + 1]) == Text(ds)
  {
    hide ThreeDigits, Text, IndexOf, Replaced, ExponentText;
    var t := ScientificText(ds, e);
    var first, rest := Text(ds[..1]), Text(ds[1..]);
    var head := first + "." + rest;
    HeadText(ds);
    assert t == head + ['e'] + ExponentText(e);
    IndexAfter('e', head, ExponentText(e));
    assert t[..WIDTH + 1] == head;
    WithoutPoint(DigitChar(ds[0]), rest);
  }

  lemma HeadText(ds: seq<Digit>)
    requires |ds| == WIDTH
    ensures var first, rest := Text(ds[..1]), Text(ds[1..]);
            && first == [DigitChar(ds[0])] && |rest| == WIDTH - 1 && Text(ds) == [DigitChar(ds[0])] + rest
            && IsDigit(DigitChar(ds[0])) && forall i :: 0 <= i < |rest| ==> IsDigit(rest[i])
  {}

  lemma ReplacedHead(c: char, x: char, t: string)
    ensures Replaced(c, [x] + t) == if x == c then Replaced(c, t) else [x] + Replaced(c, t)
  {
    assert ([x] + t)[1..] == t;
    assert "" + Replaced(c, t) == Replaced(c, t);
  }

  lemma DigitIsNoPoint(c: char)
    requires IsDigit(c)
    ensures c != '.'
  {}

  lemma NoPoint(t: string)
    requires forall i :: 0 <= i < |t| ==> IsDigit(t[i])
    ensures '.' !in t
  {}

  lemma WithoutPoint(c: char, rest: string)
    requires IsDigit(c) && forall i :: 0 <= i < |rest| ==> IsDigit(rest[i])
    ensures Replaced('.', [c] + "." + rest) == [c] + rest
  {
    hide Replaced, IsDigit;
    var point := ['.'] + rest;
    DigitIsNoPoint(c);
    Associative([c], ".", rest);
    ReplacedHead('.', c, point);
    ReplacedHead('.', '.', rest);
    NoPoint(rest);
    WithoutAbsent('.', rest);
  }

  lemma CodeFromParts(negative: bool, ds: seq<Digit>, e: int)
    requires Normalised(ds, e)
    ensures Code(Scientific(negative, ds, e)) ==
            Layout(negative, e + BIAS, Text(ds), Text(Complement(ds)))
  {
    var three := ThreeDigits(e + BIAS);
    ComplementOfThree(e + BIAS);
    TextConcat(three, ds);
    TextConcat(Complement(three), Complement(ds));
    ComplementConcat(three, ds);
    hide ThreeDigits, Number, Text, Complement;
    if negative {
      Associative("0", Text(Complement(three)), Text(Complement(ds)));
    } else {
      Associative("1", Text(three), Text(ds));
    }
  }

  lemma TextConcat(a: seq<Digit>, b: seq<Digit>)
    ensures Text(a + b) == Text(a) + Text(b)
  {}

  lemma ComplementConcat(a: seq<Digit>, b: seq<Digit>)
    ensures Complement(a + b) == Complement(a) + Complement(b)
  {}

  lemma Associative(a: string, b: string, c: string)
    ensures a + (b + c) == (a + b) + c
  {}

  lemma ZeroCode()
    ensures Code(Zero) == "1000" + Repeat('0', 18)
  {
    var t := "1" + Text(seq(WIDTH + 3, i => 0));
    var u := "1000" + Repeat('0', 18);
    assert u[0] == '1' && u[1] == '0' && u[2] == '0' && u[3] == '0';
    assert forall i :: 0 <= i < 22 ==> t[i] == u[i];
  }

  lemma PythonIsCode(d: Decimal)
    ensures PythonEncode(d) == Code(d)
  {
    if d == Zero { ZeroCode(); } else { PythonScientificIsCode(d.negative, d.digits, d.exponent); }
  }

  lemma PythonScientificIsCode(negative: bool, ds: seq<Digit>, e: int)
    requires Normalised(ds, e)
    ensures PythonScientific(negative, ScientificText(ds, e)) == Code(Scientific(negative, ds, e))
  {
    hide ScientificText, Code, Layout, ParseSigned, Drop, Replaced, IndexOf, PythonInverted, Text, ExponentText;
    ScientificParts(ds, e);
    ExponentRoundTrip(e);
    CodeFromParts(negative, ds, e);
    PythonInvertedText(ds);
  }

  lemma PythonInvertedText(ds: seq<Digit>)
    ensures PythonInverted(Text(ds)) == Text(Complement(ds))
  {
    hide CharDigit;
    forall i | 0 <= i < |ds| ensures PythonInverted(Text(ds))[i] == DigitChar(9 - ds[i]) { CharRoundTrip(ds[i]); }
  }

  lemma LuaMatches(ds: seq<Digit>, e: int)
    requires Normalised(ds, e)
    ensures LuaMatch(ScientificText(ds, e)) == (Text(ds[..1]), Text(ds[1..]), ExponentText(e))
  {
    hide ThreeDigits, Number;
    var n := if e < 0 then -e else e;
    var digits := if n < 100 then ThreeDigits(n)[1..] else ThreeDigits(n);
    var sign := if e < 0 then '-' else '+';
    assert ExponentText(e) == [sign] + Text(digits);
    LuaMatchesParts(ds, sign, digits, ScientificText(ds, e));
  }

  lemma TextDigits(ds: seq<Digit>)
    ensures |Text(ds)| == |ds| && forall i :: 0 <= i < |ds| ==> Text(ds)[i] == DigitChar(ds[i]) && IsDigit(Text(ds)[i])
  {}

  lemma LuaMatchesParts(ds: seq<Digit>, sign: char, digits: seq<Digit>, t: string)
    requires |ds| == WIDTH && (sign == '-' || sign == '+')
    requires t == Text(ds[..1]) + "." + Text(ds[1..]) + "e" + ([sign] + Text(digits))
    ensures LuaMatch(t) == (Text(ds[..1]), Text(ds[1..]), [sign] + Text(digits))
  {
    hide Text, DigitRun;
    TextDigits(ds);
    TextDigits(ds[..1]);
    TextDigits(ds[1..]);
    TextDigits(digits);
    var rest := t[2..];
    var n := |ds| - 1;
    assert rest == Text(ds[1..]) + ("e" + ([sign] + Text(digits)));
    DigitRunOf(ds[1..], "e" + ([sign] + Text(digits)));
    assert rest[n + 2..] == Text(digits) + "";
    DigitRunOf(digits, "");
    assert t[0] == DigitChar(ds[0]) && t[..1] == Text(ds[..1]) && rest[..n] == Text(ds[1..]);
    assert rest[n + 1..n + 2 + |digits|] == [sign] + Text(digits);
  }

  /** The Lua encoder of the completion script and the Python encoder of every
      other caller write the same code. */
  lemma EncodersAgree(d: Decimal)
    ensures LuaEncode(d) == PythonEncode(d) == Code(d)
  {
    PythonIsCode(d);
    if d.Scientific? { LuaScientificIsCode(d.negative, d.digits, d.exponent); }
  }

  lemma LuaScientificIsCode(negative: bool, ds: seq<Digit>, e: int)
    requires Normalised(ds, e)
    ensures LuaScientific(negative, ScientificText(ds, e)) == Code(Scientific(negative, ds, e))
  {
    hide ScientificText, Code, Layout, ParseSigned, LuaMatch, LuaInverted, Text, ExponentText;
    LuaMatches(ds, e);
    ExponentRoundTrip(e);
    CodeFromParts(negative, ds, e);
    InvertedText(ds);
    SplitText(ds);
  }

  lemma SplitText(ds: seq<Digit>)
    requires ds != []
    ensures Text(ds[..1]) + Text(ds[1..]) == Text(ds)
  {}

  // ----- order -----

  /** On runs of one width, text order is the order of the numbers. */
  lemma {:induction false} DigitsOrder(a: seq<Digit>, b: seq<Digit>)
    requires |a| == |b|
    ensures Less(Text(a), Text(b)) <==> Number(a) < Number(b)
  {
    if a != [] {
      DigitsOrder(a[1..], b[1..]);
      assert Text(a)[1..] == Text(a[1..]) && Text(b)[1..] == Text(b[1..]);
      var p := Pow10(|a| - 1);
      if a[0] < b[0] { ProductGap(a[0], b[0], p); }
      if b[0] < a[0] { ProductGap(b[0], a[0], p); }
    }
  }

  lemma ProductGap(x: int, y: int, p: int)
    requires x < y && p >= 1
    ensures x * p + p <= y * p
  {
    NonNegative(y - x - 1, p);
  }

  lemma NonNegative(a: int, b: int)
    requires a >= 0 && b >= 0
    ensures a * b >= 0
  {}

  lemma {:induction false} ComplementNumber(ds: seq<Digit>)
    ensures Number(Complement(ds)) == Pow10(|ds|) - 1 - Number(ds)
  {
    if ds != [] {
      assert Complement(ds)[1..] == Complement(ds[1..]);
      ComplementNumber(ds[1..]);
      var p := Pow10(|ds| - 1);
      assert (9 - ds[0]) * p == 9 * p - ds[0] * p;
    }
  }

  lemma {:induction false} NumberOfConcat(a: seq<Digit>, b: seq<Digit>)
    ensures Number(a + b) == Number(a) * Pow10(|b|) + Number(b)
  {
    if a == [] {
      assert a + b == b;
    } else {
      assert (a + b)[1..] == a[1..] + b;
      NumberOfConcat(a[1..], b);
      PowSum(|a| - 1, |b|);
      Regroup(a[0], Pow10(|a| - 1), Number(a[1..]), Pow10(|b|));
    }
  }

  lemma Regroup(x: int, p: int, n: int, q: int)
    ensures x * (p * q) + n * q == (x * p + n) * q
  {}

  lemma {:induction false} PowSum(m: nat, n: nat)
    ensures Pow10(m + n) == Pow10(m) * Pow10(n)
  {
    if m > 0 { PowSum(m - 1, n); }
  }

  /** Comparing magnitudes of w significant digits is comparing exponents, then
      the digits. */
  lemma MagnitudeOrder(w: nat, m: int, c: nat, n: int, d: nat)
    requires w > 0 && Pow10(w - 1) <= m < Pow10(w) && Pow10(w - 1) <= n < Pow10(w)
    ensures m * Pow10(c) < n * Pow10(d) <==> c * Pow10(w) + m < d * Pow10(w) + n
  {
    if c < d {
      SmallerExponent(w, m, c, n, d);
      ProductGap(c, d, Pow10(w));
    } else if d < c {
      SmallerExponent(w, n, d, m, c);
      ProductGap(d, c, Pow10(w));
    } else {
      if m < n { ProductGap(m, n, Pow10(c)); }
      if n < m { ProductGap(n, m, Pow10(c)); }
    }
  }

  lemma SmallerExponent(w: nat, m: int, c: nat, n: int, d: nat)
    requires w > 0 && m < Pow10(w) && Pow10(w - 1) <= n && c < d
    ensures m * Pow10(c) < n * Pow10(d)
  {
    PowSum(c + 1, d - c - 1);
    Widen(m, Pow10(w - 1), Pow10(c), n, Pow10(d - c - 1));
  }

  lemma Widen(m: int, w: int, p: int, n: int, q: int)
    requires m < 10 * w && 0 < w <= n && p >= 1 && q >= 1
    ensures m * p < n * ((10 * p) * q)
  {
    ProductGap(m, 10 * w, p);
    NonNegative(n - w, 10 * p);
    assert w * (10 * p) == (10 * w) * p;
    NonNegative(n * (10 * p), q - 1);
    Regroup3(n, 10 * p, q);
  }

  lemma Regroup3(a: int, b: int, c: int)
    ensures a * (b * c) == (a * b) * c
  {}

  lemma LeadingDigit(ds: seq<Digit>)
    requires ds != [] && ds[0] != 0
    ensures Number(ds) >= Pow10(|ds| - 1)
  {
    assert ds[0] * Pow10(|ds| - 1) >= Pow10(|ds| - 1);
  }

  lemma KeyNumber(ds: seq<Digit>, e: int)
    requires Normalised(ds, e)
    ensures Number(KeyDigits(ds, e)) == (e + BIAS) * Pow10(|ds|) + Number(ds)
    ensures Pow10(|ds| - 1) <= Number(ds) < Pow10(|ds|)
  {
    NumberOfConcat(ThreeDigits(e + BIAS), ds);
    ThreeDigitsNumber(e + BIAS);
    LeadingDigit(ds);
  }

  lemma KeyOrder(ds: seq<Digit>, e: int, es: seq<Digit>, f: int)
    requires Normalised(ds, e) && Normalised(es, f)
    ensures Less(Text(KeyDigits(ds, e)), Text(KeyDigits(es, f))) <==> Magnitude(ds, e) < Magnitude(es, f)
  {
    hide KeyDigits, Text, Less, Number, Pow10;
    KeyNumber(ds, e);
    KeyNumber(es, f);
    MagnitudeOrder(|ds|, Number(ds), e + BIAS, Number(es), f + BIAS);
    DigitsOrder(KeyDigits(ds, e), KeyDigits(es, f));
  }

  lemma ComplementOrder(a: seq<Digit>, b: seq<Digit>)
    requires |a| == |b|
    ensures Less(Text(Complement(a)), Text(Complement(b))) <==> Less(Text(b), Text(a))
  {
    DigitsOrder(b, a);
    DigitsOrder(Complement(a), Complement(b));
    ComplementNumber(a);
    ComplementNumber(b);
  }

  lemma MagnitudePositive(ds: seq<Digit>, e: int)
    requires Normalised(ds, e)
    ensures Magnitude(ds, e) > 0
  {
    LeadingDigit(ds);
    PositiveProduct(Number(ds), Pow10(e + BIAS));
  }

  lemma PositiveProduct(m: int, p: int)
    requires m > 0 && p > 0
    ensures m * p > 0
  {}

  lemma {:induction false} ZeroDigits(n: nat)
    ensures Number(seq(n, i => 0 as Digit)) == 0
  {
    if n > 0 {
      var zeros: seq<Digit> := seq(n, i => 0 as Digit);
      assert zeros[1..] == seq(n - 1, i => 0 as Digit);
      ZeroDigits(n - 1);
    }
  }

  lemma ZeroOrder(zeros: seq<Digit>, ds: seq<Digit>, e: int)
    requires Normalised(ds, e) && zeros == seq(|ds| + 3, i => 0 as Digit)
    ensures Less(Text(zeros), Text(KeyDigits(ds, e)))
  {
    ZeroDigits(|ds| + 3);
    KeyNumber(ds, e);
    NonNegative(e + BIAS, Pow10(|ds|));
    DigitsOrder(zeros, KeyDigits(ds, e));
  }

  /** The signed text of a code: a sign character, then the key or its complement. */
  function Signed(d: Decimal): (t: string) {
    match d
    case Zero => Text(seq(WIDTH + 3, i => 0))
    case Scientific(negative, ds, e) => if negative then Text(Complement(KeyDigits(ds, e))) else Text(KeyDigits(ds, e))
  }

  lemma CodeSplits(a: Decimal, b: Decimal)
    ensures var s, t := if a.Scientific? && a.negative then '0' else '1', if b.Scientific? && b.negative then '0'
              else '1';
            Less(Code(a), Code(b)) <==> s < t || (s == t && Less(Signed(a), Signed(b)))
  {
    assert Code(a)[1..] == Signed(a) && Code(b)[1..] == Signed(b);
  }

  lemma ScaledOrder(a: Decimal, b: Decimal)
    ensures Less(Code(a), Code(b)) <==> Scaled(a) < Scaled(b)
  {
    CodeSplits(a, b);
    if a.Scientific? { MagnitudePositive(a.digits, a.exponent); }
    if b.Scientific? { MagnitudePositive(b.digits, b.exponent); }
    if a.Scientific? && b.Scientific? {
      KeyOrder(a.digits, a.exponent, b.digits, b.exponent);
      KeyOrder(b.digits, b.exponent, a.digits, a.exponent);
      ComplementOrder(KeyDigits(a.digits, a.exponent), KeyDigits(b.digits, b.exponent));
    } else if a == Zero && b == Zero {
      Irreflexive(Signed(Zero));
    } else if a == Zero && !b.negative {
      ZeroOrder(seq(WIDTH + 3, i => 0), b.digits, b.exponent);
    } else if b == Zero && !a.negative {
      ZeroOrder(seq(WIDTH + 3, i => 0), a.digits, a.exponent);
      Asymmetric(Signed(b), Signed(a));
    }
  }

  /** The code is a strict order embedding, and so injective on values. */
  lemma CodeOrder(a: Decimal, b: Decimal)
    ensures Less(Code(a), Code(b)) <==> Value(a) < Value(b)
    ensures Code(a) == Code(b) <==> Value(a) == Value(b)
  {
    ScaledOrder(a, b);
    ScaledOrder(b, a);
    CompareScaled(a, b, if a.Scientific? then BIAS + |a.digits| - 1
        else if b.Scientific? then BIAS + |b.digits| - 1 else 0);
    Irreflexive(Code(a));
    Total(Code(a), Code(b));
  }

  lemma CompareScaled(a: Decimal, b: Decimal, shift: nat)
    requires a.Scientific? ==> shift == BIAS + |a.digits| - 1
    requires b.Scientific? ==> shift == BIAS + |b.digits| - 1
    ensures Value(a) < Value(b) <==> Scaled(a) < Scaled(b)
    ensures Value(a) == Value(b) <==> Scaled(a) == Scaled(b)
  {
    hide Value, Scaled, Pow10;
    ScaledValue(a, shift);
    ScaledValue(b, shift);
    ScaleOrder(Value(a), Value(b), Pow10(shift) as real);
    ScaleOrder(Value(b), Value(a), Pow10(shift) as real);
  }

  lemma ScaleOrder(x: real, y: real, p: real)
    requires p > 0.0
    ensures x < y <==> x * p < y * p
  {
    if x < y { assert (y - x) * p > 0.0; }
    if y < x { assert (x - y) * p > 0.0; }
  }

  // ----- members of the lexicographic due index -----

  function DueMember(due: Decimal, identity: string): string {
    PythonEncode(due) + ":" + identity
  }

  function BoundaryMember(before: Decimal): string {
    PythonEncode(before) + ";"
  }

  /** What the due script reads back: the text after the first colon. */
  function MemberIdentity(member: string): string {
    var i := IndexOf(':', member);
    if i < |member| then member[i + 1..] else ""
  }

  lemma MemberRoundTrip(due: Decimal, identity: string)
    ensures IndexOf(':', DueMember(due, identity)) == WIDTH + 4
    ensures MemberIdentity(DueMember(due, identity)) == identity
  {
    PythonIsCode(due);
    CodeHasNoColon(due);
    IndexAfter(':', Code(due), identity);
  }

  lemma CodeHasNoColon(due: Decimal)
    ensures ':' !in Code(due)
  {
    forall i | 0 <= i < |Code(due)| ensures Code(due)[i] != ':' {}
  }

  /** Members are ordered by due time, then by identity, whatever characters the
      identities contain. */
  lemma MemberOrder(a: Decimal, x: string, b: Decimal, y: string)
    ensures Less(DueMember(a, x), DueMember(b, y)) <==>
            Value(a) < Value(b) || (Value(a) == Value(b) && Less(x, y))
  {
    PythonIsCode(a);
    PythonIsCode(b);
    CodeOrder(a, b);
    hide Code, PythonEncode, Value;
    assert DueMember(a, x) == Code(a) + (":" + x) && DueMember(b, y) == Code(b) + (":" + y);
    FixedWidthPrefix(Code(a), Code(b), ":" + x, ":" + y);
    FixedWidthPrefix(":", ":", x, y);
    Irreflexive(":");
  }

  /** The inclusive upper end of a page admits exactly the members due by it. */
  lemma BoundaryAdmits(a: Decimal, x: string, before: Decimal)
    ensures Less(DueMember(a, x), BoundaryMember(before)) <==> Value(a) <= Value(before)
    ensures DueMember(a, x) != BoundaryMember(before)
  {
    PythonIsCode(a);
    PythonIsCode(before);
    CodeOrder(a, before);
    hide Code, PythonEncode, Value;
    assert DueMember(a, x) == Code(a) + (":" + x);
    FixedWidthPrefix(Code(a), Code(before), ":" + x, ";");
    assert DueMember(a, x)[WIDTH + 4] == ':' && BoundaryMember(before)[WIDTH + 4] == ';';
  }
}

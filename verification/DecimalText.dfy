/** Stream positions as the decimal text that the Redis scripts compare and increment,
    because Lua numbers cannot hold them. */
module DecimalText {
  import TextOrder

  predicate IsDigit(c: char) { '0' <= c <= '9' }

  predicate IsDigits(s: string) { forall i :: 0 <= i < |s| ==> IsDigit(s[i]) }

  function Digit(c: char): nat
    requires IsDigit(c)
  {
    c as nat - '0' as nat
  }

  function DigitChar(d: nat): char
    requires d < 10
  {
    ('0' as nat + d) as char
  }

  /** Decimal text of a number: no leading zero. */
  predicate Canonical(s: string) { s != "" && IsDigits(s) && (|s| > 1 ==> s[0] != '0') }

  function Value(s: string): nat
    requires IsDigits(s)
  {
    if s == "" then 0 else Value(s[..|s| - 1]) * 10 + Digit(s[|s| - 1])
  }

  function Pow(n: nat): nat { if n == 0 then 1 else 10 * Pow(n - 1) }

  // ----- sizes -----

  lemma {:induction false} BelowPow(s: string)
    requires IsDigits(s)
    ensures Value(s) < Pow(|s|)
  {
    if s != "" { BelowPow(s[..|s| - 1]); }
  }

  lemma {:induction false} PowGrows(m: nat, n: nat)
    requires m <= n
    ensures 1 <= Pow(m) <= Pow(n)
    decreases n
  {
    if m < n { PowGrows(m, n - 1); } else if m > 0 { PowGrows(m - 1, n - 1); }
  }

  /** The first digit counts for its power of ten. */
  lemma {:induction false} HeadValue(s: string)
    requires s != "" && IsDigits(s)
    ensures Value(s) == Digit(s[0]) * Pow(|s| - 1) + Value(s[1..])
  {
    if |s| == 1 {
      assert s[..0] == "" && s[1..] == "";
    } else {
      var front := s[..|s| - 1];
      HeadValue(front);
      assert s[1..][..|s| - 2] == front[1..];
      Distribute(Digit(s[0]), Pow(|s| - 2), Value(front[1..]), Digit(s[|s| - 1]));
    }
  }

  lemma Distribute(d: nat, p: nat, v: nat, x: nat)
    ensures (d * p + v) * 10 + x == d * (10 * p) + (v * 10 + x)
  {}

  lemma AtLeastPow(s: string)
    requires Canonical(s) && s[0] != '0'
    ensures Pow(|s| - 1) <= Value(s)
  {
    HeadValue(s);
    AtLeastOnce(Digit(s[0]), Pow(|s| - 1));
  }

  lemma AtLeastOnce(d: nat, p: nat)
    requires 1 <= d
    ensures p <= d * p
  {}

  // ----- comparison -----

  /** `compare_positions`: by length, then as text. */
  function Compare(left: string, right: string): int {
    if |left| < |right| then -1
    else if |left| > |right| then 1
    else if TextOrder.Less(left, right) then -1
    else if TextOrder.Less(right, left) then 1
    else 0
  }

  function Sign(a: nat, b: nat): int { if a < b then -1 else if a > b then 1 else 0 }

  lemma {:induction false} SameLength(a: string, b: string)
    requires IsDigits(a) && IsDigits(b) && |a| == |b|
    ensures TextOrder.Less(a, b) <==> Value(a) < Value(b)
    ensures a == b <==> Value(a) == Value(b)
  {
    if a == "" {
      TextOrder.Irreflexive(a);
    } else {
      var k := |a| - 1;
      SameLength(a[..k], b[..k]);
      TextOrder.FixedWidthPrefix(a[..k], b[..k], [a[k]], [b[k]]);
      assert a == a[..k] + [a[k]] && b == b[..k] + [b[k]];
      OneChar(a[k], b[k]);
    }
  }

  lemma OneChar(x: char, y: char)
    ensures TextOrder.Less([x], [y]) <==> x < y
  {
    assert [x][1..] == "" && [y][1..] == "";
  }

  lemma ShorterIsSmaller(a: string, b: string)
    requires Canonical(a) && Canonical(b) && |a| < |b|
    ensures Value(a) < Value(b)
  {
    BelowPow(a);
    PowGrows(|a|, |b| - 1);
    AtLeastPow(b);
  }

  /** On canonical text of any length, the script compares the numbers. */
  lemma CompareIsNumeric(a: string, b: string)
    requires Canonical(a) && Canonical(b)
    ensures Compare(a, b) == Sign(Value(a), Value(b))
    ensures a == b <==> Value(a) == Value(b)
  {
    hide Value;
    if |a| < |b| {
      ShorterIsSmaller(a, b);
    } else if |b| < |a| {
      ShorterIsSmaller(b, a);
    } else {
      SameLength(a, b);
      SameLength(b, a);
    }
  }

  // ----- increment -----

  /** `increment_position`: a carry from the last digit to the first. */
  method Increment(position: string) returns (next: string)
    requires Canonical(position)
    ensures Canonical(next) && Value(next) == Value(position) + 1
  {
    hide Value, Pow;
    var digits := "";
    var carry := 1;
    var i := |position|;
    EmptyValue();
    assert position[i..] == "";
    while i > 0
      invariant 0 <= i <= |position| && |digits| == |position| - i && IsDigits(digits) && 0 <= carry <= 1
      invariant IsDigits(position[i..])
      invariant Value(position[i..]) + 1 == (if carry == 1 then Pow(|digits|) else 0) + Value(digits)
    {
      i := i - 1;
      var digit := Digit(position[i]) + carry;
      assert position[i..] == [position[i]] + position[i + 1..];
      if digit == 10 {
        CarryGoesOn(position[i + 1..], digits);
        digits := [DigitChar(0)] + digits;
        carry := 1;
      } else {
        if carry == 0 {
          NotCarried(position[i], position[i + 1..], digits);
        } else {
          CarryStops(position[i], position[i + 1..], digits);
        }
        digits := [DigitChar(digit)] + digits;
        carry := 0;
      }
    }
    assert position[0..] == position;
    next := if carry == 1 then "1" + digits else digits;
    Led(digits);
    NoLeadingZero(position, next);
  }

  lemma EmptyValue()
    ensures Value("") == 0 && Pow(0) == 1
  {}

  lemma Prefixed(c: char, rest: string)
    requires IsDigit(c) && IsDigits(rest)
    ensures IsDigits([c] + rest) && Value([c] + rest) == Digit(c) * Pow(|rest|) + Value(rest)
  {
    hide Pow;
    HeadValue([c] + rest);
    assert ([c] + rest)[1..] == rest;
  }

  lemma Led(digits: string)
    requires IsDigits(digits)
    ensures IsDigits("1" + digits) && Value("1" + digits) == Pow(|digits|) + Value(digits)
  {
    hide Value, Pow;
    Prefixed('1', digits);
  }

  /** One digit further: nothing to carry. */
  lemma NotCarried(c: char, rest: string, digits: string)
    requires IsDigit(c) && IsDigits(rest) && IsDigits(digits) && |digits| == |rest|
    requires Value(rest) + 1 == Value(digits)
    ensures IsDigits([c] + rest) && IsDigits([c] + digits) && Value([c] + rest) + 1 == Value([c] + digits)
  {
    hide Value, Pow;
    Prefixed(c, rest);
    Prefixed(c, digits);
  }

  /** A carry that stops at this digit. */
  lemma CarryStops(c: char, rest: string, digits: string)
    requires IsDigit(c) && Digit(c) < 9 && IsDigits(rest) && IsDigits(digits) && |digits| == |rest|
    requires Value(rest) + 1 == Pow(|digits|) + Value(digits)
    ensures var d := DigitChar(Digit(c) + 1);
            IsDigits([c] + rest) && IsDigits([d] + digits) && Value([c] + rest) + 1 == Value([d] + digits)
  {
    hide Value, Pow;
    Prefixed(c, rest);
    Prefixed(DigitChar(Digit(c) + 1), digits);
    OneMore(Digit(c), Pow(|digits|));
  }

  /** A nine passes the carry on. */
  lemma CarryGoesOn(rest: string, digits: string)
    requires IsDigits(rest) && IsDigits(digits) && |digits| == |rest|
    requires Value(rest) + 1 == Pow(|digits|) + Value(digits)
    ensures IsDigits("9" + rest) && IsDigits("0" + digits)
    ensures Value("9" + rest) + 1 == Pow(|digits| + 1) + Value("0" + digits)
  {
    hide Value, Pow;
    Prefixed('9', rest);
    Prefixed('0', digits);
    NextPow(|digits|);
    ZeroTimes(Pow(|digits|));
  }

  lemma NextPow(n: nat)
    ensures Pow(n + 1) == 10 * Pow(n)
  {}

  lemma OneMore(c: nat, p: nat)
    ensures (c + 1) * p == c * p + p
  {}

  lemma NoLeadingZero(position: string, next: string)
    requires Canonical(position) && IsDigits(next) && next != "" && |next| >= |position|
    requires |next| > |position| ==> next[0] == '1'
    requires Value(next) == Value(position) + 1
    ensures Canonical(next)
  {
    hide Value, Pow;
    if |next| > 1 && next[0] == '0' {
      AtLeastPow(position);
      Prefixed(next[0], next[1..]);
      assert [next[0]] + next[1..] == next;
      BelowPow(next[1..]);
      ZeroTimes(Pow(|next| - 1));
      assert false;
    }
  }

  lemma ZeroTimes(p: nat)
    ensures 0 * p == 0
  {}
}

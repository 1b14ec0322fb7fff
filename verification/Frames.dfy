/** The length-prefixed frames that carry NATS commands, replies and states. */
module Frames {
  import opened Common

  const MAGIC: Bytes := [0x57, 0x59, 0x43, 0x31]   // WYC1

  const SIZE_LIMIT: nat := 0x1_0000_0000

  predicate Fits(parts: seq<Bytes>) {
    |parts| <= 255 && forall i :: 0 <= i < |parts| ==> |parts[i]| < SIZE_LIMIT
  }

  /** Four bytes, most significant first. */
  function SizeBytes(n: nat): Bytes
    requires n < SIZE_LIMIT
  {
    [n / 0x100_0000, n / 0x1_0000 % 0x100, n / 0x100 % 0x100, n % 0x100]
  }

  function SizeOf(b: Bytes): nat
    requires |b| == 4
  {
    Number(b[0], b[1], b[2], b[3])
  }

  function Number(a: nat, b: nat, c: nat, d: nat): nat { a * 0x100_0000 + b * 0x1_0000 + c * 0x100 + d }

  lemma SizeRoundTrip(n: nat)
    requires n < SIZE_LIMIT
    ensures |SizeBytes(n)| == 4 && SizeOf(SizeBytes(n)) == n
  {
    Shifted(n);
  }

  /** Dropping a byte twice or three times over. */
  lemma Shifted(n: nat)
    ensures n == n / 0x100 * 0x100 + n % 0x100
    ensures n / 0x100 == n / 0x1_0000 * 0x100 + n / 0x100 % 0x100
    ensures n / 0x1_0000 == n / 0x100_0000 * 0x100 + n / 0x1_0000 % 0x100
  {
    assert n / 0x100 / 0x100 == n / 0x1_0000;
    assert n / 0x1_0000 / 0x100 == n / 0x100_0000;
  }

  lemma BytesRoundTrip(b: Bytes)
    requires |b| == 4
    ensures SizeOf(b) < SIZE_LIMIT && SizeBytes(SizeOf(b)) == b
  {
    NumberDigits(b[0], b[1], b[2], b[3]);
  }

  lemma NumberDigits(a: nat, b: nat, c: nat, d: nat)
    requires a < 0x100 && b < 0x100 && c < 0x100 && d < 0x100
    ensures var n := Number(a, b, c, d);
            && n < SIZE_LIMIT && n / 0x100_0000 == a && n / 0x1_0000 % 0x100 == b
            && n / 0x100 % 0x100 == c && n % 0x100 == d
  {
    var n := Number(a, b, c, d);
    assert n / 0x1_0000 == a * 0x100 + b;
    assert n / 0x100 == (a * 0x100 + b) * 0x100 + c;
  }

  function Body(parts: seq<Bytes>): Bytes
    requires forall i :: 0 <= i < |parts| ==> |parts[i]| < SIZE_LIMIT
  {
    if parts == [] then [] else SizeBytes(|parts[0]|) + parts[0] + Body(parts[1..])
  }

  /** The frame of a list of parts. */
  function Frame(parts: seq<Bytes>): Bytes
    requires Fits(parts)
  {
    MAGIC + [|parts|] + Body(parts)
  }

  function Parse(v: Bytes, count: nat): Option<seq<Bytes>> {
    if count == 0 then (if v == [] then Some([]) else None)
    else if |v| < 4 then None
    else
      var end := 4 + SizeOf(v[..4]);
      if end > |v| then None else Prepended([v[4..end]], Parse(v[end..], count - 1))
  }

  function Prepended(parts: seq<Bytes>, rest: Option<seq<Bytes>>): Option<seq<Bytes>> {
    if rest.None? then None else Some(parts + rest.value)
  }

  /** Reading a body back gives its parts. */
  lemma {:induction false} ParseBody(parts: seq<Bytes>)
    requires forall i :: 0 <= i < |parts| ==> |parts[i]| < SIZE_LIMIT
    ensures Parse(Body(parts), |parts|) == Some(parts)
  {
    hide SizeBytes, SizeOf;
    if parts != [] {
      var v, size := Body(parts), |parts[0]|;
      SizeRoundTrip(size);
      ParseBody(parts[1..]);
      assert v[..4] == SizeBytes(size);
      assert v[4..4 + size] == parts[0];
      assert v[4 + size..] == Body(parts[1..]);
      assert [parts[0]] + parts[1..] == parts;
    }
  }

  /** Whatever parses is the body of its parts: no other bytes give them. */
  lemma {:induction false} ParsedIsBody(v: Bytes, count: nat)
    requires Parse(v, count).Some?
    ensures var parts := Parse(v, count).value;
            && |parts| == count && (forall i :: 0 <= i < |parts| ==> |parts[i]| < SIZE_LIMIT)
            && Body(parts) == v
    decreases count
  {
    hide SizeBytes, SizeOf;
    if count > 0 {
      var end := 4 + SizeOf(v[..4]);
      BytesRoundTrip(v[..4]);
      ParsedIsBody(v[end..], count - 1);
      var parts := Parse(v, count).value;
      assert parts[1..] == Parse(v[end..], count - 1).value;
      assert v == v[..4] + v[4..end] + v[end..];
    }
  }

  lemma {:induction false} BodySnoc(parts: seq<Bytes>, part: Bytes)
    requires |part| < SIZE_LIMIT && forall i :: 0 <= i < |parts| ==> |parts[i]| < SIZE_LIMIT
    ensures Body(parts + [part]) == Body(parts) + SizeBytes(|part|) + part
  {
    hide SizeBytes;
    if parts == [] {
      assert [part][1..] == [];
    } else {
      BodySnoc(parts[1..], part);
      assert (parts + [part])[1..] == parts[1..] + [part];
    }
  }

  method Pack(parts: seq<Bytes>) returns (frame: Option<Bytes>)
    ensures frame == if Fits(parts) then Some(Frame(parts)) else None
  {
    hide SizeBytes, Body;
    if |parts| > 255 { return None; }
    var bytes: Bytes := MAGIC + [|parts|];
    var k := 0;
    EmptyBody();
    while k < |parts|
      invariant 0 <= k <= |parts| && parts[..0] == []
      invariant forall i :: 0 <= i < k ==> |parts[i]| < SIZE_LIMIT
      invariant bytes == MAGIC + [|parts|] + Body(parts[..k])
    {
      if |parts[k]| > SIZE_LIMIT - 1 { return None; }
      BodySnoc(parts[..k], parts[k]);
      assert parts[..k + 1] == parts[..k] + [parts[k]];
      bytes := bytes + SizeBytes(|parts[k]|);
      bytes := bytes + parts[k];
      k := k + 1;
    }
    assert parts[..|parts|] == parts;
    frame := Some(bytes);
  }

  lemma EmptyBody()
    ensures Body([]) == []
  {}

  /** What a byte string means as a frame. */
  function Meaning(value: Bytes): Option<seq<Bytes>> {
    if |value| < 5 || value[..4] != MAGIC then None else Parse(value[5..], value[4])
  }

  method Unpack(value: Bytes) returns (parts: Option<seq<Bytes>>)
    ensures parts == Meaning(value)
  {
    hide SizeOf;
    if |value| < |MAGIC| + 1 || value[..|MAGIC|] != MAGIC { return None; }
    var count := value[|MAGIC|];
    var offset := |MAGIC| + 1;
    var found: seq<Bytes> := [];
    var k := 0;
    PrependedNothing(Parse(value[5..], count));
    while k < count
      invariant 0 <= k <= count && 5 <= offset <= |value|
      invariant Parse(value[5..], count) == Prepended(found, Parse(value[offset..], count - k))
    {
      if offset + 4 > |value| { return None; }
      var size := SizeOf(value[offset..offset + 4]);
      assert value[offset..][..4] == value[offset..offset + 4];
      offset := offset + 4;
      var end := offset + size;
      if end > |value| { return None; }
      assert value[offset - 4..][4..4 + size] == value[offset..end];
      assert value[offset - 4..][4 + size..] == value[end..];
      PrependedTwice(found, value[offset..end], Parse(value[end..], count - k - 1));
      found := found + [value[offset..end]];
      offset := end;
      k := k + 1;
    }
    if offset != |value| { return None; }
    assert found + [] == found;
    parts := Some(found);
  }

  lemma PrependedNothing(rest: Option<seq<Bytes>>)
    ensures Prepended([], rest) == rest
  {
    if rest.Some? { assert [] + rest.value == rest.value; }
  }

  lemma PrependedTwice(parts: seq<Bytes>, part: Bytes, rest: Option<seq<Bytes>>)
    ensures Prepended(parts, Prepended([part], rest)) == Prepended(parts + [part], rest)
  {
    if rest.Some? { assert parts + ([part] + rest.value) == parts + [part] + rest.value; }
  }

  /** Unpacking what was packed gives it back. */
  lemma RoundTrip(parts: seq<Bytes>)
    requires Fits(parts)
    ensures Meaning(Frame(parts)) == Some(parts)
  {
    hide Parse, Body;
    var value := Frame(parts);
    assert value[..4] == MAGIC && value[4] == |parts| && value[5..] == Body(parts);
    ParseBody(parts);
  }

  /** Frames are canonical: a byte string is accepted exactly when it is the frame of
      what it is read as. */
  lemma AcceptedIsCanonical(value: Bytes, parts: seq<Bytes>)
    ensures Meaning(value) == Some(parts) <==> Fits(parts) && Frame(parts) == value
  {
    hide Parse, Body;
    if Meaning(value) == Some(parts) {
      ParsedIsBody(value[5..], value[4]);
      assert value == value[..4] + [value[4]] + value[5..];
    }
    if Fits(parts) && Frame(parts) == value { RoundTrip(parts); }
  }

  /** Different lists of parts have different frames. */
  lemma PackIsInjective(a: seq<Bytes>, b: seq<Bytes>)
    requires Fits(a) && Fits(b) && Frame(a) == Frame(b)
    ensures a == b
  {
    hide Frame, Meaning;
    RoundTrip(a);
    RoundTrip(b);
  }
}

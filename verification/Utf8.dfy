/** UTF-8 well-formedness (section 4 of RFC 3629) and the truncation that respects it. */
module Utf8 {
  type byte = b: int | 0 <= b < 256

  const MAX_REASON := 500

  predicate InRange(s: seq<byte>, i: nat, lo: int, hi: int) {
    i < |s| && lo <= s[i] <= hi
  }

  predicate Tail(s: seq<byte>, i: nat) { InRange(s, i, 0x80, 0xBF) }

  /** Length of the well-formed character `s` starts with, 0 if there is none. */
  function RuneLen(s: seq<byte>): (n: nat)
    ensures n <= 4 && n <= |s|
  {
    if InRange(s, 0, 0x00, 0x7F) then 1
    else if InRange(s, 0, 0xC2, 0xDF) && Tail(s, 1) then 2
    else if InRange(s, 0, 0xE0, 0xE0) && InRange(s, 1, 0xA0, 0xBF) && Tail(s, 2) then 3
    else if InRange(s, 0, 0xE1, 0xEC) && Tail(s, 1) && Tail(s, 2) then 3
    else if InRange(s, 0, 0xED, 0xED) && InRange(s, 1, 0x80, 0x9F) && Tail(s, 2) then 3
    else if InRange(s, 0, 0xEE, 0xEF) && Tail(s, 1) && Tail(s, 2) then 3
    else if InRange(s, 0, 0xF0, 0xF0) && InRange(s, 1, 0x90, 0xBF) && Tail(s, 2) && Tail(s, 3) then 4
    else if InRange(s, 0, 0xF1, 0xF3) && Tail(s, 1) && Tail(s, 2) && Tail(s, 3) then 4
    else if InRange(s, 0, 0xF4, 0xF4) && InRange(s, 1, 0x80, 0x8F) && Tail(s, 2) && Tail(s, 3) then 4
    else 0
  }

  /** utf8.ValidString */
  predicate Valid(s: seq<byte>)
    decreases |s|
  {
    s == [] || (RuneLen(s) > 0 && Valid(s[RuneLen(s)..]))
  }

  // === The same as encodings of characters ====================================

  /** A Unicode scalar value: any code point but a surrogate. */
  type Scalar = c: int | 0 <= c < 0x11_0000 && !(0xD800 <= c < 0xE000)

  /** Section 3 of RFC 3629: six bits in each byte but the first. */
  function Encoding(c: Scalar): (s: seq<byte>)
    ensures 1 <= |s| <= 4
  {
    if c < 0x80 then [c]
    else if c < 0x800 then [0xC0 + c / 64, 0x80 + c % 64]
    else if c < 0x1_0000 then [0xE0 + c / 64 / 64, 0x80 + c / 64 % 64, 0x80 + c % 64]
    else [0xF0 + c / 64 / 64 / 64, 0x80 + c / 64 / 64 % 64, 0x80 + c / 64 % 64, 0x80 + c % 64]
  }

  function Encodings(cs: seq<Scalar>): seq<byte> {
    if cs == [] then [] else Encoding(cs[0]) + Encodings(cs[1..])
  }

  /** The character a text starts with. */
  lemma FirstScalar(s: seq<byte>) returns (c: Scalar)
    requires RuneLen(s) > 0
    ensures s[..RuneLen(s)] == Encoding(c)
  {
    var n := RuneLen(s);
    if n == 1 {
      c := s[0];
    } else if n == 2 {
      c := TwoBytes(s[0] - 0xC0, s[1] - 0x80);
    } else if n == 3 {
      c := ThreeBytes(s[0] - 0xE0, s[1] - 0x80, s[2] - 0x80);
    } else {
      c := FourBytes(s[0] - 0xF0, s[1] - 0x80, s[2] - 0x80, s[3] - 0x80);
    }
  }

  lemma TwoBytes(a: nat, b: nat) returns (c: Scalar)
    requires 2 <= a < 32 && b < 64
    ensures Encoding(c) == [0xC0 + a, 0x80 + b]
  {
    c := a * 64 + b;
  }

  lemma ThreeBytes(a: nat, b: nat, x: nat) returns (c: Scalar)
    requires a < 16 && b < 64 && x < 64 && (a == 0 ==> b >= 32) && (a == 13 ==> b < 32)
    ensures Encoding(c) == [0xE0 + a, 0x80 + b, 0x80 + x]
  {
    var high := a * 64 + b;
    c := high * 64 + x;
    assert c / 64 == high && c % 64 == x && high / 64 == a && high % 64 == b;
  }

  lemma FourBytes(a: nat, b: nat, x: nat, y: nat) returns (c: Scalar)
    requires a < 5 && b < 64 && x < 64 && y < 64 && (a == 0 ==> b >= 16) && (a == 4 ==> b < 16)
    ensures Encoding(c) == [0xF0 + a, 0x80 + b, 0x80 + x, 0x80 + y]
  {
    var top := a * 64 + b;
    var high := top * 64 + x;
    c := high * 64 + y;
    assert c / 64 == high && c % 64 == y && high / 64 == top && high % 64 == x && top / 64 == a && top % 64 == b;
  }

  lemma StartsWithScalar(c: Scalar, rest: seq<byte>)
    ensures RuneLen(Encoding(c) + rest) == |Encoding(c)|
  {
  }

  /** A text is well-formed exactly when it is a sequence of characters, each as its encoding. */
  lemma {:induction false} ValidExactly(s: seq<byte>)
    ensures Valid(s) <==> exists cs :: Encodings(cs) == s
    decreases |s|
  {
    if Valid(s) {
      var cs := Scalars(s);
    }
    forall cs | Encodings(cs) == s ensures Valid(s) {
      EncodingsAreValid(cs);
    }
  }

  lemma {:induction false} Scalars(s: seq<byte>) returns (cs: seq<Scalar>)
    requires Valid(s)
    ensures Encodings(cs) == s
    decreases |s|
  {
    if s == [] {
      cs := [];
    } else {
      var n := RuneLen(s);
      var rest := Scalars(s[n..]);
      var c := FirstScalar(s);
      cs := [c] + rest;
      assert cs[1..] == rest;
      assert s == s[..n] + s[n..];
    }
  }

  lemma DropPrefix(a: seq<byte>, b: seq<byte>)
    ensures (a + b)[|a|..] == b
  {
  }

  lemma {:induction false} EncodingsAreValid(cs: seq<Scalar>)
    ensures Valid(Encodings(cs))
  {
    if cs != [] {
      var first, rest := Encoding(cs[0]), Encodings(cs[1..]);
      EncodingsAreValid(cs[1..]);
      StartsWithScalar(cs[0], rest);
      DropPrefix(first, rest);
      assert Encodings(cs) == first + rest;
    }
  }

  /** Any cut of a well-formed string is at most three bytes past a character boundary. */
  lemma {:induction false} BoundaryNear(s: seq<byte>, n: nat) returns (k: nat)
    requires Valid(s) && n <= |s|
    ensures k <= n <= k + 3 && Valid(s[..k])
    decreases |s|
  {
    var len := RuneLen(s);
    if s == [] || n < len {
      k := 0;
    } else {
      var k' := BoundaryNear(s[len..], n - len);
      k := len + k';
      assert RuneLen(s[..k]) == len;
      assert s[..k][len..] == s[len..][..k'];
    }
  }

  /** worker.go's truncateReason, on any bytes at all. */
  method TruncateReason(reason: seq<byte>) returns (r: seq<byte>)
    ensures |reason| <= MAX_REASON ==> r == reason
    ensures |reason| > MAX_REASON ==>
              && r <= reason && |r| <= MAX_REASON && Valid(r)
              && forall k | |r| < k <= MAX_REASON :: !Valid(reason[..k])
    ensures |reason| > MAX_REASON && Valid(reason) ==> |r| >= MAX_REASON - 3
  {
    if |reason| <= MAX_REASON { return reason; }
    r := reason[..MAX_REASON];
    while |r| > 0 && !Valid(r)
      invariant r == reason[..|r|] && |r| <= MAX_REASON
      invariant forall k | |r| < k <= MAX_REASON :: !Valid(reason[..k])
    {
      r := r[..|r| - 1];
    }
    if Valid(reason) {
      ghost var k := BoundaryNear(reason, MAX_REASON);
    }
  }
}

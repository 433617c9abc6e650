/** Base64 with the URL-safe alphabet and no padding (section 5 of RFC 4648). */
module Base64Url {
  import opened Options

  type Byte = n: nat | n < 256
  type Sextet = n: nat | n < 64

  function CharOf(v: Sextet): char {
    if v < 26 then ('A' as int + v) as char
    else if v < 52 then ('a' as int + (v - 26)) as char
    else if v < 62 then ('0' as int + (v - 52)) as char
    else if v == 62 then '-'
    else '_'
  }

  function ValueOf(c: char): Option<Sextet> {
    if 'A' <= c <= 'Z' then Some(c as int - 'A' as int)
    else if 'a' <= c <= 'z' then Some(c as int - 'a' as int + 26)
    else if '0' <= c <= '9' then Some(c as int - '0' as int + 52)
    else if c == '-' then Some(62)
    else if c == '_' then Some(63)
    else None
  }

  // The four sextets of three bytes, and back.
  function S0(a: Byte): Sextet { a / 4 }
  function S1(a: Byte, b: Byte): Sextet { a % 4 * 16 + b / 16 }
  function S2(b: Byte, c: Byte): Sextet { b % 16 * 4 + c / 64 }
  function S3(c: Byte): Sextet { c % 64 }

  function B0(s: Sextet, t: Sextet): Byte { s * 4 + t / 16 }
  function B1(t: Sextet, u: Sextet): Byte { t % 16 * 16 + u / 4 }
  function B2(u: Sextet, v: Sextet): Byte { u % 4 * 64 + v }

  function Encode(b: seq<Byte>): string {
    if |b| == 0 then ""
    else if |b| == 1 then [CharOf(S0(b[0])), CharOf(S1(b[0], 0))]
    else if |b| == 2 then [CharOf(S0(b[0])), CharOf(S1(b[0], b[1])), CharOf(S2(b[1], 0))]
    else [CharOf(S0(b[0])), CharOf(S1(b[0], b[1])), CharOf(S2(b[1], b[2])), CharOf(S3(b[2]))] + Encode(b[3..])
  }

  /** A single left-over character is an error; left-over bits of the last one are ignored. */
  function DecodeGroups(s: string): Option<seq<Byte>> {
    if |s| == 0 then Some([])
    else if |s| == 1 then None
    else
      var v0, v1 := ValueOf(s[0]), ValueOf(s[1]);
      if v0.None? || v1.None? then None
      else if |s| == 2 then Some([B0(v0.value, v1.value)])
      else
        var v2 := ValueOf(s[2]);
        if v2.None? then None
        else if |s| == 3 then Some([B0(v0.value, v1.value), B1(v1.value, v2.value)])
        else
          var v3, rest := ValueOf(s[3]), DecodeGroups(s[4..]);
          if v3.None? || rest.None? then None
          else Some([B0(v0.value, v1.value), B1(v1.value, v2.value), B2(v2.value, v3.value)] + rest.value)
  }

  /** Line breaks are skipped wherever they stand. */
  function SkipBreaks(s: string): string {
    if s == "" then ""
    else if s[0] == '\r' || s[0] == '\n' then SkipBreaks(s[1..])
    else [s[0]] + SkipBreaks(s[1..])
  }

  function Decode(s: string): Option<seq<Byte>> {
    DecodeGroups(SkipBreaks(s))
  }

  lemma CharRoundTrip(v: Sextet)
    ensures ValueOf(CharOf(v)) == Some(v) && CharOf(v) != '\r' && CharOf(v) != '\n'
  {
  }

  lemma BytesRoundTrip(a: Byte, b: Byte, c: Byte)
    ensures B0(S0(a), S1(a, b)) == a
    ensures B1(S1(a, b), S2(b, c)) == b
    ensures B2(S2(b, c), S3(c)) == c
  {
  }

  lemma DecodeOne(a: Byte)
    ensures DecodeGroups([CharOf(S0(a)), CharOf(S1(a, 0))]) == Some([a])
  {
  }

  lemma DecodeTwo(a: Byte, b: Byte)
    ensures DecodeGroups([CharOf(S0(a)), CharOf(S1(a, b)), CharOf(S2(b, 0))]) == Some([a, b])
  {
    BytesRoundTrip(a, b, 0);
    CharRoundTrip(S0(a));
    CharRoundTrip(S1(a, b));
    CharRoundTrip(S2(b, 0));
  }

  lemma DecodeGroup(a: Byte, b: Byte, c: Byte, tail: string, rest: seq<Byte>)
    requires DecodeGroups(tail) == Some(rest)
    ensures DecodeGroups([CharOf(S0(a)), CharOf(S1(a, b)), CharOf(S2(b, c)), CharOf(S3(c))] + tail) == Some([a, b, c] + rest)
  {
    var s := [CharOf(S0(a)), CharOf(S1(a, b)), CharOf(S2(b, c)), CharOf(S3(c))] + tail;
    assert s[4..] == tail;
    BytesRoundTrip(a, b, c);
    CharRoundTrip(S0(a));
    CharRoundTrip(S1(a, b));
    CharRoundTrip(S2(b, c));
    CharRoundTrip(S3(c));
  }

  lemma EncodeGroup(a: Byte, b: Byte, c: Byte, rest: seq<Byte>)
    ensures Encode([a, b, c] + rest) == [CharOf(S0(a)), CharOf(S1(a, b)), CharOf(S2(b, c)), CharOf(S3(c))] + Encode(rest)
  {
  }

  lemma {:induction false} GroupsRoundTrip(b: seq<Byte>)
    ensures DecodeGroups(Encode(b)) == Some(b)
  {
    if |b| == 0 {
    } else if |b| == 1 {
      DecodeOne(b[0]);
      assert b == [b[0]];
    } else if |b| == 2 {
      DecodeTwo(b[0], b[1]);
      assert b == [b[0], b[1]];
    } else {
      var x, y, z, rest := b[0], b[1], b[2], b[3..];
      GroupsRoundTrip(rest);
      DecodeGroup(x, y, z, Encode(rest), rest);
      EncodeGroup(x, y, z, rest);
      assert b == [x, y, z] + rest;
    }
  }

  ghost predicate NoBreaks(s: string) {
    forall i | 0 <= i < |s| :: s[i] != '\r' && s[i] != '\n'
  }

  lemma {:induction false} NothingToSkip(s: string)
    requires NoBreaks(s)
    ensures SkipBreaks(s) == s
  {
    if s != "" {
      NothingToSkip(s[1..]);
    }
  }

  lemma {:induction false} EncodeHasNoBreaks(b: seq<Byte>)
    ensures NoBreaks(Encode(b))
  {
    forall v: Sextet ensures CharOf(v) != '\r' && CharOf(v) != '\n' {
      CharRoundTrip(v);
    }
    if |b| > 2 {
      EncodeHasNoBreaks(b[3..]);
    }
  }

  lemma RoundTrip(b: seq<Byte>)
    ensures Decode(Encode(b)) == Some(b)
  {
    GroupsRoundTrip(b);
    EncodeHasNoBreaks(b);
    NothingToSkip(Encode(b));
  }

  // === What the encoding is ===================================================

  const UPPER := "ABCDEFGHIJKLMNOPQRSTUVWXYZ"
  const LOWER := "abcdefghijklmnopqrstuvwxyz"
  const ALPHABET := UPPER + LOWER + "0123456789-_"

  /** Table 2 of RFC 4648, and nothing else is a symbol. */
  lemma Symbols(c: char)
    ensures |ALPHABET| == 64 && (ValueOf(c).Some? <==> c in ALPHABET)
    ensures ValueOf(c).Some? ==> ALPHABET[ValueOf(c).value] == c
  {
    if ValueOf(c).Some? { SymbolOf(ValueOf(c).value); }
    if c in ALPHABET {
      var i :| 0 <= i < |ALPHABET| && ALPHABET[i] == c;
      SymbolOf(i);
    }
  }

  lemma SymbolOf(i: nat)
    requires i < 64
    ensures |ALPHABET| == 64 && ALPHABET[i] == CharOf(i) && ValueOf(ALPHABET[i]) == Some(i)
  {
    Letters();
  }

  lemma Letters()
    ensures |UPPER| == |LOWER| == 26
    ensures forall i | 0 <= i < 26 :: UPPER[i] as int == 'A' as int + i && LOWER[i] as int == 'a' as int + i
  {
  }

  function ByteAt(b: seq<Byte>, i: nat): Byte {
    if i < |b| then b[i] else 0
  }

  function SextetAt(s: string, i: nat): Sextet {
    if i < |s| && ValueOf(s[i]).Some? then ValueOf(s[i]).value else 0
  }

  /** The k-th three bytes, zeros added at the end, and their four symbols are the same 24 bits. */
  predicate SameGroup(b: seq<Byte>, s: string, k: nat) {
    var symbols := ((SextetAt(s, 4 * k) * 64 + SextetAt(s, 4 * k + 1)) * 64 + SextetAt(s, 4 * k + 2)) * 64 + SextetAt(s, 4 * k + 3);
    symbols == (ByteAt(b, 3 * k) * 256 + ByteAt(b, 3 * k + 1)) * 256 + ByteAt(b, 3 * k + 2)
  }

  /** The encoding is the input's bits, six to a symbol, and only the symbols that carry some of
      them are written. */
  lemma {:induction false} SameBits(b: seq<Byte>)
    ensures var s := Encode(b);
            && |s| == (4 * |b| + 2) / 3 && (forall i | 0 <= i < |s| :: ValueOf(s[i]).Some?)
            && forall k: nat | 3 * k < |b| :: SameGroup(b, s, k)
  {
    var s := Encode(b);
    EncodedSymbols(b);
    if |b| > 2 {
      assert s[4..] == Encode(b[3..]);
      SameBits(b[3..]);
    }
    forall k: nat | 3 * k < |b| ensures SameGroup(b, s, k) {
      if k > 0 {
        assert SameGroup(b[3..], s[4..], k - 1);
        NextGroup(b, s, k - 1);
      } else {
        FirstGroup(b);
      }
    }
  }

  lemma FirstGroup(b: seq<Byte>)
    requires b != []
    ensures SameGroup(b, Encode(b), 0)
  {
    GroupBits(ByteAt(b, 0), ByteAt(b, 1), ByteAt(b, 2));
    assert SextetAt(Encode(b), 0) == S0(b[0]) && SextetAt(Encode(b), 1) == S1(b[0], ByteAt(b, 1)) by {
      CharRoundTrip(S0(b[0]));
      CharRoundTrip(S1(b[0], ByteAt(b, 1)));
    }
    assert SextetAt(Encode(b), 2) == S2(ByteAt(b, 1), ByteAt(b, 2)) by {
      CharRoundTrip(S2(ByteAt(b, 1), ByteAt(b, 2)));
    }
    assert SextetAt(Encode(b), 3) == S3(ByteAt(b, 2)) by {
      CharRoundTrip(S3(ByteAt(b, 2)));
    }
  }

  lemma NextGroup(b: seq<Byte>, s: string, k: nat)
    requires |b| > 2 && |s| > 3
    ensures SameGroup(b, s, k + 1) <==> SameGroup(b[3..], s[4..], k)
  {
    forall i: nat ensures SextetAt(s, i + 4) == SextetAt(s[4..], i) && ByteAt(b, i + 3) == ByteAt(b[3..], i) {
    }
    assert 4 * (k + 1) == 4 * k + 4 && 3 * (k + 1) == 3 * k + 3;
    assert SextetAt(s, 4 * k + 4) == SextetAt(s[4..], 4 * k) && SextetAt(s, 4 * k + 1 + 4) == SextetAt(s[4..], 4 * k + 1);
    assert SextetAt(s, 4 * k + 2 + 4) == SextetAt(s[4..], 4 * k + 2) && SextetAt(s, 4 * k + 3 + 4) == SextetAt(s[4..], 4 * k + 3);
    assert ByteAt(b, 3 * k + 3) == ByteAt(b[3..], 3 * k) && ByteAt(b, 3 * k + 1 + 3) == ByteAt(b[3..], 3 * k + 1);
    assert ByteAt(b, 3 * k + 2 + 3) == ByteAt(b[3..], 3 * k + 2);
  }

  lemma GroupBits(a: Byte, b: Byte, c: Byte)
    ensures ((S0(a) * 64 + S1(a, b)) * 64 + S2(b, c)) * 64 + S3(c) == (a * 256 + b) * 256 + c
  {
  }

  lemma {:induction false} EncodedSymbols(b: seq<Byte>)
    ensures |Encode(b)| == (4 * |b| + 2) / 3 && forall i | 0 <= i < |Encode(b)| :: ValueOf(Encode(b)[i]).Some?
  {
    forall v: Sextet ensures ValueOf(CharOf(v)).Some? {
      CharRoundTrip(v);
    }
    if |b| > 2 { EncodedSymbols(b[3..]); }
  }

  ghost predicate AllSymbols(s: string) {
    forall i | 0 <= i < |s| :: ValueOf(s[i]).Some?
  }

  /** Which texts are accepted: symbols and line breaks, and not one symbol left over. */
  lemma {:induction false} DecodesExactly(s: string)
    ensures Decode(s).Some? <==> (forall c | c in s :: c in ALPHABET || c == '\r' || c == '\n') && |SkipBreaks(s)| % 4 != 1
    ensures NoBreaks(SkipBreaks(s)) && forall c | c != '\r' && c != '\n' :: multiset(SkipBreaks(s))[c] == multiset(s)[c]
  {
    BreaksAreSkipped(s);
    GroupsExactly(SkipBreaks(s));
    forall c | c in SkipBreaks(s) ensures c in s && c != '\r' && c != '\n' {
      var i :| 0 <= i < |SkipBreaks(s)| && SkipBreaks(s)[i] == c;
      assert c in multiset(SkipBreaks(s));
      assert c in multiset(s);
    }
    forall c ensures ValueOf(c).Some? <==> c in ALPHABET { Symbols(c); }
    assert AllSymbols(SkipBreaks(s)) <==> forall c | c in SkipBreaks(s) :: ValueOf(c).Some?;
    forall c | c in s && c != '\r' && c != '\n' ensures c in SkipBreaks(s) {
      assert c in multiset(s);
      assert c in multiset(SkipBreaks(s));
    }
  }

  lemma {:induction false} BreaksAreSkipped(s: string)
    ensures NoBreaks(SkipBreaks(s)) && forall c | c != '\r' && c != '\n' :: multiset(SkipBreaks(s))[c] == multiset(s)[c]
  {
    if s != "" {
      BreaksAreSkipped(s[1..]);
      assert s == [s[0]] + s[1..];
    }
  }

  lemma {:induction false} GroupsExactly(s: string)
    ensures DecodeGroups(s).Some? <==> AllSymbols(s) && |s| % 4 != 1
  {
    if |s| >= 4 {
      GroupsExactly(s[4..]);
      assert AllSymbols(s) <==> AllSymbols(s[..4]) && AllSymbols(s[4..]) by {
        assert s == s[..4] + s[4..];
      }
    }
  }
}

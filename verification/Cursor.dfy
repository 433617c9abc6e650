/**
 The page cursor: base64url of `<RFC 3339 time with nanoseconds>|<uuid>`. Times are UTC calendar
 fields; a UUID is its 32 hexadecimal digits.
*/
module Cursor {
  import opened Options
  import opened Base64Url

  datatype Utc = Utc(year: int, month: nat, day: nat, hour: nat, minute: nat, second: nat, nano: nat)

  type Nibble = n: nat | n < 16
  type Uuid = u: seq<Nibble> | |u| == 32 witness seq(32, _ => 0)

  datatype Key = Key(at: Utc, id: Uuid)

  datatype CursorError = BadBase64 | Malformed | BadTime | BadId
  datatype Decoded = Ok(key: Key) | Err(error: CursorError)

  function DaysIn(month: nat, year: int): nat {
    if month == 2 then (if year % 4 == 0 && (year % 100 != 0 || year % 400 == 0) then 29 else 28)
    else if month == 4 || month == 6 || month == 9 || month == 11 then 30
    else 31
  }

  predicate InRange(t: Utc) {
    && 1 <= t.month <= 12 && 1 <= t.day <= DaysIn(t.month, t.year)
    && t.hour < 24 && t.minute < 60 && t.second < 60 && t.nano < 1_000_000_000
  }

  // === Numbers ================================================================

  function Digit(n: nat): char
    requires n < 10
  {
    ('0' as int + n) as char
  }

  predicate IsDigit(c: char) { '0' <= c <= '9' }

  function Pow10(w: nat): (p: nat)
    ensures p >= 1
  {
    if w == 0 then 1 else 10 * Pow10(w - 1)
  }

  /** The last `w` decimal digits. */
  function Fixed(n: nat, w: nat): (s: string)
    ensures |s| == w
  {
    if w == 0 then "" else Fixed(n / 10, w - 1) + [Digit(n % 10)]
  }

  /** All digits, and zeros in front up to `w`. */
  function AtLeast(n: nat, w: nat): string
    decreases n, w
  {
    if n == 0 && w == 0 then "" else AtLeast(n / 10, if w > 0 then w - 1 else 0) + [Digit(n % 10)]
  }

  function ReadDigits(s: string): Option<nat> {
    if s == "" then Some(0)
    else
      var k := |s| - 1;
      var r := ReadDigits(s[..k]);
      if r.None? || !IsDigit(s[k]) then None else Some(r.value * 10 + (s[k] as int - '0' as int))
  }

  lemma {:induction false} FixedRoundTrip(n: nat, w: nat)
    requires n < Pow10(w)
    ensures ReadDigits(Fixed(n, w)) == Some(n)
  {
    if w > 0 {
      FixedRoundTrip(n / 10, w - 1);
      var s := Fixed(n, w);
      assert s[..w - 1] == Fixed(n / 10, w - 1);
    }
  }

  lemma {:induction false} AtLeastIsFixed(n: nat, w: nat)
    requires n < Pow10(w)
    ensures AtLeast(n, w) == Fixed(n, w)
  {
    if w > 0 {
      AtLeastIsFixed(n / 10, w - 1);
    }
  }

  ghost predicate AllDigits(s: string) {
    forall i | 0 <= i < |s| :: IsDigit(s[i])
  }

  lemma {:induction false} FixedIsDigits(n: nat, w: nat)
    ensures AllDigits(Fixed(n, w))
  {
    if w > 0 { FixedIsDigits(n / 10, w - 1); }
  }

  /** A number too large for its width spills over it. */
  lemma {:induction false} AtLeastSpills(n: nat, w: nat)
    requires n >= Pow10(w)
    ensures |AtLeast(n, w)| > w && AllDigits(AtLeast(n, w))
    decreases n, w
  {
    if w > 0 {
      AtLeastSpills(n / 10, w - 1);
    } else {
      AtLeastAllDigits(n / 10, 0);
    }
  }

  lemma {:induction false} AtLeastAllDigits(n: nat, w: nat)
    ensures AllDigits(AtLeast(n, w))
    decreases n, w
  {
    if n != 0 || w != 0 { AtLeastAllDigits(n / 10, if w > 0 then w - 1 else 0); }
  }

  // === Time ===================================================================

  /** A separator and two digits. */
  function Field(sep: char, n: nat, rest: string): string {
    [sep] + Fixed(n, 2) + rest
  }

  function TakeField(s: string, sep: char): Option<(nat, string)> {
    if |s| < 3 || s[0] != sep then None
    else
      var n := ReadDigits(s[1..3]);
      if n.None? then None else Some((n.value, s[3..]))
  }

  function TrimZeros(s: string): string {
    if s != "" && s[|s| - 1] == '0' then TrimZeros(s[..|s| - 1]) else s
  }

  function Zeros(n: nat): (s: string)
    ensures |s| == n
  {
    seq(n, _ => '0')
  }

  /** The fraction without trailing zeros, not at all when it is zero. */
  function Fraction(nano: nat): string {
    var s := TrimZeros(Fixed(nano, 9));
    if s == "" then "" else "." + s
  }

  /** What follows the seconds: a fraction (digits past the ninth are dropped) and Z. */
  function ReadTail(s: string): Option<nat> {
    if s == "Z" then Some(0)
    else if |s| < 3 || s[0] != '.' || s[|s| - 1] != 'Z' || ReadDigits(s[1..|s| - 1]).None? then None
    else
      var f := s[1..|s| - 1];
      ReadDigits(if |f| >= 9 then f[..9] else f + Zeros(9 - |f|))
  }

  function FormatYear(year: int): string {
    if year < 0 then "-" + AtLeast(-year, 4) else AtLeast(year, 4)
  }

  function FormatClock(t: Utc): string {
    Field('-', t.month, Field('-', t.day, Field('T', t.hour, Field(':', t.minute, Field(':', t.second, Fraction(t.nano) + "Z")))))
  }

  function FormatTime(t: Utc): string {
    FormatYear(t.year) + FormatClock(t)
  }

  function ReadClock(year: nat, s: string): Option<Utc> {
    var mo := TakeField(s, '-');
    if mo.None? then None else
    var d := TakeField(mo.value.1, '-');
    if d.None? then None else
    var h := TakeField(d.value.1, 'T');
    if h.None? then None else
    var mi := TakeField(h.value.1, ':');
    if mi.None? then None else
    var se := TakeField(mi.value.1, ':');
    if se.None? then None else
    var nano := ReadTail(se.value.1);
    if nano.None? then None
    else Some(Utc(year, mo.value.0, d.value.0, h.value.0, mi.value.0, se.value.0, nano.value))
  }

  function ParseTime(s: string): Option<Utc> {
    if |s| < 4 || ReadDigits(s[..4]).None? then None
    else
      var t := ReadClock(ReadDigits(s[..4]).value, s[4..]);
      if t.Some? && InRange(t.value) then t else None
  }

  lemma FieldRoundTrip(sep: char, n: nat, rest: string)
    requires n < 100
    ensures TakeField(Field(sep, n, rest), sep) == Some((n, rest))
  {
    var s := Field(sep, n, rest);
    assert Pow10(2) == 100;
    FixedRoundTrip(n, 2);
    assert s[1..3] == Fixed(n, 2) && s[3..] == rest;
  }

  lemma {:induction false} TrimThenPad(s: string)
    ensures |TrimZeros(s)| <= |s| && TrimZeros(s) + Zeros(|s| - |TrimZeros(s)|) == s
    ensures AllDigits(s) ==> AllDigits(TrimZeros(s))
  {
    if s != "" && s[|s| - 1] == '0' {
      var k := |s| - 1;
      TrimThenPad(s[..k]);
      var t := TrimZeros(s[..k]);
      assert Zeros(|s| - |t|) == Zeros(k - |t|) + ['0'];
      assert s == s[..k] + ['0'];
    }
  }

  lemma {:induction false} DigitsRead(s: string)
    ensures AllDigits(s) <==> ReadDigits(s).Some?
  {
    if s != "" { DigitsRead(s[..|s| - 1]); }
  }

  lemma TailRoundTrip(nano: nat)
    requires nano < 1_000_000_000
    ensures ReadTail(Fraction(nano) + "Z") == Some(nano)
  {
    var s := Fixed(nano, 9);
    var f := TrimZeros(s);
    assert Pow10(9) == 1_000_000_000 by { assert Pow10(4) == 10000; assert Pow10(8) == 100_000_000; }
    FixedRoundTrip(nano, 9);
    FixedIsDigits(nano, 9);
    TrimThenPad(s);
    DigitsRead(f);
    if f == "" {
      assert s == Zeros(9);
      ZerosAreZero(9);
    } else {
      var t := Fraction(nano) + "Z";
      assert t[1..|t| - 1] == f;
      if |f| == 9 { assert Zeros(0) == "" && f == s && f[..9] == f; }
    }
  }

  lemma {:induction false} ZerosAreZero(n: nat)
    ensures ReadDigits(Zeros(n)) == Some(0)
  {
    if n > 0 {
      ZerosAreZero(n - 1);
      assert Zeros(n)[..n - 1] == Zeros(n - 1);
    }
  }

  lemma ClockRoundTrip(t: Utc)
    requires InRange(t) && t.year >= 0
    ensures ReadClock(t.year, FormatClock(t)) == Some(t)
  {
    var tail := Fraction(t.nano) + "Z";
    var se := Field(':', t.second, tail);
    var mi := Field(':', t.minute, se);
    var h := Field('T', t.hour, mi);
    var d := Field('-', t.day, h);
    TailRoundTrip(t.nano);
    FieldRoundTrip(':', t.second, tail);
    FieldRoundTrip(':', t.minute, se);
    FieldRoundTrip('T', t.hour, mi);
    FieldRoundTrip('-', t.day, h);
    FieldRoundTrip('-', t.month, d);
  }

  /** A time survives formatting and parsing exactly when its year has at most four digits. */
  lemma TimeRoundTrip(t: Utc)
    requires InRange(t)
    ensures ParseTime(FormatTime(t)) == Some(t) <==> 0 <= t.year <= 9999
    ensures !(0 <= t.year <= 9999) ==> ParseTime(FormatTime(t)) == None
  {
    var s := FormatTime(t);
    assert Pow10(4) == 10000;
    if 0 <= t.year <= 9999 {
      AtLeastIsFixed(t.year, 4);
      FixedRoundTrip(t.year, 4);
      assert s[..4] == Fixed(t.year, 4) && s[4..] == FormatClock(t);
      ClockRoundTrip(t);
    } else if t.year < 0 {
      NegativeYearFails(s);
    } else {
      AtLeastSpills(t.year, 4);
      assert IsDigit(s[4]);
    }
  }

  lemma NegativeYearFails(s: string)
    requires |s| > 0 && s[0] == '-'
    ensures ParseTime(s) == None
  {
    if |s| >= 4 {
      DigitsRead(s[..4]);
      assert !IsDigit(s[..4][0]);
    }
  }

  // === Which texts are accepted ===============================================

  lemma {:induction false} ReadIsFixed(s: string, n: nat)
    ensures ReadDigits(s) == Some(n) <==> n < Pow10(|s|) && s == Fixed(n, |s|)
  {
    if n < Pow10(|s|) && s == Fixed(n, |s|) { FixedRoundTrip(n, |s|); }
    if s != "" && ReadDigits(s) == Some(n) {
      var k := |s| - 1;
      ReadIsFixed(s[..k], ReadDigits(s[..k]).value);
      assert n / 10 == ReadDigits(s[..k]).value;
      assert s == s[..k] + [s[k]];
    }
  }

  /** What ends a time text: a fraction of at least one digit, of which nine matter, or none. */
  ghost predicate IsTail(s: string, nano: nat) {
    || (s == "Z" && nano == 0)
    || (|s| >= 3 && s == "." + s[1..|s| - 1] + "Z" && AllDigits(s[1..|s| - 1])
        && (s[1..|s| - 1] + "000000000")[..9] == Fixed(nano, 9) && nano < 1_000_000_000)
  }

  /** RFC 3339 in UTC: year-month-dayThour:minute:second, all of fixed width, and the tail. */
  ghost predicate IsTimeText(s: string, t: Utc) {
    && 0 <= t.year <= 9999 && InRange(t) && |s| >= 19
    && s[..19] == Fixed(t.year, 4) + "-" + Fixed(t.month, 2) + "-" + Fixed(t.day, 2) + "T" + Fixed(t.hour, 2) + ":" + Fixed(t.minute, 2)
                  + ":" + Fixed(t.second, 2)
    && IsTail(s[19..], t.nano)
  }

  lemma TailsExactly(s: string, nano: nat)
    ensures ReadTail(s) == Some(nano) <==> IsTail(s, nano)
  {
    if s != "Z" && |s| >= 3 {
      var f := s[1..|s| - 1];
      var g := if |f| >= 9 then f[..9] else f + Zeros(9 - |f|);
      assert "000000000" == Zeros(9);
      assert (f + "000000000")[..9] == g;
      assert Pow10(9) == 1_000_000_000 by { assert Pow10(4) == 10000; assert Pow10(8) == 100_000_000; }
      DigitsRead(f);
      ReadIsFixed(g, nano);
      if s[0] == '.' && s[|s| - 1] == 'Z' { assert s == "." + f + "Z"; }
    }
  }

  lemma FieldsExactly(s: string, sep: char, n: nat)
    ensures TakeField(s, sep).Some? && TakeField(s, sep).value.0 == n <==>
            |s| >= 3 && n < 100 && s[..3] == [sep] + Fixed(n, 2)
    ensures TakeField(s, sep).Some? ==> TakeField(s, sep).value.1 == s[3..]
  {
    assert Pow10(2) == 100;
    if |s| >= 3 {
      ReadIsFixed(s[1..3], n);
      assert s[..3] == [s[0]] + s[1..3];
      if s[..3] == [sep] + Fixed(n, 2) { assert s[1..3] == s[..3][1..]; }
    }
  }

  lemma ClockExactly(year: nat, s: string, t: Utc)
    requires t.month < 100 && t.day < 100 && t.hour < 100 && t.minute < 100 && t.second < 100
    ensures ReadClock(year, s) == Some(t) <==>
              && t.year == year && |s| >= 15 && IsTail(s[15..], t.nano)
              && s[..3] == "-" + Fixed(t.month, 2) && s[3..6] == "-" + Fixed(t.day, 2) && s[6..9] == "T" + Fixed(t.hour, 2)
              && s[9..12] == ":" + Fixed(t.minute, 2) && s[12..15] == ":" + Fixed(t.second, 2)
  {
    FieldsExactly(s, '-', t.month);
    if |s| >= 15 {
      assert s[3..][..3] == s[3..6] && s[3..][3..] == s[6..] && s[6..][..3] == s[6..9] && s[6..][3..] == s[9..];
      assert s[9..][..3] == s[9..12] && s[9..][3..] == s[12..] && s[12..][..3] == s[12..15] && s[12..][3..] == s[15..];
      FieldsExactly(s[3..], '-', t.day);
      FieldsExactly(s[6..], 'T', t.hour);
      FieldsExactly(s[9..], ':', t.minute);
      FieldsExactly(s[12..], ':', t.second);
      TailsExactly(s[15..], t.nano);
    }
  }

  lemma SplitClock(s: string, a: string, b: string, c: string, d: string, e: string, f: string)
    requires |s| >= 19 && |a| == 4 && |b| == |c| == |d| == |e| == |f| == 3
    ensures s[..19] == a + b + c + d + e + f <==>
            s[..4] == a && s[4..7] == b && s[7..10] == c && s[10..13] == d && s[13..16] == e && s[16..19] == f
  {
    assert s[..19] == s[..4] + s[4..7] + s[7..10] + s[10..13] + s[13..16] + s[16..19];
    var x := a + b + c + d + e + f;
    assert x[..4] == a && x[4..7] == b && x[7..10] == c && x[10..13] == d && x[13..16] == e && x[16..19] == f;
    if s[..19] == x {
      assert s[..19][..4] == s[..4] && s[..19][4..7] == s[4..7] && s[..19][7..10] == s[7..10];
      assert s[..19][10..13] == s[10..13] && s[..19][13..16] == s[13..16] && s[..19][16..19] == s[16..19];
    }
  }

  lemma ClockSlices(s: string)
    requires |s| >= 19
    ensures var u := s[4..];
            && u[..3] == s[4..7] && u[3..6] == s[7..10] && u[6..9] == s[10..13] && u[9..12] == s[13..16] && u[12..15] == s[16..19]
            && u[15..] == s[19..]
  {
  }

  lemma Regroup(y: string, mo: string, d: string, h: string, mi: string, se: string)
    ensures y + "-" + mo + "-" + d + "T" + h + ":" + mi + ":" + se
         == y + ("-" + mo) + ("-" + d) + ("T" + h) + (":" + mi) + (":" + se)
  {
  }

  /** A text is read as a time exactly when it spells that time out. */
  lemma ParsesExactly(s: string, t: Utc)
    ensures ParseTime(s) == Some(t) <==> IsTimeText(s, t)
  {
    if 0 <= t.year <= 9999 && InRange(t) {
      assert Pow10(4) == 10000;
      if |s| >= 4 {
        ReadIsFixed(s[..4], t.year);
        ClockExactly(t.year, s[4..], t);
      }
      if |s| >= 19 {
        ClockSlices(s);
        SplitClock(s, Fixed(t.year, 4), "-" + Fixed(t.month, 2), "-" + Fixed(t.day, 2), "T" + Fixed(t.hour, 2),
                   ":" + Fixed(t.minute, 2), ":" + Fixed(t.second, 2));
        Regroup(Fixed(t.year, 4), Fixed(t.month, 2), Fixed(t.day, 2), Fixed(t.hour, 2), Fixed(t.minute, 2), Fixed(t.second, 2));
      }
    } else if ParseTime(s) == Some(t) {
      YearsRead(s, t);
    }
  }

  lemma YearsRead(s: string, t: Utc)
    requires ParseTime(s) == Some(t)
    ensures 0 <= t.year <= 9999 && InRange(t)
  {
    assert Pow10(4) == 10000;
    ReadIsFixed(s[..4], t.year);
  }

  // === UUID ===================================================================

  function HexDigit(n: Nibble): char {
    if n < 10 then ('0' as int + n) as char else ('a' as int + (n - 10)) as char
  }

  function HexValue(c: char): Option<Nibble> {
    if '0' <= c <= '9' then Some(c as int - '0' as int)
    else if 'a' <= c <= 'f' then Some(c as int - 'a' as int + 10)
    else if 'A' <= c <= 'F' then Some(c as int - 'A' as int + 10)
    else None
  }

  function Hex(u: seq<Nibble>): (s: string)
    ensures |s| == |u|
  {
    seq(|u|, i requires 0 <= i < |u| => HexDigit(u[i]))
  }

  function ReadHex(s: string): (r: Option<seq<Nibble>>)
    ensures r.Some? ==> |r.value| == |s|
  {
    if forall i | 0 <= i < |s| :: HexValue(s[i]).Some?
    then Some(seq(|s|, i requires 0 <= i < |s| => HexValue(s[i]).value))
    else None
  }

  function FormatUuid(u: Uuid): string {
    var t := Hex(u);
    t[..8] + "-" + t[8..12] + "-" + t[12..16] + "-" + t[16..20] + "-" + t[20..]
  }

  function ParseUuid(s: string): Option<Uuid> {
    if |s| != 36 || s[8] != '-' || s[13] != '-' || s[18] != '-' || s[23] != '-' then None
    else ReadHex(s[..8] + s[9..13] + s[14..18] + s[19..23] + s[24..])
  }

  lemma HexRoundTrip(u: seq<Nibble>)
    ensures ReadHex(Hex(u)) == Some(u)
  {
    var s := Hex(u);
    forall i | 0 <= i < |s| ensures HexValue(s[i]) == Some(u[i]) {
    }
    assert ReadHex(s).value == u;
  }

  lemma UuidRoundTrip(u: Uuid)
    ensures |FormatUuid(u)| == 36 && ParseUuid(FormatUuid(u)) == Some(u)
  {
    var s, t := FormatUuid(u), Hex(u);
    HexRoundTrip(u);
    assert s[..8] == t[..8] && s[9..13] == t[8..12] && s[14..18] == t[12..16] && s[19..23] == t[16..20] && s[24..] == t[20..];
    assert s[..8] + s[9..13] + s[14..18] + s[19..23] + s[24..] == t;
  }

  const LOWER_HEX := "0123456789abcdef"
  const UPPER_HEX := "0123456789ABCDEF"

  lemma HexExactly(c: char, n: Nibble)
    ensures HexDigit(n) == LOWER_HEX[n]
    ensures HexValue(c) == Some(n) <==> c == LOWER_HEX[n] || c == UPPER_HEX[n]
  {
  }

  /** Where the j-th digit of a UUID stands in its text. */
  function Place(j: nat): nat {
    if j < 8 then j else if j < 12 then j + 1 else if j < 16 then j + 2 else if j < 20 then j + 3 else j + 4
  }

  /** Eight, four, four, four and twelve hexadecimal digits with dashes between. */
  ghost predicate IsUuidText(s: string, u: Uuid) {
    && |s| == 36 && s[8] == s[13] == s[18] == s[23] == '-'
    && forall j | 0 <= j < 32 :: s[Place(j)] == LOWER_HEX[u[j]] || s[Place(j)] == UPPER_HEX[u[j]]
  }

  /** A text is read as a UUID exactly when it spells that one out, in either case. */
  lemma UuidsExactly(s: string, u: Uuid)
    ensures ParseUuid(s) == Some(u) <==> IsUuidText(s, u)
  {
    if |s| == 36 {
      var t := s[..8] + s[9..13] + s[14..18] + s[19..23] + s[24..];
      forall j | 0 <= j < 32
        ensures t[j] == s[Place(j)]
        ensures HexValue(t[j]) == Some(u[j]) <==> s[Place(j)] == LOWER_HEX[u[j]] || s[Place(j)] == UPPER_HEX[u[j]]
      {
        HexExactly(t[j], u[j]);
      }
      if forall j | 0 <= j < 32 :: HexValue(t[j]) == Some(u[j]) {
        assert ReadHex(t).value == u;
      }
    }
  }

  // === Cursor =================================================================

  function BytesOf(s: string): seq<Byte>
    requires forall i | 0 <= i < |s| :: s[i] as int < 256
  {
    seq(|s|, i requires 0 <= i < |s| => s[i] as int)
  }

  function TextOf(b: seq<Byte>): string {
    seq(|b|, i requires 0 <= i < |b| => b[i] as char)
  }

  /** Where the first '|' is; |s| when there is none. */
  function FirstBar(s: string): (k: nat)
    ensures k <= |s|
  {
    if s == "" || s[0] == '|' then 0 else 1 + FirstBar(s[1..])
  }

  /** What no time text contains: a bar, or anything but ASCII. */
  ghost predicate Plain(s: string) {
    forall i | 0 <= i < |s| :: s[i] != '|' && s[i] as int < 128
  }

  lemma PlainDigits(s: string)
    requires AllDigits(s)
    ensures Plain(s)
  {
  }

  lemma PlainField(sep: char, n: nat, rest: string)
    requires Plain(rest) && sep != '|' && sep as int < 128
    ensures Plain(Field(sep, n, rest))
  {
    FixedIsDigits(n, 2);
    PlainDigits(Fixed(n, 2));
  }

  lemma PlainFraction(nano: nat)
    ensures Plain(Fraction(nano) + "Z")
  {
    FixedIsDigits(nano, 9);
    TrimThenPad(Fixed(nano, 9));
    PlainDigits(TrimZeros(Fixed(nano, 9)));
  }

  lemma PlainTime(t: Utc)
    ensures Plain(FormatTime(t))
  {
    var years := AtLeast(if t.year < 0 then -t.year else t.year, 4);
    AtLeastAllDigits(if t.year < 0 then -t.year else t.year, 4);
    PlainDigits(years);
    assert Plain(FormatYear(t.year));
    var tail := Fraction(t.nano) + "Z";
    var se := Field(':', t.second, tail);
    var mi := Field(':', t.minute, se);
    var h := Field('T', t.hour, mi);
    var d := Field('-', t.day, h);
    PlainFraction(t.nano);
    PlainField(':', t.second, tail);
    PlainField(':', t.minute, se);
    PlainField('T', t.hour, mi);
    PlainField('-', t.day, h);
    PlainField('-', t.month, d);
  }

  lemma PlainUuid(u: Uuid)
    ensures Plain(FormatUuid(u))
  {
  }

  function CursorText(k: Key): string {
    FormatTime(k.at) + "|" + FormatUuid(k.id)
  }

  lemma PlainCursor(k: Key)
    ensures forall i | 0 <= i < |CursorText(k)| :: CursorText(k)[i] as int < 128
  {
    PlainTime(k.at);
    PlainUuid(k.id);
    var a, b := FormatTime(k.at), FormatUuid(k.id);
    forall i | 0 <= i < |CursorText(k)| ensures CursorText(k)[i] as int < 128 {
      assert CursorText(k)[i] == if i < |a| then a[i] else if i == |a| then '|' else b[i - |a| - 1];
    }
  }

  /** encodeCursor */
  function Encode(k: Key): string {
    PlainCursor(k);
    Base64Url.Encode(BytesOf(CursorText(k)))
  }

  /** decodeCursor */
  function Decode(s: string): Decoded {
    var raw := Base64Url.Decode(s);
    if raw.None? then Err(BadBase64)
    else
      var text := TextOf(raw.value);
      var bar := FirstBar(text);
      if bar == |text| then Err(Malformed) else ReadParts(text[..bar], text[bar + 1..])
  }

  function ReadParts(at: string, id: string): Decoded {
    var t, u := ParseTime(at), ParseUuid(id);
    if t.None? then Err(BadTime) else if u.None? then Err(BadId) else Ok(Key(t.value, u.value))
  }

  lemma {:induction false} BarAfterPlain(a: string, b: string)
    requires Plain(a)
    ensures FirstBar(a + "|" + b) == |a|
  {
    if a == "" {
      assert a + "|" + b == "|" + b;
    } else {
      BarAfterPlain(a[1..], b);
      assert (a + "|" + b)[1..] == a[1..] + "|" + b;
    }
  }

  /** Decoding an encoded key undoes everything but the time. */
  lemma EncodedIsDecoded(k: Key)
    ensures var at := ParseTime(FormatTime(k.at));
            Decode(Encode(k)) == if at.None? then Err(BadTime) else Ok(Key(at.value, k.id))
  {
    var a, b := FormatTime(k.at), FormatUuid(k.id);
    PlainTime(k.at);
    EncodedTextIsDecoded(k, a, b);
    UuidRoundTrip(k.id);
  }

  lemma EncodedTextIsDecoded(k: Key, a: string, b: string)
    requires CursorText(k) == a + "|" + b && Plain(a)
    ensures Decode(Encode(k)) == ReadParts(a, b)
  {
    var text := CursorText(k);
    PlainCursor(k);
    Base64Url.RoundTrip(BytesOf(text));
    assert TextOf(BytesOf(text)) == text;
    BarAfterPlain(a, b);
    assert text[..|a|] == a && text[|a| + 1..] == b;
  }

  /** Cursors round-trip exactly for the years that RFC 3339 can write. */
  lemma CursorRoundTrip(k: Key)
    requires InRange(k.at)
    ensures Decode(Encode(k)) == Ok(k) <==> 0 <= k.at.year <= 9999
    ensures !(0 <= k.at.year <= 9999) ==> Decode(Encode(k)) == Err(BadTime)
  {
    EncodedIsDecoded(k);
    TimeRoundTrip(k.at);
  }

  lemma PlainTimeText(s: string, t: Utc)
    requires IsTimeText(s, t)
    ensures Plain(s)
  {
    var a, tail := s[..19], s[19..];
    var y, mo, d, h, mi, se := Fixed(t.year, 4), Fixed(t.month, 2), Fixed(t.day, 2), Fixed(t.hour, 2), Fixed(t.minute, 2), Fixed(t.second, 2);
    FixedIsDigits(t.year, 4);
    FixedIsDigits(t.month, 2);
    FixedIsDigits(t.day, 2);
    FixedIsDigits(t.hour, 2);
    FixedIsDigits(t.minute, 2);
    FixedIsDigits(t.second, 2);
    assert Plain(y + "-" + mo) && Plain(d + "T" + h) && Plain(mi + ":" + se);
    assert a == (y + "-" + mo) + "-" + (d + "T" + h) + ":" + (mi + ":" + se);
    assert Plain(a);
    assert Plain(tail) by {
      if tail != "Z" {
        var f := tail[1..|tail| - 1];
        PlainDigits(f);
        assert tail == "." + f + "Z";
      }
    }
    assert s == a + tail;
  }

  /** The text is that key's time, a bar and that key's id. */
  ghost predicate Spells(text: string, k: Key) {
    exists n | 0 <= n < |text| :: text[n] == '|' && IsTimeText(text[..n], k.at) && IsUuidText(text[n + 1..], k.id)
  }

  lemma PartsSpelt(a: string, b: string, k: Key)
    ensures ReadParts(a, b) == Ok(k) <==> IsTimeText(a, k.at) && IsUuidText(b, k.id)
  {
    ParsesExactly(a, k.at);
    UuidsExactly(b, k.id);
  }

  lemma BarOfSpelt(text: string, n: nat, t: Utc)
    requires n < |text| && text[n] == '|' && IsTimeText(text[..n], t)
    ensures FirstBar(text) == n
  {
    var a, b := text[..n], text[n + 1..];
    PlainTimeText(a, t);
    BarAfterPlain(a, b);
    assert text == a + "|" + b;
  }

  /** So it is read, and no other text is. */
  lemma SpellsExactly(text: string, k: Key)
    ensures Spells(text, k) <==>
              var bar := FirstBar(text); bar < |text| && ReadParts(text[..bar], text[bar + 1..]) == Ok(k)
  {
    var bar := FirstBar(text);
    BarIsFirst(text);
    if bar < |text| { PartsSpelt(text[..bar], text[bar + 1..], k); }
    forall n | 0 <= n < |text| && text[n] == '|' && IsTimeText(text[..n], k.at) ensures n == bar {
      BarOfSpelt(text, n, k.at);
    }
  }

  /** A cursor is accepted as a key exactly when it is the encoding of a text that spells it. */
  lemma DecodesExactly(s: string, k: Key)
    ensures Decode(s) == Ok(k) <==> Base64Url.Decode(s).Some? && Spells(TextOf(Base64Url.Decode(s).value), k)
  {
    if Base64Url.Decode(s).Some? {
      var text := TextOf(Base64Url.Decode(s).value);
      SpellsExactly(text, k);
    }
  }

  lemma {:induction false} BarIsFirst(s: string)
    ensures FirstBar(s) < |s| ==> s[FirstBar(s)] == '|'
  {
    if s != "" && s[0] != '|' { BarIsFirst(s[1..]); }
  }

  /** Two keys never share a cursor, and a cursor is never empty. */
  lemma CursorsDiffer(j: Key, k: Key)
    requires InRange(j.at) && InRange(k.at) && 0 <= j.at.year <= 9999 && 0 <= k.at.year <= 9999 && Encode(j) == Encode(k)
    ensures j == k && Encode(k) != ""
  {
    CursorRoundTrip(j);
    CursorRoundTrip(k);
    assert Decode("") == Err(Malformed);
  }
}

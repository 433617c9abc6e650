/** Keyset pagination of an object's execution history, newest first. */
module Pages {
  import opened Cursor

  // === The order of (created_at, id) ==========================================

  function Fields(k: Key): seq<int> {
    [k.at.year, k.at.month, k.at.day, k.at.hour, k.at.minute, k.at.second, k.at.nano] + seq(32, i requires 0 <= i < 32 => k.id[i])
  }

  predicate LexLess(a: seq<int>, b: seq<int>) {
    a != [] && b != [] && (a[0] < b[0] || (a[0] == b[0] && LexLess(a[1..], b[1..])))
  }

  /** The row comparison (created_at, id) < (created_at, id). */
  predicate Before(a: Key, b: Key) {
    LexLess(Fields(a), Fields(b))
  }

  lemma {:induction false} LexOrder(a: seq<int>, b: seq<int>, c: seq<int>)
    requires |a| == |b| == |c|
    ensures !LexLess(a, a)
    ensures LexLess(a, b) && LexLess(b, c) ==> LexLess(a, c)
    ensures a == b || LexLess(a, b) || LexLess(b, a)
  {
    if a != [] {
      LexOrder(a[1..], b[1..], c[1..]);
      assert a == [a[0]] + a[1..] && b == [b[0]] + b[1..];
    }
  }

  lemma FieldsDetermine(a: Key, b: Key)
    requires Fields(a) == Fields(b)
    ensures a == b
  {
    var x, y := Fields(a), Fields(b);
    assert x[0] == y[0] && x[1] == y[1] && x[2] == y[2] && x[3] == y[3] && x[4] == y[4] && x[5] == y[5] && x[6] == y[6];
    forall i | 0 <= i < 32 ensures a.id[i] == b.id[i] {
      assert x[7 + i] == a.id[i] && y[7 + i] == b.id[i];
    }
    assert a.id == b.id;
  }

  lemma KeyOrder(a: Key, b: Key, c: Key)
    ensures !Before(a, a)
    ensures Before(a, b) && Before(b, c) ==> Before(a, c)
    ensures a == b || Before(a, b) || Before(b, a)
  {
    LexOrder(Fields(a), Fields(b), Fields(c));
    if Fields(a) == Fields(b) { FieldsDetermine(a, b); }
  }

  /** Time order on calendar fields. */
  predicate Earlier(a: Utc, b: Utc) {
    if a.year != b.year then a.year < b.year
    else if a.month != b.month then a.month < b.month
    else if a.day != b.day then a.day < b.day
    else if a.hour != b.hour then a.hour < b.hour
    else if a.minute != b.minute then a.minute < b.minute
    else if a.second != b.second then a.second < b.second
    else a.nano < b.nano
  }

  /** The first digit in which two ids differ is smaller. */
  ghost predicate IdLess(a: seq<Nibble>, b: seq<Nibble>)
    requires |a| == |b|
  {
    exists i | 0 <= i < |a| :: a[i] < b[i] && a[..i] == b[..i]
  }

  function Digits(u: seq<Nibble>): seq<int> {
    seq(|u|, i requires 0 <= i < |u| => u[i])
  }

  lemma {:induction false} DigitsLess(a: seq<Nibble>, b: seq<Nibble>)
    requires |a| == |b|
    ensures LexLess(Digits(a), Digits(b)) <==> IdLess(a, b)
  {
    if a != [] {
      assert Digits(a)[1..] == Digits(a[1..]) && Digits(b)[1..] == Digits(b[1..]);
      DigitsLess(a[1..], b[1..]);
      if IdLess(a[1..], b[1..]) && a[0] == b[0] {
        var i :| 0 <= i < |a| - 1 && a[1..][i] < b[1..][i] && a[1..][..i] == b[1..][..i];
        assert a[..i + 1] == [a[0]] + a[1..][..i] && b[..i + 1] == [b[0]] + b[1..][..i];
        assert a[i + 1] < b[i + 1];
      }
      if IdLess(a, b) {
        var i :| 0 <= i < |a| && a[i] < b[i] && a[..i] == b[..i];
        if i > 0 {
          assert a[..i][0] == b[..i][0] && a[1..][..i - 1] == a[..i][1..] && b[1..][..i - 1] == b[..i][1..];
          assert a[1..][i - 1] < b[1..][i - 1];
        } else {
          assert a[0] < b[0];
        }
      }
    }
  }

  lemma LexStep(x: int, s: seq<int>, y: int, t: seq<int>)
    ensures LexLess([x] + s, [y] + t) <==> x < y || (x == y && LexLess(s, t))
  {
    assert ([x] + s)[1..] == s && ([y] + t)[1..] == t;
  }

  /** The row comparison follows time, and the ids only where the times are equal. */
  lemma BeforeIsEarlier(a: Key, b: Key)
    ensures Before(a, b) <==> Earlier(a.at, b.at) || (a.at == b.at && IdLess(a.id, b.id))
  {
    var x, y := a.at, b.at;
    var x7, y7 := Digits(a.id), Digits(b.id);
    var x6, y6 := [x.nano] + x7, [y.nano] + y7;
    var x5, y5 := [x.second as int] + x6, [y.second as int] + y6;
    var x4, y4 := [x.minute as int] + x5, [y.minute as int] + y5;
    var x3, y3 := [x.hour as int] + x4, [y.hour as int] + y4;
    var x2, y2 := [x.day as int] + x3, [y.day as int] + y3;
    var x1, y1 := [x.month as int] + x2, [y.month as int] + y2;
    assert Fields(a) == [x.year] + x1 && Fields(b) == [y.year] + y1;
    LexStep(x.year, x1, y.year, y1);
    LexStep(x.month, x2, y.month, y2);
    LexStep(x.day, x3, y.day, y3);
    LexStep(x.hour, x4, y.hour, y4);
    LexStep(x.minute, x5, y.minute, y5);
    LexStep(x.second, x6, y.second, y6);
    LexStep(x.nano, x7, y.nano, y7);
    DigitsLess(a.id, b.id);
  }

  // === One page ===============================================================

  ghost predicate Descending(s: seq<Key>) {
    forall i, j | 0 <= i < j < |s| :: Before(s[j], s[i])
  }

  /** ListObjectExecutions: the first `limit` rows strictly before `after`, newest first. */
  ghost predicate IsPage(table: set<Key>, after: Key, limit: nat, page: seq<Key>) {
    && |page| <= limit && Descending(page)
    && (forall k | k in page :: k in table && Before(k, after))
    && (forall k | k in table && Before(k, after) && k !in page :: |page| == limit && forall x | x in page :: Before(k, x))
  }

  /** A page goes back in time from the cursor, and every row it leaves out is older than all it
      lists, or as old with a smaller id. */
  lemma PageGoesBack(table: set<Key>, after: Key, limit: nat, page: seq<Key>)
    requires IsPage(table, after, limit, page)
    ensures forall i, j | 0 <= i < j < |page| :: !Earlier(page[i].at, page[j].at) && page[i] != page[j]
    ensures forall k | k in page :: !Earlier(after.at, k.at)
    ensures forall k | k in table && Earlier(k.at, after.at) && k !in page ::
              |page| == limit && forall x | x in page :: !Earlier(x.at, k.at) && (x.at == k.at ==> IdLess(k.id, x.id))
  {
    forall i, j | 0 <= i < j < |page| ensures !Earlier(page[i].at, page[j].at) && page[i] != page[j] {
      BeforeIsEarlier(page[j], page[i]);
      KeyOrder(page[i], page[i], page[i]);
    }
    forall k | k in page ensures !Earlier(after.at, k.at) {
      BeforeIsEarlier(k, after);
    }
    forall k | k in table && Earlier(k.at, after.at) && k !in page
      ensures |page| == limit && forall x | x in page :: !Earlier(x.at, k.at) && (x.at == k.at ==> IdLess(k.id, x.id))
    {
      BeforeIsEarlier(k, after);
      forall x | x in page ensures !Earlier(x.at, k.at) && (x.at == k.at ==> IdLess(k.id, x.id)) {
        BeforeIsEarlier(k, x);
      }
    }
  }

  function Clamp(limit: int): (n: nat)
    ensures 1 <= n <= 100 && (1 <= limit <= 100 ==> n == limit) && (limit <= 0 ==> n == 20) && (limit > 100 ==> n == 100)
  {
    if limit <= 0 then 20 else if limit > 100 then 100 else limit
  }

  datatype Reply = Page(executions: seq<Key>, nextCursor: string) | InvalidCursor

  /** How cursors are read: `Decode` in the service. What follows from replies alone needs nothing
      of it but that a cursor names the last row of the page it came with. */
  type Reader = string -> Decoded

  /** A page whose cursor, if it has one, names its last row; it has one exactly when it is full. */
  ghost predicate PageReply(read: Reader, limit: int, r: Reply) {
    && r.Page? && |r.executions| <= Clamp(limit)
    && (r.nextCursor == "" <==> |r.executions| < Clamp(limit))
    && (r.nextCursor != "" ==> read(r.nextCursor) == Ok(r.executions[|r.executions| - 1]))
  }

  /** What the page handler answers to a cursor and a limit, on these rows. */
  ghost predicate Answers(read: Reader, table: set<Key>, first: Key, limit: int, cursor: string, r: Reply) {
    if cursor != "" && read(cursor).Err? then r == InvalidCursor
    else
      && PageReply(read, limit, r)
      && IsPage(table, if cursor == "" then first else read(cursor).key, Clamp(limit), r.executions)
  }

  predicate Writable(k: Key) {
    InRange(k.at) && 0 <= k.at.year <= 9999
  }

  /** The page handler. `query` is the database's answer for this object's rows. */
  method ExecutionsPage(cursor: string, limit: int, first: Key, ghost table: set<Key>, query: (Key, nat) -> seq<Key>)
      returns (r: Reply)
    requires forall a, n | n > 0 :: IsPage(table, a, n, query(a, n))
    requires forall k | k in table :: Writable(k)
    ensures Answers(Decode, table, first, limit, cursor, r)
  {
    var n := limit;
    if limit <= 0 {
      n := 20;
    } else if limit > 100 {
      n := 100;
    }
    var after := first;
    if cursor != "" {
      var d := Decode(cursor);
      if d.Err? { return InvalidCursor; }
      after := d.key;
    }
    r := PageAfter(after, n, table, query);
  }

  method PageAfter(after: Key, n: nat, ghost table: set<Key>, query: (Key, nat) -> seq<Key>) returns (r: Reply)
    requires 1 <= n <= 100 && IsPage(table, after, n, query(after, n)) && forall k | k in table :: Writable(k)
    ensures PageReply(Decode, n, r) && IsPage(table, after, n, r.executions)
  {
    var rows := query(after, n);
    var out := [];
    for i := 0 to |rows|
      invariant out == rows[..i]
    {
      out := out + [rows[i]];
    }
    assert out == rows;
    var next := "";
    if |rows| == n {
      assert rows[n - 1] in rows;
      next := NextCursor(rows[n - 1]);
    }
    return Page(out, next);
  }

  method NextCursor(last: Key) returns (next: string)
    requires Writable(last)
    ensures next != "" && Decode(next) == Ok(last)
  {
    CursorRoundTrip(last);
    CursorsDiffer(last, last);
    next := Encode(last);
  }

  // === Following the cursor ===================================================

  /** After page i - 1, which was full; before any page, the sentinel. */
  function After(first: Key, pages: seq<seq<Key>>, i: nat): Key
    requires i <= |pages| && (i > 0 ==> pages[i - 1] != [])
  {
    if i == 0 then first else pages[i - 1][|pages[i - 1]| - 1]
  }

  ghost predicate PageAt(tables: seq<set<Key>>, first: Key, limit: nat, pages: seq<seq<Key>>, i: nat)
    requires |tables| == |pages| && i < |pages|
  {
    && (i > 0 ==> |pages[i - 1]| == limit > 0 && tables[i - 1] <= tables[i])
    && IsPage(tables[i], After(first, pages, i), limit, pages[i])
  }

  /** A client follows next_cursor; rows may be inserted between two pages, never deleted. */
  ghost predicate IsWalk(tables: seq<set<Key>>, first: Key, limit: nat, pages: seq<seq<Key>>) {
    && limit > 0 && |tables| == |pages| > 0
    && forall i | 0 <= i < |pages| :: PageAt(tables, first, limit, pages, i)
  }

  /** The last page has no next cursor. */
  ghost predicate IsComplete(limit: nat, pages: seq<seq<Key>>) {
    |pages| > 0 && |pages[|pages| - 1]| < limit
  }

  function Listed(pages: seq<seq<Key>>): seq<Key> {
    if pages == [] then [] else Listed(pages[..|pages| - 1]) + pages[|pages| - 1]
  }

  /** Everything listed by the first n pages, except the last row itself, lies above it. */
  ghost predicate AtOrAbove(s: seq<Key>, bottom: Key) {
    forall k | k in s :: k == bottom || Before(bottom, k)
  }

  lemma {:induction false} PrefixDescends(tables: seq<set<Key>>, first: Key, limit: nat, pages: seq<seq<Key>>, n: nat)
    requires IsWalk(tables, first, limit, pages) && n <= |pages|
    ensures Descending(Listed(pages[..n])) && forall k | k in Listed(pages[..n]) :: Before(k, first)
    ensures n > 0 && pages[n - 1] != [] ==> AtOrAbove(Listed(pages[..n]), After(first, pages, n))
  {
    if n > 0 {
      var m := n - 1;
      PrefixDescends(tables, first, limit, pages, m);
      assert PageAt(tables, first, limit, pages, m);
      assert pages[..n][..m] == pages[..m];
      AppendPage(Listed(pages[..m]), pages[m], first, After(first, pages, m), tables[m], limit, m > 0);
    }
  }

  lemma AppendPage(s: seq<Key>, page: seq<Key>, first: Key, after: Key, table: set<Key>, limit: nat, started: bool)
    requires Descending(s) && (forall k | k in s :: Before(k, first)) && IsPage(table, after, limit, page)
    requires if started then after in s && AtOrAbove(s, after) else s == [] && after == first
    ensures Descending(s + page) && forall k | k in s + page :: Before(k, first)
    ensures page != [] ==> AtOrAbove(s + page, page[|page| - 1])
  {
    var all := s + page;
    forall i, j | 0 <= i < |s| && 0 <= j < |page| ensures Before(page[j], s[i]) {
      assert s[i] in s && page[j] in page;
      KeyOrder(page[j], after, s[i]);
    }
    forall k | k in page ensures Before(k, first) {
      KeyOrder(k, after, first);
    }
    if page != [] {
      var bottom := page[|page| - 1];
      forall k | k in all ensures k == bottom || Before(bottom, k) {
        var i :| 0 <= i < |all| && all[i] == k;
        assert i < |s| || all[i] == page[i - |s|];
      }
    }
  }

  /** Pages never repeat a row and go strictly down, whatever is inserted meanwhile. */
  lemma WalkDescends(tables: seq<set<Key>>, first: Key, limit: nat, pages: seq<seq<Key>>)
    requires IsWalk(tables, first, limit, pages)
    ensures Descending(Listed(pages))
    ensures forall i, j | 0 <= i < j < |Listed(pages)| :: Listed(pages)[i] != Listed(pages)[j]
  {
    PrefixDescends(tables, first, limit, pages, |pages|);
    assert pages[..|pages|] == pages;
    forall i, j | 0 <= i < j < |Listed(pages)| ensures Listed(pages)[i] != Listed(pages)[j] {
      KeyOrder(Listed(pages)[i], Listed(pages)[j], first);
    }
  }

  lemma {:induction false} StillAhead(tables: seq<set<Key>>, first: Key, limit: nat, pages: seq<seq<Key>>, n: nat, k: Key)
    requires IsWalk(tables, first, limit, pages) && n <= |pages| && k in tables[0] && Before(k, first)
    ensures || k in Listed(pages[..n])
            || (n < |pages| && (n > 0 ==> pages[n - 1] != []) && k in tables[n] && Before(k, After(first, pages, n)))
            || (n == |pages| && |pages[n - 1]| == limit)
  {
    if n > 0 {
      var m := n - 1;
      StillAhead(tables, first, limit, pages, m, k);
      assert PageAt(tables, first, limit, pages, m);
      assert pages[..n][..m] == pages[..m];
      if n < |pages| { assert PageAt(tables, first, limit, pages, n); }
    }
  }

  /** A walk that runs to its end lists every row that was there when the first page was read. */
  lemma WalkIsComplete(tables: seq<set<Key>>, first: Key, limit: nat, pages: seq<seq<Key>>)
    requires IsWalk(tables, first, limit, pages) && IsComplete(limit, pages)
    ensures forall k | k in tables[0] && Before(k, first) :: k in Listed(pages)
  {
    assert pages[..|pages|] == pages;
    forall k | k in tables[0] && Before(k, first) ensures k in Listed(pages) {
      StillAhead(tables, first, limit, pages, |pages|, k);
    }
  }

  // === How many pages =========================================================

  function KeysOf(s: seq<Key>): set<Key> {
    set k | k in s
  }

  lemma {:induction false} KeysSize(s: seq<Key>)
    requires forall i, j | 0 <= i < j < |s| :: s[i] != s[j]
    ensures |KeysOf(s)| == |s|
  {
    if s == [] {
      assert KeysOf(s) == {};
    } else {
      var n := |s| - 1;
      KeysSize(s[..n]);
      assert s == s[..n] + [s[n]];
      assert s[n] !in KeysOf(s[..n]);
      assert KeysOf(s) == KeysOf(s[..n]) + {s[n]};
    }
  }

  lemma {:induction false} ListedComesFrom(tables: seq<set<Key>>, first: Key, limit: nat, pages: seq<seq<Key>>, n: nat, all: set<Key>)
    requires IsWalk(tables, first, limit, pages) && n <= |pages| && forall i | 0 <= i < |tables| :: tables[i] <= all
    ensures forall k | k in Listed(pages[..n]) :: k in all
  {
    if n > 0 {
      ListedComesFrom(tables, first, limit, pages, n - 1, all);
      assert PageAt(tables, first, limit, pages, n - 1);
      assert pages[..n][..n - 1] == pages[..n - 1];
    }
  }

  /** All pages but the last are full. */
  lemma {:induction false} FullPages(tables: seq<set<Key>>, first: Key, limit: nat, pages: seq<seq<Key>>, n: nat)
    requires IsWalk(tables, first, limit, pages) && n < |pages|
    ensures |Listed(pages[..n])| == n * limit
  {
    if n > 0 {
      FullPages(tables, first, limit, pages, n - 1);
      assert PageAt(tables, first, limit, pages, n);
      assert pages[..n][..n - 1] == pages[..n - 1];
      assert n * limit == (n - 1) * limit + limit;
    }
  }

  lemma {:induction false} NextMultiple(a: nat, b: nat, limit: nat)
    requires a < b
    ensures a * limit + limit <= b * limit
    decreases b
  {
    assert b * limit == (b - 1) * limit + limit;
    if a < b - 1 { NextMultiple(a, b - 1, limit); }
  }

  lemma QuotientIs(n: nat, m: nat, limit: nat)
    requires limit > 0 && m * limit <= n < m * limit + limit
    ensures n / limit == m
  {
    var q, r := n / limit, n % limit;
    assert n == q * limit + r;
    if q < m {
      NextMultiple(q, m, limit);
    } else if q > m {
      NextMultiple(m, q, limit);
    }
  }

  lemma {:induction false} SubsetSize(a: set<Key>, b: set<Key>)
    requires a <= b
    ensures |a| <= |b|
    decreases |a|
  {
    if a != {} {
      var x :| x in a;
      SubsetSize(a - {x}, b - {x});
      assert |a - {x}| == |a| - 1 && |b - {x}| == |b| - 1;
    }
  }

  ghost predicate Fixed(tables: seq<set<Key>>, table: set<Key>) {
    forall i | 0 <= i < |tables| :: tables[i] == table
  }

  lemma ListedSize(tables: seq<set<Key>>, first: Key, limit: nat, pages: seq<seq<Key>>, table: set<Key>)
    requires IsWalk(tables, first, limit, pages) && Fixed(tables, table)
    ensures KeysOf(Listed(pages)) <= table && |Listed(pages)| == |KeysOf(Listed(pages))| <= |table|
    ensures |Listed(pages)| == (|pages| - 1) * limit + |pages[|pages| - 1]|
  {
    var m := |pages| - 1;
    WalkDescends(tables, first, limit, pages);
    ListedComesFrom(tables, first, limit, pages, |pages|, table);
    FullPages(tables, first, limit, pages, m);
    assert pages[..|pages|] == pages && pages == pages[..m] + [pages[m]];
    KeysSize(Listed(pages));
    SubsetSize(KeysOf(Listed(pages)), table);
  }

  /** m full pages and one more fit into n rows. */
  lemma PagesFit(n: nat, m: nat, rest: nat, limit: nat)
    requires limit > 0 && m * limit + rest <= n
    ensures m <= n / limit && (m == n / limit ==> rest < limit)
  {
    var q, r := n / limit, n % limit;
    assert n == q * limit + r;
    if q < m { NextMultiple(q, m, limit); }
  }

  /** On n rows that nobody adds to, any walk, finished or not, has at most n / limit + 1 pages,
      and one of that many pages is finished: following the cursor stops there. */
  lemma WalkStops(table: set<Key>, tables: seq<set<Key>>, first: Key, limit: nat, pages: seq<seq<Key>>)
    requires IsWalk(tables, first, limit, pages) && Fixed(tables, table)
    ensures |pages| <= |table| / limit + 1
    ensures |pages| == |table| / limit + 1 ==> IsComplete(limit, pages)
  {
    ListedSize(tables, first, limit, pages, table);
    PagesFit(|table|, |pages| - 1, |pages[|pages| - 1]|, limit);
  }

  /** And a finished walk has listed each of the n rows exactly once, in n / limit + 1 pages. */
  lemma FixedTableWalk(table: set<Key>, tables: seq<set<Key>>, first: Key, limit: nat, pages: seq<seq<Key>>)
    requires IsWalk(tables, first, limit, pages) && Fixed(tables, table)
    requires forall k | k in table :: Before(k, first)
    ensures |pages| <= |table| / limit + 1
    ensures IsComplete(limit, pages) <==> |pages| == |table| / limit + 1
    ensures IsComplete(limit, pages) ==> KeysOf(Listed(pages)) == table && |Listed(pages)| == |table|
  {
    WalkStops(table, tables, first, limit, pages);
    if IsComplete(limit, pages) {
      ListedSize(tables, first, limit, pages, table);
      WalkIsComplete(tables, first, limit, pages);
      assert KeysOf(Listed(pages)) == table;
      QuotientIs(|table|, |pages| - 1, limit);
    }
  }

  // === The client =============================================================

  /** Each request carries the cursor of the reply before it, the first one none; rows may be
      inserted between two requests. */
  ghost predicate Followed(read: Reader, tables: seq<set<Key>>, first: Key, limit: int, replies: seq<Reply>) {
    && |tables| == |replies| > 0
    && forall i | 0 <= i < |replies| :: FollowedAt(read, tables, first, limit, replies, i)
  }

  ghost predicate FollowedAt(read: Reader, tables: seq<set<Key>>, first: Key, limit: int, replies: seq<Reply>, i: nat)
    requires |tables| == |replies| && i < |replies|
  {
    if i == 0 then Answers(read, tables[0], first, limit, "", replies[0])
    else
      && tables[i - 1] <= tables[i] && replies[i - 1].Page? && replies[i - 1].nextCursor != ""
      && Answers(read, tables[i], first, limit, replies[i - 1].nextCursor, replies[i])
  }

  function PagesOf(replies: seq<Reply>): seq<seq<Key>> {
    seq(|replies|, i requires 0 <= i < |replies| => if replies[i].Page? then replies[i].executions else [])
  }

  lemma {:induction false} RepliesArePages(read: Reader, tables: seq<set<Key>>, first: Key, limit: int, replies: seq<Reply>, i: nat)
    requires Followed(read, tables, first, limit, replies) && i < |replies|
    ensures PageReply(read, limit, replies[i])
  {
    assert FollowedAt(read, tables, first, limit, replies, i);
    if i > 0 { RepliesArePages(read, tables, first, limit, replies, i - 1); }
  }

  lemma NextReply(read: Reader, table: set<Key>, first: Key, limit: int, prev: Reply, r: Reply)
    requires PageReply(read, limit, prev) && prev.nextCursor != "" && Answers(read, table, first, limit, prev.nextCursor, r)
    ensures |prev.executions| == Clamp(limit) && r.Page?
    ensures IsPage(table, prev.executions[|prev.executions| - 1], Clamp(limit), r.executions)
  {
  }

  lemma ReplyIsPageAt(read: Reader, tables: seq<set<Key>>, first: Key, limit: int, replies: seq<Reply>, i: nat)
    requires Followed(read, tables, first, limit, replies) && i < |replies|
    ensures PageAt(tables, first, Clamp(limit), PagesOf(replies), i)
  {
    RepliesArePages(read, tables, first, limit, replies, i);
    assert FollowedAt(read, tables, first, limit, replies, i);
    if i > 0 {
      RepliesArePages(read, tables, first, limit, replies, i - 1);
      NextReply(read, tables[i], first, limit, replies[i - 1], replies[i]);
      assert PagesOf(replies)[i - 1] == replies[i - 1].executions;
    }
    assert PagesOf(replies)[i] == replies[i].executions;
  }

  /** The pages of replies that follow each other's cursors are a walk, and it is finished exactly
      when the last reply carries no cursor. */
  lemma RepliesAreWalk(read: Reader, tables: seq<set<Key>>, first: Key, limit: int, replies: seq<Reply>)
    requires Followed(read, tables, first, limit, replies)
    ensures IsWalk(tables, first, Clamp(limit), PagesOf(replies))
    ensures var last := replies[|replies| - 1];
            last.Page? && (last.nextCursor == "" <==> IsComplete(Clamp(limit), PagesOf(replies)))
  {
    forall i | 0 <= i < |replies| ensures PageAt(tables, first, Clamp(limit), PagesOf(replies), i) {
      ReplyIsPageAt(read, tables, first, limit, replies, i);
    }
    RepliesArePages(read, tables, first, limit, replies, |replies| - 1);
  }

  lemma FollowOn(read: Reader, tables: seq<set<Key>>, first: Key, limit: int, replies: seq<Reply>, table: set<Key>, r: Reply)
    requires Followed(read, tables, first, limit, replies) && tables[|tables| - 1] <= table
    requires var last := replies[|replies| - 1];
             last.Page? && last.nextCursor != "" && Answers(read, table, first, limit, last.nextCursor, r)
    ensures Followed(read, tables + [table], first, limit, replies + [r])
  {
    forall i | 0 <= i < |replies| + 1 ensures FollowedAt(read, tables + [table], first, limit, replies + [r], i) {
      if i < |replies| { assert FollowedAt(read, tables, first, limit, replies, i); }
    }
  }

  function Always(table: set<Key>, n: nat): seq<set<Key>> {
    seq(n, _ => table)
  }

  /** The replies so far of a client on rows that nobody adds to. */
  ghost predicate Asked(read: Reader, table: set<Key>, first: Key, limit: int, replies: seq<Reply>) {
    Followed(read, Always(table, |replies|), first, limit, replies)
  }

  lemma AskFirst(read: Reader, table: set<Key>, first: Key, limit: int, r: Reply)
    requires Answers(read, table, first, limit, "", r)
    ensures Asked(read, table, first, limit, [r]) && r.Page?
  {
    RepliesAreWalk(read, Always(table, 1), first, limit, [r]);
  }

  lemma AskOn(read: Reader, table: set<Key>, first: Key, limit: int, replies: seq<Reply>, r: Reply)
    requires replies != [] && Asked(read, table, first, limit, replies)
    requires var last := replies[|replies| - 1];
             last.Page? && last.nextCursor != "" && Answers(read, table, first, limit, last.nextCursor, r)
    ensures Asked(read, table, first, limit, replies + [r]) && r.Page?
  {
    FollowOn(read, Always(table, |replies|), first, limit, replies, table, r);
    assert Always(table, |replies|) + [table] == Always(table, |replies + [r]|);
    RepliesAreWalk(read, Always(table, |replies + [r]|), first, limit, replies + [r]);
  }

  /** As long as there is a cursor the bound is not reached; when there is none, all is listed. */
  lemma AskedEnough(read: Reader, table: set<Key>, first: Key, limit: int, replies: seq<Reply>)
    requires replies != [] && Asked(read, table, first, limit, replies) && forall k | k in table :: Before(k, first)
    ensures var last := replies[|replies| - 1];
            && last.Page?
            && (last.nextCursor != "" ==> |replies| < |table| / Clamp(limit) + 1)
            && (last.nextCursor == "" ==>
                  && |replies| == |table| / Clamp(limit) + 1
                  && KeysOf(Listed(PagesOf(replies))) == table && |Listed(PagesOf(replies))| == |table|)
  {
    RepliesAreWalk(read, Always(table, |replies|), first, limit, replies);
    FixedTableWalk(table, Always(table, |replies|), first, Clamp(limit), PagesOf(replies));
  }

  /** A client that asks for page after page until there is no next cursor: it stops, with every
      row once, after n / limit + 1 requests. */
  method ListAll(limit: int, first: Key, ghost table: set<Key>, query: (Key, nat) -> seq<Key>) returns (replies: seq<Reply>)
    requires forall a, n | n > 0 :: IsPage(table, a, n, query(a, n))
    requires forall k | k in table :: Writable(k) && Before(k, first)
    ensures Asked(Decode, table, first, limit, replies)
    ensures |replies| == |table| / Clamp(limit) + 1
    ensures KeysOf(Listed(PagesOf(replies))) == table && |Listed(PagesOf(replies))| == |table|
  {
    var r := ExecutionsPage("", limit, first, table, query);
    replies := [r];
    AskFirst(Decode, table, first, limit, r);
    while r.nextCursor != ""
      invariant replies != [] && r == replies[|replies| - 1] && r.Page?
      invariant Asked(Decode, table, first, limit, replies)
      decreases |table| / Clamp(limit) + 1 - |replies|
    {
      AskedEnough(Decode, table, first, limit, replies);
      r := ExecutionsPage(r.nextCursor, limit, first, table, query);
      AskOn(Decode, table, first, limit, replies, r);
      replies := replies + [r];
    }
    AskedEnough(Decode, table, first, limit, replies);
  }
}

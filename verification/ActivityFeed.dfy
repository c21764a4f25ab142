/**
 The activity feed: keyset pagination over (createdAt, id), newest first, with an
 opaque cursor.  Following `nextCursor` meets every row that was there at the
 start exactly once, in order, whatever is inserted between the pages and however
 the limit varies.
 */
module ActivityFeed {
  import opened Wrappers

  /** One row of the fan-out table; an id is its rank among the ids. */
  datatype Row = Row(userId: nat, createdAt: int, id: nat)

  datatype Cursor = Cursor(createdAt: int, id: nat)

  predicate OlderThan(r: Row, c: Cursor) {
    r.createdAt < c.createdAt || (r.createdAt == c.createdAt && r.id < c.id)
  }

  function CursorOf(r: Row): Cursor { Cursor(r.createdAt, r.id) }

  /** Feed order: `a` is listed before `b`. */
  predicate Before(a: Row, b: Row) { OlderThan(b, CursorOf(a)) }

  ghost predicate UniqueIds(table: set<Row>) {
    forall a, b :: a in table && b in table && a != b ==> a.id != b.id
  }

  ghost predicate InFeedOrder(rows: seq<Row>) {
    forall i, j :: 0 <= i < j < |rows| ==> Before(rows[i], rows[j])
  }

  // ── The query ──────────────────────────────────────────────────────────────

  ghost function First(rows: set<Row>): (first: Row)
    requires rows != {} && UniqueIds(rows)
    ensures first in rows
    ensures forall r :: r in rows ==> r == first || Before(first, r)
  {
    var r :| r in rows;
    if rows == {r} then r
    else
      var other := First(rows - {r});
      assert forall q :: q in rows <==> q == r || q in rows - {r};
      if Before(r, other) then r else other
  }

  /** ORDER BY createdAt DESC, id DESC, then LIMIT. */
  ghost function Take(rows: set<Row>, limit: nat): seq<Row>
    requires UniqueIds(rows)
  {
    if limit == 0 || rows == {} then [] else [First(rows)] + Take(rows - {First(rows)}, limit - 1)
  }

  ghost function Matching(table: set<Row>, user: nat, cursor: Option<Cursor>): set<Row> {
    set r | r in table && r.userId == user && (cursor.Some? ==> OlderThan(r, cursor.value))
  }

  ghost function ListForUser(table: set<Row>, user: nat, limit: nat, cursor: Option<Cursor>): seq<Row>
    requires UniqueIds(table)
  {
    Take(Matching(table, user, cursor), limit)
  }

  /** `p` holds the first rows of the feed order, and all of them when it is shorter than `limit`. */
  ghost predicate IsFirst(p: seq<Row>, rows: set<Row>, limit: nat) {
    && InFeedOrder(p)
    && |p| <= limit
    && (forall i :: 0 <= i < |p| ==> p[i] in rows)
    && (|p| < limit ==> forall r :: r in rows ==> r in p)
    && forall r, i :: r in rows && r !in p && 0 <= i < |p| ==> Before(p[i], r)
  }

  lemma PrependFirst(first: Row, q: seq<Row>, rows: set<Row>, limit: nat)
    requires first in rows && forall r :: r in rows ==> r == first || Before(first, r)
    requires IsFirst(q, rows - {first}, limit)
    ensures IsFirst([first] + q, rows, limit + 1)
  {
  }

  lemma {:induction false} TakesTheFirst(rows: set<Row>, limit: nat)
    requires UniqueIds(rows)
    ensures IsFirst(Take(rows, limit), rows, limit)
  {
    if limit > 0 && rows != {} {
      TakesTheFirst(rows - {First(rows)}, limit - 1);
      PrependFirst(First(rows), Take(rows - {First(rows)}, limit - 1), rows, limit - 1);
    }
  }

  // ── The cursor codec ───────────────────────────────────────────────────────

  /** The text conversions of the platform that the cursor is built from. */
  datatype Codec = Codec(
    isoOf: int -> string, parseIso: string -> Option<int>,
    idText: nat -> string, idOf: string -> nat,
    toBase64: string -> string, fromBase64: string -> string)

  ghost predicate Faithful(k: Codec) {
    && (forall t :: k.parseIso(k.isoOf(t)) == Some(t) && '|' !in k.isoOf(t))
    && (forall i :: k.idText(i) != "" && k.idOf(k.idText(i)) == i)
    && (forall s :: k.fromBase64(k.toBase64(s)) == s)
    && (forall s :: s != "" ==> k.toBase64(s) != "")
  }

  function EncodeCursor(k: Codec, c: Cursor): string {
    k.toBase64(k.isoOf(c.createdAt) + "|" + k.idText(c.id))
  }

  /** Position of the first separator, or the length when there is none. */
  function IndexOf(s: string, ch: char): (i: nat)
    ensures i <= |s| && ch !in s[..i]
    ensures i < |s| ==> s[i] == ch
  {
    if s == "" || s[0] == ch then 0
    else
      var i := 1 + IndexOf(s[1..], ch);
      assert s[..i] == [s[0]] + s[1..][..i - 1];
      i
  }

  function DecodeCursor(k: Codec, raw: Option<string>): Option<Cursor> {
    if raw.None? || raw.value == "" then None
    else
      var decoded := k.fromBase64(raw.value);
      var sep := IndexOf(decoded, '|');
      if sep == |decoded| then None
      else
        var createdAt := k.parseIso(decoded[..sep]);
        var id := decoded[sep + 1..];
        if createdAt.None? || id == "" then None else Some(Cursor(createdAt.value, k.idOf(id)))
  }

  lemma CursorRoundTrip(k: Codec, c: Cursor)
    requires Faithful(k)
    ensures DecodeCursor(k, Some(EncodeCursor(k, c))) == Some(c)
  {
    var iso, id := k.isoOf(c.createdAt), k.idText(c.id);
    FirstSeparator(iso, id, '|');
    var s := iso + "|" + id;
    assert s[..|iso|] == iso && s[|iso| + 1..] == id;
  }

  lemma {:induction false} FirstSeparator(a: string, b: string, ch: char)
    requires ch !in a
    ensures IndexOf(a + [ch] + b, ch) == |a|
  {
    var s := a + [ch] + b;
    if a != "" {
      FirstSeparator(a[1..], b, ch);
      assert s[1..] == a[1..] + [ch] + b;
    }
  }

  // ── One page ───────────────────────────────────────────────────────────────

  const DEFAULT_LIMIT: nat := 20
  const MAX_LIMIT: nat := 50

  /** `None` stands for an absent or non-finite limit. */
  function ClampLimit(raw: Option<real>): (limit: nat)
    ensures 1 <= limit <= MAX_LIMIT
  {
    if raw.None? then DEFAULT_LIMIT
    else if raw.value.Floor < 1 then 1
    else if raw.value.Floor > MAX_LIMIT then MAX_LIMIT
    else raw.value.Floor
  }

  datatype Page = Page(items: seq<Row>, nextCursor: Option<string>)

  /** Over-fetch by one to learn whether a further page exists. */
  ghost function Feed(k: Codec, table: set<Row>, user: nat, limit: Option<real>, cursor: Option<string>): Page
    requires UniqueIds(table)
  {
    var n := ClampLimit(limit);
    var rows := ListForUser(table, user, n + 1, DecodeCursor(k, cursor));
    var hasMore := |rows| > n;
    var page := if hasMore then rows[..n] else rows;
    Page(page, if hasMore then Some(EncodeCursor(k, CursorOf(page[|page| - 1]))) else None)
  }

  /** A page lists the first of the matching rows; its cursor names its last row, and none means no row is left. */
  ghost predicate IsPage(k: Codec, page: Page, rows: set<Row>) {
    var p := page.items;
    && InFeedOrder(p)
    && (forall i :: 0 <= i < |p| ==> p[i] in rows)
    && (page.nextCursor.None? ==> forall r :: r in rows ==> r in p)
    && (page.nextCursor.Some? ==>
          && p != [] && page.nextCursor.value == EncodeCursor(k, CursorOf(p[|p| - 1]))
          && (forall r :: r in rows && r !in p ==> Before(p[|p| - 1], r))
          && exists r :: r in rows && Before(p[|p| - 1], r))
  }

  lemma CutToLimit(all: seq<Row>, rows: set<Row>, n: nat)
    requires 0 < n && |all| == n + 1 && IsFirst(all, rows, n + 1)
    ensures InFeedOrder(all[..n]) && Before(all[n - 1], all[n]) && all[n] in rows
    ensures forall r :: r in rows && r !in all[..n] ==> Before(all[n - 1], r)
  {
  }

  lemma FeedIsPage(k: Codec, table: set<Row>, user: nat, limit: Option<real>, cursor: Option<string>)
    requires UniqueIds(table)
    ensures IsPage(k, Feed(k, table, user, limit, cursor), Matching(table, user, DecodeCursor(k, cursor)))
  {
    var n := ClampLimit(limit);
    var rows := Matching(table, user, DecodeCursor(k, cursor));
    var all := Take(rows, n + 1);
    TakesTheFirst(rows, n + 1);
    if |all| > n {
      CutToLimit(all, rows, n);
    }
  }

  // ── A page, said of the rows ───────────────────────────────────────────────

  /** An absent limit asks for twenty rows, any other for its whole part, at least one and at most fifty. */
  lemma LimitMeans(raw: Option<real>)
    ensures raw.None? ==> ClampLimit(raw) == 20
    ensures raw.Some? && raw.value < 1.0 ==> ClampLimit(raw) == 1
    ensures raw.Some? && raw.value >= 50.0 ==> ClampLimit(raw) == 50
    ensures raw.Some? && 1.0 <= raw.value < 50.0 ==> ClampLimit(raw) == raw.value.Floor
  {
  }

  lemma WholeLimit(n: int)
    requires 1 <= n <= 50
    ensures ClampLimit(Some(n as real)) == n
  {
  }

  lemma {:induction false} TakeCounts(rows: set<Row>, limit: nat)
    requires UniqueIds(rows)
    ensures |Take(rows, limit)| == if |rows| < limit then |rows| else limit
  {
    if limit > 0 && rows != {} {
      TakeCounts(rows - {First(rows)}, limit - 1);
    }
  }

  /** The later row of the two, by time and then by id. */
  predicate Newer(a: Row, b: Row) { a.createdAt > b.createdAt || (a.createdAt == b.createdAt && a.id > b.id) }

  /** The user's rows that the page may show: all of them, or those before the cursor's place. */
  ghost predicate AreAfter(rows: set<Row>, table: set<Row>, user: nat, cursor: Option<Cursor>) {
    forall r :: r in rows <==>
      r in table && r.userId == user
      && (cursor.Some? ==> r.createdAt < cursor.value.createdAt || (r.createdAt == cursor.value.createdAt && r.id < cursor.value.id))
  }

  /** The rows shown are the newest of those that match, newest first. */
  ghost predicate Newest(items: seq<Row>, rows: set<Row>) {
    && (forall i :: 0 <= i < |items| ==> items[i] in rows)
    && (forall i, j :: 0 <= i < j < |items| ==> Newer(items[i], items[j]))
    && forall r, i :: r in rows && r !in items && 0 <= i < |items| ==> Newer(items[i], r)
  }

  lemma FirstAreNewest(all: seq<Row>, rows: set<Row>, n: nat)
    requires IsFirst(all, rows, n + 1)
    ensures Newest(all, rows)
    ensures |all| > n ==> Newest(all[..n], rows)
  {
    forall i, j | 0 <= i < j < |all| ensures Newer(all[i], all[j]) {
      assert Before(all[i], all[j]);
    }
    if |all| > n {
      forall r, i | r in rows && r !in all[..n] && 0 <= i < n ensures Newer(all[i], r) {
        if r in all {
          var k :| 0 <= k < |all| && all[k] == r;
          assert k == n;
        }
      }
    }
  }

  /**
   A page has as many rows as the limit asks for, or as match if those are fewer: the
   newest matching ones, newest first.  It offers a next page exactly when more match.
   */
  lemma PageMeans(k: Codec, table: set<Row>, user: nat, limit: Option<real>, cursor: Option<string>, rows: set<Row>)
    requires UniqueIds(table) && AreAfter(rows, table, user, DecodeCursor(k, cursor))
    ensures var page, n := Feed(k, table, user, limit, cursor), ClampLimit(limit);
            && |page.items| == (if |rows| < n then |rows| else n)
            && (page.nextCursor.Some? <==> |rows| > n)
            && Newest(page.items, rows)
  {
    var n := ClampLimit(limit);
    assert rows == Matching(table, user, DecodeCursor(k, cursor));
    TakeCounts(rows, n + 1);
    TakesTheFirst(rows, n + 1);
    FirstAreNewest(Take(rows, n + 1), rows, n);
    PageOfTake(k, table, user, limit, cursor, rows);
  }

  lemma PageOfTake(k: Codec, table: set<Row>, user: nat, limit: Option<real>, cursor: Option<string>, rows: set<Row>)
    requires UniqueIds(table) && rows == Matching(table, user, DecodeCursor(k, cursor))
    ensures var page, all, n := Feed(k, table, user, limit, cursor), Take(rows, ClampLimit(limit) + 1), ClampLimit(limit);
            && page.items == (if |all| > n then all[..n] else all)
            && (page.nextCursor.Some? <==> |all| > n)
  {
  }

  /** The cursor names time and id of a row, apart by a bar; anything else stands for the first page. */
  lemma CursorMeans(k: Codec, raw: string, c: Cursor)
    ensures EncodeCursor(k, c) == k.toBase64(k.isoOf(c.createdAt) + "|" + k.idText(c.id))
    ensures DecodeCursor(k, None) == None && DecodeCursor(k, Some("")) == None
    ensures raw != "" && '|' !in k.fromBase64(raw) ==> DecodeCursor(k, Some(raw)) == None
    ensures forall time, id :: raw != "" && k.fromBase64(raw) == time + "|" + id && '|' !in time ==>
      DecodeCursor(k, Some(raw)) ==
        if k.parseIso(time).None? || id == "" then None else Some(Cursor(k.parseIso(time).value, k.idOf(id)))
  {
    forall time, id | raw != "" && k.fromBase64(raw) == time + "|" + id && '|' !in time
      ensures DecodeCursor(k, Some(raw)) ==
        if k.parseIso(time).None? || id == "" then None else Some(Cursor(k.parseIso(time).value, k.idOf(id)))
    {
      FirstSeparator(time, id, '|');
      var s := time + "|" + id;
      assert s[..|time|] == time && s[|time| + 1..] == id;
    }
  }

  // ── Following nextCursor ───────────────────────────────────────────────────

  /** The rows seen so far, the cursor to send next, and whether the last page said there is no more. */
  datatype Reading = Reading(seen: seq<Row>, cursor: Option<string>, done: bool)

  /** One request: the table as it is then, and the limit asked for. */
  datatype Request = Request(table: set<Row>, limit: Option<real>)

  ghost predicate Growing(requests: seq<Request>) {
    && (forall i :: 0 <= i < |requests| ==> UniqueIds(requests[i].table))
    && forall i, j :: 0 <= i < j < |requests| ==> requests[i].table <= requests[j].table
  }

  ghost function ReadPage(k: Codec, user: nat, r: Reading, request: Request): Reading
    requires UniqueIds(request.table)
  {
    if r.done then r
    else
      var page := Feed(k, request.table, user, request.limit, r.cursor);
      Reading(r.seen + page.items, page.nextCursor, page.nextCursor.None?)
  }

  ghost function ReadPages(k: Codec, user: nat, requests: seq<Request>, n: nat): Reading
    requires Growing(requests) && n <= |requests|
  {
    if n == 0 then Reading([], None, false)
    else ReadPage(k, user, ReadPages(k, user, requests, n - 1), requests[n - 1])
  }

  /** What is known after some pages: the rows at or before the last one seen have been seen. */
  ghost predicate ReadSoFar(k: Codec, user: nat, initial: set<Row>, r: Reading) {
    && InFeedOrder(r.seen)
    && (r.done ==> forall x :: x in initial && x.userId == user ==> x in r.seen)
    && (!r.done && r.cursor.None? ==> r.seen == [])
    && (!r.done && r.cursor.Some? ==>
          && r.seen != []
          && r.cursor.value == EncodeCursor(k, CursorOf(r.seen[|r.seen| - 1]))
          && forall x :: x in initial && x.userId == user && x !in r.seen ==> Before(r.seen[|r.seen| - 1], x))
  }

  lemma AppendKeeps(k: Codec, user: nat, initial: set<Row>, r: Reading, page: Page, rows: set<Row>)
    requires ReadSoFar(k, user, initial, r) && !r.done && IsPage(k, page, rows)
    requires forall x :: x in initial && x.userId == user && x !in r.seen ==> x in rows
    requires r.seen != [] ==> forall x :: x in rows ==> Before(r.seen[|r.seen| - 1], x)
    ensures ReadSoFar(k, user, initial, Reading(r.seen + page.items, page.nextCursor, page.nextCursor.None?))
  {
  }

  lemma ReadNext(k: Codec, user: nat, initial: set<Row>, r: Reading, request: Request)
    requires Faithful(k) && UniqueIds(request.table) && initial <= request.table
    requires ReadSoFar(k, user, initial, r) && !r.done
    ensures ReadSoFar(k, user, initial, ReadPage(k, user, r, request))
    ensures var next := ReadPage(k, user, r, request); next.done || next.cursor.Some?
  {
    FeedIsPage(k, request.table, user, request.limit, r.cursor);
    if r.cursor.Some? {
      CursorRoundTrip(k, CursorOf(r.seen[|r.seen| - 1]));
    }
    AppendKeeps(k, user, initial, r, Feed(k, request.table, user, request.limit, r.cursor),
      Matching(request.table, user, DecodeCursor(k, r.cursor)));
  }

  lemma {:induction false} PagesAreSound(k: Codec, user: nat, requests: seq<Request>, n: nat)
    requires Faithful(k) && Growing(requests) && 0 < |requests| && n <= |requests|
    ensures ReadSoFar(k, user, requests[0].table, ReadPages(k, user, requests, n))
    ensures n > 0 ==> ReadPages(k, user, requests, n).done || ReadPages(k, user, requests, n).cursor.Some?
  {
    if n > 0 {
      PagesAreSound(k, user, requests, n - 1);
      var r := ReadPages(k, user, requests, n - 1);
      if !r.done {
        ReadNext(k, user, requests[0].table, r, requests[n - 1]);
      }
      assert ReadPages(k, user, requests, n) == ReadPage(k, user, r, requests[n - 1]);
    }
  }

  /**
   A reader that followed `nextCursor` to its end has met every row present at the
   start, each row once, newest first: insertions of any age in between neither
   hide nor repeat one.
   */
  lemma EveryInitialRowOnce(k: Codec, user: nat, requests: seq<Request>, n: nat)
    requires Faithful(k) && Growing(requests) && 0 < |requests| && n <= |requests|
    requires ReadPages(k, user, requests, n).done
    ensures var seen := ReadPages(k, user, requests, n).seen;
            && (forall x :: x in requests[0].table && x.userId == user ==> x in seen)
            && (forall i, j :: 0 <= i < j < |seen| ==> seen[i] != seen[j] && Newer(seen[i], seen[j]))
  {
    PagesAreSound(k, user, requests, n);
  }

  // ── Only newer rows arrive ─────────────────────────────────────────────────

  ghost function Own(table: set<Row>, user: nat): set<Row> { set r | r in table && r.userId == user }

  /** Every row added to the initial ones is newer than all of them. */
  ghost predicate AddsOnlyNewer(initial: set<Row>, table: set<Row>, user: nat) {
    forall x, y :: x in Own(table, user) - Own(initial, user) && y in Own(initial, user) ==> Before(x, y)
  }

  ghost predicate OnlyNewer(requests: seq<Request>, user: nat)
    requires 0 < |requests|
  {
    forall i :: 0 <= i < |requests| ==> AddsOnlyNewer(requests[0].table, requests[i].table, user)
  }

  lemma OlderIsInitial(initial: set<Row>, table: set<Row>, user: nat, x: Row, y: Row)
    requires AddsOnlyNewer(initial, table, user)
    requires x in Own(table, user) && y in Own(initial, user) && Before(y, x)
    ensures x in Own(initial, user)
  {
    assert x in Own(initial, user) || x in Own(table, user) - Own(initial, user);
  }

  /** Only initial rows have been seen, at least one per page, and one is left while not done. */
  ghost predicate StaysInitial(own: set<Row>, r: Reading, n: nat) {
    && (forall i :: 0 <= i < |r.seen| ==> r.seen[i] in own)
    && (!r.done ==> |r.seen| >= n)
    && (!r.done && n > 0 ==> exists x :: x in own && x !in r.seen)
  }

  lemma {:induction false} PagesStayInitial(k: Codec, user: nat, requests: seq<Request>, n: nat)
    requires Faithful(k) && Growing(requests) && 0 < |requests| && n <= |requests| && OnlyNewer(requests, user)
    ensures StaysInitial(Own(requests[0].table, user), ReadPages(k, user, requests, n), n)
  {
    if n > 0 {
      PagesStayInitial(k, user, requests, n - 1);
      PagesAreSound(k, user, requests, n - 1);
      var r := ReadPages(k, user, requests, n - 1);
      if !r.done {
        InitialPage(k, user, requests[0].table, requests[n - 1], r, n - 1);
      }
      assert ReadPages(k, user, requests, n) == ReadPage(k, user, r, requests[n - 1]);
    }
  }

  lemma MatchingIsInitial(k: Codec, user: nat, initial: set<Row>, table: set<Row>, r: Reading)
    requires Faithful(k) && AddsOnlyNewer(initial, table, user)
    requires !r.done && ReadSoFar(k, user, initial, r) && (r.cursor.None? ==> table == initial)
    requires forall i :: 0 <= i < |r.seen| ==> r.seen[i] in Own(initial, user)
    ensures Matching(table, user, DecodeCursor(k, r.cursor)) <= Own(initial, user)
  {
    if r.cursor.Some? {
      var last := r.seen[|r.seen| - 1];
      CursorRoundTrip(k, CursorOf(last));
      forall x | x in Matching(table, user, Some(CursorOf(last))) ensures x in Own(initial, user) {
        OlderIsInitial(initial, table, user, x, last);
      }
    }
  }

  lemma AppendStays(k: Codec, own: set<Row>, r: Reading, page: Page, rows: set<Row>, n: nat)
    requires !r.done && StaysInitial(own, r, n) && IsPage(k, page, rows) && rows <= own
    requires InFeedOrder(r.seen + page.items)
    ensures StaysInitial(own, Reading(r.seen + page.items, page.nextCursor, page.nextCursor.None?), n + 1)
  {
    var all := r.seen + page.items;
    if page.nextCursor.Some? {
      var last := page.items[|page.items| - 1];
      assert all[|all| - 1] == last;
      var x :| x in rows && Before(last, x);
      NotYetSeen(all, x);
    }
  }

  lemma InitialPage(k: Codec, user: nat, initial: set<Row>, request: Request, r: Reading, n: nat)
    requires Faithful(k) && UniqueIds(request.table) && initial <= request.table
    requires AddsOnlyNewer(initial, request.table, user)
    requires !r.done && ReadSoFar(k, user, initial, r) && (r.cursor.None? ==> request.table == initial)
    requires StaysInitial(Own(initial, user), r, n)
    ensures StaysInitial(Own(initial, user), ReadPage(k, user, r, request), n + 1)
  {
    FeedIsPage(k, request.table, user, request.limit, r.cursor);
    MatchingIsInitial(k, user, initial, request.table, r);
    ReadNext(k, user, initial, r, request);
    AppendStays(k, Own(initial, user), r, Feed(k, request.table, user, request.limit, r.cursor),
      Matching(request.table, user, DecodeCursor(k, r.cursor)), n);
  }

  lemma NotYetSeen(all: seq<Row>, x: Row)
    requires all != [] && InFeedOrder(all) && Before(all[|all| - 1], x)
    ensures x !in all
  {
  }

  lemma {:induction false} NoMoreThan(seen: seq<Row>, rows: set<Row>)
    requires InFeedOrder(seen) && forall i :: 0 <= i < |seen| ==> seen[i] in rows
    ensures |seen| <= |rows|
    ensures |seen| == |rows| ==> forall x :: x in rows ==> x in seen
    decreases |seen|
  {
    if seen != [] {
      var n := |seen| - 1;
      var init, last := seen[..n], seen[n];
      assert forall i :: 0 <= i < n ==> seen[i] != last;
      NoMoreThan(init, rows - {last});
      assert seen == init + [last];
    }
  }

  /**
   When only newer rows arrive while reading, the reader gets exactly the feed as
   it was at the start, and is told so after at most as many pages as it had rows.
   */
  lemma NewerRowsNeverIntrude(k: Codec, user: nat, requests: seq<Request>, n: nat)
    requires Faithful(k) && Growing(requests) && 0 < |requests| && n <= |requests| && OnlyNewer(requests, user)
    ensures var r := ReadPages(k, user, requests, n); var own := Own(requests[0].table, user);
            && (r.done ==> forall x :: x in r.seen <==> x in own)
            && (n > 0 && n >= |own| ==> r.done)
  {
    PagesAreSound(k, user, requests, n);
    PagesStayInitial(k, user, requests, n);
    var r, own := ReadPages(k, user, requests, n), Own(requests[0].table, user);
    NoMoreThan(r.seen, own);
  }
}

/** Cursor pagination over a table in ascending order of the cursor field. */
module Pagination {
  import opened Prelude

  datatype Row = Row(key: int, data: string)

  /** How a cursor value is written, and how the caller reads it back. */
  datatype Cursors = Cursors(str: int -> string, decode: string -> int)

  /** A page, or the failure to take the last of no items. */
  datatype Result = Page(items: seq<Row>, next: Option<string>) | IndexError

  /** The rows whose field is above the value. */
  function Above(table: seq<Row>, v: int): (r: seq<Row>)
    ensures |r| <= |table|
  {
    if table == [] then [] else (if table[0].key > v then [table[0]] else []) + Above(table[1..], v)
  }

  function Matching(table: seq<Row>, cursor: Option<string>, c: Cursors): seq<Row> {
    if cursor.Some? then Above(table, c.decode(cursor.value)) else table
  }

  function PaginateCursor(table: seq<Row>, limit: nat, cursor: Option<string>, c: Cursors): Result {
    var matching := Matching(table, cursor, c);
    var all := if |matching| > limit + 1 then matching[..limit + 1] else matching;
    if |all| > limit then (if limit == 0 then IndexError else Page(all[..limit], Some(c.str(all[limit - 1].key))))
    else Page(all, None)
  }

  /** All rows a client gets by following the cursor, page by page, in at most n requests. */
  function Followed(table: seq<Row>, limit: nat, cursor: Option<string>, c: Cursors, n: nat): seq<Row>
    decreases n
  {
    if n == 0 then []
    else
      match PaginateCursor(table, limit, cursor, c)
      case Page(items, next) => items + if next.Some? then Followed(table, limit, next, c, n - 1) else []
      case IndexError => []
  }

  /** The number of requests until there is no next cursor, if at most n are enough. */
  function Requests(table: seq<Row>, limit: nat, cursor: Option<string>, c: Cursors, n: nat): Option<nat>
    decreases n
  {
    if n == 0 then None
    else
      match PaginateCursor(table, limit, cursor, c)
      case Page(_, next) =>
        if next.None? then Some(1)
        else (match Requests(table, limit, next, c, n - 1) case None => None case Some(k) => Some(k + 1))
      case IndexError => None
  }

  ghost predicate Ascending(table: seq<Row>) {
    forall i, j :: 0 <= i < j < |table| ==> table[i].key <= table[j].key
  }

  ghost predicate Inverts(c: Cursors, table: seq<Row>) {
    forall i :: 0 <= i < |table| ==> c.decode(c.str(table[i].key)) == table[i].key
  }

  /** From row p on, no page ends between two rows with the same field. */
  predicate CleanPages(table: seq<Row>, limit: nat, p: nat)
    requires limit > 0 && p <= |table|
    decreases |table| - p
  {
    p + limit >= |table| || (table[p + limit - 1].key < table[p + limit].key && CleanPages(table, limit, p + limit))
  }

  /** Pages needed for n rows: at least one, and one for each full or started page. */
  function PageCount(n: nat, limit: nat): (r: nat)
    requires limit > 0
    ensures r == if n == 0 then 1 else (n + limit - 1) / limit
  {
    if n <= limit then
      OnePage(n, limit);
      1
    else
      NextPage(n - 1, limit);
      1 + PageCount(n - limit, limit)
  }

  lemma OnePage(n: nat, limit: nat)
    requires 0 <= n <= limit && limit > 0
    ensures n > 0 ==> (n + limit - 1) / limit == 1
  {
    if n > 0 {
      NextPage(n - 1, limit);
    }
  }

  lemma NextPage(n: nat, limit: nat)
    requires limit > 0
    ensures (n + limit) / limit == n / limit + 1
  {
    var x, q, q' := n + limit, n / limit + 1, (n + limit) / limit;
    assert x == q' * limit + x % limit;
    assert x == q * limit + n % limit;
    assert (q - q') * limit == q * limit - q' * limit && (q' - q) * limit == q' * limit - q * limit;
    if q' < q {
      AtLeastOne(q - q', limit);
    } else if q < q' {
      AtLeastOne(q' - q, limit);
    }
  }

  lemma AtLeastOne(k: nat, limit: nat)
    requires k >= 1
    ensures k * limit >= limit
  {
    assert k * limit == limit + (k - 1) * limit;
  }

  lemma {:induction false} AboveSuffix(table: seq<Row>, v: int, q: nat)
    requires q <= |table| && (forall i :: 0 <= i < q ==> table[i].key <= v) && (forall i :: q <= i < |table| ==> table[i].key > v)
    ensures Above(table, v) == table[q..]
  {
    if table != [] {
      var rest := table[1..];
      assert forall i :: 0 <= i < |rest| ==> rest[i] == table[i + 1];
      if q == 0 {
        AboveSuffix(rest, v, 0);
        assert table[0..] == [table[0]] + rest[0..];
      } else {
        AboveSuffix(rest, v, q - 1);
        assert rest[q - 1..] == table[q..];
      }
    }
  }

  /** Where the rows above a row's field start. */
  function Beyond(table: seq<Row>, v: int, q: nat): (r: nat)
    requires q <= |table|
    ensures q <= r <= |table| && (r < |table| ==> table[r].key > v) && forall i :: q <= i < r ==> table[i].key <= v
    decreases |table| - q
  {
    if q < |table| && table[q].key <= v then Beyond(table, v, q + 1) else q
  }

  lemma FirstPage(table: seq<Row>, limit: nat, p: nat)
    requires limit > 0 && p + limit < |table|
    ensures var m := table[p..];
      var all := if |m| > limit + 1 then m[..limit + 1] else m;
      |all| == limit + 1 && all[..limit] == table[p..p + limit] && all[limit - 1] == table[p + limit - 1]
  {
  }

  lemma RestAfter(table: seq<Row>, e: nat) returns (next: nat)
    requires 0 < e < |table| && Ascending(table)
    ensures e <= next <= |table| && Above(table, table[e - 1].key) == table[next..]
    ensures next == e <==> table[e - 1].key < table[e].key
  {
    var v := table[e - 1].key;
    next := Beyond(table, v, e);
    AboveSuffix(table, v, next);
  }

  /** One request at row p: its page, and where the next request starts. */
  lemma PageAt(table: seq<Row>, limit: nat, p: nat, cursor: Option<string>, c: Cursors) returns (next: nat)
    requires limit > 0 && p <= |table| && Ascending(table) && Inverts(c, table) && Matching(table, cursor, c) == table[p..]
    ensures p + limit >= |table| ==> PaginateCursor(table, limit, cursor, c) == Page(table[p..], None)
    ensures p + limit < |table| ==>
      && PaginateCursor(table, limit, cursor, c) == Page(table[p..p + limit], Some(c.str(table[p + limit - 1].key)))
      && p + limit <= next <= |table| && Matching(table, Some(c.str(table[p + limit - 1].key)), c) == table[next..]
      && (next == p + limit <==> table[p + limit - 1].key < table[p + limit].key)
  {
    hide Ascending, Above;
    next := |table|;
    if p + limit < |table| {
      FirstPage(table, limit, p);
      next := RestAfter(table, p + limit);
      assert c.decode(c.str(table[p + limit - 1].key)) == table[p + limit - 1].key;
    }
  }

  /** Following the cursor from row p on gives the rest of the table exactly when no page ends
      between equal fields; and it never gives more. */
  lemma {:induction false} FollowedFrom(table: seq<Row>, limit: nat, p: nat, cursor: Option<string>, c: Cursors, n: nat)
    requires limit > 0 && p <= |table| && Ascending(table) && Inverts(c, table) && Matching(table, cursor, c) == table[p..]
    requires n > |table| - p
    ensures |Followed(table, limit, cursor, c, n)| <= |table| - p
    ensures Followed(table, limit, cursor, c, n) == table[p..] <==> CleanPages(table, limit, p)
    ensures CleanPages(table, limit, p) ==> Requests(table, limit, cursor, c, n) == Some(PageCount(|table| - p, limit))
    decreases n
  {
    hide PaginateCursor, Matching, Ascending, Inverts, Followed, Requests, CleanPages, PageCount;
    CleanHere(table, limit, p);
    MorePages(|table| - p, limit);
    var next := PageAt(table, limit, p, cursor, c);
    FollowedStep(table, limit, cursor, c, n);
    if p + limit < |table| {
      var cursor' := Some(c.str(table[p + limit - 1].key));
      FollowedFrom(table, limit, next, cursor', c, n - 1);
      var page, rest := table[p..p + limit], Followed(table, limit, cursor', c, n - 1);
      assert table[p..] == page + table[p + limit..];
      Tails(page, rest, table[p + limit..]);
      assert next == p + limit ==> (rest == table[p + limit..] <==> CleanPages(table, limit, p + limit));
      assert next > p + limit ==> |rest| < |table[p + limit..]|;
    } else {
      assert table[p..] + [] == table[p..];
    }
  }

  lemma CleanHere(table: seq<Row>, limit: nat, p: nat)
    requires limit > 0 && p <= |table|
    ensures CleanPages(table, limit, p)
            <==> p + limit >= |table| || (table[p + limit - 1].key < table[p + limit].key && CleanPages(table, limit, p + limit))
  {
  }

  lemma MorePages(n: nat, limit: nat)
    requires limit > 0
    ensures PageCount(n, limit) == if n <= limit then 1 else 1 + PageCount(n - limit, limit)
  {
  }

  lemma FollowedStep(table: seq<Row>, limit: nat, cursor: Option<string>, c: Cursors, n: nat)
    requires n > 0
    ensures var r := PaginateCursor(table, limit, cursor, c);
      r.Page? ==>
        && Followed(table, limit, cursor, c, n) == r.items + (if r.next.Some? then Followed(table, limit, r.next, c, n - 1) else [])
        && Requests(table, limit, cursor, c, n)
           == if r.next.None? then Some(1)
              else match Requests(table, limit, r.next, c, n - 1) case None => None case Some(k) => Some(k + 1)
  {
    hide PaginateCursor;
  }

  lemma Tails(a: seq<Row>, b: seq<Row>, c: seq<Row>)
    ensures a + b == a + c <==> b == c
  {
    assert b == (a + b)[|a|..] && c == (a + c)[|a|..];
  }

  /** Over a fixed table in ascending order, the pages together are the table, every row once
      and in order, exactly when no page ends between two equal fields. */
  lemma FollowingGivesTable(table: seq<Row>, limit: nat, c: Cursors)
    requires limit > 0 && Ascending(table) && Inverts(c, table)
    ensures Followed(table, limit, None, c, |table| + 1) == table <==> CleanPages(table, limit, 0)
    ensures CleanPages(table, limit, 0) ==> Requests(table, limit, None, c, |table| + 1) == Some(PageCount(|table|, limit))
  {
    assert table[0..] == table;
    FollowedFrom(table, limit, 0, None, c, |table| + 1);
  }

  lemma {:induction false} StrictIsClean(table: seq<Row>, limit: nat, p: nat)
    requires limit > 0 && p <= |table| && forall i, j :: 0 <= i < j < |table| ==> table[i].key < table[j].key
    ensures CleanPages(table, limit, p)
    decreases |table| - p
  {
    if p + limit < |table| {
      StrictIsClean(table, limit, p + limit);
    }
  }

  /** With different fields throughout, no row is skipped or repeated, whatever the limit. */
  lemma StrictTableComplete(table: seq<Row>, limit: nat, c: Cursors)
    requires limit > 0 && Inverts(c, table) && forall i, j :: 0 <= i < j < |table| ==> table[i].key < table[j].key
    ensures Followed(table, limit, None, c, |table| + 1) == table
    ensures Requests(table, limit, None, c, |table| + 1) == Some(PageCount(|table|, limit))
  {
    StrictIsClean(table, limit, 0);
    FollowingGivesTable(table, limit, c);
  }
}

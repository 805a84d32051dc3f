/** Which knowledge rows an instance sees: one winner for each key. */
module Knowledge {
  import opened Prelude

  datatype Row = Row(
    id: int, key: string, scope: string, org: Option<nat>, ns: Option<nat>, workspace: Option<nat>,
    entity: Option<nat>, instance: Option<nat>, updated: int, deleted: bool)

  /** Whose knowledge is asked for; `org` is None when the entity or its namespace is gone. */
  datatype Query = Query(org: Option<nat>, ns: Option<nat>, workspace: Option<nat>, entity: nat, instance: Option<nat>, keys: set<string>)

  function Rank(scope: string): nat {
    match scope case "workspace" => 0 case "namespace" => 1 case "org" => 2 case "system" => 3 case _ => 99
  }

  predicate InScope(r: Row, q: Query) {
    if q.org.None? then r.scope == "system"
    else
      || r.scope == "system"
      || (r.scope == "org" && r.org == q.org)
      || (r.scope == "namespace" && r.org == q.org && r.ns == q.ns)
      || (r.scope == "workspace" && r.org == q.org && r.ns == q.ns && r.workspace == q.workspace)
  }

  predicate Visible(r: Row, q: Query) {
    && !r.deleted && InScope(r, q) && (r.entity.None? || r.entity == Some(q.entity))
    && (r.instance.None? || r.instance == q.instance) && (q.keys != {} ==> r.key in q.keys)
  }

  /** Later update, then greater identifier. */
  predicate Newer(a: Row, b: Row) {
    a.updated > b.updated || (a.updated == b.updated && a.id > b.id)
  }

  /** Narrower scope, then newer. */
  predicate Beats(a: Row, b: Row) {
    Rank(a.scope) < Rank(b.scope) || (Rank(a.scope) == Rank(b.scope) && Newer(a, b))
  }

  ghost predicate UniqueIds(table: seq<Row>) {
    forall i, j :: 0 <= i < j < |table| ==> table[i].id != table[j].id
  }

  ghost predicate Candidate(table: seq<Row>, q: Query, r: Row, key: string) {
    r in table && Visible(r, q) && r.key == key
  }

  /** The row beats every other visible row with its key. */
  ghost predicate Wins(table: seq<Row>, q: Query, w: Row) {
    Candidate(table, q, w, w.key) && forall r :: Candidate(table, q, r, w.key) && r != w ==> Beats(w, r)
  }

  ghost predicate HasKey(rows: seq<Row>, key: string) {
    exists i :: 0 <= i < |rows| && rows[i].key == key
  }

  /** One winner for each visible key, and nothing else. */
  ghost predicate IsResolution(table: seq<Row>, q: Query, winners: seq<Row>) {
    && (forall i :: 0 <= i < |winners| ==> Wins(table, q, winners[i]))
    && (forall i, j :: 0 <= i < j < |winners| ==> winners[i].key != winners[j].key)
    && (forall r :: r in table && Visible(r, q) ==> HasKey(winners, r.key))
  }

  // ---------------------------------------------------------------------------
  // The query
  // ---------------------------------------------------------------------------

  function Insert(r: Row, rows: seq<Row>): seq<Row> {
    if rows == [] || Newer(r, rows[0]) then [r] + rows else [rows[0]] + Insert(r, rows[1..])
  }

  /** The visible rows, newest first. */
  function Selected(table: seq<Row>, q: Query): seq<Row> {
    if table == [] then []
    else
      var rest := Selected(table[1..], q);
      if Visible(table[0], q) then Insert(table[0], rest) else rest
  }

  ghost predicate NewestFirst(rows: seq<Row>) {
    forall i, j :: 0 <= i < j < |rows| ==> Newer(rows[i], rows[j])
  }

  lemma {:induction false} InsertSorted(r: Row, rows: seq<Row>)
    requires NewestFirst(rows) && forall i :: 0 <= i < |rows| ==> rows[i].id != r.id
    ensures NewestFirst(Insert(r, rows)) && forall x :: x in Insert(r, rows) <==> x == r || x in rows
  {
    if rows != [] && !Newer(r, rows[0]) {
      InsertSorted(r, rows[1..]);
      var rest := Insert(r, rows[1..]);
      forall j | 0 <= j < |rest| ensures Newer(rows[0], rest[j]) {
        assert rest[j] == r || rest[j] in rows[1..];
      }
      assert rows == [rows[0]] + rows[1..];
    }
  }

  lemma {:induction false} SelectedSorted(table: seq<Row>, q: Query)
    requires UniqueIds(table)
    ensures NewestFirst(Selected(table, q)) && forall r :: r in Selected(table, q) <==> r in table && Visible(r, q)
  {
    if table != [] {
      SelectedSorted(table[1..], q);
      var rest := Selected(table[1..], q);
      forall i | 0 <= i < |rest| ensures rest[i].id != table[0].id {
        assert rest[i] in table[1..];
      }
      InsertSorted(table[0], rest);
      assert table == [table[0]] + table[1..];
    }
  }

  // ---------------------------------------------------------------------------
  // The resolution
  // ---------------------------------------------------------------------------

  function WithKey(rows: seq<Row>, key: string): seq<Row> {
    if rows == [] then []
    else WithKey(rows[..|rows| - 1], key) + if rows[|rows| - 1].key == key then [rows[|rows| - 1]] else []
  }

  lemma {:induction false} WithKeyKeeps(rows: seq<Row>, key: string)
    requires NewestFirst(rows)
    ensures NewestFirst(WithKey(rows, key)) && forall r :: r in WithKey(rows, key) <==> r in rows && r.key == key
  {
    if rows != [] {
      var before, last := rows[..|rows| - 1], rows[|rows| - 1];
      WithKeyKeeps(before, key);
      var some := WithKey(before, key);
      forall i | 0 <= i < |some| ensures Newer(some[i], last) {
        assert some[i] in before;
      }
      assert rows == before + [last];
    }
  }

  lemma WithKeyEmpty()
    ensures forall key :: WithKey([], key) == []
  {
  }

  lemma WithKeyNext(rows: seq<Row>, i: nat)
    requires i < |rows|
    ensures forall key :: WithKey(rows[..i + 1], key) == WithKey(rows[..i], key) + if rows[i].key == key then [rows[i]] else []
  {
    assert rows[..i + 1][..i] == rows[..i];
  }

  /** The keys in the order in which they first appear. */
  function FirstKeys(rows: seq<Row>): seq<string> {
    if rows == [] then []
    else
      var before, key := FirstKeys(rows[..|rows| - 1]), rows[|rows| - 1].key;
      before + if key in before then [] else [key]
  }

  lemma FirstKeysNext(rows: seq<Row>, i: nat)
    requires i < |rows|
    ensures FirstKeys(rows[..i + 1]) == FirstKeys(rows[..i]) + if rows[i].key in FirstKeys(rows[..i]) then [] else [rows[i].key]
  {
    assert rows[..i + 1][..i] == rows[..i];
  }

  lemma {:induction false} FirstKeyHeld(rows: seq<Row>, key: string)
    ensures key in FirstKeys(rows) <==> WithKey(rows, key) != []
    ensures forall i :: 0 <= i < |rows| && rows[i].key == key ==> key in FirstKeys(rows)
  {
    if rows != [] {
      var n := |rows| - 1;
      FirstKeyHeld(rows[..n], key);
      assert forall i :: 0 <= i < n ==> rows[..n][i] == rows[i];
      var keys := FirstKeys(rows[..n]);
      var more := if rows[n].key in keys then [] else [rows[n].key];
      assert FirstKeys(rows) == keys + more;
      assert key in more <==> key == rows[n].key && key !in keys;
      assert key in keys + more <==> key in keys || key in more;
    }
  }

  lemma FirstKeysHold(rows: seq<Row>)
    ensures forall i :: 0 <= i < |rows| ==> rows[i].key in FirstKeys(rows)
    ensures forall key :: key in FirstKeys(rows) <==> WithKey(rows, key) != []
  {
    hide FirstKeys, WithKey;
    forall key ensures key in FirstKeys(rows) <==> WithKey(rows, key) != [] {
      FirstKeyHeld(rows, key);
    }
    forall i | 0 <= i < |rows| ensures rows[i].key in FirstKeys(rows) {
      FirstKeyHeld(rows, rows[i].key);
    }
  }

  /** The first row of key x comes before the first row of key y. */
  ghost predicate Before(rows: seq<Row>, x: string, y: string) {
    WithKey(rows, x) != [] && WithKey(rows, y) != [] && x != y && Newer(WithKey(rows, x)[0], WithKey(rows, y)[0])
  }

  lemma BeforeStays(rows: seq<Row>, x: string, y: string)
    requires NewestFirst(rows) && rows != []
    requires WithKey(rows[..|rows| - 1], x) != [] && x != y
    requires if WithKey(rows[..|rows| - 1], y) != [] then Before(rows[..|rows| - 1], x, y) else rows[|rows| - 1].key == y
    ensures Before(rows, x, y)
  {
    var n := |rows| - 1;
    WithKeyKeeps(rows[..n], x);
    assert WithKey(rows[..n], x)[0] in rows[..n];
  }

  /** A key comes before another when its first row does. */
  lemma {:induction false} FirstKeysOrdered(rows: seq<Row>)
    requires NewestFirst(rows)
    ensures forall i, j :: 0 <= i < j < |FirstKeys(rows)| ==> Before(rows, FirstKeys(rows)[i], FirstKeys(rows)[j])
  {
    hide Newer, Before, WithKey;
    if rows != [] {
      var n := |rows| - 1;
      var before, keys := rows[..n], FirstKeys(rows);
      FirstKeysOrdered(before);
      FirstKeysHold(before);
      forall i, j | 0 <= i < j < |keys| ensures Before(rows, keys[i], keys[j]) {
        assert keys[i] == FirstKeys(before)[i];
        if j < |FirstKeys(before)| {
          assert keys[j] == FirstKeys(before)[j];
          BeforeDiffers(before, keys[i], keys[j]);
        }
        BeforeStays(rows, keys[i], keys[j]);
      }
    }
  }

  lemma BeforeDiffers(rows: seq<Row>, x: string, y: string)
    requires Before(rows, x, y)
    ensures x != y && WithKey(rows, y) != []
  {
  }

  /** Groups in the order in which their keys first appear. */
  method GroupByKey(rows: seq<Row>) returns (order: seq<string>, groups: map<string, seq<Row>>)
    ensures order == FirstKeys(rows)
    ensures forall key :: key in order <==> key in groups
    ensures forall key :: key in groups ==> groups[key] == WithKey(rows, key) && groups[key] != []
  {
    hide WithKey;
    order, groups := [], map[];
    WithKeyEmpty();
    for i := 0 to |rows|
      invariant order == FirstKeys(rows[..i])
      invariant forall key :: key in order <==> key in groups
      invariant forall key :: key in groups ==> groups[key] == WithKey(rows[..i], key) && groups[key] != []
      invariant forall key :: key !in groups ==> WithKey(rows[..i], key) == []
    {
      FirstKeysNext(rows, i);
      WithKeyNext(rows, i);
      var key := rows[i].key;
      if key in groups {
        groups := groups[key := groups[key] + [rows[i]]];
      } else {
        order := order + [key];
        groups := groups[key := [rows[i]]];
      }
    }
    assert rows[..|rows|] == rows;
  }

  /** The first candidate at the narrowest scope. */
  method Best(candidates: seq<Row>) returns (w: Row)
    requires candidates != [] && NewestFirst(candidates)
    ensures w in candidates && forall r :: r in candidates && r != w ==> Beats(w, r)
  {
    var bestRank := Rank(candidates[0].scope);
    for i := 1 to |candidates|
      invariant forall k :: 0 <= k < i ==> bestRank <= Rank(candidates[k].scope)
      invariant exists k :: 0 <= k < i && bestRank == Rank(candidates[k].scope)
    {
      if Rank(candidates[i].scope) < bestRank {
        bestRank := Rank(candidates[i].scope);
      }
    }
    var i := 0;
    while Rank(candidates[i].scope) != bestRank
      invariant i < |candidates| && forall k :: 0 <= k < i ==> Rank(candidates[k].scope) != bestRank
      decreases |candidates| - i
    {
      i := i + 1;
    }
    return candidates[i];
  }

  /** The newest visible row of each key. */
  function Newest(table: seq<Row>, q: Query): map<string, Row> {
    var rows := Selected(table, q);
    map key | key in FirstKeys(rows) && WithKey(rows, key) != [] :: WithKey(rows, key)[0]
  }

  lemma NewestIs(table: seq<Row>, q: Query)
    requires UniqueIds(table)
    ensures forall r :: r in table && Visible(r, q) ==> r.key in Newest(table, q)
    ensures forall key :: key in Newest(table, q) ==>
              && Candidate(table, q, Newest(table, q)[key], key)
              && forall r :: Candidate(table, q, r, key) && r != Newest(table, q)[key] ==> Newer(Newest(table, q)[key], r)
  {
    hide Visible, Newer, UniqueIds, WithKey, FirstKeys, Selected;
    var rows := Selected(table, q);
    SelectedSorted(table, q);
    FirstKeysHold(rows);
    forall key | key in Newest(table, q)
      ensures Candidate(table, q, Newest(table, q)[key], key)
      ensures forall r :: Candidate(table, q, r, key) && r != Newest(table, q)[key] ==> Newer(Newest(table, q)[key], r)
    {
      WithKeyKeeps(rows, key);
      assert Newest(table, q)[key] in WithKey(rows, key);
      forall r | Candidate(table, q, r, key) && r != Newest(table, q)[key] ensures Newer(Newest(table, q)[key], r) {
        assert r in WithKey(rows, key);
      }
    }
  }

  /** In the order of the newest rows of their keys, which need not be the winners. */
  ghost predicate ByNewest(winners: seq<Row>, newest: map<string, Row>) {
    && (forall i :: 0 <= i < |winners| ==> winners[i].key in newest)
    && (forall i, j :: 0 <= i < j < |winners| ==> Newer(newest[winners[i].key], newest[winners[j].key]))
  }

  method ResolveKnowledgeWinners(table: seq<Row>, q: Query) returns (winners: seq<Row>)
    requires UniqueIds(table)
    ensures IsResolution(table, q, winners) && ByNewest(winners, Newest(table, q))
  {
    hide Visible, Beats, Newer, UniqueIds, NewestFirst, FirstKeys, WithKey, Selected, Before, ByNewest, Newest;
    var rows := Selected(table, q);
    SelectedSorted(table, q);
    FirstKeysHold(rows);
    var order, groups := GroupByKey(rows);
    winners := [];
    for i := 0 to |order|
      invariant |winners| == i
      invariant forall k :: 0 <= k < i ==> winners[k].key == order[k] && Wins(table, q, winners[k])
    {
      WithKeyKeeps(rows, order[i]);
      assert order[i] in groups;
      var w := Best(groups[order[i]]);
      assert Candidate(table, q, w, order[i]);
      winners := winners + [w];
    }
    forall r | r in table && Visible(r, q) ensures HasKey(winners, r.key) {
      assert r in rows;
      var k :| 0 <= k < |rows| && rows[k] == r;
      var j :| 0 <= j < |order| && order[j] == rows[k].key;
      assert winners[j].key == r.key;
    }
    FirstKeysOrdered(rows);
    InKeyOrder(table, q, winners);
  }

  lemma InKeyOrder(table: seq<Row>, q: Query, winners: seq<Row>)
    requires |winners| == |FirstKeys(Selected(table, q))|
    requires forall k :: 0 <= k < |winners| ==> winners[k].key == FirstKeys(Selected(table, q))[k]
    requires forall i, j :: 0 <= i < j < |winners| ==> Before(Selected(table, q), FirstKeys(Selected(table, q))[i], FirstKeys(Selected(table, q))[j])
    ensures ByNewest(winners, Newest(table, q))
    ensures forall i, j :: 0 <= i < j < |winners| ==> winners[i].key != winners[j].key
  {
    hide Selected, FirstKeys, WithKey, Newer;
    var rows := Selected(table, q);
    FirstKeysHold(rows);
    forall k | 0 <= k < |winners| ensures winners[k].key in Newest(table, q) && Newest(table, q)[winners[k].key] == WithKey(rows, winners[k].key)[0] {
      assert FirstKeys(rows)[k] in FirstKeys(rows);
    }
    forall i, j | 0 <= i < j < |winners| ensures winners[i].key != winners[j].key && Newer(Newest(table, q)[winners[i].key], Newest(table, q)[winners[j].key]) {
      assert Before(rows, winners[i].key, winners[j].key);
    }
  }

  // ---------------------------------------------------------------------------
  // Uniqueness
  // ---------------------------------------------------------------------------

  lemma BeatsOneWay(a: Row, b: Row)
    ensures !(Beats(a, b) && Beats(b, a))
  {
  }

  lemma OneWinner(table: seq<Row>, q: Query, a: Row, b: Row)
    requires Wins(table, q, a) && Wins(table, q, b) && a.key == b.key
    ensures a == b
  {
    BeatsOneWay(a, b);
  }

  /** What an instance may see: system rows, and rows of its own organisation down to its own
      namespace and workspace; of no other entity and no other instance; not deleted, and of
      the keys asked for. */
  lemma OnlyItsOwn(table: seq<Row>, q: Query, winners: seq<Row>, w: Row)
    requires IsResolution(table, q, winners) && w in winners
    ensures w in table && !w.deleted && (q.keys == {} || w.key in q.keys)
    ensures w.scope == "system" || (w.scope in ["org", "namespace", "workspace"] && q.org.Some? && w.org == q.org)
    ensures w.scope in ["namespace", "workspace"] ==> w.ns == q.ns
    ensures w.scope == "workspace" ==> w.workspace == q.workspace
    ensures w.entity in [None, Some(q.entity)] && (w.instance.Some? ==> w.instance == q.instance)
  {
    var i :| 0 <= i < |winners| && winners[i] == w;
    assert Wins(table, q, winners[i]);
  }

  /** Of the visible rows with its key a winner has the narrowest scope, and no row of that scope was
      updated later. */
  lemma NarrowestNewest(table: seq<Row>, q: Query, winners: seq<Row>, w: Row, r: Row)
    requires IsResolution(table, q, winners) && w in winners && r in table && Visible(r, q) && r.key == w.key
    ensures r.scope == "workspace" ==> w.scope == "workspace"
    ensures r.scope == "namespace" ==> w.scope in ["workspace", "namespace"]
    ensures r.scope == "org" ==> w.scope in ["workspace", "namespace", "org"]
    ensures r.scope == w.scope ==> w.updated >= r.updated && (w.updated == r.updated ==> w.id >= r.id)
  {
    var i :| 0 <= i < |winners| && winners[i] == w;
    assert Wins(table, q, winners[i]);
    assert Candidate(table, q, r, w.key) && Candidate(table, q, w, w.key);
  }

  /** There is one resolution only, up to the order of its rows. */
  lemma ResolutionUnique(table: seq<Row>, q: Query, a: seq<Row>, b: seq<Row>)
    requires IsResolution(table, q, a) && IsResolution(table, q, b)
    ensures forall r :: r in a <==> r in b
  {
    hide Visible, Beats;
    forall r ensures r in a <==> r in b {
      if r in a {
        InBoth(table, q, a, b, r);
      }
      if r in b {
        InBoth(table, q, b, a, r);
      }
    }
  }

  lemma InBoth(table: seq<Row>, q: Query, a: seq<Row>, b: seq<Row>, r: Row)
    requires IsResolution(table, q, a) && IsResolution(table, q, b) && r in a
    ensures r in b
  {
    hide Visible, Beats;
    var i :| 0 <= i < |a| && a[i] == r;
    assert Wins(table, q, r);
    var j :| 0 <= j < |b| && b[j].key == r.key;
    OneWinner(table, q, r, b[j]);
  }

  /** A row that is not visible, or that the winner of its key beats, changes nothing. */
  lemma LoserChangesNothing(table: seq<Row>, q: Query, winners: seq<Row>, r: Row, after: seq<Row>)
    requires IsResolution(table, q, winners) && IsResolution(table + [r], q, after)
    requires !Visible(r, q) || exists i :: 0 <= i < |winners| && winners[i].key == r.key && Beats(winners[i], r)
    ensures forall x :: x in after <==> x in winners
  {
    hide Visible, Beats;
    forall i | 0 <= i < |winners| ensures Wins(table + [r], q, winners[i]) {
      StillWins(table, q, winners, r, i);
    }
    assert forall x :: x in table + [r] && Visible(x, q) ==> HasKey(winners, x.key);
    assert IsResolution(table + [r], q, winners);
    ResolutionUnique(table + [r], q, winners, after);
  }

  lemma StillWins(table: seq<Row>, q: Query, winners: seq<Row>, r: Row, i: nat)
    requires IsResolution(table, q, winners) && i < |winners|
    requires !Visible(r, q) || exists i :: 0 <= i < |winners| && winners[i].key == r.key && Beats(winners[i], r)
    ensures Wins(table + [r], q, winners[i])
  {
    hide Visible, Beats;
    var w := winners[i];
    forall x | Candidate(table + [r], q, x, w.key) && x != w ensures Beats(w, x) {
      if x in table {
        assert Candidate(table, q, x, w.key);
      } else {
        assert x == r;
        var j :| 0 <= j < |winners| && winners[j].key == r.key && Beats(winners[j], r);
        assert j == i;
      }
    }
  }

  // ---------------------------------------------------------------------------
  // Order
  // ---------------------------------------------------------------------------

  ghost predicate Resolved(table: seq<Row>, q: Query, winners: seq<Row>) {
    IsResolution(table, q, winners) && ByNewest(winners, Newest(table, q))
  }

  lemma NewerOneWay(a: Row, b: Row)
    ensures !(Newer(a, b) && Newer(b, a))
  {
  }

  lemma NewerTransitive(a: Row, b: Row, c: Row)
    requires Newer(a, b) && Newer(b, c)
    ensures Newer(a, c)
  {
  }

  /** Two lists of the same rows in the same order are the same list. */
  lemma {:induction false} OrderUnique(a: seq<Row>, b: seq<Row>, newest: map<string, Row>)
    requires ByNewest(a, newest) && ByNewest(b, newest) && forall r :: r in a <==> r in b
    ensures a == b
    decreases |a|
  {
    hide Newer;
    assert a != [] ==> a[0] in b;
    assert b != [] ==> b[0] in a;
    if a != [] && b != [] {
      var i :| 0 <= i < |a| && a[i] == b[0];
      var j :| 0 <= j < |b| && b[j] == a[0];
      NewerOneWay(newest[a[0].key], newest[b[0].key]);
      assert a[0] == b[0];
      NewerOneWay(newest[a[0].key], newest[a[0].key]);
      assert a == [a[0]] + a[1..] && b == [b[0]] + b[1..];
      assert a[0] !in a[1..] && b[0] !in b[1..];
      assert forall r :: r in a[1..] <==> r in a && r != a[0];
      assert forall r :: r in b[1..] <==> r in b && r != b[0];
      OrderUnique(a[1..], b[1..], newest);
    }
  }

  /** Only the newest row of its own key can change with a row. */
  lemma NewestAfter(table: seq<Row>, q: Query, r: Row)
    requires UniqueIds(table + [r]) && Visible(r, q) && r.key in Newest(table, q)
    ensures var newest, after := Newest(table, q), Newest(table + [r], q);
      && (forall key :: key in newest ==> key in after)
      && (forall key :: key in newest && key != r.key ==> after[key] == newest[key])
      && after[r.key] == (if Newer(r, newest[r.key]) then r else newest[r.key])
      && newest[r.key].id != r.id
  {
    hide Visible, UniqueIds, Newest;
    TableOfMore(table, r);
    NewestIs(table, q);
    NewestIs(table + [r], q);
    var newest, after := Newest(table, q), Newest(table + [r], q);
    forall key | key in newest ensures key in after && (key != r.key ==> after[key] == newest[key]) {
      assert Candidate(table, q, newest[key], key);
      assert newest[key] in table + [r];
      if key != r.key {
        assert Candidate(table + [r], q, newest[key], key) && Candidate(table, q, after[key], key);
        NewerOneWay(newest[key], after[key]);
      }
    }
    assert Candidate(table + [r], q, r, r.key) && Candidate(table + [r], q, newest[r.key], r.key);
    var x := after[r.key];
    assert x == r || Candidate(table, q, x, r.key);
    NewerOneWay(x, r);
    NewerOneWay(x, newest[r.key]);
  }

  lemma TableOfMore(table: seq<Row>, r: Row)
    requires UniqueIds(table + [r])
    ensures UniqueIds(table) && forall x :: x in table + [r] <==> x in table || x == r
    ensures forall x :: x in table ==> x.id != r.id
  {
    forall i, j | 0 <= i < j < |table| ensures table[i].id != table[j].id {
      assert (table + [r])[i].id != (table + [r])[j].id;
    }
    forall i | 0 <= i < |table| ensures table[i].id != r.id {
      assert (table + [r])[i].id != (table + [r])[|table|].id;
    }
  }

  /** Every key listed before the row's own has a newer newest row than it. */
  ghost predicate StaysBehind(winners: seq<Row>, newest: map<string, Row>, r: Row)
    requires ByNewest(winners, newest)
  {
    forall i, j :: 0 <= i < j < |winners| && winners[j].key == r.key ==> Newer(newest[winners[i].key], r)
  }

  /** A visible row that loses for its key leaves the list as it is exactly when it stays
      behind: a newer loser moves its key forward past every key whose newest row is older. */
  lemma LoserMovesNothing(table: seq<Row>, q: Query, winners: seq<Row>, r: Row, after: seq<Row>, w: Row)
    requires UniqueIds(table + [r]) && Resolved(table, q, winners) && Resolved(table + [r], q, after)
    requires Visible(r, q) && w in winners && w.key == r.key && Beats(w, r)
    ensures after == winners <==> StaysBehind(winners, Newest(table, q), r)
  {
    hide Visible, Beats, Newer, UniqueIds, Newest, IsResolution;
    var n :| 0 <= n < |winners| && winners[n] == w;
    assert winners[n].key == r.key && Beats(winners[n], r);
    LoserChangesNothing(table, q, winners, r, after);
    NewestAfter(table, q, r);
    var newest, newest' := Newest(table, q), Newest(table + [r], q);
    if StaysBehind(winners, newest, r) {
      BehindInOrder(winners, newest, newest', r);
      OrderUnique(after, winners, newest');
    } else {
      var i, j :| 0 <= i < j < |winners| && winners[j].key == r.key && !Newer(newest[winners[i].key], r);
      if after == winners {
        NotBehind(winners, newest, newest', r, i, j);
      }
    }
  }

  lemma NotBehind(winners: seq<Row>, newest: map<string, Row>, newest': map<string, Row>, r: Row, i: nat, j: nat)
    requires ByNewest(winners, newest) && ByNewest(winners, newest')
    requires i < j < |winners| && winners[j].key == r.key
    requires winners[i].key != r.key ==> newest'[winners[i].key] == newest[winners[i].key]
    requires newest'[r.key] == (if Newer(r, newest[r.key]) then r else newest[r.key]) && newest[r.key].id != r.id
    ensures Newer(newest[winners[i].key], r)
  {
    assert Newer(newest'[winners[i].key], newest'[winners[j].key]);
  }

  lemma BehindInOrder(winners: seq<Row>, newest: map<string, Row>, newest': map<string, Row>, r: Row)
    requires ByNewest(winners, newest) && StaysBehind(winners, newest, r) && r.key in newest && r.key in newest'
    requires forall key :: key in newest ==> key in newest' && (key != r.key ==> newest'[key] == newest[key])
    requires newest'[r.key] == if Newer(r, newest[r.key]) then r else newest[r.key]
    ensures ByNewest(winners, newest')
  {
    hide Newer;
    forall i, j | 0 <= i < j < |winners| ensures Newer(newest'[winners[i].key], newest'[winners[j].key]) {
      assert Newer(newest[winners[i].key], newest[winners[j].key]);
      if winners[i].key == r.key && winners[j].key != r.key && Newer(r, newest[r.key]) {
        NewerTransitive(r, newest[r.key], newest[winners[j].key]);
      }
      if winners[i].key == r.key && winners[j].key == r.key {
        NewerOneWay(newest[r.key], newest[r.key]);
      }
    }
  }

  /** A row that is not visible leaves the list as it is. */
  lemma HiddenMovesNothing(table: seq<Row>, q: Query, winners: seq<Row>, r: Row, after: seq<Row>)
    requires UniqueIds(table + [r]) && Resolved(table, q, winners) && Resolved(table + [r], q, after)
    requires !Visible(r, q)
    ensures after == winners
  {
    hide Visible, Beats, Newer, UniqueIds, Newest;
    TableOfMore(table, r);
    LoserChangesNothing(table, q, winners, r, after);
    NewestIs(table, q);
    NewestIs(table + [r], q);
    var newest, newest' := Newest(table, q), Newest(table + [r], q);
    forall key | key in newest ensures key in newest' && newest'[key] == newest[key] {
      assert Candidate(table, q, newest[key], key);
      assert newest[key] in table + [r] && newest[key] != r;
      assert Candidate(table + [r], q, newest[key], key) && Candidate(table, q, newest'[key], key);
      NewerOneWay(newest[key], newest'[key]);
    }
    OrderUnique(after, winners, newest');
  }

  lemma NewestEquals(table: seq<Row>, q: Query, x: Row)
    requires UniqueIds(table) && Candidate(table, q, x, x.key)
    requires forall r :: Candidate(table, q, r, x.key) && r != x ==> Newer(x, r)
    ensures x.key in Newest(table, q) && Newest(table, q)[x.key] == x
  {
    hide Visible, Newer, UniqueIds, Newest;
    NewestIs(table, q);
    NewerOneWay(x, Newest(table, q)[x.key]);
  }

  /** Key "b" is listed first, as its row is newer; a still newer system row for "a", which the
      organisation's row beats, puts "a" first. */
  lemma LoserCanMove(q: Query, a: Row, b: Row, r: Row)
    requires q == Query(Some(1), None, None, 1, None, {})
    requires a == Row(1, "a", "org", Some(1), None, None, None, None, 1, false)
    requires b == Row(2, "b", "system", None, None, None, None, None, 2, false)
    requires r == Row(3, "a", "system", None, None, None, None, None, 3, false)
    ensures Resolved([a, b], q, [b, a]) && Resolved([a, b] + [r], q, [a, b])
  {
    hide Newest;
    TwoRows(q, a, b);
    assert [a, b] + [r] == [a, b, r];
    ThreeRows(q, a, b, r);
  }

  lemma TwoRows(q: Query, a: Row, b: Row)
    requires Visible(a, q) && Visible(b, q) && a.key != b.key && a.id != b.id && Newer(b, a)
    ensures Resolved([a, b], q, [b, a])
  {
    hide Newest, Visible, Newer;
    assert a in [a, b] && b in [a, b];
    NewestEquals([a, b], q, a);
    NewestEquals([a, b], q, b);
    assert forall x :: x in [a, b] ==> HasKey([b, a], x.key) by {
      assert [b, a][0].key == b.key && [b, a][1].key == a.key;
    }
    assert Wins([a, b], q, a) && Wins([a, b], q, b);
  }

  lemma ThreeRows(q: Query, a: Row, b: Row, r: Row)
    requires Visible(a, q) && Visible(b, q) && Visible(r, q) && a.key != b.key && r.key == a.key
    requires a.id != b.id && a.id != r.id && b.id != r.id && Newer(r, a) && Newer(r, b) && Beats(a, r)
    ensures Resolved([a, b, r], q, [a, b])
  {
    hide Newest, Visible, Newer, Beats;
    var t := [a, b, r];
    assert a in t && b in t && r in t;
    NewestEquals(t, q, r);
    NewestEquals(t, q, b);
    assert forall x :: x in t ==> HasKey([a, b], x.key) by {
      assert [a, b][0].key == a.key && [a, b][1].key == b.key;
    }
    assert Wins(t, q, a) && Wins(t, q, b);
  }
}

/** The fingerprint of a capability surface.  The JSON forms and SHA-256 are parameters. */
module MigrationHash {
  import opened Prelude

  /** `a <= b` for strings, character by character. */
  predicate Leq(a: string, b: string) {
    a == "" || (b != "" && (a[0] < b[0] || (a[0] == b[0] && Leq(a[1..], b[1..]))))
  }

  /** The key-sorted JSON of one item, the JSON of a list as it stands, and the digest. */
  datatype Codec<!T> = Codec(dumpItem: T -> string, dumpList: seq<T> -> string, sha: string -> string)

  /** A stable sort, as `sorted` is. */
  function Insert<T>(x: T, s: seq<T>, key: T -> string): seq<T> {
    if s == [] || Leq(key(x), key(s[0])) then [x] + s else [s[0]] + Insert(x, s[1..], key)
  }

  function SortedBy<T>(s: seq<T>, key: T -> string): seq<T> {
    if s == [] then [] else Insert(s[0], SortedBy(s[1..], key), key)
  }

  function ComputeMigrationHash<T>(capabilities: Option<seq<T>>, prompt: Option<string>, c: Codec<T>): string {
    var normalized := if capabilities.None? then [] else SortedBy(capabilities.value, c.dumpItem);
    c.sha(c.dumpList(normalized) + ":" + c.sha(if prompt.None? then "" else prompt.value))
  }

  // ---------------------------------------------------------------------------
  // Order
  // ---------------------------------------------------------------------------

  lemma {:induction false} LeqTotal(a: string, b: string)
    ensures Leq(a, b) || Leq(b, a)
    ensures Leq(a, b) && Leq(b, a) ==> a == b
  {
    if a != "" && b != "" && a[0] == b[0] {
      LeqTotal(a[1..], b[1..]);
      assert a == [a[0]] + a[1..] && b == [b[0]] + b[1..];
    }
  }

  lemma {:induction false} LeqTransitive(a: string, b: string, c: string)
    requires Leq(a, b) && Leq(b, c)
    ensures Leq(a, c)
  {
    if a != "" && a[0] == b[0] && b[0] == c[0] {
      LeqTransitive(a[1..], b[1..], c[1..]);
    }
  }

  ghost predicate Ordered<T>(s: seq<T>, key: T -> string) {
    forall i :: 0 <= i < |s| - 1 ==> Leq(key(s[i]), key(s[i + 1]))
  }

  lemma {:induction false} FirstIsLeast<T>(s: seq<T>, key: T -> string, i: nat)
    requires Ordered(s, key) && i < |s|
    ensures Leq(key(s[0]), key(s[i]))
  {
    if i > 0 {
      FirstIsLeast(s, key, i - 1);
      assert Leq(key(s[i - 1]), key(s[i - 1 + 1]));
      LeqTransitive(key(s[0]), key(s[i - 1]), key(s[i]));
    } else {
      LeqTotal(key(s[0]), key(s[0]));
    }
  }

  lemma {:induction false} InsertOrdered<T>(x: T, s: seq<T>, key: T -> string)
    requires Ordered(s, key)
    ensures Ordered(Insert(x, s, key), key) && multiset(Insert(x, s, key)) == multiset(s) + multiset{x}
    ensures |Insert(x, s, key)| > 0 && (Insert(x, s, key)[0] == x || (s != [] && Insert(x, s, key)[0] == s[0]))
  {
    if s != [] && !Leq(key(x), key(s[0])) {
      LeqTotal(key(x), key(s[0]));
      var rest := s[1..];
      assert s == [s[0]] + rest;
      forall i | 0 <= i < |rest| - 1 ensures Leq(key(rest[i]), key(rest[i + 1])) {
        assert rest[i] == s[i + 1] && rest[i + 1] == s[i + 1 + 1];
        assert Leq(key(s[i + 1]), key(s[i + 1 + 1]));
      }
      InsertOrdered(x, rest, key);
      assert rest != [] ==> Leq(key(s[0]), key(s[0 + 1]));
      ConsOrdered(s[0], Insert(x, rest, key), key);
    } else if s != [] {
      ConsOrdered(x, s, key);
    }
  }

  lemma ConsOrdered<T>(x: T, s: seq<T>, key: T -> string)
    requires Ordered(s, key) && (s != [] ==> Leq(key(x), key(s[0])))
    ensures Ordered([x] + s, key)
  {
    var t := [x] + s;
    forall i | 0 <= i < |t| - 1 ensures Leq(key(t[i]), key(t[i + 1])) {
      if i > 0 {
        assert t[i] == s[i - 1] && t[i + 1] == s[i - 1 + 1];
        assert Leq(key(s[i - 1]), key(s[i - 1 + 1]));
      }
    }
  }

  lemma {:induction false} SortOrdered<T>(s: seq<T>, key: T -> string)
    ensures Ordered(SortedBy(s, key), key) && multiset(SortedBy(s, key)) == multiset(s)
  {
    hide Insert, Ordered, Leq;
    if s == [] {
      NothingOrdered(key);
    } else {
      SortOrdered(s[1..], key);
      InsertOrdered(s[0], SortedBy(s[1..], key), key);
      assert s == [s[0]] + s[1..];
    }
  }

  lemma NothingOrdered<T>(key: T -> string)
    ensures Ordered([], key)
  {
  }

  /** No two different items of the list have the same key. */
  ghost predicate Distinguishes<T(!new)>(key: T -> string, s: multiset<T>) {
    forall x, y :: x in s && y in s && key(x) == key(y) ==> x == y
  }

  lemma {:induction false} OrderedUnique<T(!new)>(s: seq<T>, t: seq<T>, key: T -> string)
    requires Ordered(s, key) && Ordered(t, key) && multiset(s) == multiset(t) && Distinguishes(key, multiset(s))
    ensures s == t
    decreases |s|
  {
    hide Ordered, Distinguishes;
    assert |multiset(s)| == |s| && |multiset(t)| == |t|;
    if s != [] {
      HeadsAgree(s, t, key);
      TailItems(s);
      TailItems(t);
      TailOrdered(s, key);
      TailOrdered(t, key);
      Fewer(key, multiset(s), s[0]);
      OrderedUnique(s[1..], t[1..], key);
    }
  }

  lemma TailItems<T>(s: seq<T>)
    requires s != []
    ensures multiset(s[1..]) == multiset(s) - multiset{s[0]}
  {
    assert s == [s[0]] + s[1..];
  }

  lemma Fewer<T(!new)>(key: T -> string, s: multiset<T>, x: T)
    requires Distinguishes(key, s)
    ensures Distinguishes(key, s - multiset{x})
  {
  }

  lemma TailOrdered<T>(s: seq<T>, key: T -> string)
    requires Ordered(s, key) && s != []
    ensures Ordered(s[1..], key)
  {
    forall i | 0 <= i < |s| - 2 ensures Leq(key(s[1..][i]), key(s[1..][i + 1])) {
      assert Leq(key(s[i + 1]), key(s[i + 1 + 1]));
    }
  }

  lemma HeadsAgree<T(!new)>(s: seq<T>, t: seq<T>, key: T -> string)
    requires Ordered(s, key) && Ordered(t, key) && multiset(s) == multiset(t) && Distinguishes(key, multiset(s))
    requires s != [] && t != []
    ensures s[0] == t[0]
  {
    assert t[0] in multiset(t) && s[0] in multiset(s);
    assert s[0] in t && t[0] in s;
    var i :| 0 <= i < |t| && t[i] == s[0];
    var j :| 0 <= j < |s| && s[j] == t[0];
    FirstIsLeast(t, key, i);
    FirstIsLeast(s, key, j);
    LeqTotal(key(s[0]), key(t[0]));
  }

  /** The hash does not depend on the order of the capabilities, as long as no two different
      ones have the same key-sorted JSON. */
  lemma HashIgnoresOrder<T(!new)>(a: seq<T>, b: seq<T>, prompt: Option<string>, c: Codec<T>)
    requires multiset(a) == multiset(b) && Distinguishes(c.dumpItem, multiset(a))
    ensures ComputeMigrationHash(Some(a), prompt, c) == ComputeMigrationHash(Some(b), prompt, c)
  {
    SortOrdered(a, c.dumpItem);
    SortOrdered(b, c.dumpItem);
    OrderedUnique(SortedBy(a, c.dumpItem), SortedBy(b, c.dumpItem), c.dumpItem);
  }

  // ---------------------------------------------------------------------------
  // Stability
  // ---------------------------------------------------------------------------

  /** The items with one key, in the order of the list. */
  function Having<T>(s: seq<T>, key: T -> string, k: string): seq<T> {
    if s == [] then [] else (if key(s[0]) == k then [s[0]] else []) + Having(s[1..], key, k)
  }

  lemma {:induction false} HavingItems<T>(s: seq<T>, key: T -> string, k: string, x: T)
    ensures x in Having(s, key, k) <==> x in s && key(x) == k
  {
    if s != [] {
      HavingItems(s[1..], key, k, x);
      assert x in s <==> x == s[0] || x in s[1..];
      var first := if key(s[0]) == k then [s[0]] else [];
      assert x in Having(s, key, k) <==> x in first || x in Having(s[1..], key, k);
    }
  }

  lemma Associates<T>(a: seq<T>, b: seq<T>, c: seq<T>)
    ensures (a + b) + c == a + (b + c)
  {
  }

  lemma {:induction false} HavingJoined<T>(a: seq<T>, b: seq<T>, key: T -> string, k: string)
    ensures Having(a + b, key, k) == Having(a, key, k) + Having(b, key, k)
  {
    if a == [] {
      assert a + b == b;
    } else {
      HavingJoined(a[1..], b, key, k);
      assert (a + b)[1..] == a[1..] + b && (a + b)[0] == a[0];
      var first := if key(a[0]) == k then [a[0]] else [];
      Associates(first, Having(a[1..], key, k), Having(b, key, k));
    }
  }

  lemma HavingFirst<T>(x: T, s: seq<T>, key: T -> string, k: string)
    ensures Having([x] + s, key, k) == (if key(x) == k then [x] else []) + Having(s, key, k)
  {
    assert ([x] + s)[1..] == s;
  }

  lemma {:induction false} InsertStable<T>(x: T, s: seq<T>, key: T -> string, k: string)
    ensures Having(Insert(x, s, key), key, k) == (if key(x) == k then [x] else []) + Having(s, key, k)
  {
    hide Having;
    LeqTotal(key(x), key(x));
    if s == [] || Leq(key(x), key(s[0])) {
      HavingFirst(x, s, key, k);
    } else {
      InsertStable(x, s[1..], key, k);
      HavingFirst(s[0], Insert(x, s[1..], key), key, k);
      HavingFirst(s[0], s[1..], key, k);
      assert s == [s[0]] + s[1..];
    }
  }

  lemma {:induction false} SortStable<T>(s: seq<T>, key: T -> string, k: string)
    ensures Having(SortedBy(s, key), key, k) == Having(s, key, k)
  {
    if s != [] {
      SortStable(s[1..], key, k);
      InsertStable(s[0], SortedBy(s[1..], key), key, k);
    }
  }

  ghost predicate SameGroups<T>(a: seq<T>, b: seq<T>, key: T -> string) {
    forall k :: Having(a, key, k) == Having(b, key, k)
  }

  lemma FirstOfGroup<T>(s: seq<T>, key: T -> string)
    requires s != []
    ensures Having(s, key, key(s[0])) == [s[0]] + Having(s[1..], key, key(s[0]))
    ensures forall k :: k != key(s[0]) ==> Having(s, key, k) == Having(s[1..], key, k)
  {
  }

  lemma SameFirst<T>(a: seq<T>, b: seq<T>, key: T -> string)
    requires Ordered(a, key) && Ordered(b, key) && SameGroups(a, b, key) && a != []
    ensures b != [] && a[0] == b[0]
  {
    FirstOfGroup(a, key);
    var k := key(a[0]);
    assert Having(b, key, k) == Having(a, key, k);
    assert Having(a, key, k)[0] == a[0];
    HavingItems(b, key, k, a[0]);
    var j :| 0 <= j < |b| && b[j] == a[0];
    FirstIsLeast(b, key, j);
    FirstOfGroup(b, key);
    assert Having(a, key, key(b[0])) == Having(b, key, key(b[0]));
    HavingItems(b, key, key(b[0]), b[0]);
    HavingItems(a, key, key(b[0]), b[0]);
    var i :| 0 <= i < |a| && a[i] == b[0];
    FirstIsLeast(a, key, i);
    LeqTotal(key(a[0]), key(b[0]));
  }

  lemma {:induction false} OrderedSame<T>(a: seq<T>, b: seq<T>, key: T -> string)
    requires Ordered(a, key) && Ordered(b, key) && SameGroups(a, b, key)
    ensures a == b
    decreases |a|
  {
    hide Ordered;
    if a != [] {
      SameFirst(a, b, key);
      TailOrdered(a, key);
      TailOrdered(b, key);
      FirstOfGroup(a, key);
      FirstOfGroup(b, key);
      forall k ensures Having(a[1..], key, k) == Having(b[1..], key, k) {
        assert Having(a, key, k) == Having(b, key, k);
        if k == key(a[0]) {
          assert ([a[0]] + Having(a[1..], key, k))[1..] == ([a[0]] + Having(b[1..], key, k))[1..];
        }
      }
      OrderedSame(a[1..], b[1..], key);
    } else if b != [] {
      SameFirst(b, a, key);
    }
  }

  /** Two lists sort to the same list exactly when they agree, key by key, on the items with
      that key and their order. */
  lemma SortsSame<T>(a: seq<T>, b: seq<T>, key: T -> string)
    ensures SortedBy(a, key) == SortedBy(b, key) <==> SameGroups(a, b, key)
  {
    hide Ordered, SortedBy, Having;
    forall k ensures Having(SortedBy(a, key), key, k) == Having(a, key, k) && Having(SortedBy(b, key), key, k) == Having(b, key, k) {
      SortStable(a, key, k);
      SortStable(b, key, k);
    }
    SortOrdered(a, key);
    SortOrdered(b, key);
    if SameGroups(a, b, key) {
      OrderedSame(SortedBy(a, key), SortedBy(b, key), key);
    }
  }

  function Swapped<T>(s: seq<T>, i: nat, j: nat): seq<T>
    requires i < j < |s|
  {
    s[..i] + ([s[j]] + s[i + 1..j] + [s[i]] + s[j + 1..])
  }

  lemma SwapSameItems<T>(s: seq<T>, i: nat, j: nat)
    requires i < j < |s|
    ensures multiset(Swapped(s, i, j)) == multiset(s)
  {
    assert s == s[..i] + ([s[i]] + s[i + 1..j] + [s[j]] + s[j + 1..]);
  }

  /** Two places with one key: exchanging their items changes the group. */
  lemma SwapChangesGroup<T>(s: seq<T>, i: nat, j: nat, key: T -> string)
    requires i < j < |s| && s[i] != s[j] && key(s[i]) == key(s[j])
    ensures Having(Swapped(s, i, j), key, key(s[i])) != Having(s, key, key(s[i]))
  {
    var rest, k := [s[j]] + s[i + 1..j] + [s[i]] + s[j + 1..], key(s[i]);
    assert s == s[..i] + s[i..];
    HavingJoined(s[..i], s[i..], key, k);
    HavingJoined(s[..i], rest, key, k);
    FirstOfGroup(s[i..], key);
    FirstOfGroup(rest, key);
    var n := |Having(s[..i], key, k)|;
    assert (Having(s[..i], key, k) + Having(s[i..], key, k))[n] == s[i];
    assert (Having(s[..i], key, k) + Having(rest, key, k))[n] == s[j];
  }

  lemma SwapSorts<T>(s: seq<T>, i: nat, j: nat, key: T -> string)
    requires i < j < |s| && s[i] != s[j] && key(s[i]) == key(s[j])
    ensures multiset(Swapped(s, i, j)) == multiset(s)
    ensures SortedBy(Swapped(s, i, j), key) != SortedBy(s, key)
  {
    hide Swapped, Having, SortedBy;
    SwapSameItems(s, i, j);
    SwapChangesGroup(s, i, j, key);
    SortsSame(Swapped(s, i, j), s, key);
  }

  ghost predicate OrderIrrelevant<T(!new)>(s: seq<T>, key: T -> string) {
    forall t :: multiset(t) == multiset(s) ==> SortedBy(t, key) == SortedBy(s, key)
  }

  /** The list that is hashed is the same for every order the capabilities come in exactly
      when no two different ones have the same key-sorted JSON: equal keys keep the order
      they came in. */
  lemma TiesKeepOrder<T(!new)>(s: seq<T>, key: T -> string)
    ensures OrderIrrelevant(s, key) <==> Distinguishes(key, multiset(s))
  {
    hide SortedBy, Ordered;
    if Distinguishes(key, multiset(s)) {
      forall t | multiset(t) == multiset(s) ensures SortedBy(t, key) == SortedBy(s, key) {
        SortOrdered(s, key);
        SortOrdered(t, key);
        OrderedUnique(SortedBy(t, key), SortedBy(s, key), key);
      }
    } else {
      var x, y :| x in multiset(s) && y in multiset(s) && key(x) == key(y) && x != y;
      assert x in s && y in s;
      var i :| 0 <= i < |s| && s[i] == x;
      var j :| 0 <= j < |s| && s[j] == y;
      if i < j {
        SwapSorts(s, i, j, key);
      } else {
        SwapSorts(s, j, i, key);
      }
    }
  }

  // ---------------------------------------------------------------------------
  // What the hash tells apart
  // ---------------------------------------------------------------------------

  function OrNone<T>(s: Option<seq<T>>): seq<T> {
    if s.Some? then s.value else []
  }

  function OrBlank(s: Option<string>): string {
    if s.Some? then s.value else ""
  }

  /** The text whose digest is the hash of a list in its order and a prompt. */
  function Payload<T>(ordered: seq<T>, prompt: string, c: Codec<T>): string {
    c.dumpList(ordered) + ":" + c.sha(prompt)
  }

  lemma SameCut(a: string, b: string, x: string, y: string)
    requires |x| == |y|
    ensures a + ":" + x == b + ":" + y <==> a == b && x == y
  {
    if a + ":" + x == b + ":" + y {
      var n := |a + ":" + x| - |x|;
      assert (a + ":" + x)[n..] == x && (b + ":" + y)[n..] == y;
      assert (a + ":" + x)[..n - 1] == a && (b + ":" + y)[..n - 1] == b;
    }
  }

  /** Where the digest and the JSON of lists tell apart the texts at hand, two surfaces have the same
      hash exactly when they list the same items, in the same order under each key, and have
      the same prompt; none and empty are the same, for both. */
  lemma HashExactly<T>(a: Option<seq<T>>, b: Option<seq<T>>, p: Option<string>, q: Option<string>, c: Codec<T>)
    requires var x, y := SortedBy(OrNone(a), c.dumpItem), SortedBy(OrNone(b), c.dumpItem);
      && (c.dumpList(x) == c.dumpList(y) ==> x == y)
      && (c.sha(Payload(x, OrBlank(p), c)) == c.sha(Payload(y, OrBlank(q), c)) ==> Payload(x, OrBlank(p), c) == Payload(y, OrBlank(q), c))
    requires |c.sha(OrBlank(p))| == |c.sha(OrBlank(q))| && (c.sha(OrBlank(p)) == c.sha(OrBlank(q)) ==> OrBlank(p) == OrBlank(q))
    ensures ComputeMigrationHash(a, p, c) == ComputeMigrationHash(b, q, c)
            <==> SameGroups(OrNone(a), OrNone(b), c.dumpItem) && OrBlank(p) == OrBlank(q)
  {
    hide SortedBy, SameGroups;
    var x, y := SortedBy(OrNone(a), c.dumpItem), SortedBy(OrNone(b), c.dumpItem);
    SortsSame(OrNone(a), OrNone(b), c.dumpItem);
    NothingToSort(c.dumpItem);
    SameCut(c.dumpList(x), c.dumpList(y), c.sha(OrBlank(p)), c.sha(OrBlank(q)));
  }

  lemma NothingToSort<T>(key: T -> string)
    ensures SortedBy([], key) == []
  {
  }
}

/** Recursive merge of nested configuration dictionaries. */
module Overlay {
  import opened Prelude

  /** A configuration value: a dictionary, or anything else. */
  datatype Value = Leaf(text: string) | Dict(entries: map<string, Value>)

  /** The value at one key, the override's on top. */
  function MergeAt(base: Option<Value>, over: Value): Value
    decreases over, 1
  {
    if base.Some? && base.value.Dict? && over.Dict? then DeepMerge(base.value, over) else over
  }

  function At(d: Value, k: string): Option<Value>
    requires d.Dict?
  {
    if k in d.entries then Some(d.entries[k]) else None
  }

  function DeepMerge(base: Value, over: Value): (r: Value)
    requires base.Dict? && over.Dict?
    ensures r.Dict? && r.entries.Keys == base.entries.Keys + over.entries.Keys
    decreases over, 0
  {
    Dict(map k | k in base.entries.Keys + over.entries.Keys ::
      if k in over.entries then MergeAt(At(base, k), over.entries[k]) else base.entries[k])
  }

  lemma EntryAt(a: Value, b: Value, k: string)
    requires a.Dict? && b.Dict? && (k in a.entries || k in b.entries)
    ensures DeepMerge(a, b).entries[k] == if k in b.entries then MergeAt(At(a, k), b.entries[k]) else a.entries[k]
  {
  }

  /** The entries while only some keys of the override have been merged. */
  function Partial(base: Value, over: Value, done: set<string>): (r: map<string, Value>)
    requires base.Dict? && over.Dict? && done <= over.entries.Keys
    ensures r.Keys == base.entries.Keys + done
  {
    map k | k in base.entries.Keys + done :: if k in done then MergeAt(At(base, k), over.entries[k]) else base.entries[k]
  }

  lemma PartialStep(base: Value, over: Value, done: set<string>, key: string, value: Value)
    requires base.Dict? && over.Dict? && done <= over.entries.Keys && key in over.entries && key !in done
    requires value == MergeAt(At(Dict(Partial(base, over, done)), key), over.entries[key])
    ensures Partial(base, over, done)[key := value] == Partial(base, over, done + {key})
  {
    hide MergeAt;
    var before, after := Partial(base, over, done), Partial(base, over, done + {key});
    assert before[key := value].Keys == after.Keys;
    assert At(Dict(before), key) == At(base, key);
  }

  lemma PartialEnds(base: Value, over: Value)
    requires base.Dict? && over.Dict?
    ensures Partial(base, over, {}) == base.entries
    ensures Dict(Partial(base, over, over.entries.Keys)) == DeepMerge(base, over)
  {
    hide MergeAt;
  }

  method DeepMerged(base: Value, over: Value) returns (result: Value)
    requires base.Dict? && over.Dict?
    ensures result == DeepMerge(base, over)
    decreases over, 1
  {
    hide DeepMerge, MergeAt, Partial;
    var entries, todo := base.entries, over.entries.Keys;
    ghost var done: set<string> := {};
    PartialEnds(base, over);
    while todo != {}
      invariant done + todo == over.entries.Keys && done !! todo && entries == Partial(base, over, done)
      decreases |todo|
    {
      var key :| key in todo;
      var value := ValueFor(At(Dict(entries), key), over, key);
      PartialStep(base, over, done, key, value);
      entries := entries[key := value];
      done, todo := done + {key}, todo - {key};
    }
    assert done == over.entries.Keys;
    return Dict(entries);
  }

  method ValueFor(present: Option<Value>, over: Value, key: string) returns (value: Value)
    requires over.Dict? && key in over.entries
    ensures value == MergeAt(present, over.entries[key])
    decreases over, 0
  {
    value := over.entries[key];
    if present.Some? && present.value.Dict? && value.Dict? {
      value := DeepMerged(present.value, value);
    }
  }

  // ---------------------------------------------------------------------------
  // Laws
  // ---------------------------------------------------------------------------

  lemma SameEntries(a: Value, b: Value)
    requires a.Dict? && b.Dict? && a.entries.Keys == b.entries.Keys && forall k :: k in a.entries ==> a.entries[k] == b.entries[k]
    ensures a == b
  {
    assert a.entries == b.entries;
  }

  lemma {:induction false} MergeIdempotent(m: Value)
    requires m.Dict?
    ensures DeepMerge(m, m) == m
    decreases m
  {
    hide DeepMerge;
    forall k | k in m.entries ensures DeepMerge(m, m).entries[k] == m.entries[k] {
      EntryAt(m, m, k);
      if m.entries[k].Dict? {
        MergeIdempotent(m.entries[k]);
      }
    }
    SameEntries(DeepMerge(m, m), m);
  }

  /** Applying an override twice is applying it once. */
  lemma {:induction false} MergeAbsorbs(a: Value, b: Value)
    requires a.Dict? && b.Dict?
    ensures DeepMerge(DeepMerge(a, b), b) == DeepMerge(a, b)
    decreases b
  {
    hide DeepMerge;
    var once := DeepMerge(a, b);
    forall k | k in once.entries ensures DeepMerge(once, b).entries[k] == once.entries[k] {
      EntryAt(a, b, k);
      EntryAt(once, b, k);
      if k in b.entries && b.entries[k].Dict? {
        if k in a.entries && a.entries[k].Dict? {
          MergeAbsorbs(a.entries[k], b.entries[k]);
        } else {
          MergeIdempotent(b.entries[k]);
        }
      }
    }
    SameEntries(DeepMerge(once, b), once);
  }

  function Lookup(v: Value, path: seq<string>): Option<Value>
    decreases |path|
  {
    if path == [] then Some(v)
    else if v.Leaf? || path[0] !in v.entries then None
    else Lookup(v.entries[path[0]], path[1..])
  }

  /** A leaf stands in the way of the path. */
  predicate Blocked(v: Value, path: seq<string>)
    decreases |path|
  {
    path != [] && (v.Leaf? || (path[0] in v.entries && Blocked(v.entries[path[0]], path[1..])))
  }

  /** At every path the override decides, unless it does not reach the path, or both sides
      have a dictionary there. */
  lemma {:induction false} MergeAtPath(a: Value, b: Value, path: seq<string>)
    requires a.Dict? && b.Dict?
    ensures var mine, theirs := Lookup(a, path), Lookup(b, path);
      Lookup(DeepMerge(a, b), path) ==
      if theirs.Some? then Some(MergeAt(mine, theirs.value)) else if Blocked(b, path) then None else mine
    decreases |path|
  {
    hide DeepMerge;
    if path != [] {
      var k, rest := path[0], path[1..];
      if k in a.entries || k in b.entries {
        EntryAt(a, b, k);
      }
      if k in b.entries && b.entries[k].Dict? {
        if k in a.entries && a.entries[k].Dict? {
          MergeAtPath(a.entries[k], b.entries[k], rest);
        } else {
          OnlyOver(b.entries[k], rest);
        }
      }
    }
  }

  /** What has no leaf in the way and no value has no value at all. */
  lemma {:induction false} OnlyOver(b: Value, path: seq<string>)
    ensures Lookup(b, path).Some? ==> !Blocked(b, path)
    decreases |path|
  {
    if path != [] && b.Dict? && path[0] in b.entries {
      OnlyOver(b.entries[path[0]], path[1..]);
    }
  }

  // ---------------------------------------------------------------------------
  // Associativity
  // ---------------------------------------------------------------------------

  /** Merging b over a leaves nothing of a: each key of a is in b, at every depth at which
      both have dictionaries. */
  predicate Covers(b: Value, a: Value)
    requires a.Dict? && b.Dict?
    decreases b
  {
    forall k :: k in a.entries ==>
      k in b.entries && (a.entries[k].Dict? && b.entries[k].Dict? ==> Covers(b.entries[k], a.entries[k]))
  }

  /** What covering asks of one key. */
  predicate CoversAt(b: Value, a: Value, k: string)
    requires a.Dict? && b.Dict? && k in a.entries
  {
    k in b.entries && (a.entries[k].Dict? && b.entries[k].Dict? ==> Covers(b.entries[k], a.entries[k]))
  }

  lemma {:induction false} CoversExactly(a: Value, b: Value)
    requires a.Dict? && b.Dict?
    ensures DeepMerge(a, b) == b <==> Covers(b, a)
    decreases b
  {
    hide DeepMerge;
    var r := DeepMerge(a, b);
    forall k | k in a.entries ensures CoversAt(b, a, k) <==> k in b.entries && r.entries[k] == b.entries[k] {
      EntryAt(a, b, k);
      if k in b.entries && a.entries[k].Dict? && b.entries[k].Dict? {
        CoversExactly(a.entries[k], b.entries[k]);
      }
    }
    CoversByKeys(b, a);
    if Covers(b, a) {
      forall k | k in r.entries ensures k in b.entries && r.entries[k] == b.entries[k] {
        EntryAt(a, b, k);
        assert k in a.entries ==> CoversAt(b, a, k);
      }
      SameEntries(r, b);
    }
  }

  lemma CoversByKeys(b: Value, a: Value)
    requires a.Dict? && b.Dict?
    ensures Covers(b, a) <==> forall k :: k in a.entries ==> CoversAt(b, a, k)
  {
  }

  /** At key k the middle has a leaf between two dictionaries of which the last does not
      cover the first, or such a place lies deeper. */
  predicate ClashAt(a: Value, b: Value, c: Value, k: string)
    requires a.Dict? && b.Dict? && c.Dict?
    decreases c, 0
  {
    k in a.entries && k in b.entries && k in c.entries && a.entries[k].Dict? && c.entries[k].Dict?
    && if b.entries[k].Leaf? then !Covers(c.entries[k], a.entries[k]) else Clash(a.entries[k], b.entries[k], c.entries[k])
  }

  predicate Clash(a: Value, b: Value, c: Value)
    requires a.Dict? && b.Dict? && c.Dict?
    decreases c, 1
  {
    exists k :: k in a.entries && ClashAt(a, b, c, k)
  }

  /** Merging is associative exactly where no leaf clashes with two dictionaries. */
  lemma {:induction false} AssociativeExactly(a: Value, b: Value, c: Value)
    requires a.Dict? && b.Dict? && c.Dict?
    ensures DeepMerge(DeepMerge(a, b), c) == DeepMerge(a, DeepMerge(b, c)) <==> !Clash(a, b, c)
    decreases c, 1
  {
    hide DeepMerge, ClashAt;
    var left, right := DeepMerge(DeepMerge(a, b), c), DeepMerge(a, DeepMerge(b, c));
    assert left.entries.Keys == right.entries.Keys;
    forall k | k in left.entries ensures left.entries[k] == right.entries[k] <==> !ClashAt(a, b, c, k) {
      AssociativeAt(a, b, c, k);
    }
    if Clash(a, b, c) {
      var k :| k in a.entries && ClashAt(a, b, c, k);
      assert k in left.entries;
    } else {
      forall k | k in left.entries ensures left.entries[k] == right.entries[k] {
        NoClashAt(a, b, c, k);
      }
      SameEntries(left, right);
    }
  }

  lemma NoClashAt(a: Value, b: Value, c: Value, k: string)
    requires a.Dict? && b.Dict? && c.Dict? && !Clash(a, b, c)
    ensures !ClashAt(a, b, c, k)
  {
  }

  lemma {:induction false} AssociativeAt(a: Value, b: Value, c: Value, k: string)
    requires a.Dict? && b.Dict? && c.Dict? && (k in a.entries || k in b.entries || k in c.entries)
    ensures DeepMerge(DeepMerge(a, b), c).entries[k] == DeepMerge(a, DeepMerge(b, c)).entries[k] <==> !ClashAt(a, b, c, k)
    decreases c, 0
  {
    hide DeepMerge, Covers, Clash;
    var ab, bc := DeepMerge(a, b), DeepMerge(b, c);
    EntryAt(ab, c, k);
    EntryAt(a, bc, k);
    if k in a.entries || k in b.entries {
      EntryAt(a, b, k);
    }
    if k in b.entries || k in c.entries {
      EntryAt(b, c, k);
    }
    if k in c.entries && c.entries[k].Dict? && k in b.entries && k in a.entries && a.entries[k].Dict? {
      if b.entries[k].Leaf? {
        CoversExactly(a.entries[k], c.entries[k]);
      } else {
        AssociativeExactly(a.entries[k], b.entries[k], c.entries[k]);
      }
    }
  }
}

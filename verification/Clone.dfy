/** Cloning a workspace: user seats and the passages between them are copied, passages
    that lose an end point are dropped with an event. */
module Clone {
  import opened Graphs
  import opened Prelude
  import opened Topology

  datatype Membership = Membership(id: Id, ws: Id, user: Option<Id>, deleted: bool, posx: int, posy: int)

  datatype Workspace = Workspace(id: Id, ns: Id, slug: string, deleted: bool)

  datatype Event =
    | PassageDropped(row: nat, newWorkspace: Id)
    | WorkspaceCloned(source: Id, copy: Id)

  datatype Error = WorkspaceNotFound | SlugTaken

  datatype Result<+T> = Ok(value: T) | Err(error: Error)

  // ---------------------------------------------------------------------------
  // What is copied
  // ---------------------------------------------------------------------------

  predicate AwakeIn(m: Membership, ws: Id) {
    m.ws == ws && m.user.Some? && !m.deleted
  }

  predicate Ascending(s: seq<nat>, n: nat) {
    && (forall k :: 0 <= k < |s| ==> s[k] < n)
    && (forall j, k :: 0 <= j < k < |s| ==> s[j] < s[k])
  }

  /** Positions, below n, of the user seats of a workspace. */
  function Awake(members: seq<Membership>, ws: Id, n: nat): (r: seq<nat>)
    requires n <= |members|
    ensures Ascending(r, n) && |r| <= n
    ensures forall k :: 0 <= k < |r| ==> AwakeIn(members[r[k]], ws)
  {
    if n == 0 then []
    else Awake(members, ws, n - 1) + (if AwakeIn(members[n - 1], ws) then [n - 1] else [])
  }

  predicate Undeleted(p: Passage, ws: Id) {
    p.ws == ws && !p.deleted
  }

  predicate Inside(p: Passage, seats: set<Id>) {
    p.src in seats && p.dst in seats
  }

  /** Positions, below n, of the undeleted passages of a workspace whose end points
      both are (or, when `kept` is false, are not both) among the given seats. */
  function Chosen(t: Table, ws: Id, seats: set<Id>, kept: bool, n: nat): (r: seq<nat>)
    requires n <= |t|
    ensures Ascending(r, n)
    ensures forall k :: 0 <= k < |r| ==> Undeleted(t[r[k]], ws) && Inside(t[r[k]], seats) == kept
  {
    if n == 0 then []
    else Chosen(t, ws, seats, kept, n - 1)
         + (if Undeleted(t[n - 1], ws) && Inside(t[n - 1], seats) == kept then [n - 1] else [])
  }

  lemma ChosenNext(t: Table, ws: Id, seats: set<Id>, kept: bool, i: nat)
    requires i < |t|
    ensures Chosen(t, ws, seats, kept, i + 1)
            == Chosen(t, ws, seats, kept, i) + if Undeleted(t[i], ws) && Inside(t[i], seats) == kept then [i] else []
  {
  }

  lemma {:induction false} ChosenComplete(t: Table, ws: Id, seats: set<Id>, kept: bool, n: nat, i: nat)
    requires i < n <= |t| && Undeleted(t[i], ws) && Inside(t[i], seats) == kept
    ensures i in Chosen(t, ws, seats, kept, n)
  {
    hide Chosen, Ascending, Undeleted, Inside;
    ChosenNext(t, ws, seats, kept, n - 1);
    var before, more := Chosen(t, ws, seats, kept, n - 1), if Undeleted(t[n - 1], ws) && Inside(t[n - 1], seats) == kept then [n - 1] else [];
    assert i in before + more <==> i in before || i in more;
    if i < n - 1 {
      ChosenComplete(t, ws, seats, kept, n - 1, i);
    }
  }

  function CopiedPassage(p: Passage, ws: Id, seatOf: map<Id, Id>): Passage
    requires Inside(p, seatOf.Keys)
  {
    var nf, nt := seatOf[p.src], seatOf[p.dst];
    Passage(ws, if nf > nt then nt else nf, if nf > nt then nf else nt, p.active, false, p.mode, p.meta)
  }

  function Copies(t: Table, from: seq<nat>, ws: Id, seatOf: map<Id, Id>): Table
    requires forall k :: 0 <= k < |from| ==> from[k] < |t| && Inside(t[from[k]], seatOf.Keys)
  {
    seq(|from|, k requires 0 <= k < |from| => CopiedPassage(t[from[k]], ws, seatOf))
  }

  /** The seats below n that are copied, each with its copy. */
  function SeatMap(members: seq<Membership>, ws: Id, newIds: seq<Id>, n: nat): map<Id, Id>
    requires n <= |members| && n <= |newIds|
  {
    if n == 0 then map[]
    else if !AwakeIn(members[n - 1], ws) then SeatMap(members, ws, newIds, n - 1)
    else SeatMap(members, ws, newIds, n - 1)[members[n - 1].id := newIds[|Awake(members, ws, n - 1)|]]
  }

  /** The rows created for them. */
  function SeatRows(members: seq<Membership>, ws: Id, copy: Id, newIds: seq<Id>, n: nat): (r: seq<Membership>)
    requires n <= |members| && n <= |newIds|
    ensures |r| == |Awake(members, ws, n)|
    ensures forall k :: 0 <= k < |r| ==> r[k] == CopiedSeat(members[Awake(members, ws, n)[k]], copy, newIds[k])
  {
    if n == 0 then []
    else
      SeatRows(members, ws, copy, newIds, n - 1)
      + if AwakeIn(members[n - 1], ws) then [CopiedSeat(members[n - 1], copy, newIds[|Awake(members, ws, n - 1)|])] else []
  }

  function CopiedSeat(m: Membership, ws: Id, id: Id): Membership {
    Membership(id, ws, m.user, false, m.posx, m.posy)
  }

  function Drops(lost: seq<nat>, copy: Id): seq<Event> {
    seq(|lost|, k requires 0 <= k < |lost| => PassageDropped(lost[k], copy))
  }

  /** The workspace with an identifier, deleted or not. */
  function Lookup(all: seq<Workspace>, id: Id): (r: Option<Workspace>)
    ensures r.Some? ==> r.value in all && r.value.id == id
    ensures r.None? ==> forall w :: w in all ==> w.id != id
  {
    if all == [] then None
    else
      assert all == [all[0]] + all[1..];
      if all[0].id == id then Some(all[0]) else Lookup(all[1..], id)
  }

  predicate SlugIn(all: seq<Workspace>, ns: Id, slug: string) {
    exists v :: v in all && !v.deleted && v.ns == ns && v.slug == slug
  }

  /** The row of the new workspace, or why there is none. */
  function NewWorkspace(all: seq<Workspace>, source: Id, copy: Id, slug: string): Result<Workspace> {
    var w := Lookup(all, source);
    if w.None? || w.value.deleted then Err(WorkspaceNotFound)
    else if SlugIn(all, w.value.ns, slug) then Err(SlugTaken)
    else Ok(Workspace(copy, w.value.ns, slug, false))
  }

  /** The table after the copy, given which seat became which. */
  function AfterClone(t: Table, source: Id, copy: Id, seatOf: map<Id, Id>): Table {
    t + Copies(t, Chosen(t, source, seatOf.Keys, true, |t|), copy, seatOf)
  }

  predicate UniqueIds(members: seq<Membership>) {
    forall i, j :: 0 <= i < j < |members| ==> members[i].id != members[j].id
  }

  predicate Distinct(s: seq<Id>) {
    forall i, j :: 0 <= i < j < |s| ==> s[i] != s[j]
  }

  predicate Injective(m: map<Id, Id>) {
    forall u, v :: u in m && v in m && m[u] == m[v] ==> u == v
  }

  lemma {:induction false} SeatMapPairs(members: seq<Membership>, ws: Id, newIds: seq<Id>, n: nat)
    requires UniqueIds(members) && n <= |members| && n <= |newIds|
    ensures var m := SeatMap(members, ws, newIds, n);
            && (forall i :: 0 <= i < n ==> (members[i].id in m <==> AwakeIn(members[i], ws)))
            && (forall i :: 0 <= i < n && AwakeIn(members[i], ws) ==> m[members[i].id] == newIds[|Awake(members, ws, i)|])
            && (forall u :: u in m ==> exists i :: 0 <= i < n && members[i].id == u)
  {
    if n > 0 {
      SeatMapPairs(members, ws, newIds, n - 1);
      assert forall i :: 0 <= i < n - 1 ==> members[i].id != members[n - 1].id;
    }
  }

  lemma {:induction false} AwakeGrows(members: seq<Membership>, ws: Id, i: nat, j: nat)
    requires i < j <= |members| && AwakeIn(members[i], ws)
    ensures |Awake(members, ws, i)| < |Awake(members, ws, j)| && Awake(members, ws, j)[|Awake(members, ws, i)|] == i
  {
    if i < j - 1 {
      AwakeGrows(members, ws, i, j - 1);
    }
  }

  lemma SeatMapInjective(members: seq<Membership>, ws: Id, newIds: seq<Id>, n: nat)
    requires UniqueIds(members) && n <= |members| && n <= |newIds| && Distinct(newIds)
    ensures Injective(SeatMap(members, ws, newIds, n))
  {
    SeatMapPairs(members, ws, newIds, n);
    forall i, j | 0 <= i < j < n && AwakeIn(members[i], ws) && AwakeIn(members[j], ws)
      ensures newIds[|Awake(members, ws, i)|] != newIds[|Awake(members, ws, j)|]
    {
      AwakeGrows(members, ws, i, j);
    }
  }

  /** The copies of the first n rows, and the events for what is dropped among them. */
  function Copied(t: Table, source: Id, copy: Id, seatOf: map<Id, Id>, n: nat): Table
    requires n <= |t|
  {
    Copies(t, Chosen(t, source, seatOf.Keys, true, n), copy, seatOf)
  }

  function Dropped(t: Table, source: Id, copy: Id, seatOf: map<Id, Id>, n: nat): seq<Event>
    requires n <= |t|
  {
    Drops(Chosen(t, source, seatOf.Keys, false, n), copy)
  }

  lemma Joined3<T>(a: seq<T>, b: seq<T>, c: seq<T>)
    ensures (a + b) + c == a + (b + c)
  {
  }

  lemma AllCopied(t: Table, source: Id, copy: Id, seatOf: map<Id, Id>)
    ensures t + Copied(t, source, copy, seatOf, |t|) == AfterClone(t, source, copy, seatOf)
    ensures Dropped(t, source, copy, seatOf, |t|) == Drops(Chosen(t, source, seatOf.Keys, false, |t|), copy)
  {
  }

  lemma NothingCopied(t: Table, source: Id, copy: Id, seatOf: map<Id, Id>)
    ensures Copied(t, source, copy, seatOf, 0) == [] && Dropped(t, source, copy, seatOf, 0) == []
  {
  }

  /** One more row of the table either is copied, is dropped, or is not selected. */
  lemma PassageStep(t: Table, source: Id, copy: Id, seatOf: map<Id, Id>, i: nat)
    requires i < |t|
    ensures Copied(t, source, copy, seatOf, i + 1)
            == Copied(t, source, copy, seatOf, i)
               + if Undeleted(t[i], source) && Inside(t[i], seatOf.Keys) then [CopiedPassage(t[i], copy, seatOf)] else []
    ensures Dropped(t, source, copy, seatOf, i + 1)
            == Dropped(t, source, copy, seatOf, i)
               + if Undeleted(t[i], source) && !Inside(t[i], seatOf.Keys) then [PassageDropped(i, copy)] else []
  {
    hide Undeleted, Inside, CopiedPassage, Chosen;
    ChosenNext(t, source, seatOf.Keys, true, i);
    ChosenNext(t, source, seatOf.Keys, false, i);
  }

  // ---------------------------------------------------------------------------
  // The operation
  // ---------------------------------------------------------------------------

  class WorkspaceStore {
    var workspaces: seq<Workspace>
    var members: seq<Membership>
    var passages: Table
    var events: seq<Event>

    constructor (workspaces: seq<Workspace>, members: seq<Membership>, passages: Table)
      ensures this.workspaces == workspaces && this.members == members && this.passages == passages && events == []
    {
      this.workspaces, this.members, this.passages, events := workspaces, members, passages, [];
    }

    /** Copies the user seats; `newIds` stands for the generated identifiers. */
    method CopySeats(source: Id, copy: Id, newIds: seq<Id>) returns (seatOf: map<Id, Id>)
      requires |members| <= |newIds|
      modifies this`members
      ensures seatOf == old(SeatMap(members, source, newIds, |members|))
      ensures members == old(members + SeatRows(members, source, copy, newIds, |members|))
    {
      var was, n := members, 0;
      seatOf := map[];
      for i := 0 to |was|
        invariant n == |Awake(was, source, i)|
        invariant seatOf == SeatMap(was, source, newIds, i)
        invariant members == was + SeatRows(was, source, copy, newIds, i)
      {
        if AwakeIn(was[i], source) {
          members := members + [Membership(newIds[n], copy, was[i].user, false, was[i].posx, was[i].posy)];
          seatOf := seatOf[was[i].id := newIds[n]];
          n := n + 1;
        }
      }
    }

    /** Copies the passages between copied seats and reports the others. */
    method CopyPassages(source: Id, copy: Id, seatOf: map<Id, Id>)
      modifies this`passages, this`events
      ensures passages == AfterClone(old(passages), source, copy, seatOf)
      ensures events == old(events) + Drops(Chosen(old(passages), source, seatOf.Keys, false, |old(passages)|), copy)
    {
      hide Copied, Dropped, CopiedPassage, Undeleted, Inside;
      var t := passages;
      NothingCopied(t, source, copy, seatOf);
      assert t + [] == t && events + [] == events;
      for i := 0 to |t|
        invariant passages == t + Copied(t, source, copy, seatOf, i)
        invariant events == old(events) + Dropped(t, source, copy, seatOf, i)
      {
        PassageStep(t, source, copy, seatOf, i);
        ghost var copied, dropped := Copied(t, source, copy, seatOf, i), Dropped(t, source, copy, seatOf, i);
        CopyPassage(t[i], i, source, copy, seatOf);
        Joined3(t, copied, Copied(t, source, copy, seatOf, i + 1)[|copied|..]);
        Joined3(old(events), dropped, Dropped(t, source, copy, seatOf, i + 1)[|dropped|..]);
      }
      AllCopied(t, source, copy, seatOf);
    }

    /** One passage of the source: copied, reported, or not selected. */
    method CopyPassage(p: Passage, i: nat, source: Id, copy: Id, seatOf: map<Id, Id>)
      modifies this`passages, this`events
      ensures passages == old(passages)
                + if Undeleted(p, source) && Inside(p, seatOf.Keys) then [CopiedPassage(p, copy, seatOf)] else []
      ensures events == old(events)
                + if Undeleted(p, source) && !Inside(p, seatOf.Keys) then [PassageDropped(i, copy)] else []
    {
      assert passages + [] == passages && events + [] == events;
      if Undeleted(p, source) {
        if p.src in seatOf && p.dst in seatOf {
          var nf, nt := seatOf[p.src], seatOf[p.dst];
          if nf > nt {
            nf, nt := nt, nf;
          }
          passages := passages + [Passage(copy, nf, nt, p.active, false, p.mode, p.meta)];
        } else {
          events := events + [PassageDropped(i, copy)];
        }
      }
    }

    method CloneWorkspace(source: Id, copy: Id, slug: string, newIds: seq<Id>) returns (r: Result<Id>)
      requires |members| <= |newIds| && source != copy
      modifies this
      ensures r == Err(WorkspaceNotFound) <== forall w :: w in old(workspaces) && w.id == source ==> w.deleted
      ensures r.Ok? ==> exists w :: w in old(workspaces) && w.id == source && !w.deleted
                                    && workspaces == old(workspaces) + [Workspace(copy, w.ns, slug, false)]
                                    && forall v :: v in old(workspaces) && !v.deleted && v.ns == w.ns ==> v.slug != slug
      ensures r == Err(SlugTaken) ==> exists v, w :: v in old(workspaces) && w in old(workspaces) && w.id == source
                                                     && !w.deleted && !v.deleted && v.ns == w.ns && v.slug == slug
      ensures var w := NewWorkspace(old(workspaces), source, copy, slug);
              match w
              case Err(e) =>
                && r == Err(e) && workspaces == old(workspaces)
                && members == old(members) && passages == old(passages) && events == old(events)
              case Ok(row) =>
                var t, seatOf := old(passages), old(SeatMap(members, source, newIds, |members|));
                && r == Ok(copy) && workspaces == old(workspaces) + [row]
                && members == old(members + SeatRows(members, source, copy, newIds, |members|))
                && passages == AfterClone(t, source, copy, seatOf)
                && events == old(events) + Drops(Chosen(t, source, seatOf.Keys, false, |t|), copy) + [WorkspaceCloned(source, copy)]
    {
      var w := Lookup(workspaces, source);
      if w.None? || w.value.deleted {
        return Err(WorkspaceNotFound);
      }
      if SlugIn(workspaces, w.value.ns, slug) {
        return Err(SlugTaken);
      }
      workspaces := workspaces + [Workspace(copy, w.value.ns, slug, false)];
      var seatOf := CopySeats(source, copy, newIds);
      CopyPassages(source, copy, seatOf);
      events := events + [WorkspaceCloned(source, copy)];
      return Ok(copy);
    }
  }

  // ---------------------------------------------------------------------------
  // What the copy keeps
  // ---------------------------------------------------------------------------

  /** The part of the source graph that lies on the copied seats. */
  function Induced(g: Graph, seats: set<Id>): Graph {
    map i | i in g && g[i].a in seats && g[i].b in seats :: g[i]
  }

  /** Distinct seats stay distinct and the new workspace is empty. */
  ghost predicate Cloning(t: Table, source: Id, copy: Id, seatOf: map<Id, Id>) {
    source != copy && Injective(seatOf) && forall p :: p in t ==> p.ws != copy
  }

  /** Copied and dropped passages are, between them, the undeleted passages of the
      source, and every copy keeps its state and stores its end points in order. */
  lemma CloneConserves(t: Table, source: Id, copy: Id, seatOf: map<Id, Id>)
    requires Cloning(t, source, copy, seatOf)
    ensures var kept, lost := Chosen(t, source, seatOf.Keys, true, |t|), Chosen(t, source, seatOf.Keys, false, |t|);
            && |kept| + |lost| == |set i | 0 <= i < |t| && Undeleted(t[i], source)|
            && (forall i :: i in kept ==> i !in lost)
            && |AfterClone(t, source, copy, seatOf)| == |t| + |kept|
            && forall k :: 0 <= k < |kept| ==>
                 var p, q := t[kept[k]], AfterClone(t, source, copy, seatOf)[|t| + k];
                 && q.src <= q.dst && {q.src, q.dst} == {seatOf[p.src], seatOf[p.dst]}
                 && q.ws == copy && q.active == p.active && !q.deleted && q.mode == p.mode && q.meta == p.meta
  {
    CountSplit(t, source, seatOf.Keys, |t|);
  }

  lemma {:induction false} CountSplit(t: Table, ws: Id, seats: set<Id>, n: nat)
    requires n <= |t|
    ensures |Chosen(t, ws, seats, true, n)| + |Chosen(t, ws, seats, false, n)| == |set i | 0 <= i < n && Undeleted(t[i], ws)|
  {
    var s := set i | 0 <= i < n && Undeleted(t[i], ws);
    if n == 0 {
      assert s == {};
    } else {
      CountSplit(t, ws, seats, n - 1);
      var s' := set i | 0 <= i < n - 1 && Undeleted(t[i], ws);
      assert s == if Undeleted(t[n - 1], ws) then s' + {n - 1} else s';
    }
  }

  /** Row numbers of the live copies, with the rows they were copied from. */
  function Origins(t: Table, source: Id, copy: Id, seatOf: map<Id, Id>): map<nat, nat> {
    var kept, t' := Chosen(t, source, seatOf.Keys, true, |t|), AfterClone(t, source, copy, seatOf);
    map i: nat | |t| <= i < |t'| && LiveIn(t'[i], copy) :: kept[i - |t|]
  }

  lemma CopyOf(t: Table, source: Id, copy: Id, seatOf: map<Id, Id>, i: nat)
    requires Cloning(t, source, copy, seatOf) && i in Live(AfterClone(t, source, copy, seatOf), copy)
    ensures var g, h, o := Live(AfterClone(t, source, copy, seatOf), copy), Induced(Live(t, source), seatOf.Keys), Origins(t, source, copy, seatOf);
            i in o && o[i] in h && Joins(g[i], seatOf[h[o[i]].a], seatOf[h[o[i]].b])
  {
    assert forall j :: 0 <= j < |t| ==> t[j] in t && t[j].ws != copy;
  }

  lemma HasCopy(t: Table, source: Id, copy: Id, seatOf: map<Id, Id>, x: nat)
    requires Cloning(t, source, copy, seatOf) && x in Induced(Live(t, source), seatOf.Keys)
    ensures exists i :: i in Origins(t, source, copy, seatOf) && Origins(t, source, copy, seatOf)[i] == x
                        && i in Live(AfterClone(t, source, copy, seatOf), copy)
  {
    var kept := Chosen(t, source, seatOf.Keys, true, |t|);
    ChosenComplete(t, source, seatOf.Keys, true, |t|, x);
    var k :| 0 <= k < |kept| && kept[k] == x;
    assert |t| + k in Origins(t, source, copy, seatOf);
  }

  /** Copied seats are active neighbours exactly when their originals are. */
  lemma CloneIsomorphic(t: Table, source: Id, copy: Id, seatOf: map<Id, Id>, u: Id, v: Id)
    requires Cloning(t, source, copy, seatOf) && u in seatOf && v in seatOf
    ensures Adjacent(Live(AfterClone(t, source, copy, seatOf), copy), seatOf[u], seatOf[v]) <==> Adjacent(Live(t, source), u, v)
  {
    if Adjacent(Live(AfterClone(t, source, copy, seatOf), copy), seatOf[u], seatOf[v]) {
      CopiesReflect(t, source, copy, seatOf, u, v);
    }
    if Adjacent(Live(t, source), u, v) {
      CopiesPreserve(t, source, copy, seatOf, u, v);
    }
  }

  lemma CopiesReflect(t: Table, source: Id, copy: Id, seatOf: map<Id, Id>, u: Id, v: Id)
    requires Cloning(t, source, copy, seatOf) && u in seatOf && v in seatOf
    requires Adjacent(Live(AfterClone(t, source, copy, seatOf), copy), seatOf[u], seatOf[v])
    ensures Adjacent(Live(t, source), u, v)
  {
    var g := Live(AfterClone(t, source, copy, seatOf), copy);
    var i :| i in g && Joins(g[i], seatOf[u], seatOf[v]);
    CopyOf(t, source, copy, seatOf, i);
    var x := Origins(t, source, copy, seatOf)[i];
    assert Joins(Live(t, source)[x], u, v);
  }

  lemma CopiesPreserve(t: Table, source: Id, copy: Id, seatOf: map<Id, Id>, u: Id, v: Id)
    requires Cloning(t, source, copy, seatOf) && u in seatOf && v in seatOf
    requires Adjacent(Live(t, source), u, v)
    ensures Adjacent(Live(AfterClone(t, source, copy, seatOf), copy), seatOf[u], seatOf[v])
  {
    var g, h, o := Live(AfterClone(t, source, copy, seatOf), copy), Live(t, source), Origins(t, source, copy, seatOf);
    var x :| x in h && Joins(h[x], u, v);
    HasCopy(t, source, copy, seatOf, x);
    var i :| i in o && o[i] == x && i in g;
    CopyOf(t, source, copy, seatOf, i);
    assert Joins(g[i], seatOf[u], seatOf[v]);
  }

  lemma OriginsInjective(t: Table, source: Id, copy: Id, seatOf: map<Id, Id>)
    ensures var o := Origins(t, source, copy, seatOf);
            forall i, j :: i in o && j in o && i != j ==> o[i] != o[j]
  {
  }

  /** The copy is a forest exactly when the copied part of the source is one. */
  lemma CloneForest(t: Table, source: Id, copy: Id, seatOf: map<Id, Id>)
    requires Cloning(t, source, copy, seatOf)
    ensures Forest(Live(AfterClone(t, source, copy, seatOf), copy)) <==> Forest(Induced(Live(t, source), seatOf.Keys))
  {
    var g, h, o := Live(AfterClone(t, source, copy, seatOf), copy), Induced(Live(t, source), seatOf.Keys), Origins(t, source, copy, seatOf);
    forall i | i in g ensures i in o && o[i] in h && Joins(g[i], seatOf[h[o[i]].a], seatOf[h[o[i]].b]) {
      CopyOf(t, source, copy, seatOf, i);
    }
    OriginsInjective(t, source, copy, seatOf);
    if Forest(h) {
      PullBack(g, h, o, seatOf);
    }
    if Forest(g) {
      forall x | x in h ensures exists i :: i in g && o[i] == x {
        HasCopy(t, source, copy, seatOf, x);
      }
      PushForward(g, h, o, seatOf);
    }
  }

  lemma PullBack(g: Graph, h: Graph, o: map<nat, nat>, seatOf: map<Id, Id>)
    requires Injective(seatOf) && Forest(h)
    requires forall i :: i in g ==> i in o && o[i] in h && h[o[i]].a in seatOf && h[o[i]].b in seatOf
                                    && Joins(g[i], seatOf[h[o[i]].a], seatOf[h[o[i]].b])
    requires forall i, j :: i in o && j in o && i != j ==> o[i] != o[j]
    ensures Forest(g)
  {
    var back := map u | u in seatOf :: seatOf[u] := u;
    forall u | u in seatOf ensures seatOf[u] in back && back[seatOf[u]] == u {
    }
    MappedForest(g, h, o, back);
  }

  lemma PushForward(g: Graph, h: Graph, o: map<nat, nat>, seatOf: map<Id, Id>)
    requires Forest(g)
    requires forall i :: i in g ==> i in o && o[i] in h && h[o[i]].a in seatOf && h[o[i]].b in seatOf
                                    && Joins(g[i], seatOf[h[o[i]].a], seatOf[h[o[i]].b])
    requires forall x :: x in h ==> exists i :: i in g && o[i] == x
    ensures Forest(h)
  {
    var to := map x | x in h :: CopiedTo(g, o, x);
    MappedForest(h, g, to, seatOf);
  }

  ghost function CopiedTo(g: Graph, o: map<nat, nat>, x: nat): (i: nat)
    requires g.Keys <= o.Keys && exists i :: i in g && o[i] == x
    ensures i in g && o[i] == x
  {
    var i :| i in g && o[i] == x;
    i
  }

  /** Cloning a workspace keeps every workspace a forest. */
  lemma CloneKeepsForests(t: Table, source: Id, copy: Id, seatOf: map<Id, Id>)
    requires Cloning(t, source, copy, seatOf) && AllForests(t)
    ensures AllForests(AfterClone(t, source, copy, seatOf))
  {
    CloneForest(t, source, copy, seatOf);
    SubgraphForest(Induced(Live(t, source), seatOf.Keys), Live(t, source));
    forall ws | ws != copy ensures Live(AfterClone(t, source, copy, seatOf), ws) == Live(t, ws) {
      assert forall i :: 0 <= i < |t| ==> AfterClone(t, source, copy, seatOf)[i] == t[i];
    }
  }

  /** Distinct generated identifiers give a cloning of exactly the user seats. */
  lemma SeatMapClones(members: seq<Membership>, newIds: seq<Id>, t: Table, source: Id, copy: Id)
    requires UniqueIds(members) && Distinct(newIds) && |members| <= |newIds|
    requires source != copy && forall p :: p in t ==> p.ws != copy
    ensures var m := SeatMap(members, source, newIds, |members|);
            && Cloning(t, source, copy, m)
            && forall s :: s in members ==> (s.id in m <==> AwakeIn(s, source))
  {
    SeatMapPairs(members, source, newIds, |members|);
    SeatMapInjective(members, source, newIds, |members|);
  }

  /** Exactly the user seats get a row, under the identifier that the seat map gives, with the
      same user and position. */
  lemma SeatsCopied(members: seq<Membership>, newIds: seq<Id>, source: Id, copy: Id)
    requires UniqueIds(members) && |members| <= |newIds|
    ensures var rows, m := SeatRows(members, source, copy, newIds, |members|), SeatMap(members, source, newIds, |members|);
      && |rows| == |AwakeSet(members, source, |members|)|
      && forall s :: s in members && AwakeIn(s, source) ==> s.id in m && Membership(m[s.id], copy, s.user, false, s.posx, s.posy) in rows
  {
    var n := |members|;
    var rows, m := SeatRows(members, source, copy, newIds, n), SeatMap(members, source, newIds, n);
    SeatMapPairs(members, source, newIds, n);
    AwakeCount(members, source, n);
    forall s | s in members && AwakeIn(s, source) ensures s.id in m && Membership(m[s.id], copy, s.user, false, s.posx, s.posy) in rows {
      var i :| 0 <= i < n && members[i] == s;
      AwakeGrows(members, source, i, n);
      var k := |Awake(members, source, i)|;
      assert rows[k] == CopiedSeat(members[i], copy, newIds[k]);
    }
  }

  function AwakeSet(members: seq<Membership>, ws: Id, n: nat): set<nat>
    requires n <= |members|
  {
    set i | 0 <= i < n && AwakeIn(members[i], ws)
  }

  lemma OneMoreAwake(members: seq<Membership>, ws: Id, n: nat)
    requires n < |members|
    ensures AwakeSet(members, ws, n + 1) == AwakeSet(members, ws, n) + (if AwakeIn(members[n], ws) then {n} else {})
    ensures n !in AwakeSet(members, ws, n)
  {
    hide AwakeIn;
  }

  lemma {:induction false} AwakeCount(members: seq<Membership>, ws: Id, n: nat)
    requires n <= |members|
    ensures |Awake(members, ws, n)| == |AwakeSet(members, ws, n)|
  {
    hide AwakeIn, AwakeSet, Ascending;
    if n == 0 {
      assert AwakeSet(members, ws, 0) == {} by { NoneAwake(members, ws); }
    } else {
      AwakeCount(members, ws, n - 1);
      OneMoreAwake(members, ws, n - 1);
    }
  }

  lemma NoneAwake(members: seq<Membership>, ws: Id)
    ensures AwakeSet(members, ws, 0) == {}
  {
  }

  /** The event of an undeleted passage of the source with an end that is not among the seats. */
  predicate Reported(t: Table, source: Id, copy: Id, seats: set<Id>, e: Event) {
    && e.PassageDropped? && e.newWorkspace == copy && e.row < |t|
    && t[e.row].ws == source && !t[e.row].deleted && !(t[e.row].src in seats && t[e.row].dst in seats)
  }

  /** One event for each undeleted passage of the source that loses an end, and no other. */
  lemma DropsExactly(t: Table, source: Id, copy: Id, seats: set<Id>)
    ensures var events := Drops(Chosen(t, source, seats, false, |t|), copy);
      && (forall e :: e in events <==> Reported(t, source, copy, seats, e))
      && forall j, k :: 0 <= j < k < |events| ==> events[j] != events[k]
  {
    hide Chosen;
    var lost := Chosen(t, source, seats, false, |t|);
    var events := Drops(lost, copy);
    forall e | Reported(t, source, copy, seats, e) ensures e in events {
      ChosenComplete(t, source, seats, false, |t|, e.row);
      var k :| 0 <= k < |lost| && lost[k] == e.row;
      assert events[k] == e;
    }
  }
}

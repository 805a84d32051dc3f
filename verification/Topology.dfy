/** Passages between seats: the acyclicity guard, the routes that change passages, and
    cleanup.

    The passage table is a sequence of rows that are never removed, only marked
    deleted, so a row's position serves as its primary key.  Identifiers are integers:
    only their equality and their order matter here.  A creation that has passed the
    check holds its two seats locked until it commits; other requests run in between. */
module Topology {
  import opened Graphs
  import opened Prelude

  type Id = int

  datatype Passage = Passage(ws: Id, src: Id, dst: Id, active: bool, deleted: bool, mode: string, meta: string)

  type Table = seq<Passage>

  predicate LiveIn(p: Passage, ws: Id) {
    p.ws == ws && p.active && !p.deleted
  }

  predicate Touches(p: Passage, seat: Id) {
    p.src == seat || p.dst == seat
  }

  /** The graph the acyclicity check looks at. */
  function Live(t: Table, ws: Id): Graph {
    map i: nat | i < |t| && LiveIn(t[i], ws) :: Edge(t[i].src, t[i].dst)
  }

  ghost predicate AllForests(t: Table) {
    forall ws :: Forest(Live(t, ws))
  }

  function Lo(a: Id, b: Id): Id {
    if a <= b then a else b
  }

  function Hi(a: Id, b: Id): Id {
    if a <= b then b else a
  }

  // ---------------------------------------------------------------------------
  // Queries
  // ---------------------------------------------------------------------------

  /** Rows a query returns for the live passages at one seat. */
  function Incident(t: Table, ws: Id, seat: Id): seq<Passage> {
    if t == [] then []
    else (if LiveIn(t[0], ws) && Touches(t[0], seat) then [t[0]] else []) + Incident(t[1..], ws, seat)
  }

  lemma {:induction false} IncidentRows(t: Table, ws: Id, seat: Id)
    ensures forall p :: p in Incident(t, ws, seat) <==> p in t && LiveIn(p, ws) && Touches(p, seat)
  {
    if t != [] {
      IncidentRows(t[1..], ws, seat);
      assert t == [t[0]] + t[1..];
    }
  }

  function Other(p: Passage, seat: Id): Id {
    if p.src == seat then p.dst else p.src
  }

  lemma IncidentAdjacent(t: Table, ws: Id, u: Id, v: Id)
    ensures Adjacent(Live(t, ws), u, v) <==> exists p :: p in Incident(t, ws, u) && Other(p, u) == v
  {
    IncidentRows(t, ws, u);
    var g := Live(t, ws);
    if Adjacent(g, u, v) {
      var i :| i in g && Joins(g[i], u, v);
      assert t[i] in Incident(t, ws, u);
      assert Other(t[i], u) == v;
    }
    if p :| p in Incident(t, ws, u) && Other(p, u) == v {
      var i :| 0 <= i < |t| && t[i] == p;
      assert i in g && Joins(g[i], u, v);
    }
  }

  /** Every seat named by a row. */
  function Seats(t: Table): set<Id> {
    (set p | p in t :: p.src) + (set p | p in t :: p.dst)
  }

  // ---------------------------------------------------------------------------
  // State changes, as functions of the table
  // ---------------------------------------------------------------------------

  function Cleaned(t: Table, seats: seq<Id>): Table {
    seq(|t|, i requires 0 <= i < |t| => CleanedRow(t[i], seats))
  }

  function CleanedRow(p: Passage, seats: seq<Id>): Passage {
    if !p.deleted && (p.src in seats || p.dst in seats) then p.(deleted := true, active := false) else p
  }

  /** The undeleted rows, among the first n, with an end at one of the seats. */
  function Touched(t: Table, seats: seq<Id>, n: nat): (r: set<nat>)
    requires n <= |t|
  {
    set i | 0 <= i < n && !t[i].deleted && (t[i].src in seats || t[i].dst in seats)
  }

  lemma OneMoreTouched(t: Table, seats: seq<Id>, n: nat)
    requires n < |t|
    ensures |Touched(t, seats, n + 1)|
            == |Touched(t, seats, n)| + if !t[n].deleted && (t[n].src in seats || t[n].dst in seats) then 1 else 0
  {
    var hit := !t[n].deleted && (t[n].src in seats || t[n].dst in seats);
    assert Touched(t, seats, n + 1) == Touched(t, seats, n) + if hit then {n} else {};
  }

  /** What a removal of seats does to the rows: the touched ones are marked, the others stay. */
  ghost predicate SeatsCleared(before: Table, after: Table, ids: seq<Id>) {
    && |after| == |before|
    && forall i :: 0 <= i < |before| ==>
         after[i] == if !before[i].deleted && (before[i].src in ids || before[i].dst in ids)
                     then before[i].(deleted := true, active := false) else before[i]
  }

  predicate SamePair(p: Passage, ws: Id, a: Id, b: Id) {
    p.ws == ws && ((p.src == a && p.dst == b) || (p.src == b && p.dst == a))
  }

  /** Position of the first row, in any state, for one unordered pair; |t| if none. */
  function FirstPair(t: Table, ws: Id, a: Id, b: Id): (i: nat)
    ensures i <= |t|
    ensures i < |t| ==> SamePair(t[i], ws, a, b)
    ensures forall k :: 0 <= k < i ==> !SamePair(t[k], ws, a, b)
  {
    if t == [] || SamePair(t[0], ws, a, b) then 0
    else 1 + FirstPair(t[1..], ws, a, b)
  }

  /** A creation that has passed the check and has not committed. */
  datatype Request = Request(ws: Id, lo: Id, hi: Id, meta: string)

  /** The passage table, the seats that are there, and the creations under way. */
  datatype Board = Board(rows: Table, seats: set<Id>, pending: seq<Request>)

  predicate Locked(pending: seq<Request>, seat: Id) {
    exists k :: 0 <= k < |pending| && (pending[k].lo == seat || pending[k].hi == seat)
  }

  /** The unique index over live rows has no room for one more, row i not counted. */
  predicate Clashes(t: Table, i: nat, ws: Id, a: Id, b: Id) {
    exists j :: 0 <= j < |t| && j != i && LiveIn(t[j], ws) && t[j].src == a && t[j].dst == b
  }

  datatype Outcome = SeatNotFound | Duplicate | WouldCycle | Checked | Created | Revived | IndexViolation

  /** What a creation answers up to its insert.  Reviving a deleted row comes before the
      acyclicity check, which it skips. */
  ghost function CheckOutcome(t: Table, seats: set<Id>, ws: Id, a: Id, b: Id): Outcome {
    var i := FirstPair(t, ws, a, b);
    if a !in seats || b !in seats then SeatNotFound
    else if i < |t| then
      if !t[i].deleted then Duplicate else if Clashes(t, i, ws, a, b) then IndexViolation else Revived
    else if a == b || Connected(Live(t, ws), a, b) then WouldCycle
    else Checked
  }

  function RevivedRow(p: Passage, a: Id, b: Id): Passage {
    p.(deleted := false, active := true, mode := "dual", src := a, dst := b)
  }

  function NewRow(ws: Id, a: Id, b: Id, meta: string): Passage {
    Passage(ws, a, b, true, false, "dual", meta)
  }

  function PatchedRow(p: Passage, active: Option<bool>, meta: Option<string>): Passage {
    p.(active := if active.Some? then active.value else p.active, meta := if meta.Some? then meta.value else p.meta)
  }

  datatype Op =
    | Check(ws: Id, x: Id, y: Id, meta: string)                  // a creation, up to its insert
    | Commit(k: nat)                                             // the insert of a checked creation
    | Delete(i: nat)
    | Patch(i: nat, active: Option<bool>, newMeta: Option<string>)
    | AddSeat(id: Id)                                            // a seat is created or restored
    | RemoveSeats(ids: seq<Id>)                                  // seats go, with their passages

  /** Both creation and seat removal wait for locked seats. */
  predicate Enabled(b: Board, op: Op) {
    match op
    case Check(_, x, y, _) => !Locked(b.pending, x) && !Locked(b.pending, y)
    case Commit(k) => k < |b.pending|
    case Delete(i) => i < |b.rows| && !b.rows[i].deleted
    case Patch(i, _, _) => i < |b.rows| && !b.rows[i].deleted
    case AddSeat(_) => true
    case RemoveSeats(ids) => ids != [] && forall id :: id in ids ==> id in b.seats && !Locked(b.pending, id)
  }

  /** Setting a passage active again asks nothing but the unique index. */
  predicate PatchRefused(b: Board, i: nat, active: Option<bool>) {
    i < |b.rows| && active == Some(true) && Clashes(b.rows, i, b.rows[i].ws, b.rows[i].src, b.rows[i].dst)
  }

  ghost function Next(b: Board, op: Op): Board {
    if !Enabled(b, op) then b
    else match op
      case Check(ws, x, y, meta) =>
        var lo, hi := Lo(x, y), Hi(x, y);
        var outcome, i := CheckOutcome(b.rows, b.seats, ws, lo, hi), FirstPair(b.rows, ws, lo, hi);
        if outcome.Revived? then b.(rows := b.rows[i := RevivedRow(b.rows[i], lo, hi)])
        else if outcome.Checked? then b.(pending := b.pending + [Request(ws, lo, hi, meta)])
        else b
      case Commit(k) =>
        var r, rest := b.pending[k], b.pending[..k] + b.pending[k + 1..];
        if Clashes(b.rows, |b.rows|, r.ws, r.lo, r.hi) then b.(pending := rest)
        else b.(rows := b.rows + [NewRow(r.ws, r.lo, r.hi, r.meta)], pending := rest)
      case Delete(i) => b.(rows := b.rows[i := b.rows[i].(deleted := true)])
      case Patch(i, active, meta) =>
        if PatchRefused(b, i, active) then b else b.(rows := b.rows[i := PatchedRow(b.rows[i], active, meta)])
      case AddSeat(id) => b.(seats := b.seats + {id})
      case RemoveSeats(ids) => b.(seats := b.seats - (set id | id in ids), rows := Cleaned(b.rows, ids))
  }

  ghost function Run(b: Board, ops: seq<Op>): Board
    decreases |ops|
  {
    if ops == [] then b else Run(Next(b, ops[0]), ops[1..])
  }

  // ---------------------------------------------------------------------------
  // What a creation answers and changes, told by rows
  // ---------------------------------------------------------------------------

  ghost predicate KnownPair(t: Table, ws: Id, x: Id, y: Id) {
    exists i :: 0 <= i < |t| && SamePair(t[i], ws, x, y)
  }

  /** A missing seat comes first, then a row for the pair in any state, then the cycle. */
  ghost predicate Answers(b: Board, ws: Id, x: Id, y: Id, outcome: Outcome) {
    var seated, known := x in b.seats && y in b.seats, KnownPair(b.rows, ws, x, y);
    && (outcome.SeatNotFound? <==> !seated)
    && (outcome.Duplicate? || outcome.Revived? || outcome.IndexViolation? <==> seated && known)
    && (outcome.Checked? <==> seated && !known && x != y && !Connected(Live(b.rows, ws), x, y))
  }

  predicate BroughtBack(t: Table, t': Table, i: nat, ws: Id, lo: Id, hi: Id) {
    i < |t| && t[i].deleted && SamePair(t[i], ws, lo, hi) && t' == t[i := Passage(ws, lo, hi, true, false, "dual", t[i].meta)]
  }

  ghost predicate BringsBack(t: Table, t': Table, ws: Id, lo: Id, hi: Id) {
    exists i: nat :: BroughtBack(t, t', i, ws, lo, hi)
  }

  /** One deleted row for the pair comes back, or the creation is held, or nothing changes. */
  ghost predicate Checks(b: Board, b': Board, ws: Id, x: Id, y: Id, meta: string, outcome: Outcome) {
    var lo, hi := if x <= y then x else y, if x <= y then y else x;
    && b'.seats == b.seats
    && (outcome.Checked? ==> b'.rows == b.rows && b'.pending == b.pending + [Request(ws, lo, hi, meta)])
    && (outcome.Revived? ==> b'.pending == b.pending && BringsBack(b.rows, b'.rows, ws, lo, hi))
    && (!outcome.Checked? && !outcome.Revived? ==> b' == b)
  }

  lemma CheckIsTold(b: Board, ws: Id, x: Id, y: Id, meta: string)
    requires Enabled(b, Check(ws, x, y, meta))
    ensures var outcome := CheckOutcome(b.rows, b.seats, ws, Lo(x, y), Hi(x, y));
            Answers(b, ws, x, y, outcome) && Checks(b, Next(b, Check(ws, x, y, meta)), ws, x, y, meta, outcome)
  {
    hide Connected, Live, Clashes;
    var lo, hi := Lo(x, y), Hi(x, y);
    var i := FirstPair(b.rows, ws, lo, hi);
    SymmetricPair(b.rows, ws, x, y);
    var outcome, b' := CheckOutcome(b.rows, b.seats, ws, lo, hi), Next(b, Check(ws, x, y, meta));
    if outcome.Revived? {
      assert SamePair(b.rows[i], ws, lo, hi) && b.rows[i].deleted;
      assert b'.rows == b.rows[i := Passage(ws, lo, hi, true, false, "dual", b.rows[i].meta)];
      assert BroughtBack(b.rows, b'.rows, i, ws, lo, hi);
    }
  }

  lemma SymmetricPair(t: Table, ws: Id, x: Id, y: Id)
    ensures KnownPair(t, ws, x, y) <==> FirstPair(t, ws, Lo(x, y), Hi(x, y)) < |t|
    ensures Connected(Live(t, ws), Lo(x, y), Hi(x, y)) <==> Connected(Live(t, ws), x, y)
  {
    hide Live;
    if Connected(Live(t, ws), Lo(x, y), Hi(x, y)) {
      ConnectedSym(Live(t, ws), Lo(x, y), Hi(x, y));
    }
    if Connected(Live(t, ws), x, y) {
      ConnectedSym(Live(t, ws), x, y);
    }
    if KnownPair(t, ws, x, y) {
      var k :| 0 <= k < |t| && SamePair(t[k], ws, x, y);
      assert SamePair(t[k], ws, Lo(x, y), Hi(x, y));
    }
  }

  // ---------------------------------------------------------------------------
  // The table and its operations
  // ---------------------------------------------------------------------------

  class PassageStore {
    var rows: Table
    var seats: set<Id>
    var pending: seq<Request>

    function View(): Board
      reads this
    {
      Board(rows, seats, pending)
    }

    constructor (rows: Table, seats: set<Id>)
      ensures View() == Board(rows, seats, [])
    {
      this.rows, this.seats, pending := rows, seats, [];
    }

    /** Breadth-first search from `dst`: true exactly when the seats differ and no chain
        of live passages joins them. */
    method CheckAcyclic(ws: Id, src: Id, dst: Id) returns (ok: bool)
      ensures ok <==> src != dst && !Connected(Live(rows, ws), src, dst)
    {
      if src == dst {
        return false;
      }
      ghost var g := Live(rows, ws);
      ghost var all := Seats(rows) + {dst};
      var visited, queue := {dst}, [dst];
      ConnectedRefl(g, dst);
      while queue != []
        invariant dst in visited && visited <= all && src !in visited
        invariant forall v :: v in queue ==> v in visited
        invariant forall v :: v in visited ==> Connected(g, dst, v)
        invariant Explored(g, visited, queue)
        decreases |all - visited|, |queue|
      {
        var current := queue[0];
        ghost var before, tail := visited, queue[1..];
        assert queue == [current] + tail;
        var hit;
        hit, visited, queue := VisitNeighbors(ws, src, current, visited, queue[1..]);
        NeighborsConnected(g, dst, current);
        if hit {
          ConnectedSym(g, dst, src);
          return false;
        }
        ExploredStep(g, before, current, tail, visited, queue);
        if visited != before {
          SmallerRest(all, before, visited);
        }
      }
      NotReached(g, visited, dst, src);
      return true;
    }

    /** The inner loop of the search: look at every live passage of one seat. */
    method VisitNeighbors(ws: Id, src: Id, current: Id, visited0: set<Id>, queue0: seq<Id>)
      returns (hit: bool, visited: set<Id>, queue: seq<Id>)
      requires src !in visited0
      ensures hit ==> Adjacent(Live(rows, ws), current, src)
      ensures visited0 <= visited <= visited0 + Seats(rows)
      ensures queue0 <= queue && (visited == visited0 ==> queue == queue0)
      ensures forall v :: v in queue ==> v in queue0 || v in visited
      ensures forall v :: v in visited && v !in visited0 ==> v in queue && Adjacent(Live(rows, ws), current, v)
      ensures !hit ==> src !in visited && forall v :: Adjacent(Live(rows, ws), current, v) ==> v in visited
    {
      hit, visited, queue := false, visited0, queue0;
      var found := Incident(rows, ws, current);
      IncidentRows(rows, ws, current);
      for k := 0 to |found|
        invariant visited0 <= visited <= visited0 + Seats(rows) && src !in visited
        invariant queue0 <= queue && (visited == visited0 ==> queue == queue0)
        invariant forall v :: v in queue ==> v in queue0 || v in visited
        invariant forall v :: v in visited && v !in visited0 ==> v in queue && exists p :: p in found && Other(p, current) == v
        invariant forall j :: 0 <= j < k ==> Other(found[j], current) in visited
      {
        var neighbor := Other(found[k], current);
        assert found[k] in found;
        if neighbor == src {
          hit := true;
          break;
        }
        if neighbor !in visited {
          visited := visited + {neighbor};
          queue := queue + [neighbor];
        }
      }
      forall v ensures Adjacent(Live(rows, ws), current, v) <==> exists p :: p in found && Other(p, current) == v {
        IncidentAdjacent(rows, ws, current, v);
      }
    }

    /** Marks every undeleted passage at one of the seats and counts them. */
    method SoftDeletePassagesTouching(ids: seq<Id>) returns (count: nat)
      modifies this`rows
      ensures rows == Cleaned(old(rows), ids) && SeatsCleared(old(rows), rows, ids)
      ensures count == |Touched(old(rows), ids, |rows|)|
    {
      count := 0;
      if ids == [] {
        assert Touched(rows, ids, |rows|) == {};
        assert rows == Cleaned(rows, ids);
        return;
      }
      var was := rows;
      for i := 0 to |was|
        invariant |rows| == |was|
        invariant forall k :: 0 <= k < i ==> rows[k] == CleanedRow(was[k], ids)
        invariant forall k :: i <= k < |was| ==> rows[k] == was[k]
        invariant count == |Touched(was, ids, i)|
      {
        OneMoreTouched(was, ids, i);
        if !rows[i].deleted && (rows[i].src in ids || rows[i].dst in ids) {
          rows := rows[i := rows[i].(deleted := true, active := false)];
          count := count + 1;
        }
      }
    }

    /** Creates a passage, up to its insert, or revives a deleted one for the same pair. */
    method CheckPassage(ws: Id, x: Id, y: Id, meta: string) returns (outcome: Outcome)
      requires Enabled(View(), Check(ws, x, y, meta))
      modifies this
      ensures outcome == old(CheckOutcome(rows, seats, ws, Lo(x, y), Hi(x, y)))
      ensures View() == Next(old(View()), Check(ws, x, y, meta))
      ensures Answers(old(View()), ws, x, y, outcome) && Checks(old(View()), View(), ws, x, y, meta, outcome)
    {
      CheckIsTold(View(), ws, x, y, meta);
      var a, b := Lo(x, y), Hi(x, y);
      if a !in seats || b !in seats {
        return SeatNotFound;
      }
      var i := FirstPair(rows, ws, a, b);
      if i < |rows| {
        if !rows[i].deleted {
          return Duplicate;
        }
        if Clashes(rows, i, ws, a, b) {
          return IndexViolation;
        }
        rows := rows[i := RevivedRow(rows[i], a, b)];
        return Revived;
      }
      var acyclic := CheckAcyclic(ws, a, b);
      if !acyclic {
        return WouldCycle;
      }
      pending := pending + [Request(ws, a, b, meta)];
      return Checked;
    }

    /** The insert, and the unique index it can fail on. */
    method InsertPassage(k: nat) returns (outcome: Outcome)
      requires k < |pending|
      modifies this
      ensures var r := old(pending[k]);
              outcome == if old(Clashes(rows, |rows|, r.ws, r.lo, r.hi)) then Duplicate else Created
      ensures View() == Next(old(View()), Commit(k))
      ensures seats == old(seats) && pending == old(pending[..k] + pending[k + 1..])
      ensures var r := old(pending[k]);
              rows == old(rows) + if outcome.Created? then [Passage(r.ws, r.lo, r.hi, true, false, "dual", r.meta)] else []
    {
      var r := pending[k];
      pending := pending[..k] + pending[k + 1..];
      if Clashes(rows, |rows|, r.ws, r.lo, r.hi) {
        return Duplicate;
      }
      rows := rows + [NewRow(r.ws, r.lo, r.hi, r.meta)];
      return Created;
    }

    method UpdatePassage(i: nat, active: Option<bool>, meta: Option<string>) returns (found: bool, ok: bool)
      modifies this
      ensures found == Enabled(old(View()), Patch(i, active, meta))
      ensures ok <==> found && !PatchRefused(old(View()), i, active)
      ensures View() == Next(old(View()), Patch(i, active, meta))
      ensures seats == old(seats) && pending == old(pending) && (!ok ==> rows == old(rows))
      ensures ok ==> |rows| == |old(rows)| && forall j :: 0 <= j < |rows| ==>
                rows[j] == if j == i then old(rows)[j].(active := if active.Some? then active.value else old(rows)[j].active,
                                                        meta := if meta.Some? then meta.value else old(rows)[j].meta)
                           else old(rows)[j]
    {
      if i >= |rows| || rows[i].deleted {
        return false, false;
      }
      if PatchRefused(View(), i, active) {
        return true, false;
      }
      rows := rows[i := PatchedRow(rows[i], active, meta)];
      return true, true;
    }

    method DeletePassage(i: nat) returns (found: bool)
      modifies this
      ensures found == Enabled(old(View()), Delete(i)) && View() == Next(old(View()), Delete(i))
      ensures seats == old(seats) && pending == old(pending) && (!found ==> rows == old(rows))
      ensures found ==> |rows| == |old(rows)| && forall j :: 0 <= j < |rows| ==>
                rows[j] == if j == i then old(rows)[j].(deleted := true) else old(rows)[j]
    {
      if i >= |rows| || rows[i].deleted {
        return false;
      }
      rows := rows[i := rows[i].(deleted := true)];
      return true;
    }

    /** A seat, or all the seats of one instance, and their passages. */
    method DeleteMembership(ids: seq<Id>) returns (found: bool)
      requires ids != [] && forall id :: id in ids ==> id in seats ==> !Locked(pending, id)
      modifies this
      ensures found == Enabled(old(View()), RemoveSeats(ids)) && View() == Next(old(View()), RemoveSeats(ids))
      ensures found <==> forall id :: id in ids ==> id in old(seats)
      ensures pending == old(pending) && (!found ==> seats == old(seats) && rows == old(rows))
      ensures found ==> SeatsCleared(old(rows), rows, ids)
      ensures found ==> (forall p :: p in rows && !p.deleted ==> p.src !in ids && p.dst !in ids)
      ensures found ==> forall id :: id in seats <==> id in old(seats) && id !in ids
    {
      if exists id :: id in ids && id !in seats {
        return false;
      }
      seats := seats - (set id | id in ids);
      var count := SoftDeletePassagesTouching(ids);
      return true;
    }

    /** Seats joined to `seat` by a live passage, each once. */
    method NeighborMembershipIds(ws: Id, seat: Id) returns (neighbors: seq<Id>)
      ensures forall v :: v in neighbors <==> Adjacent(Live(rows, ws), seat, v)
      ensures forall i, j :: 0 <= i < j < |neighbors| ==> neighbors[i] != neighbors[j]
    {
      neighbors := [];
      var found := Incident(rows, ws, seat);
      for k := 0 to |found|
        invariant forall j :: 0 <= j < k ==> Other(found[j], seat) in neighbors
        invariant forall v :: v in neighbors ==> exists j :: 0 <= j < k && Other(found[j], seat) == v
        invariant forall i, j :: 0 <= i < j < |neighbors| ==> neighbors[i] != neighbors[j]
      {
        var other := Other(found[k], seat);
        if other !in neighbors {
          neighbors := neighbors + [other];
        }
      }
      forall v ensures v in neighbors <==> Adjacent(Live(rows, ws), seat, v) {
        IncidentAdjacent(rows, ws, seat, v);
      }
    }
  }

  lemma SmallerRest(all: set<Id>, s: set<Id>, t: set<Id>)
    requires s <= t <= all && s != t
    ensures |all - t| < |all - s|
  {
    assert all - s == (all - t) + (t - s);
    assert t == s + (t - s);
    assert t - s != {};
  }

  /** Everything next to a visited seat is visited, unless that seat still waits. */
  ghost predicate Explored(g: Graph, visited: set<Id>, queue: seq<Id>) {
    forall v, x :: v in visited && v !in queue && Adjacent(g, v, x) ==> x in visited
  }

  lemma ExploredStep(g: Graph, before: set<Id>, current: Id, tail: seq<Id>, after: set<Id>, queue: seq<Id>)
    requires Explored(g, before, [current] + tail) && before <= after && tail <= queue
    requires forall v :: v in after && v !in before ==> v in queue
    requires forall v :: Adjacent(g, current, v) ==> v in after
    ensures Explored(g, after, queue)
  {
    forall v, x | v in after && v !in queue && Adjacent(g, v, x) ensures x in after {
      if v != current {
        assert v in before && v !in [current] + tail;
      }
    }
  }

  lemma NeighborsConnected(g: Graph, u: Id, v: Id)
    requires Connected(g, u, v)
    ensures forall x :: Adjacent(g, v, x) ==> Connected(g, u, x)
  {
    forall x | Adjacent(g, v, x) ensures Connected(g, u, x) {
      AdjacentConnected(g, v, x);
      ConnectedTrans(g, u, v, x);
    }
  }

  lemma NotReached(g: Graph, visited: set<Id>, u: Id, v: Id)
    requires u in visited && v !in visited
    requires Explored(g, visited, [])
    ensures !Connected(g, v, u)
  {
    if Connected(g, v, u) {
      ConnectedSym(g, v, u);
      var w :| Walk(g, u, w, v);
      ClosedUnderWalk(g, visited, u, w, v);
    }
  }

  lemma {:induction false} ClosedUnderWalk(g: Graph, visited: set<Id>, u: Id, w: seq<Id>, v: Id)
    requires u in visited && Walk(g, u, w, v)
    requires forall x, y :: x in visited && Adjacent(g, x, y) ==> y in visited
    ensures v in visited
    decreases |w|
  {
    if w != [] {
      ClosedUnderWalk(g, visited, w[0], w[1..], v);
    }
  }

  // ---------------------------------------------------------------------------
  // Forests over runs
  // ---------------------------------------------------------------------------

  /** Cleanup leaves no undeleted passage at the seats, keeps every other row, and
      keeps every workspace a forest. */
  lemma CleanupKeepsForests(t: Table, ids: seq<Id>)
    ensures AllForests(t) ==> AllForests(Cleaned(t, ids))
    ensures forall p :: p in Cleaned(t, ids) && !p.deleted ==> p in t && p.src !in ids && p.dst !in ids
    ensures forall i :: 0 <= i < |t| && t[i].src !in ids && t[i].dst !in ids ==> Cleaned(t, ids)[i] == t[i]
  {
    if AllForests(t) {
      forall ws ensures Forest(Live(Cleaned(t, ids), ws)) {
        SubgraphForest(Live(Cleaned(t, ids), ws), Live(t, ws));
      }
    }
  }

  lemma OneMoreEdge(t: Table, t': Table, i: nat, ws: Id, a: Id, b: Id)
    requires AllForests(t)
    requires i < |t'| && LiveIn(t'[i], ws) && Edge(t'[i].src, t'[i].dst) == Edge(a, b)
    requires |t| <= |t'| <= |t| + 1 && (|t'| > |t| ==> i == |t|)
    requires forall k :: 0 <= k < |t| && k != i ==> t'[k] == t[k]
    requires i < |t| ==> t[i].deleted || !t[i].active
    ensures AllForests(t') <==> !Connected(Live(t, ws), a, b)
  {
    var g := Live(t, ws);
    assert Live(t', ws) == g[i := Edge(a, b)];
    ForestExtension(g, i, Edge(a, b));
    forall w | w != ws ensures Live(t', w) == Live(t, w) {
    }
  }

  /** The guard is exact: inserting the row keeps forests exactly when the check says so. */
  lemma GuardIsExact(t: Table, ws: Id, a: Id, b: Id, p: Passage)
    requires AllForests(t) && LiveIn(p, ws) && Edge(p.src, p.dst) == Edge(a, b)
    ensures AllForests(t + [p]) <==> a != b && !Connected(Live(t, ws), a, b)
  {
    OneMoreEdge(t, t + [p], |t|, ws, a, b);
    ConnectedRefl(Live(t, ws), a);
  }

  datatype Joining = Joining(ws: Id, a: Id, b: Id)

  /** The seats an operation joins by a passage that was not live before. */
  ghost function Joined(b: Board, op: Op): Option<Joining> {
    if !Enabled(b, op) then None
    else match op
      case Check(ws, x, y, _) =>
        if CheckOutcome(b.rows, b.seats, ws, Lo(x, y), Hi(x, y)).Revived? then Some(Joining(ws, Lo(x, y), Hi(x, y))) else None
      case Commit(k) =>
        var r := b.pending[k];
        if Clashes(b.rows, |b.rows|, r.ws, r.lo, r.hi) then None else Some(Joining(r.ws, r.lo, r.hi))
      case Patch(i, active, _) =>
        var p := b.rows[i];
        if active == Some(true) && !p.active && !PatchRefused(b, i, active) then Some(Joining(p.ws, p.src, p.dst)) else None
      case _ => None
  }

  /** A passage becomes live between seats that are connected at that moment. */
  ghost predicate JoinsConnected(b: Board, op: Op) {
    var j := Joined(b, op);
    j.Some? && Connected(Live(b.rows, j.value.ws), j.value.a, j.value.b)
  }

  lemma FewerLive(t: Table, t': Table)
    requires AllForests(t) && |t'| == |t|
    requires forall i, ws :: 0 <= i < |t| && LiveIn(t'[i], ws) ==> LiveIn(t[i], ws) && t'[i].src == t[i].src && t'[i].dst == t[i].dst
    ensures AllForests(t')
  {
    forall ws ensures Forest(Live(t', ws)) {
      SubgraphForest(Live(t', ws), Live(t, ws));
    }
  }

  /** One operation keeps every workspace a forest exactly when it does not join connected
      seats. */
  lemma StepForest(b: Board, op: Op)
    requires AllForests(b.rows)
    ensures AllForests(Next(b, op).rows) <==> !JoinsConnected(b, op)
  {
    hide AllForests, Connected;
    var b' := Next(b, op);
    var j := Joined(b, op);
    if j.Some? {
      var i := match op
        case Check(_, _, _, _) => FirstPair(b.rows, j.value.ws, j.value.a, j.value.b)
        case Patch(i, _, _) => i
        case _ => |b.rows|;
      OneMoreEdge(b.rows, b'.rows, i, j.value.ws, j.value.a, j.value.b);
    } else {
      assert |b'.rows| == |b.rows|;
      FewerLive(b.rows, b'.rows);
    }
  }

  ghost predicate ForestThroughout(b: Board, ops: seq<Op>)
    decreases |ops|
  {
    AllForests(b.rows) && (ops != [] ==> ForestThroughout(Next(b, ops[0]), ops[1..]))
  }

  ghost predicate NeverJoinsConnected(b: Board, ops: seq<Op>)
    decreases |ops|
  {
    ops != [] ==> !JoinsConnected(b, ops[0]) && NeverJoinsConnected(Next(b, ops[0]), ops[1..])
  }

  /** Over every run from forests, with creations overlapping in any way: all workspaces are
      forests after every operation exactly when no insert, revival or reactivation joined
      seats that were connected at that moment. */
  lemma {:induction false} RunForest(b: Board, ops: seq<Op>)
    requires AllForests(b.rows)
    ensures ForestThroughout(b, ops) <==> NeverJoinsConnected(b, ops)
    decreases |ops|
  {
    hide JoinsConnected, AllForests;
    if ops != [] {
      StepForest(b, ops[0]);
      if AllForests(Next(b, ops[0]).rows) {
        RunForest(Next(b, ops[0]), ops[1..]);
      }
    }
  }

  // ---------------------------------------------------------------------------
  // What the check and the locks are good for
  // ---------------------------------------------------------------------------

  /** Each checked creation commits before anything else happens. */
  predicate OneAtATime(pending: seq<Request>, ops: seq<Op>) {
    && |pending| <= 1
    && (pending != [] && ops != [] ==> ops[0] == Commit(0))
    && forall i :: 0 <= i < |ops| - 1 && ops[i].Check? ==> ops[i + 1] == Commit(0)
  }

  /** The two branches that make a passage live without the check. */
  ghost predicate UncheckedJoin(b: Board, op: Op) {
    !op.Commit? && JoinsConnected(b, op)
  }

  ghost predicate NoUncheckedJoin(b: Board, ops: seq<Op>)
    decreases |ops|
  {
    ops != [] ==> !UncheckedJoin(b, ops[0]) && NoUncheckedJoin(Next(b, ops[0]), ops[1..])
  }

  /** Nobody has joined the seats of a creation since it was checked. */
  ghost predicate StillApart(b: Board) {
    forall k :: 0 <= k < |b.pending| ==> !Connected(Live(b.rows, b.pending[k].ws), b.pending[k].lo, b.pending[k].hi)
  }

  lemma CheckApart(b: Board, op: Op)
    requires op.Check? && b.pending == []
    ensures StillApart(Next(b, op)) && |Next(b, op).pending| <= 1
  {
    hide Connected, Live;
  }

  lemma CommitApart(b: Board)
    requires |b.pending| == 1 && StillApart(b)
    ensures !JoinsConnected(b, Commit(0)) && Next(b, Commit(0)).pending == []
  {
    hide Connected, Live;
  }

  /** When creations do not overlap with other requests, the check leaves only revivals and
      reactivations to close a cycle. */
  lemma {:induction false} RunForestOneAtATime(b: Board, ops: seq<Op>)
    requires AllForests(b.rows) && OneAtATime(b.pending, ops) && StillApart(b)
    ensures ForestThroughout(b, ops) <==> NoUncheckedJoin(b, ops)
    decreases |ops|
  {
    hide JoinsConnected, AllForests, StillApart;
    if ops != [] {
      var b' := Next(b, ops[0]);
      StepForest(b, ops[0]);
      if b.pending != [] {
        CommitApart(b);
        NothingPending(b');
      } else if ops[0].Check? {
        CheckApart(b, ops[0]);
      } else {
        assert b'.pending == [];
        NothingToCommit(b, ops[0]);
        NothingPending(b');
      }
      if AllForests(b'.rows) {
        Rest(b'.pending, ops);
        RunForestOneAtATime(b', ops[1..]);
      }
    }
  }

  lemma NothingPending(b: Board)
    requires b.pending == []
    ensures StillApart(b)
  {
  }

  lemma NothingToCommit(b: Board, op: Op)
    requires b.pending == []
    ensures op.Commit? ==> !JoinsConnected(b, op)
  {
  }

  lemma Rest(pending: seq<Request>, ops: seq<Op>)
    requires ops != [] && |pending| <= 1 && (pending != [] ==> ops[0].Check?)
    requires forall i :: 0 <= i < |ops| - 1 && ops[i].Check? ==> ops[i + 1] == Commit(0)
    ensures OneAtATime(pending, ops[1..])
  {
    forall i | 0 <= i < |ops[1..]| - 1 && ops[1..][i].Check? ensures ops[1..][i + 1] == Commit(0) {
      assert ops[i + 1].Check? ==> ops[i + 1 + 1] == Commit(0);
    }
  }

  /** What the locks keep: the seats of a creation are there, no two creations share one, and
      nobody has a row for its pair. */
  ghost predicate Guarded(b: Board) {
    && (forall k :: 0 <= k < |b.pending| ==> b.pending[k].lo in b.seats && b.pending[k].hi in b.seats && NoPair(b.rows, b.pending[k]))
    && (forall k, l :: 0 <= k < l < |b.pending| ==> Apart(b.pending[k], b.pending[l]))
  }

  predicate Apart(r: Request, q: Request) {
    r.lo != q.lo && r.lo != q.hi && r.hi != q.lo && r.hi != q.hi
  }

  predicate NoPair(t: Table, r: Request) {
    forall i :: 0 <= i < |t| ==> !SamePair(t[i], r.ws, r.lo, r.hi)
  }

  lemma CheckGuarded(b: Board, ws: Id, x: Id, y: Id, meta: string)
    requires Guarded(b) && Enabled(b, Check(ws, x, y, meta))
    ensures Guarded(Next(b, Check(ws, x, y, meta)))
  {
    hide Connected, Live, Clashes;
    var lo, hi := Lo(x, y), Hi(x, y);
    var b' := Next(b, Check(ws, x, y, meta));
    assert forall k :: 0 <= k < |b.pending| ==> Apart(b.pending[k], Request(ws, lo, hi, meta));
    if b'.pending == b.pending {
      forall k | 0 <= k < |b.pending| ensures NoPair(b'.rows, b.pending[k]) {
        assert NoPair(b.rows, b.pending[k]);
      }
    } else {
      assert NoPair(b.rows, Request(ws, lo, hi, meta));
    }
  }

  lemma CommitGuarded(b: Board, k: nat)
    requires Guarded(b) && k < |b.pending|
    ensures Guarded(Next(b, Commit(k))) && !Clashes(b.rows, |b.rows|, b.pending[k].ws, b.pending[k].lo, b.pending[k].hi)
  {
    var b', r := Next(b, Commit(k)), b.pending[k];
    assert NoPair(b.rows, r);
    forall j | 0 <= j < |b'.pending| ensures NoPair(b'.rows, b'.pending[j]) {
      var was := if j < k then j else j + 1;
      assert b'.pending[j] == b.pending[was];
      assert NoPair(b.rows, b.pending[was]);
      assert if was < k then Apart(b.pending[was], b.pending[k]) else Apart(b.pending[k], b.pending[was]);
    }
  }

  lemma SamePairs(t: Table, t': Table, r: Request)
    requires NoPair(t, r) && |t'| == |t|
    requires forall i :: 0 <= i < |t| ==> t'[i].ws == t[i].ws && t'[i].src == t[i].src && t'[i].dst == t[i].dst
    ensures NoPair(t', r)
  {
  }

  lemma StepGuarded(b: Board, op: Op)
    requires Guarded(b)
    ensures Guarded(Next(b, op))
    ensures op.Commit? && Enabled(b, op) ==> Joined(b, op).Some?
  {
    if Enabled(b, op) {
      match op {
        case Check(ws, x, y, meta) => CheckGuarded(b, ws, x, y, meta);
        case Commit(k) => CommitGuarded(b, k);
        case _ =>
          var b' := Next(b, op);
          forall k | 0 <= k < |b.pending| ensures b.pending[k].lo in b'.seats && b.pending[k].hi in b'.seats && NoPair(b'.rows, b.pending[k]) {
            assert Locked(b.pending, b.pending[k].lo) && Locked(b.pending, b.pending[k].hi);
            SamePairs(b.rows, b'.rows, b.pending[k]);
          }
      }
    }
  }

  ghost predicate EveryCommitInserts(b: Board, ops: seq<Op>)
    decreases |ops|
  {
    ops != [] ==> (ops[0].Commit? && Enabled(b, ops[0]) ==> Joined(b, ops[0]).Some?) && EveryCommitInserts(Next(b, ops[0]), ops[1..])
  }

  /** Over every run, the row locks make the unique index superfluous for a checked creation:
      its insert never answers that the passage exists, and its seats stay. */
  lemma {:induction false} RunGuarded(b: Board, ops: seq<Op>)
    requires Guarded(b)
    ensures Guarded(Run(b, ops)) && EveryCommitInserts(b, ops)
    decreases |ops|
  {
    if ops != [] {
      StepGuarded(b, ops[0]);
      RunGuarded(Next(b, ops[0]), ops[1..]);
    }
  }

  /** Both ends of every undeleted row are seats that are there. */
  predicate Seated(b: Board) {
    forall p :: p in b.rows && !p.deleted ==> p.src in b.seats && p.dst in b.seats
  }

  lemma RowsSeated(b: Board, b': Board, i: nat)
    requires Seated(b) && b.seats <= b'.seats && |b.rows| <= |b'.rows|
    requires forall k :: 0 <= k < |b'.rows| && k != i ==> k < |b.rows| && b'.rows[k] == b.rows[k]
    requires i < |b'.rows| && !b'.rows[i].deleted ==> b'.rows[i].src in b'.seats && b'.rows[i].dst in b'.seats
    ensures Seated(b')
  {
    forall p | p in b'.rows && !p.deleted ensures p.src in b'.seats && p.dst in b'.seats {
      var k :| 0 <= k < |b'.rows| && b'.rows[k] == p;
      if k != i {
        assert b.rows[k] in b.rows;
      }
    }
  }

  lemma StepSeated(b: Board, op: Op)
    requires Guarded(b) && Seated(b)
    ensures Seated(Next(b, op))
  {
    hide Connected, Live, Clashes, Guarded;
    if Enabled(b, op) {
      match op {
        case Check(ws, x, y, _) => RowsSeated(b, Next(b, op), FirstPair(b.rows, ws, Lo(x, y), Hi(x, y)));
        case Commit(k) =>
          assert b.pending[k].lo in b.seats && b.pending[k].hi in b.seats by { PendingSeated(b, k); }
          RowsSeated(b, Next(b, op), |b.rows|);
        case Delete(i) => RowsSeated(b, Next(b, op), i);
        case Patch(i, _, _) =>
          assert b.rows[i] in b.rows;
          RowsSeated(b, Next(b, op), i);
        case AddSeat(_) =>
        case RemoveSeats(ids) => CleanupKeepsForests(b.rows, ids);
      }
    }
  }

  lemma PendingSeated(b: Board, k: nat)
    requires Guarded(b) && k < |b.pending|
    ensures b.pending[k].lo in b.seats && b.pending[k].hi in b.seats
  {
  }

  /** Over every run, deleting seats leaves no passage behind: the ends of every undeleted row
      are seats that are there. */
  lemma {:induction false} RunSeated(b: Board, ops: seq<Op>)
    requires Guarded(b) && Seated(b)
    ensures Seated(Run(b, ops))
    decreases |ops|
  {
    hide Next, Guarded, Seated;
    if ops != [] {
      StepGuarded(b, ops[0]);
      StepSeated(b, ops[0]);
      RunSeated(Next(b, ops[0]), ops[1..]);
    }
  }

  // ---------------------------------------------------------------------------
  // Three ways to a cycle
  // ---------------------------------------------------------------------------

  lemma {:induction false} RunSplit(b: Board, first: seq<Op>, rest: seq<Op>)
    ensures Run(b, first + rest) == Run(Run(b, first), rest)
    decreases |first|
  {
    hide Next;
    if first == [] {
      assert first + rest == rest;
    } else {
      RunSplit(Next(b, first[0]), first[1..], rest);
      assert (first + rest)[1..] == first[1..] + rest;
    }
  }

  /** A creation nobody comes between. */
  function Join(a: Id, b: Id): seq<Op> {
    [Check(7, a, b, ""), Commit(0)]
  }

  lemma OneStep(b: Board, op: Op)
    ensures Run(b, [op]) == Next(b, op)
  {
    assert [op][1..] == [] && Run(Next(b, op), []) == Next(b, op);
  }

  /** A creation passes the check when one of its seats has no live passage. */
  lemma Passes(b: Board, lo: Id, hi: Id, lone: Id)
    requires lo < hi && lo in b.seats && hi in b.seats && (lone == lo || lone == hi)
    requires !Locked(b.pending, lo) && !Locked(b.pending, hi)
    requires forall p :: p in b.rows ==> !SamePair(p, 7, lo, hi) && !(LiveIn(p, 7) && Touches(p, lone))
    ensures Next(b, Check(7, lo, hi, "")) == b.(pending := b.pending + [Request(7, lo, hi, "")])
  {
    LoneUnconnected(b.rows, 7, lone, if lone == lo then hi else lo);
    if Connected(Live(b.rows, 7), lo, hi) {
      ConnectedSym(Live(b.rows, 7), lo, hi);
    }
  }

  lemma JoinRun(b: Board, lo: Id, hi: Id, lone: Id)
    requires lo < hi && lo in b.seats && hi in b.seats && (lone == lo || lone == hi) && b.pending == []
    requires forall p :: p in b.rows ==> !SamePair(p, 7, lo, hi) && !(LiveIn(p, 7) && Touches(p, lone))
    ensures Run(b, Join(lo, hi)) == b.(rows := b.rows + [NewRow(7, lo, hi, "")])
  {
    Passes(b, lo, hi, lone);
    var checked := Next(b, Check(7, lo, hi, ""));
    assert checked.pending == [Request(7, lo, hi, "")];
    OneStep(b, Check(7, lo, hi, ""));
    OneStep(checked, Commit(0));
    RunSplit(b, [Check(7, lo, hi, "")], [Commit(0)]);
    assert Join(lo, hi) == [Check(7, lo, hi, "")] + [Commit(0)];
    forall j | 0 <= j < |b.rows| ensures !SamePair(b.rows[j], 7, lo, hi) {
      assert b.rows[j] in b.rows;
    }
    assert !Clashes(b.rows, |b.rows|, 7, lo, hi);
    assert checked.pending[..0] + checked.pending[1..] == [];
  }

  lemma LoneUnconnected(t: Table, ws: Id, lone: Id, other: Id)
    requires lone != other && forall p :: p in t ==> !(LiveIn(p, ws) && Touches(p, lone))
    ensures !Connected(Live(t, ws), lone, other)
  {
    var g := Live(t, ws);
    forall w ensures !Walk(g, lone, w, other) {
      forall i | i in g ensures w != [] ==> !Joins(g[i], lone, w[0]) {
        assert t[i] in t;
      }
    }
  }

  /** Row i closes a cycle with rows j and k. */
  lemma Triangle(t: Table, i: nat, j: nat, k: nat)
    requires i < |t| && j < |t| && k < |t| && i != j && i != k
    requires LiveIn(t[i], 7) && LiveIn(t[j], 7) && LiveIn(t[k], 7)
    requires Joins(Edge(t[j].src, t[j].dst), t[i].src, 3) && Joins(Edge(t[k].src, t[k].dst), 3, t[i].dst)
    ensures !AllForests(t)
  {
    var g := Live(t, 7);
    var h := g - {i};
    assert Joins(h[j], t[i].src, 3) && Joins(h[k], 3, t[i].dst);
    AdjacentConnected(h, t[i].src, 3);
    AdjacentConnected(h, 3, t[i].dst);
    ConnectedTrans(h, t[i].src, 3, t[i].dst);
    assert !Forest(g);
  }

  /** Join 1 and 2, delete that passage, join 1-3 and 2-3, and ask for 1-2 again: the deleted
      row is revived and closes a cycle. */
  lemma RevivalCanCloseACycle()
    ensures !AllForests(Run(Board([], {1, 2, 3}, []), Join(1, 2) + [Delete(0)] + Join(1, 3) + Join(2, 3) + [Check(7, 1, 2, "")]).rows)
  {
    hide Run, Join;
    var start := Board([], {1, 2, 3}, []);
    var gone := NewRow(7, 1, 2, "").(deleted := true);
    JoinRun(start, 1, 2, 1);
    var b1 := start.(rows := [NewRow(7, 1, 2, "")]);
    assert [] + [NewRow(7, 1, 2, "")] == [NewRow(7, 1, 2, "")];
    OneStep(b1, Delete(0));
    var b2 := start.(rows := [gone]);
    assert Next(b1, Delete(0)) == b2;
    OtherTwo(gone);
    var b4 := start.(rows := [gone, NewRow(7, 1, 3, ""), NewRow(7, 2, 3, "")]);
    OneStep(b4, Check(7, 1, 2, ""));
    RunSplit(start, Join(1, 2), [Delete(0)]);
    RunSplit(start, Join(1, 2) + [Delete(0)], Join(1, 3));
    RunSplit(start, Join(1, 2) + [Delete(0)] + Join(1, 3), Join(2, 3));
    RunSplit(start, Join(1, 2) + [Delete(0)] + Join(1, 3) + Join(2, 3), [Check(7, 1, 2, "")]);
    RevivalLast(b4);
  }

  /** Seats 1-3 and 2-3 are joined next to a row that is not live. */
  lemma OtherTwo(gone: Passage)
    requires gone.ws == 7 && gone.src == 1 && gone.dst == 2 && (gone.deleted || !gone.active)
    ensures var b2 := Board([gone], {1, 2, 3}, []);
            Run(Run(b2, Join(1, 3)), Join(2, 3)) == b2.(rows := [gone, NewRow(7, 1, 3, ""), NewRow(7, 2, 3, "")])
  {
    hide Run, Join;
    var b2 := Board([gone], {1, 2, 3}, []);
    JoinRun(b2, 1, 3, 1);
    var b3 := b2.(rows := [gone] + [NewRow(7, 1, 3, "")]);
    JoinRun(b3, 2, 3, 2);
    assert b3.rows + [NewRow(7, 2, 3, "")] == [gone, NewRow(7, 1, 3, ""), NewRow(7, 2, 3, "")];
  }

  lemma RevivalLast(b: Board)
    requires b == Board([NewRow(7, 1, 2, "").(deleted := true), NewRow(7, 1, 3, ""), NewRow(7, 2, 3, "")], {1, 2, 3}, [])
    ensures !AllForests(Next(b, Check(7, 1, 2, "")).rows)
  {
    assert FirstPair(b.rows, 7, 1, 2) == 0;
    assert !Clashes(b.rows, 0, 7, 1, 2);
    Triangle(Next(b, Check(7, 1, 2, "")).rows, 0, 1, 2);
  }

  /** Join 1 and 2, set that passage inactive, join 1-3 and 2-3, and set it active again. */
  lemma ReactivationCanCloseACycle()
    ensures !AllForests(Run(Board([], {1, 2, 3}, []),
              Join(1, 2) + [Patch(0, Some(false), None)] + Join(1, 3) + Join(2, 3) + [Patch(0, Some(true), None)]).rows)
  {
    hide Run, Join;
    var start, off, on := Board([], {1, 2, 3}, []), Patch(0, Some(false), None), Patch(0, Some(true), None);
    var gone := NewRow(7, 1, 2, "").(active := false);
    JoinRun(start, 1, 2, 1);
    var b1 := start.(rows := [NewRow(7, 1, 2, "")]);
    assert [] + [NewRow(7, 1, 2, "")] == [NewRow(7, 1, 2, "")];
    OneStep(b1, off);
    var b2 := start.(rows := [gone]);
    assert Next(b1, off) == b2;
    OtherTwo(gone);
    var b4 := start.(rows := [gone, NewRow(7, 1, 3, ""), NewRow(7, 2, 3, "")]);
    OneStep(b4, on);
    RunSplit(start, Join(1, 2), [off]);
    RunSplit(start, Join(1, 2) + [off], Join(1, 3));
    RunSplit(start, Join(1, 2) + [off] + Join(1, 3), Join(2, 3));
    RunSplit(start, Join(1, 2) + [off] + Join(1, 3) + Join(2, 3), [on]);
    assert !Clashes(b4.rows, 0, 7, 1, 2);
    Triangle(Next(b4, on).rows, 0, 1, 2);
  }

  /** With 1-2 and 3-4 joined, creations of 1-3 and 2-4 that overlap lock different seats,
      both pass the check, and both commit. */
  lemma OverlapCanCloseACycle()
    ensures !AllForests(Run(Board([], {1, 2, 3, 4}, []),
              Join(1, 2) + Join(3, 4) + [Check(7, 1, 3, "")] + [Check(7, 2, 4, "")] + [Commit(0)] + [Commit(0)]).rows)
  {
    hide Run, Join;
    var start := Board([], {1, 2, 3, 4}, []);
    JoinRun(start, 1, 2, 1);
    var b1 := start.(rows := [NewRow(7, 1, 2, "")]);
    assert [] + [NewRow(7, 1, 2, "")] == [NewRow(7, 1, 2, "")];
    JoinRun(b1, 3, 4, 3);
    var b2 := start.(rows := [NewRow(7, 1, 2, ""), NewRow(7, 3, 4, "")]);
    assert b1.rows + [NewRow(7, 3, 4, "")] == b2.rows;
    BothPass(b2);
    OneStep(b2, Check(7, 1, 3, ""));
    OneStep(Next(b2, Check(7, 1, 3, "")), Check(7, 2, 4, ""));
    var b4 := b2.(pending := [Request(7, 1, 3, ""), Request(7, 2, 4, "")]);
    OneStep(b4, Commit(0));
    OneStep(Next(b4, Commit(0)), Commit(0));
    RunSplit(start, Join(1, 2), Join(3, 4));
    RunSplit(start, Join(1, 2) + Join(3, 4), [Check(7, 1, 3, "")]);
    RunSplit(start, Join(1, 2) + Join(3, 4) + [Check(7, 1, 3, "")], [Check(7, 2, 4, "")]);
    RunSplit(start, Join(1, 2) + Join(3, 4) + [Check(7, 1, 3, "")] + [Check(7, 2, 4, "")], [Commit(0)]);
    RunSplit(start, Join(1, 2) + Join(3, 4) + [Check(7, 1, 3, "")] + [Check(7, 2, 4, "")] + [Commit(0)], [Commit(0)]);
    BothCommit(b4);
  }

  /** The locks are on different seats, and 1 is joined to 2 alone, as 3 is to 4. */
  lemma BothPass(b: Board)
    requires b == Board([NewRow(7, 1, 2, ""), NewRow(7, 3, 4, "")], {1, 2, 3, 4}, [])
    ensures Next(Next(b, Check(7, 1, 3, "")), Check(7, 2, 4, "")) == b.(pending := [Request(7, 1, 3, ""), Request(7, 2, 4, "")])
  {
    Separate(b.rows, 1, 3);
    var b1 := b.(pending := [Request(7, 1, 3, "")]);
    assert Next(b, Check(7, 1, 3, "")) == b1;
    Separate(b.rows, 2, 4);
    assert b1.pending + [Request(7, 2, 4, "")] == [Request(7, 1, 3, ""), Request(7, 2, 4, "")];
    assert !Locked(b1.pending, 2) && !Locked(b1.pending, 4);
  }

  lemma Separate(t: Table, lo: Id, hi: Id)
    requires t == [NewRow(7, 1, 2, ""), NewRow(7, 3, 4, "")] && (lo == 1 || lo == 2) && (hi == 3 || hi == 4)
    ensures !Connected(Live(t, 7), lo, hi)
  {
    var g := Live(t, 7);
    if Connected(g, lo, hi) {
      var w :| Walk(g, lo, w, hi);
      ClosedUnderWalk(g, {1, 2}, lo, w, hi);
    }
  }

  lemma NoClash(t: Table, i: nat, ws: Id, a: Id, b: Id)
    requires forall j :: 0 <= j < |t| ==> !(t[j].src == a && t[j].dst == b)
    ensures !Clashes(t, i, ws, a, b)
  {
  }

  lemma BothCommit(b: Board)
    requires b == Board([NewRow(7, 1, 2, ""), NewRow(7, 3, 4, "")], {1, 2, 3, 4}, [Request(7, 1, 3, ""), Request(7, 2, 4, "")])
    ensures !AllForests(Next(Next(b, Commit(0)), Commit(0)).rows)
  {
    hide AllForests, Live, CheckOutcome, Cleaned, Clashes, FirstPair;
    NoClash(b.rows, 2, 7, 1, 3);
    var b1 := Next(b, Commit(0));
    assert b1.rows == [NewRow(7, 1, 2, ""), NewRow(7, 3, 4, ""), NewRow(7, 1, 3, "")];
    assert b1.pending == [Request(7, 2, 4, "")];
    NoClash(b1.rows, 3, 7, 2, 4);
    FourCycle(Next(b1, Commit(0)).rows);
  }

  lemma FourCycle(t: Table)
    requires t == [NewRow(7, 1, 2, ""), NewRow(7, 3, 4, ""), NewRow(7, 1, 3, ""), NewRow(7, 2, 4, "")]
    ensures !AllForests(t)
  {
    hide Connected;
    var h := Live(t, 7) - {0};
    assert Joins(h[2], 1, 3) && Joins(h[1], 3, 4) && Joins(h[3], 4, 2);
    AdjacentConnected(h, 1, 3);
    AdjacentConnected(h, 3, 4);
    AdjacentConnected(h, 4, 2);
    ConnectedTrans(h, 1, 3, 4);
    ConnectedTrans(h, 1, 4, 2);
    assert !Forest(Live(t, 7));
  }
}

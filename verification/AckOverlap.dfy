/** Acknowledgements of injects that overlap: the rows are read without a lock, and written by
    their keys, with their applied events, when the request commits. */
module AckOverlap {
  import opened Prelude
  import Q = InjectQueue

  /** An acknowledgement that has read its rows and has not committed: those it found delivered. */
  datatype OpenAck = OpenAck(hits: seq<nat>, now: int)

  datatype Service = Service(queue: Q.Queue, open: seq<OpenAck>)

  datatype Move =
    | Act(action: Q.Action)
    | Read(asked: set<nat>, now: int)
    | Commit(k: nat)

  /** The rows asked for that are found delivered, among the first n. */
  function Hits(rows: seq<Q.Row>, asked: set<nat>, n: nat): (r: seq<nat>)
    requires n <= |rows|
    ensures forall i :: i in r <==> 0 <= i < n && i in asked && !rows[i].deleted && rows[i].status == Q.Delivered
  {
    if n == 0 then []
    else
      var before := Hits(rows, asked, n - 1);
      if n - 1 in asked && !rows[n - 1].deleted && rows[n - 1].status == Q.Delivered then before + [n - 1] else before
  }

  /** The applied events of the rows that are no notifications. */
  function Applications(rows: seq<Q.Row>, hits: seq<nat>): seq<Q.Event> {
    if hits == [] then []
    else
      var i := hits[|hits| - 1];
      Applications(rows, hits[..|hits| - 1]) + if i < |rows| && rows[i].mode != Q.Notify then [Q.Applied(i)] else []
  }

  /** The write looks at no status: the rows may have been acknowledged or failed since. */
  function Committed(q: Q.Queue, hits: seq<nat>, now: int): Q.Queue {
    q.(rows := seq(|q.rows|, i requires 0 <= i < |q.rows| =>
         if i in hits then q.rows[i].(status := Q.Acked, ackedAt := Some(now), updated := now) else q.rows[i]),
       events := q.events + Applications(q.rows, hits))
  }

  function Next(s: Service, m: Move): Service {
    match m
    case Act(a) => if a.Ack? then s else s.(queue := Q.Step(s.queue, a))
    case Read(asked, now) => s.(open := s.open + [OpenAck(Hits(s.queue.rows, asked, |s.queue.rows|), now)])
    case Commit(k) =>
      if k >= |s.open| then s
      else Service(Committed(s.queue, s.open[k].hits, s.open[k].now), s.open[..k] + s.open[k + 1..])
  }

  function Run(s: Service, moves: seq<Move>): Service
    decreases |moves|
  {
    if moves == [] then s else Run(Next(s, moves[0]), moves[1..])
  }

  /** No row that gets an applied event is in both lists. */
  predicate Disjoint(rows: seq<Q.Row>, a: seq<nat>, b: seq<nat>) {
    forall i :: i in a && i in b ==> i < |rows| && rows[i].mode == Q.Notify
  }

  /** What an acknowledgement finds is in none that is still open. */
  predicate Apart(s: Service, m: Move) {
    m.Read? ==> forall k :: 0 <= k < |s.open| ==>
      Disjoint(s.queue.rows, Hits(s.queue.rows, m.asked, |s.queue.rows|), s.open[k].hits)
  }

  predicate AllApart(s: Service, moves: seq<Move>)
    decreases |moves|
  {
    moves != [] ==> Apart(s, moves[0]) && AllApart(Next(s, moves[0]), moves[1..])
  }

  /** How many applied events a row has: none while it waits or is only delivered. */
  predicate Settled(q: Q.Queue, i: nat)
    requires i < |q.rows|
  {
    && Q.AppliedCount(q.events, i) <= 1
    && (q.rows[i].status in {Q.Pending, Q.Delivered} ==> Q.AppliedCount(q.events, i) == 0)
  }

  predicate OpenWell(q: Q.Queue, hits: seq<nat>) {
    && Q.NoRepeats(hits)
    && forall i :: i in hits ==> i < |q.rows| && q.rows[i].status != Q.Pending && (q.rows[i].mode != Q.Notify ==> Q.AppliedCount(q.events, i) == 0)
  }

  /** No row has two applied events, and no two open acknowledgements will give it two. */
  predicate Inv(s: Service) {
    && (forall i :: 0 <= i < |s.queue.rows| ==> Settled(s.queue, i))
    && (forall k :: 0 <= k < |s.queue.events| ==> s.queue.events[k].row < |s.queue.rows|)
    && (forall k :: 0 <= k < |s.open| ==> OpenWell(s.queue, s.open[k].hits))
    && (forall k, l :: 0 <= k < l < |s.open| ==> Disjoint(s.queue.rows, s.open[k].hits, s.open[l].hits))
  }

  predicate Once(s: Service) {
    forall i :: 0 <= i < |s.queue.rows| ==> Q.AppliedCount(s.queue.events, i) <= 1
  }

  /** However things go on, if no further acknowledgement finds rows of an open one. */
  ghost predicate EveryRunOnce(s: Service) {
    forall moves :: AllApart(s, moves) ==> Once(Run(s, moves))
  }

  lemma {:induction false} HitsDistinct(rows: seq<Q.Row>, asked: set<nat>, n: nat)
    requires n <= |rows|
    ensures Q.NoRepeats(Hits(rows, asked, n))
  {
    if n > 0 {
      HitsDistinct(rows, asked, n - 1);
      assert n - 1 !in Hits(rows, asked, n - 1);
    }
  }

  lemma {:induction false} CountJoined(a: seq<Q.Event>, b: seq<Q.Event>, i: nat)
    ensures Q.AppliedCount(a + b, i) == Q.AppliedCount(a, i) + Q.AppliedCount(b, i)
  {
    hide Q.AppliedCount;
    if b == [] {
      NoneCounted(i);
      assert a + b == a;
    } else {
      var n := |b| - 1;
      CountJoined(a, b[..n], i);
      Q.AppliedAppend(a + b[..n], b[n], i);
      Q.AppliedAppend(b[..n], b[n], i);
      assert a + b[..n] + [b[n]] == a + b && b[..n] + [b[n]] == b;
    }
  }

  lemma NoneCounted(i: nat)
    ensures Q.AppliedCount([], i) == 0
  {
  }

  /** Each hit that is no notification gets one event, and no other row any. */
  lemma {:induction false} ApplicationsCounted(rows: seq<Q.Row>, hits: seq<nat>, i: nat)
    requires Q.NoRepeats(hits)
    ensures Q.AppliedCount(Applications(rows, hits), i) == if i in hits && i < |rows| && rows[i].mode != Q.Notify then 1 else 0
    ensures forall k :: 0 <= k < |Applications(rows, hits)| ==> Applications(rows, hits)[k].row < |rows|
  {
    hide Q.AppliedCount;
    if hits == [] {
      NoneCounted(i);
    } else {
      var n := |hits| - 1;
      var before, last := hits[..n], hits[n];
      ApplicationsCounted(rows, before, i);
      assert i in hits <==> i in before || i == last;
      Q.AppliedAppend(Applications(rows, before), Q.Applied(last), i);
      assert Applications(rows, before) + [] == Applications(rows, before);
    }
  }

  /** A commit adds one applied event to each of its rows. */
  lemma CommitCounts(q: Q.Queue, hits: seq<nat>, now: int, i: nat)
    requires Q.NoRepeats(hits)
    ensures Q.AppliedCount(Committed(q, hits, now).events, i)
            == Q.AppliedCount(q.events, i) + if i in hits && i < |q.rows| && q.rows[i].mode != Q.Notify then 1 else 0
  {
    hide Q.AppliedCount, Q.NoRepeats;
    ApplicationsCounted(q.rows, hits, i);
    CountJoined(q.events, Applications(q.rows, hits), i);
  }

  lemma CommitInv(s: Service, k: nat)
    requires Inv(s) && k < |s.open|
    ensures Inv(Next(s, Commit(k)))
  {
    hide Q.NoRepeats, Q.AppliedCount, Applications;
    var s', hits := Next(s, Commit(k)), s.open[k].hits;
    assert OpenWell(s.queue, hits);
    forall i | 0 <= i < |s'.queue.rows| ensures Settled(s'.queue, i) {
      assert Settled(s.queue, i);
      CommitCounts(s.queue, hits, s.open[k].now, i);
    }
    ApplicationsCounted(s.queue.rows, hits, 0);
    forall j | 0 <= j < |s'.open| ensures OpenWell(s'.queue, s'.open[j].hits) {
      OthersWell(s, k, j);
    }
    forall j, l | 0 <= j < l < |s'.open| ensures Disjoint(s'.queue.rows, s'.open[j].hits, s'.open[l].hits) {
      assert s'.open[j] == s.open[if j < k then j else j + 1] && s'.open[l] == s.open[if l < k then l else l + 1];
    }
  }

  lemma OthersWell(s: Service, k: nat, j: nat)
    requires Inv(s) && k < |s.open| && j < |s.open| - 1
    ensures OpenWell(Next(s, Commit(k)).queue, Next(s, Commit(k)).open[j].hits)
  {
    hide Q.NoRepeats, Q.AppliedCount, Applications;
    var was := if j < k then j else j + 1;
    var q', hits, other := Next(s, Commit(k)).queue, s.open[k].hits, s.open[was].hits;
    assert Next(s, Commit(k)).open[j] == s.open[was];
    assert OpenWell(s.queue, other) && OpenWell(s.queue, hits);
    assert if was < k then Disjoint(s.queue.rows, other, hits) else Disjoint(s.queue.rows, hits, other);
    forall i | i in other ensures i < |q'.rows| && q'.rows[i].status != Q.Pending && (q'.rows[i].mode != Q.Notify ==> Q.AppliedCount(q'.events, i) == 0) {
      CommitCounts(s.queue, hits, s.open[k].now, i);
    }
  }

  lemma ReadInv(s: Service, asked: set<nat>, now: int)
    requires Inv(s) && Apart(s, Read(asked, now))
    ensures Inv(Next(s, Read(asked, now)))
  {
    hide Q.NoRepeats, Q.AppliedCount;
    var hits := Hits(s.queue.rows, asked, |s.queue.rows|);
    HitsDistinct(s.queue.rows, asked, |s.queue.rows|);
    forall i | i in hits ensures Q.AppliedCount(s.queue.events, i) == 0 {
      assert Settled(s.queue, i);
    }
    assert OpenWell(s.queue, hits);
    forall k | 0 <= k < |s.open| ensures Disjoint(s.queue.rows, s.open[k].hits, hits) {
      assert Disjoint(s.queue.rows, hits, s.open[k].hits);
    }
  }

  /** Operations that acknowledge nothing: they keep modes and applied events, and a row that
      comes to be delivered was waiting. */
  lemma ActKeeps(q: Q.Queue, a: Q.Action, i: nat)
    requires !a.Ack? && i < |q.rows|
    ensures var r := Q.Step(q, a);
      && |q.rows| <= |r.rows| && r.rows[i].mode == q.rows[i].mode
      && Q.AppliedCount(r.events, i) == Q.AppliedCount(q.events, i)
      && (r.rows[i].status == Q.Pending ==> q.rows[i].status == Q.Pending)
      && (r.rows[i].status == Q.Delivered ==> q.rows[i].status in {Q.Pending, Q.Delivered})
  {
    hide Q.AppliedCount, Q.PickedAll, Q.Enqueued;
    Q.StepMoves(q, a);
    assert Q.Moves(a, i, q.rows[i].status, Q.Step(q, a).rows[i].status);
    match a {
      case Enqueue(instance, kind, mode, id, _, _, now) =>
        Q.EnqueueApplied(q, Q.NewRow(instance, kind, mode, id, now), i);
        EnqueueKeeps(q, Q.NewRow(instance, kind, mode, id, now), i);
      case Poll(instance, limit, now) => PollKeeps(q.(rows := Q.ExpiredRows(q.rows, Some(instance), now)), instance, now, limit);
      case Fail(row, message, _) => Q.AppliedAppend(q.events, Q.FailureNoted(row, message), i);
      case _ =>
    }
  }

  lemma EnqueueKeeps(q: Q.Queue, r: Q.Row, i: nat)
    requires i < |q.rows|
    ensures |Q.Enqueued(q, r).rows| == |q.rows| + 1 && Q.Enqueued(q, r).rows[i] == q.rows[i]
  {
  }

  lemma {:induction false} PollKeeps(q: Q.Queue, instance: string, now: int, limit: nat)
    ensures var r := Q.PickedAll(q, instance, now, limit);
      |r.rows| == |q.rows| && r.events == q.events && forall i :: 0 <= i < |q.rows| ==> r.rows[i].mode == q.rows[i].mode
    decreases limit
  {
    hide Q.Oldest;
    var i := Q.Oldest(q.rows, instance, now, |q.rows|);
    if limit > 0 && i.Some? {
      PollKeeps(Q.Picked(q, i.value, now), instance, now, limit - 1);
    }
  }

  /** New rows wait and have no events, and no event is about a row that is not there. */
  lemma ActAdds(q: Q.Queue, a: Q.Action)
    requires !a.Ack? && forall k :: 0 <= k < |q.events| ==> q.events[k].row < |q.rows|
    ensures var r := Q.Step(q, a);
      && |q.rows| <= |r.rows|
      && (forall k :: 0 <= k < |r.events| ==> r.events[k].row < |r.rows|)
      && forall i :: |q.rows| <= i < |r.rows| ==> Settled(r, i)
  {
    hide Q.AppliedCount, Q.PickedAll;
    Q.StepMoves(q, a);
    match a {
      case Enqueue(instance, kind, mode, id, tldr, prose, now) =>
        Q.EnqueueApplied(q, Q.NewRow(instance, kind, mode, id, now), |q.rows|);
        Q.NoneApplied(q.events, |q.rows|);
      case Poll(instance, limit, now) => PollKeeps(q.(rows := Q.ExpiredRows(q.rows, Some(instance), now)), instance, now, limit);
      case _ =>
    }
  }

  lemma ActInv(s: Service, a: Q.Action)
    requires Inv(s) && !a.Ack?
    ensures Inv(s.(queue := Q.Step(s.queue, a)))
  {
    hide Q.NoRepeats, Q.AppliedCount, Q.Step;
    var q, q' := s.queue, Q.Step(s.queue, a);
    ActAdds(q, a);
    forall i | 0 <= i < |q.rows|
      ensures Settled(q', i) && q'.rows[i].mode == q.rows[i].mode && Q.AppliedCount(q'.events, i) == Q.AppliedCount(q.events, i)
              && (q'.rows[i].status == Q.Pending ==> q.rows[i].status == Q.Pending)
    {
      assert Settled(q, i);
      ActKeeps(q, a, i);
    }
    forall k | 0 <= k < |s.open| ensures OpenWell(q', s.open[k].hits) {
      assert OpenWell(q, s.open[k].hits);
    }
    forall k, l | 0 <= k < l < |s.open| ensures Disjoint(q'.rows, s.open[k].hits, s.open[l].hits) {
      assert Disjoint(q.rows, s.open[k].hits, s.open[l].hits);
    }
  }

  lemma StepInv(s: Service, m: Move)
    requires Inv(s) && Apart(s, m)
    ensures Inv(Next(s, m))
  {
    hide Inv, Q.Step;
    match m {
      case Act(a) => if !a.Ack? { ActInv(s, a); }
      case Read(asked, now) => ReadInv(s, asked, now);
      case Commit(k) => if k < |s.open| { CommitInv(s, k); }
    }
  }

  /** Whatever comes between the reading and the commit of an acknowledgement, each row gets at
      most one applied event as long as no two open ones share a row that gets one. */
  lemma {:induction false} RunOnce(s: Service, moves: seq<Move>)
    requires Inv(s) && AllApart(s, moves)
    ensures Inv(Run(s, moves))
    decreases |moves|
  {
    hide Inv, Next, Apart;
    if moves != [] {
      StepInv(s, moves[0]);
      RunOnce(Next(s, moves[0]), moves[1..]);
    }
  }

  /** Two acknowledgements that found the same row commit one after the other. */
  lemma BothApply(s: Service, k: nat, l: nat, i: nat)
    requires k < l && |s.open| == l + 1 && i in s.open[k].hits && i in s.open[l].hits
    requires Q.NoRepeats(s.open[k].hits) && Q.NoRepeats(s.open[l].hits)
    requires i < |s.queue.rows| && s.queue.rows[i].mode != Q.Notify
    ensures AllApart(s, [Commit(l), Commit(k)]) && !Once(Run(s, [Commit(l), Commit(k)]))
  {
    hide Q.AppliedCount, Q.NoRepeats, Applications;
    var s1 := Next(s, Commit(l));
    assert s1.open[k] == s.open[k];
    var s2 := Next(s1, Commit(k));
    assert [Commit(l), Commit(k)][1..] == [Commit(k)] && [Commit(k)][1..] == [];
    assert Run(s, [Commit(l), Commit(k)]) == Run(s1, [Commit(k)]) == Run(s2, []) == s2;
    assert AllApart(s2, []) && AllApart(s1, [Commit(k)]);
    CommitCounts(s.queue, s.open[l].hits, s.open[l].now, i);
    CommitCounts(s1.queue, s.open[k].hits, s.open[k].now, i);
    assert Q.AppliedCount(s2.queue.events, i) >= 2;
  }

  /** An acknowledgement keeps every row from getting two applied events, however things go on,
      exactly when it finds no row, but for notifications, that an open one has found. */
  lemma ReadExactly(s: Service, asked: set<nat>, now: int)
    requires Inv(s)
    ensures Apart(s, Read(asked, now)) <==> EveryRunOnce(Next(s, Read(asked, now)))
  {
    hide Q.NoRepeats, Q.AppliedCount;
    var m := Read(asked, now);
    var s' := Next(s, m);
    if Apart(s, m) {
      StepInv(s, m);
      forall moves | AllApart(s', moves) ensures Once(Run(s', moves)) {
        RunOnce(s', moves);
        OnceInv(Run(s', moves));
      }
    } else {
      var hits := Hits(s.queue.rows, asked, |s.queue.rows|);
      var k :| 0 <= k < |s.open| && !Disjoint(s.queue.rows, hits, s.open[k].hits);
      var i :| i in hits && i in s.open[k].hits && !(i < |s.queue.rows| && s.queue.rows[i].mode == Q.Notify);
      HitsDistinct(s.queue.rows, asked, |s.queue.rows|);
      assert OpenWell(s.queue, s.open[k].hits);
      BothApply(s', k, |s.open|, i);
      assert AllApart(s', [Commit(|s.open|), Commit(k)]) && !Once(Run(s', [Commit(|s.open|), Commit(k)]));
    }
  }

  lemma OnceInv(s: Service)
    requires Inv(s)
    ensures Once(s)
  {
    hide Q.AppliedCount;
    forall i | 0 <= i < |s.queue.rows| ensures Q.AppliedCount(s.queue.events, i) <= 1 {
      assert Settled(s.queue, i);
    }
  }

  /** Two acknowledgements that read one after the other are apart exactly when no delivered
      row they both ask for gets an applied event. */
  lemma SecondReadApart(s: Service, first: set<nat>, second: set<nat>, now: int)
    requires s.open == []
    ensures Apart(Next(s, Read(first, now)), Read(second, now))
            <==> forall i :: 0 <= i < |s.queue.rows| && i in first && i in second ==>
                   s.queue.rows[i].deleted || s.queue.rows[i].status != Q.Delivered || s.queue.rows[i].mode == Q.Notify
  {
    var rows := s.queue.rows;
    var a, b := Hits(rows, first, |rows|), Hits(rows, second, |rows|);
    var s' := Next(s, Read(first, now));
    assert s'.open == [OpenAck(a, now)];
    assert s'.open[0].hits == a && |s'.open| == 1 && s'.queue.rows == rows;
    assert Apart(s', Read(second, now)) <==> Disjoint(rows, b, a);
  }

  /** Every queue that whole operations lead to is one to start from. */
  lemma ValidInv(q: Q.Queue)
    requires Q.Valid(q)
    ensures Inv(Service(q, []))
  {
    hide Q.AppliedCount, Q.NoRepeats;
    forall i | 0 <= i < |q.rows| ensures Settled(q, i) {
      assert Q.RowConsistent(q, i);
    }
  }

  /** How many commits of a run write a row that gets applied events. */
  function CommitsOf(s: Service, moves: seq<Move>, i: nat): nat
    decreases |moves|
  {
    if moves == [] then 0
    else
      var m := moves[0];
      (if m.Commit? && m.k < |s.open| && i in s.open[m.k].hits && i < |s.queue.rows| && s.queue.rows[i].mode != Q.Notify then 1 else 0)
      + CommitsOf(Next(s, m), moves[1..], i)
  }

  predicate OpenDistinct(s: Service) {
    forall k :: 0 <= k < |s.open| ==> Q.NoRepeats(s.open[k].hits)
  }

  /** Over every run, overlapping or not, a row has one applied event for each commit that had
      found it delivered: so exactly one when exactly one such acknowledgement commits. */
  lemma {:induction false} EventsAreCommits(s: Service, moves: seq<Move>, i: nat)
    requires OpenDistinct(s) && i < |s.queue.rows|
    ensures i < |Run(s, moves).queue.rows|
    ensures Q.AppliedCount(Run(s, moves).queue.events, i) == Q.AppliedCount(s.queue.events, i) + CommitsOf(s, moves, i)
    decreases |moves|
  {
    hide Q.AppliedCount, Q.NoRepeats, Q.Step, Hits, Committed;
    if moves != [] {
      match moves[0] {
        case Act(a) => if !a.Ack? { ActKeeps(s.queue, a, i); }
        case Read(asked, _) => HitsDistinct(s.queue.rows, asked, |s.queue.rows|);
        case Commit(k) =>
          if k < |s.open| {
            CommitCounts(s.queue, s.open[k].hits, s.open[k].now, i);
            SameLength(s.queue, s.open[k].hits, s.open[k].now);
          }
      }
      EventsAreCommits(Next(s, moves[0]), moves[1..], i);
    }
  }

  lemma SameLength(q: Q.Queue, hits: seq<nat>, now: int)
    ensures |Committed(q, hits, now).rows| == |q.rows|
  {
  }

  // ---------------------------------------------------------------------------
  // An acknowledgement nothing comes between
  // ---------------------------------------------------------------------------

  lemma {:induction false} AckIsCommit(q: Q.Queue, asked: set<nat>, now: int, n: nat)
    requires n <= |q.rows|
    ensures Q.AckedRows(q, asked, now, n) == Committed(q, Hits(q.rows, asked, n), now)
  {
    hide Hits, Applications;
    if n == 0 {
      CommitNone(q, asked, now);
    } else {
      AckIsCommit(q, asked, now, n - 1);
      CommitMore(q, asked, now, n);
    }
  }

  lemma CommitNone(q: Q.Queue, asked: set<nat>, now: int)
    ensures Committed(q, Hits(q.rows, asked, 0), now) == q
  {
    assert Committed(q, [], now).rows == q.rows && Committed(q, [], now).events == q.events;
  }

  lemma CommitOne(q: Q.Queue, hits: seq<nat>, i: nat, now: int)
    requires i < |q.rows| && i !in hits && q.rows[i].status == Q.Delivered
    ensures Committed(q, hits + [i], now) == Q.AckedOne(Committed(q, hits, now), i, now)
  {
    hide Applications;
    var before, after := Committed(q, hits, now), Committed(q, hits + [i], now);
    assert before.rows[i] == q.rows[i];
    MoreApplications(q, hits, i);
    assert after.rows == before.rows[i := q.rows[i].(status := Q.Acked, ackedAt := Some(now), updated := now)];
  }

  lemma MoreApplications(q: Q.Queue, hits: seq<nat>, i: nat)
    requires i < |q.rows|
    ensures q.events + Applications(q.rows, hits + [i])
            == if q.rows[i].mode == Q.Notify then q.events + Applications(q.rows, hits) else q.events + Applications(q.rows, hits) + [Q.Applied(i)]
  {
    assert (hits + [i])[..|hits|] == hits;
  }

  lemma CommitMore(q: Q.Queue, asked: set<nat>, now: int, n: nat)
    requires 0 < n <= |q.rows|
    ensures var before := Committed(q, Hits(q.rows, asked, n - 1), now);
      Committed(q, Hits(q.rows, asked, n), now)
      == if n - 1 in asked && !before.rows[n - 1].deleted then Q.AckedOne(before, n - 1, now) else before
  {
    hide Applications;
    var hits, i := Hits(q.rows, asked, n - 1), n - 1;
    assert Committed(q, hits, now).rows[i] == q.rows[i];
    if i in asked && !q.rows[i].deleted && q.rows[i].status == Q.Delivered {
      CommitOne(q, hits, i, now);
    }
  }

  /** Read and commit with nothing in between are the acknowledgement of the inject queue. */
  lemma AloneIsAck(s: Service, asked: set<nat>, now: int)
    ensures Next(Next(s, Read(asked, now)), Commit(|s.open|)) == Service(Q.Step(s.queue, Q.Ack(asked, now)), s.open)
  {
    hide Q.AckedRows, Committed;
    AckIsCommit(s.queue, asked, now, |s.queue.rows|);
    var open := Next(s, Read(asked, now)).open;
    assert open[..|s.open|] + open[|s.open| + 1..] == s.open;
  }
}

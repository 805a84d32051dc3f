/** Polls of the inject queue that overlap: the rows are selected without a lock, and flipped
    to delivered by their keys when the request commits.  Overdue rows are taken to expire at
    once when a poll selects. */
module PollOverlap {
  import opened Prelude
  import Q = InjectQueue

  /** A poll that has selected its rows and has not committed. */
  datatype OpenPoll = OpenPoll(picks: seq<nat>, now: int)

  datatype Service = Service(queue: Q.Queue, open: seq<OpenPoll>)

  datatype Move =
    | Act(action: Q.Action)
    | Select(instance: string, limit: nat, now: int)
    | Flip(k: nat)

  function Aged(q: Q.Queue, instance: string, now: int): Q.Queue {
    q.(rows := Q.ExpiredRows(q.rows, Some(instance), now))
  }

  /** The rows a poll selects from the table as it is. */
  function Picks(q: Q.Queue, instance: string, limit: nat, now: int): seq<nat> {
    var after := Q.Polled(q, instance, now, limit).delivered;
    if |q.delivered| <= |after| then after[|q.delivered|..] else []
  }

  /** The flip looks at no status: the rows may have been acknowledged, failed or swept since. */
  function Flipped(q: Q.Queue, picks: seq<nat>, now: int): Q.Queue {
    q.(rows := seq(|q.rows|, i requires 0 <= i < |q.rows| =>
         if i in picks then q.rows[i].(status := Q.Delivered, updated := now) else q.rows[i]),
       delivered := q.delivered + picks)
  }

  function Next(s: Service, m: Move): Service {
    match m
    case Act(a) => if a.Poll? then s else s.(queue := Q.Step(s.queue, a))
    case Select(instance, limit, now) =>
      Service(Aged(s.queue, instance, now), s.open + [OpenPoll(Picks(s.queue, instance, limit, now), now)])
    case Flip(k) =>
      if k >= |s.open| then s
      else Service(Flipped(s.queue, s.open[k].picks, s.open[k].now), s.open[..k] + s.open[k + 1..])
  }

  function Run(s: Service, moves: seq<Move>): Service
    decreases |moves|
  {
    if moves == [] then s else Run(Next(s, moves[0]), moves[1..])
  }

  predicate Disjoint(a: seq<nat>, b: seq<nat>) {
    forall x :: x in a ==> x !in b
  }

  /** The selected rows are in no poll that is still open. */
  predicate Apart(s: Service, m: Move) {
    m.Select? ==> forall k :: 0 <= k < |s.open| ==> Disjoint(Picks(s.queue, m.instance, m.limit, m.now), s.open[k].picks)
  }

  predicate AllApart(s: Service, moves: seq<Move>)
    decreases |moves|
  {
    moves != [] ==> Apart(s, moves[0]) && AllApart(Next(s, moves[0]), moves[1..])
  }

  /** Delivered rows wait no longer, and no open poll shares a row with another or with what
      was delivered. */
  predicate Inv(s: Service) {
    && Q.NoRepeats(s.queue.delivered)
    && (forall i :: i in s.queue.delivered ==> i < |s.queue.rows| && s.queue.rows[i].status != Q.Pending)
    && (forall k :: 0 <= k < |s.open| ==> OpenWell(s.queue, s.open[k].picks))
    && (forall k, l :: 0 <= k < l < |s.open| ==> Disjoint(s.open[k].picks, s.open[l].picks))
  }

  predicate OpenWell(q: Q.Queue, picks: seq<nat>) {
    Q.NoRepeats(picks) && Disjoint(picks, q.delivered) && forall i :: i in picks ==> i < |q.rows|
  }

  lemma {:induction false} PicksDistinct(q: Q.Queue, instance: string, now: int, limit: nat)
    ensures var r := Q.PickedAll(q, instance, now, limit);
      && q.delivered <= r.delivered
      && Q.NoRepeats(r.delivered[|q.delivered|..])
      && forall i :: i in r.delivered[|q.delivered|..] ==> i < |q.rows| && Q.Ready(q.rows[i], instance, now)
    decreases limit
  {
    hide Q.Oldest;
    var i := Q.Oldest(q.rows, instance, now, |q.rows|);
    if limit > 0 && i.Some? {
      var q', r := Q.Picked(q, i.value, now), Q.PickedAll(q, instance, now, limit);
      PicksDistinct(q', instance, now, limit - 1);
      var rest := r.delivered[|q'.delivered|..];
      assert r.delivered[|q.delivered|..] == [i.value] + rest;
      assert i.value !in rest;
    }
  }

  lemma PicksReady(q: Q.Queue, instance: string, limit: nat, now: int)
    ensures var picks := Picks(q, instance, limit, now);
      Q.NoRepeats(picks) && forall i :: i in picks ==> i < |q.rows| && q.rows[i].status == Q.Pending
  {
    hide Q.PickedAll, Q.NoRepeats;
    var aged := Aged(q, instance, now);
    PicksDistinct(aged, instance, now, limit);
  }

  lemma {:induction false} AckWaits(q: Q.Queue, asked: set<nat>, now: int, n: nat)
    requires n <= |q.rows|
    ensures var r := Q.AckedRows(q, asked, now, n);
      r.delivered == q.delivered && forall i :: 0 <= i < |q.rows| && r.rows[i].status == Q.Pending ==> q.rows[i].status == Q.Pending
  {
    if n > 0 {
      AckWaits(q, asked, now, n - 1);
    }
  }

  /** No operation makes a row wait again. */
  lemma ActWaits(q: Q.Queue, a: Q.Action)
    requires !a.Poll?
    ensures var r := Q.Step(q, a);
      && r.delivered == q.delivered && |q.rows| <= |r.rows|
      && forall i :: 0 <= i < |q.rows| && r.rows[i].status == Q.Pending ==> q.rows[i].status == Q.Pending
  {
    hide Q.AckedRows;
    if a.Ack? {
      AckWaits(q, a.asked, a.now, |q.rows|);
    }
  }

  lemma JoinDistinct(a: seq<nat>, b: seq<nat>)
    requires Q.NoRepeats(a) && Q.NoRepeats(b) && Disjoint(b, a)
    ensures Q.NoRepeats(a + b)
  {
    forall j, k | 0 <= j < k < |a + b| ensures (a + b)[j] != (a + b)[k] {
      if j < |a| <= k {
        assert b[k - |a|] in b && a[j] in a;
      }
    }
  }

  lemma FlipInv(s: Service, k: nat)
    requires Inv(s) && k < |s.open|
    ensures Inv(Next(s, Flip(k)))
  {
    hide Q.NoRepeats;
    var s', p := Next(s, Flip(k)), s.open[k];
    JoinDistinct(s.queue.delivered, p.picks);
    forall j | 0 <= j < |s'.open| ensures OpenWell(s'.queue, s'.open[j].picks) {
      var was := if j < k then j else j + 1;
      assert s'.open[j] == s.open[was] && OpenWell(s.queue, s.open[was].picks);
      assert if was < k then Disjoint(s.open[was].picks, p.picks) else Disjoint(p.picks, s.open[was].picks);
    }
    forall j, l | 0 <= j < l < |s'.open| ensures Disjoint(s'.open[j].picks, s'.open[l].picks) {
      assert s'.open[j] == s.open[if j < k then j else j + 1] && s'.open[l] == s.open[if l < k then l else l + 1];
    }
  }

  lemma StepInv(s: Service, m: Move)
    requires Inv(s) && Apart(s, m)
    ensures Inv(Next(s, m))
  {
    hide Q.NoRepeats, Picks, Q.Step;
    match m {
      case Act(a) =>
        if !a.Poll? {
          ActWaits(s.queue, a);
          forall k | 0 <= k < |s.open| ensures OpenWell(Q.Step(s.queue, a), s.open[k].picks) {
            assert OpenWell(s.queue, s.open[k].picks);
          }
        }
      case Select(instance, limit, now) => SelectInv(s, instance, limit, now);
      case Flip(k) => if k < |s.open| { FlipInv(s, k); }
    }
  }

  lemma SelectInv(s: Service, instance: string, limit: nat, now: int)
    requires Inv(s) && Apart(s, Select(instance, limit, now))
    ensures Inv(Next(s, Select(instance, limit, now)))
  {
    hide Q.NoRepeats, Picks;
    PicksReady(s.queue, instance, limit, now);
    var picks := Picks(s.queue, instance, limit, now);
    assert OpenWell(Aged(s.queue, instance, now), picks);
    forall k | 0 <= k < |s.open| ensures OpenWell(Aged(s.queue, instance, now), s.open[k].picks) {
      assert OpenWell(s.queue, s.open[k].picks);
    }
    forall k | 0 <= k < |s.open| ensures Disjoint(s.open[k].picks, picks) {
      assert Disjoint(picks, s.open[k].picks);
    }
  }

  /** Whatever comes between the select and the flip of a poll, each row is returned by at most
      one poll as long as no two open polls share a row. */
  lemma {:induction false} RunOnce(s: Service, moves: seq<Move>)
    requires Inv(s) && AllApart(s, moves)
    ensures Inv(Run(s, moves))
    decreases |moves|
  {
    hide Inv, Next, Apart;
    if moves != [] {
      StepInv(s, moves[0]);
      RunOnce(Next(s, moves[0]), moves[1..]);
    }
  }

  predicate Once(s: Service) {
    Q.NoRepeats(s.queue.delivered)
  }

  /** However things go on, if no further poll selects rows of an open one. */
  ghost predicate EveryRunOnce(s: Service) {
    forall moves :: AllApart(s, moves) ==> Once(Run(s, moves))
  }

  /** The two polls commit one after the other, and both return the row. */
  lemma BothReturn(s: Service, k: nat, l: nat, x: nat)
    requires k < l && |s.open| == l + 1 && x in s.open[k].picks && x in s.open[l].picks
    ensures AllApart(s, [Flip(l), Flip(k)]) && !Once(Run(s, [Flip(l), Flip(k)]))
  {
    var s1 := Next(s, Flip(l));
    assert s1.open[k] == s.open[k];
    var s2 := Next(s1, Flip(k));
    assert [Flip(l), Flip(k)][1..] == [Flip(k)] && [Flip(k)][1..] == [];
    assert Run(s, [Flip(l), Flip(k)]) == Run(s1, [Flip(k)]) == Run(s2, []) == s2;
    assert AllApart(s2, []) && AllApart(s1, [Flip(k)]);
    var d, a, b := s.queue.delivered, s.open[l].picks, s.open[k].picks;
    assert s2.queue.delivered == d + a + b;
    var i :| 0 <= i < |a| && a[i] == x;
    var j :| 0 <= j < |b| && b[j] == x;
    assert (d + a + b)[|d| + i] == x && (d + a + b)[|d| + |a| + j] == x;
  }

  /** A select keeps every row from being returned twice, however things go on, exactly when
      it takes no row of a poll that is still open. */
  lemma SelectExactly(s: Service, instance: string, limit: nat, now: int)
    requires Inv(s)
    ensures Apart(s, Select(instance, limit, now)) <==> EveryRunOnce(Next(s, Select(instance, limit, now)))
  {
    hide Picks, Q.NoRepeats;
    var m := Select(instance, limit, now);
    var s' := Next(s, m);
    if Apart(s, m) {
      StepInv(s, m);
      forall moves | AllApart(s', moves) ensures Once(Run(s', moves)) {
        RunOnce(s', moves);
      }
    } else {
      var k :| 0 <= k < |s.open| && !Disjoint(Picks(s.queue, instance, limit, now), s.open[k].picks);
      var x :| x in Picks(s.queue, instance, limit, now) && x in s.open[k].picks;
      BothReturn(s', k, |s.open|, x);
      assert AllApart(s', [Flip(|s.open|), Flip(k)]) && !Once(Run(s', [Flip(|s.open|), Flip(k)]));
    }
  }

  /** A poll that selects right after another of the same instance takes its first row again. */
  lemma SecondPollShares(s: Service, instance: string, limit: nat, other: nat, now: int)
    requires limit > 0 && other > 0 && Picks(s.queue, instance, other, now) != []
    ensures !Apart(Next(s, Select(instance, other, now)), Select(instance, limit, now))
  {
    hide Q.Oldest, Picks, Aged;
    var s', x := Next(s, Select(instance, other, now)), Picks(s.queue, instance, other, now)[0];
    AgedOnce(s.queue, instance, now, limit);
    FirstPick(s.queue, instance, other, limit, now);
    assert s'.open[|s.open|].picks == Picks(s.queue, instance, other, now);
    assert x in Picks(s'.queue, instance, limit, now) && x in s'.open[|s.open|].picks;
  }

  lemma FirstPick(q: Q.Queue, instance: string, other: nat, limit: nat, now: int)
    requires limit > 0 && other > 0 && Picks(q, instance, other, now) != []
    ensures Picks(q, instance, limit, now) != [] && Picks(q, instance, limit, now)[0] == Picks(q, instance, other, now)[0]
  {
    hide Q.Oldest;
    var aged := Aged(q, instance, now);
    var i := Q.Oldest(aged.rows, instance, now, |aged.rows|);
    assert i.Some?;
    PicksDistinct(Q.Picked(aged, i.value, now), instance, now, limit - 1);
    PicksDistinct(Q.Picked(aged, i.value, now), instance, now, other - 1);
  }

  lemma AgedOnce(q: Q.Queue, instance: string, now: int, limit: nat)
    ensures Picks(Aged(q, instance, now), instance, limit, now) == Picks(q, instance, limit, now)
  {
    assert Aged(Aged(q, instance, now), instance, now).rows == Aged(q, instance, now).rows;
  }

  // ---------------------------------------------------------------------------
  // A poll nothing comes between
  // ---------------------------------------------------------------------------

  lemma FlipOne(q: Q.Queue, i: nat, rest: seq<nat>, now: int)
    requires i < |q.rows|
    ensures Flipped(q, [i] + rest, now) == Flipped(Q.Picked(q, i, now), rest, now)
  {
    var a, b := Flipped(q, [i] + rest, now), Flipped(Q.Picked(q, i, now), rest, now);
    assert a.delivered == b.delivered;
    assert a.rows == b.rows;
  }

  lemma {:induction false} PickedIsFlipped(q: Q.Queue, instance: string, now: int, limit: nat)
    ensures var r := Q.PickedAll(q, instance, now, limit);
      q.delivered <= r.delivered && r == Flipped(q, r.delivered[|q.delivered|..], now)
    decreases limit
  {
    hide Q.Oldest, Flipped;
    var i := Q.Oldest(q.rows, instance, now, |q.rows|);
    if limit > 0 && i.Some? {
      var q', r := Q.Picked(q, i.value, now), Q.PickedAll(q, instance, now, limit);
      PickedIsFlipped(q', instance, now, limit - 1);
      assert r.delivered[|q.delivered|..] == [i.value] + r.delivered[|q'.delivered|..];
      FlipOne(q, i.value, r.delivered[|q'.delivered|..], now);
    } else {
      FlipNone(q, now);
      assert q.delivered[|q.delivered|..] == [];
    }
  }

  lemma FlipNone(q: Q.Queue, now: int)
    ensures Flipped(q, [], now) == q
  {
    assert Flipped(q, [], now).rows == q.rows && Flipped(q, [], now).delivered == q.delivered;
  }

  /** Select and flip with nothing in between are the poll of the inject queue. */
  lemma AloneIsPoll(s: Service, instance: string, limit: nat, now: int)
    ensures Next(Next(s, Select(instance, limit, now)), Flip(|s.open|))
            == Service(Q.Step(s.queue, Q.Poll(instance, limit, now)), s.open)
  {
    hide Q.PickedAll, Flipped;
    PickedIsFlipped(Aged(s.queue, instance, now), instance, now, limit);
    var open := Next(s, Select(instance, limit, now)).open;
    assert open[..|s.open|] + open[|s.open| + 1..] == s.open;
  }
}

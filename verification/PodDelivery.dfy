/** Delivery to an agent pod: everything that a poll returned reaches the pod and, when its
    acknowledgements arrive, is applied. */
module PodDelivery {
  import opened Prelude
  import Q = InjectQueue
  import SP = SafePoint
  import P = PodLoop

  // ---------------------------------------------------------------------------
  // What a run gave the pod
  // ---------------------------------------------------------------------------

  /** No response is lost or carries a kill, and nothing is cancelled. */
  predicate Reliable(events: seq<P.Event>) {
    forall k :: 0 <= k < |events| ==> !events[k].Cancel? && (events[k].Poll? ==> events[k].fate == P.Received)
  }

  /** The items that the control poll looked at, in order. */
  function Taken(instance: string, events: seq<P.Event>): seq<nat> {
    if events == [] then []
    else
      var n := |events| - 1;
      var inbox := P.Run(instance, events[..n]).pod.inbox;
      Taken(instance, events[..n]) + if events[n].TakeItem? && inbox != [] then [inbox[0]] else []
  }

  /** The items that the main loop applied or tried to, in order. */
  function Given(instance: string, events: seq<P.Event>): seq<nat> {
    if events == [] then []
    else
      var n := |events| - 1;
      var applying := P.Run(instance, events[..n]).pod.applying;
      Given(instance, events[..n]) + if events[n].ApplyNext? && applying != [] then [applying[0]] else []
  }

  /** The items that are rows of the instance. */
  function Mine(items: seq<nat>, rows: seq<Q.Row>, instance: string): seq<nat> {
    if items == [] then []
    else
      var i := items[|items| - 1];
      Mine(items[..|items| - 1], rows, instance) + if i < |rows| && rows[i].instance == instance then [i] else []
  }

  lemma {:induction false} MineMore(items: seq<nat>, more: seq<nat>, rows: seq<Q.Row>, instance: string)
    ensures Mine(items + more, rows, instance) == Mine(items, rows, instance) + Mine(more, rows, instance)
  {
    if more == [] {
      assert items + more == items;
    } else {
      var n := |more| - 1;
      assert (items + more)[..|items| + n] == items + more[..n];
      MineMore(items, more[..n], rows, instance);
    }
  }

  lemma {:induction false} MineStable(items: seq<nat>, rows: seq<Q.Row>, rows': seq<Q.Row>, instance: string)
    requires Q.TableEvolves(rows, rows') && forall k :: 0 <= k < |items| ==> items[k] < |rows|
    ensures Mine(items, rows', instance) == Mine(items, rows, instance)
  {
    if items != [] {
      MineStable(items[..|items| - 1], rows, rows', instance);
    }
  }

  predicate RowOf(i: nat, rows: seq<Q.Row>, instance: string) {
    i < |rows| && rows[i].instance == instance
  }

  lemma {:induction false} MineAll(items: seq<nat>, rows: seq<Q.Row>, instance: string)
    requires forall k :: 0 <= k < |items| ==> RowOf(items[k], rows, instance)
    ensures Mine(items, rows, instance) == items
  {
    if items != [] {
      var n := |items| - 1;
      MineAll(items[..n], rows, instance);
      assert items == items[..n] + [items[n]] && RowOf(items[n], rows, instance);
    }
  }

  lemma {:induction false} MineNone(items: seq<nat>, rows: seq<Q.Row>, instance: string)
    requires forall k :: 0 <= k < |items| ==> !RowOf(items[k], rows, instance)
    ensures Mine(items, rows, instance) == []
  {
    if items != [] {
      var n := |items| - 1;
      assert !RowOf(items[n], rows, instance);
      MineNone(items[..n], rows, instance);
    }
  }

  lemma {:induction false} MineFacts(items: seq<nat>, rows: seq<Q.Row>, instance: string)
    ensures var r := Mine(items, rows, instance);
      && (forall k :: 0 <= k < |r| ==> r[k] < |rows| && rows[r[k]].instance == instance && r[k] in items)
      && (forall i :: i in items && i < |rows| && rows[i].instance == instance ==> i in r)
      && (Q.NoRepeats(items) ==> Q.NoRepeats(r))
  {
    if items != [] {
      var n := |items| - 1;
      MineFacts(items[..n], rows, instance);
      assert items == items[..n] + [items[n]];
    }
  }

  // ---------------------------------------------------------------------------
  // The steps
  // ---------------------------------------------------------------------------

  /** A poll adds ready rows of its own instance to what was delivered. */
  lemma PollAdds(q: Q.Queue, other: string, limit: nat, now: int)
    requires Q.Valid(q)
    ensures var q' := Q.Step(q, Q.Poll(other, limit, now));
      && q.delivered <= q'.delivered
      && forall k :: |q.delivered| <= k < |q'.delivered| ==>
           q'.delivered[k] < |q'.rows| && q'.rows[q'.delivered[k]].instance == other
  {
    hide Q.Valid, Q.PickedAll;
    var aged := q.(rows := Q.ExpiredRows(q.rows, Some(other), now));
    Q.PollTakesReady(aged, other, now, limit);
    Q.PickEvolves(aged, other, now, limit);
  }

  /** An operation that leaves the instance's rows to its pod delivers none of them. */
  lemma ForeignAdds(q: Q.Queue, a: Q.Action, instance: string)
    requires Q.Valid(q) && P.Foreign(q, a, instance)
    ensures var q' := Q.Step(q, a);
      Q.TableEvolves(q.rows, q'.rows) && Mine(q'.delivered, q'.rows, instance) == Mine(q.delivered, q.rows, instance)
  {
    hide Q.Valid, Q.PickedAll, Q.AckedRows, Q.TableEvolves, Mine;
    var q' := Q.Step(q, a);
    Q.StepEvolves(q, a);
    DeliveredInTable(q);
    MineStable(q.delivered, q.rows, q'.rows, instance);
    match a {
      case Poll(other, limit, now) =>
        PollAdds(q, other, limit, now);
        var more := q'.delivered[|q.delivered|..];
        MineNone(more, q'.rows, instance);
        MineMore(q.delivered, more, q'.rows, instance);
        assert q'.delivered == q.delivered + more;
      case Ack(asked, now) => Q.AckDelivers(q, asked, now, |q.rows|);
      case _ =>
    }
  }

  lemma DeliveredInTable(q: Q.Queue)
    requires Q.Valid(q)
    ensures forall k :: 0 <= k < |q.delivered| ==> q.delivered[k] < |q.rows|
  {
  }

  /** A poll of the instance: everything new is in its response. */
  lemma OwnAdds(q: Q.Queue, instance: string, now: int)
    requires Q.Valid(q)
    ensures var q' := Q.Step(q, Q.Poll(instance, P.PollLimit, now));
      && Q.TableEvolves(q.rows, q'.rows)
      && Mine(q'.delivered, q'.rows, instance) == Mine(q.delivered, q.rows, instance) + P.NewlyDelivered(q, q')
  {
    hide Q.Valid, Q.Step, Q.TableEvolves, Mine;
    var q' := Q.Step(q, Q.Poll(instance, P.PollLimit, now));
    Q.StepEvolves(q, Q.Poll(instance, P.PollLimit, now));
    DeliveredInTable(q);
    MineStable(q.delivered, q.rows, q'.rows, instance);
    PollAdds(q, instance, P.PollLimit, now);
    var more := P.NewlyDelivered(q, q');
    MineAll(more, q'.rows, instance);
    MineMore(q.delivered, more, q'.rows, instance);
    assert q'.delivered == q.delivered + more;
  }

  lemma AckAdds(q: Q.Queue, i: nat, now: int, reached: bool, instance: string)
    requires Q.Valid(q)
    ensures var q' := P.Acknowledged(q, i, now, reached);
      && Q.TableEvolves(q.rows, q'.rows) && q'.delivered == q.delivered
      && Mine(q'.delivered, q'.rows, instance) == Mine(q.delivered, q.rows, instance)
  {
    hide Q.Valid, Q.AckedRows, Mine, Q.Evolves;
    var q' := P.Acknowledged(q, i, now, reached);
    DeliveredInTable(q);
    if reached {
      Q.StepEvolves(q, Q.Ack({i}, now));
      Q.AckDelivers(q, {i}, now, |q.rows|);
    } else {
      forall k | 0 <= k < |q.rows| ensures Q.Evolves(q.rows[k], q.rows[k]) {
        Q.EvolvesSame(q.rows[k]);
      }
    }
    MineStable(q.delivered, q.rows, q'.rows, instance);
  }

  lemma LastEvent(instance: string, events: seq<P.Event>)
    requires events != []
    ensures var n := |events| - 1;
      && P.Run(instance, events) == P.Next(P.Run(instance, events[..n]), instance, events[n])
      && (Reliable(events) ==> Reliable(events[..n]))
  {
    var n := |events| - 1;
    assert forall k :: 0 <= k < n ==> events[..n][k] == events[k];
  }

  /** What one event does to the inbox and to what was delivered. */
  lemma InboxStep(s: P.System, instance: string, e: P.Event)
    requires Q.Valid(s.queue) && !e.Cancel? && (e.Poll? ==> e.fate == P.Received)
    ensures var s' := P.Next(s, instance, e);
      var before, after := Mine(s.queue.delivered, s.queue.rows, instance), Mine(s'.queue.delivered, s'.queue.rows, instance);
      if e.TakeItem? && s.pod.inbox != [] then s'.pod.inbox == s.pod.inbox[1..] && after == before
      else before <= after && s'.pod.inbox == s.pod.inbox + after[|before|..]
  {
    hide Q.Valid, Q.Step, P.Foreign, Mine, P.Acknowledged, Q.TableEvolves;
    var q := s.queue;
    match e {
      case Backend(a) => if P.Foreign(q, a, instance) { ForeignAdds(q, a, instance); }
      case Poll(now, _) => if !s.pod.stopped && s.pod.inbox == [] { OwnAdds(q, instance, now); }
      case TakeItem(now, reached) => if s.pod.inbox != [] { AckAdds(q, s.pod.inbox[0], now, reached, instance); }
      case ApplyNext(now, reached) => if s.pod.applying != [] { AckAdds(q, s.pod.applying[0], now, reached, instance); }
      case _ =>
    }
  }

  /** Over every reliable run, the rows of the instance that polls returned are exactly those that
      the pod looked at, followed by those in its inbox. */
  lemma {:induction false} TakenOrWaiting(instance: string, events: seq<P.Event>)
    requires Reliable(events)
    ensures var s := P.Run(instance, events);
            Mine(s.queue.delivered, s.queue.rows, instance) == Taken(instance, events) + s.pod.inbox
  {
    hide P.Next, Q.Valid, Mine;
    if events == [] {
      NothingDelivered(instance);
    } else {
      var n := |events| - 1;
      var s := P.Run(instance, events[..n]);
      LastEvent(instance, events);
      TakenOrWaiting(instance, events[..n]);
      P.QueueValid(instance, events[..n]);
      InboxStep(s, instance, events[n]);
      var taken := Taken(instance, events[..n]);
      if events[n].TakeItem? && s.pod.inbox != [] {
        assert taken + s.pod.inbox == taken + [s.pod.inbox[0]] + s.pod.inbox[1..];
      } else {
        var s' := P.Run(instance, events);
        var before, after := taken + s.pod.inbox, Mine(s'.queue.delivered, s'.queue.rows, instance);
        assert after == before + after[|before|..];
        assert before + after[|before|..] == taken + (s.pod.inbox + after[|before|..]);
        assert taken + [] == taken;
      }
    }
  }

  lemma NothingDelivered(instance: string)
    ensures Mine(P.Start.queue.delivered, P.Start.queue.rows, instance) == []
  {
  }

  // ---------------------------------------------------------------------------
  // From the inbox to the main loop
  // ---------------------------------------------------------------------------

  lemma {:induction false} SoftMore(items: seq<nat>, more: seq<nat>, rows: seq<Q.Row>)
    ensures P.Soft(items + more, rows) == P.Soft(items, rows) + P.Soft(more, rows)
  {
    if items == [] {
      assert items + more == more;
    } else {
      assert (items + more)[1..] == items[1..] + more;
      SoftMore(items[1..], more, rows);
    }
  }

  /** The pod's hands: what it was given, is applying, or holds. */
  function Hands(instance: string, events: seq<P.Event>): seq<nat> {
    var p := P.Run(instance, events).pod;
    Given(instance, events) + p.applying + p.guard.pending
  }

  /** One event moves items between the hands and adds what is taken and must wait. */
  lemma HandsStep(instance: string, events: seq<P.Event>)
    requires events != []
    ensures var n := |events| - 1;
      var s := P.Run(instance, events[..n]);
      Hands(instance, events) == Hands(instance, events[..n])
        + if events[n].TakeItem? && s.pod.inbox != [] then P.Soft([s.pod.inbox[0]], s.queue.rows) else []
  {
    hide P.Next, P.Soft;
    var n := |events| - 1;
    HandsMove(Given(instance, events[..n]), P.Run(instance, events[..n]), instance, events[n]);
  }

  lemma HandsMove(given: seq<nat>, s: P.System, instance: string, e: P.Event)
    ensures var p, s' := s.pod, P.Next(s, instance, e);
      given + (if e.ApplyNext? && p.applying != [] then [p.applying[0]] else []) + s'.pod.applying + s'.pod.guard.pending
      == given + p.applying + p.guard.pending + if e.TakeItem? && p.inbox != [] then P.Soft([p.inbox[0]], s.queue.rows) else []
  {
    hide Q.Step, P.Foreign, P.Acknowledged;
    var p := s.pod;
    var before := given + p.applying + p.guard.pending;
    assert before + [] == before && given + [] == given;
    match e {
      case TakeItem(_, _) =>
        if p.inbox != [] {
          assert P.Soft([p.inbox[0]][1..], s.queue.rows) == [];
        }
      case ApplyNext(_, _) =>
        if p.applying != [] {
          assert p.applying == [p.applying[0]] + p.applying[1..];
        }
      case _ =>
    }
  }

  lemma RowsGrew(instance: string, events: seq<P.Event>)
    requires events != []
    ensures Q.TableEvolves(P.Run(instance, events[..|events| - 1]).queue.rows, P.Run(instance, events).queue.rows)
  {
    hide P.Next, Q.Valid, Q.TableEvolves;
    P.QueueValid(instance, events[..|events| - 1]);
    P.RowsGrow(P.Run(instance, events[..|events| - 1]), events[|events| - 1], instance);
  }

  lemma TakenInTable(instance: string, events: seq<P.Event>)
    requires Reliable(events)
    ensures var s := P.Run(instance, events);
      && (forall k :: 0 <= k < |Taken(instance, events)| ==> Taken(instance, events)[k] < |s.queue.rows|)
      && (forall k :: 0 <= k < |s.pod.inbox| ==> s.pod.inbox[k] < |s.queue.rows|)
  {
    hide P.Run, Taken, Mine;
    var s, taken := P.Run(instance, events), Taken(instance, events);
    TakenOrWaiting(instance, events);
    MineFacts(s.queue.delivered, s.queue.rows, instance);
    assert forall k :: 0 <= k < |taken| ==> taken[k] == (taken + s.pod.inbox)[k];
    assert forall k :: 0 <= k < |s.pod.inbox| ==> s.pod.inbox[k] == (taken + s.pod.inbox)[|taken| + k];
  }

  /** Over every reliable run, what the pod looked at and must wait is exactly what it was given,
      is applying, or holds, in that order. */
  lemma {:induction false} TakenInHands(instance: string, events: seq<P.Event>)
    requires Reliable(events)
    ensures P.Soft(Taken(instance, events), P.Run(instance, events).queue.rows) == Hands(instance, events)
  {
    hide P.Run, Hands, P.Soft, Q.TableEvolves;
    if events == [] {
      NothingInHands(instance);
    } else {
      var n := |events| - 1;
      var s, s' := P.Run(instance, events[..n]), P.Run(instance, events);
      LastEvent(instance, events);
      TakenInHands(instance, events[..n]);
      TakenInTable(instance, events[..n]);
      RowsGrew(instance, events);
      HandsStep(instance, events);
      var taken := Taken(instance, events[..n]);
      var more := if events[n].TakeItem? && s.pod.inbox != [] then [s.pod.inbox[0]] else [];
      P.SoftStable(taken + more, s.queue.rows, s'.queue.rows);
      SoftMore(taken, more, s.queue.rows);
      assert P.Soft([], s.queue.rows) == [] by { NoSoft(s.queue.rows); }
    }
  }

  lemma NoSoft(rows: seq<Q.Row>)
    ensures P.Soft([], rows) == []
  {
  }

  lemma NothingInHands(instance: string)
    ensures P.Soft(Taken(instance, []), P.Run(instance, []).queue.rows) == [] == Hands(instance, [])
  {
  }

  /** Over every reliable run, the soft injects and wakes of the instance that polls returned are,
      in that order and each once: given to the main loop, being applied, held by the guard, or
      in the inbox. */
  lemma NothingLost(instance: string, events: seq<P.Event>)
    requires Reliable(events)
    ensures var s := P.Run(instance, events);
      var places := Given(instance, events) + s.pod.applying + s.pod.guard.pending + P.Soft(s.pod.inbox, s.queue.rows);
      P.Soft(Mine(s.queue.delivered, s.queue.rows, instance), s.queue.rows) == places && Q.NoRepeats(places)
  {
    hide P.Run, Mine, P.Soft, Q.Valid;
    var s := P.Run(instance, events);
    TakenOrWaiting(instance, events);
    TakenInHands(instance, events);
    SoftMore(Taken(instance, events), s.pod.inbox, s.queue.rows);
    P.QueueValid(instance, events);
    ValidOnce(s.queue);
    MineFacts(s.queue.delivered, s.queue.rows, instance);
    SoftOnce(Mine(s.queue.delivered, s.queue.rows, instance), s.queue.rows);
  }

  lemma ValidOnce(q: Q.Queue)
    requires Q.Valid(q)
    ensures Q.NoRepeats(q.delivered)
  {
  }

  lemma {:induction false} SoftFacts(items: seq<nat>, rows: seq<Q.Row>)
    ensures forall x :: x in P.Soft(items, rows) <==> x in items && x < |rows| && rows[x].mode != Q.Notify
  {
    if items != [] {
      SoftFacts(items[1..], rows);
      assert items == [items[0]] + items[1..];
    }
  }

  lemma {:induction false} SoftOnce(items: seq<nat>, rows: seq<Q.Row>)
    requires Q.NoRepeats(items)
    ensures Q.NoRepeats(P.Soft(items, rows))
  {
    if items != [] {
      SoftOnce(items[1..], rows);
      SoftFacts(items[1..], rows);
      assert forall k :: 0 < k < |items| ==> items[k] == items[1..][k - 1];
      assert items[0] !in items[1..];
    }
  }

  // ---------------------------------------------------------------------------
  // When every acknowledgement arrives
  // ---------------------------------------------------------------------------

  /** Every acknowledgement reaches the backend. */
  predicate Answered(events: seq<P.Event>) {
    forall k :: 0 <= k < |events| ==>
      (events[k].TakeItem? ==> events[k].reached) && (events[k].ApplyNext? ==> events[k].reached)
  }

  /** Nobody else fails a row of the instance. */
  predicate Unfailed(instance: string, events: seq<P.Event>) {
    events != [] ==>
      var n, rows := |events| - 1, P.Run(instance, events[..|events| - 1]).queue.rows;
      && Unfailed(instance, events[..n])
      && (events[n].Backend? && events[n].action.Fail? && events[n].action.row < |rows| ==> rows[events[n].action.row].instance != instance)
  }

  /** Returned by a poll, and neither acknowledged nor failed since. */
  predicate Open(q: Q.Queue, instance: string, i: nat) {
    i < |q.rows| && q.rows[i].instance == instance && q.rows[i].status == Q.Delivered
  }

  /** What the pod still has to look at or to apply. */
  function Waiting(p: P.Pod): seq<nat> {
    p.applying + p.guard.pending + p.inbox
  }

  ghost predicate AllOpen(s: P.System, instance: string) {
    forall i :: i in Waiting(s.pod) ==> Open(s.queue, instance, i)
  }

  lemma OpenNotDeleted(q: Q.Queue, instance: string, i: nat)
    requires Q.Valid(q) && Open(q, instance, i)
    ensures !q.rows[i].deleted
  {
    assert Q.RowConsistent(q, i);
  }

  /** Rows stay open under everything but their own acknowledgement and failure. */
  lemma StaysOpen(q: Q.Queue, a: Q.Action, instance: string, i: nat)
    requires Q.Valid(q) && Open(q, instance, i)
    requires (a.Ack? ==> i !in a.asked) && (a.Fail? ==> a.row != i)
    ensures Open(Q.Step(q, a), instance, i)
  {
    hide Q.Valid, Q.Step;
    Q.StepMoves(q, a);
    Q.StepEvolves(q, a);
  }

  /** What a poll returns is open. */
  lemma ReturnedOpen(q: Q.Queue, instance: string, now: int)
    requires Q.Valid(q)
    ensures var q' := Q.Step(q, Q.Poll(instance, P.PollLimit, now));
            forall i :: i in P.NewlyDelivered(q, q') ==> Open(q', instance, i)
  {
    hide Q.Valid, Q.PickedAll;
    var a := Q.Poll(instance, P.PollLimit, now);
    var q' := Q.Step(q, a);
    var aged := q.(rows := Q.ExpiredRows(q.rows, Some(instance), now));
    Q.PollTakesReady(aged, instance, now, P.PollLimit);
    Q.PickMoves(aged, instance, now, P.PollLimit);
    PollAdds(q, instance, P.PollLimit, now);
    Q.StepValid(q, a);
    forall i | i in P.NewlyDelivered(q, q') ensures Open(q', instance, i) {
      var k :| 0 <= k < |P.NewlyDelivered(q, q')| && P.NewlyDelivered(q, q')[k] == i;
      assert q'.delivered[|q.delivered| + k] == i;
      OnceReturned(q', |q.delivered| + k);
    }
  }

  lemma OnceReturned(q: Q.Queue, k: nat)
    requires Q.Valid(q) && k < |q.delivered|
    ensures q.delivered[k] < |q.rows| && q.rows[q.delivered[k]].status != Q.Pending && q.rows[q.delivered[k]].status != Q.Expired
  {
    assert Q.RowConsistent(q, q.delivered[k]);
  }

  /** The acknowledgement of an open row that arrives: the row is acknowledged and, unless it is a
      notification, applied. */
  lemma AckApplies(q: Q.Queue, i: nat, now: int, instance: string)
    requires Q.Valid(q) && Open(q, instance, i)
    ensures var q' := P.Acknowledged(q, i, now, true);
      && |q'.rows| == |q.rows| && q'.rows[i].status == Q.Acked
      && P.AppliedFor(q'.events, q'.rows, instance)
         == P.AppliedFor(q.events, q.rows, instance) + if q.rows[i].mode != Q.Notify then [i] else []
  {
    hide Q.AckedRows, Q.Valid, P.AppliedFor;
    P.OneAck(q, i, now, |q.rows|);
    OpenNotDeleted(q, instance, i);
    P.AckStable(q, Q.Ack({i}, now), instance);
    P.AppliedAppend(q.events, Q.Applied(i), q.rows, instance);
    var applied := P.AppliedFor(q.events, q.rows, instance);
    assert applied + [] == applied;
  }

  /** The waiting items are different rows, and different from all that was looked at. */
  lemma Apart(instance: string, events: seq<P.Event>)
    requires Reliable(events)
    ensures var p := P.Run(instance, events).pod;
      && Q.NoRepeats(Taken(instance, events) + p.inbox) && Q.NoRepeats(Hands(instance, events))
      && forall i :: i in Hands(instance, events) ==> i in Taken(instance, events)
  {
    hide P.Run, Mine, P.Soft, Q.Valid, Hands, Taken, Q.NoRepeats;
    var s := P.Run(instance, events);
    TakenOrWaiting(instance, events);
    TakenInHands(instance, events);
    P.QueueValid(instance, events);
    ValidOnce(s.queue);
    MineFacts(s.queue.delivered, s.queue.rows, instance);
    FirstPartOnce(Taken(instance, events), s.pod.inbox);
    SoftOnce(Taken(instance, events), s.queue.rows);
    SoftFacts(Taken(instance, events), s.queue.rows);
  }

  lemma FirstPartOnce(a: seq<nat>, b: seq<nat>)
    requires Q.NoRepeats(a + b)
    ensures Q.NoRepeats(a) && forall k :: 0 <= k < |b| ==> b[k] !in a
    ensures forall j, k :: 0 <= j < k < |b| ==> b[j] != b[k]
  {
    var all := a + b;
    assert forall k :: 0 <= k < |a| ==> a[k] == all[k];
    assert forall k :: 0 <= k < |b| ==> b[k] == all[|a| + k];
  }

  /** The next item to look at waits only there, and the next to apply only there. */
  lemma NextAlone(instance: string, events: seq<P.Event>)
    requires Reliable(events)
    ensures var p := P.Run(instance, events).pod;
      && (p.inbox != [] ==> p.inbox[0] !in p.applying + p.guard.pending + p.inbox[1..])
      && (p.applying != [] ==> p.applying[0] !in p.applying[1..] + p.guard.pending + p.inbox)
  {
    hide P.Run, Taken, Given, Q.NoRepeats;
    var p := P.Run(instance, events).pod;
    Apart(instance, events);
    var taken, given := Taken(instance, events), Given(instance, events);
    FirstPartOnce(taken, p.inbox);
    var rest := p.applying + p.guard.pending;
    assert Hands(instance, events) == given + rest;
    FirstPartOnce(given, rest);
    assert forall i :: i in rest ==> i in Hands(instance, events);
    if p.inbox != [] {
      assert p.inbox[0] !in p.inbox[1..];
      assert p.inbox[0] !in rest;
    }
    if p.applying != [] {
      assert rest[0] == p.applying[0] && rest[1..] == p.applying[1..] + p.guard.pending;
      assert p.applying[0] !in rest[1..];
      assert p.applying[0] in rest;
    }
  }

  /** Every step keeps what waits open. */
  lemma OpenStep(instance: string, events: seq<P.Event>)
    requires events != [] && Reliable(events) && Unfailed(instance, events)
    requires AllOpen(P.Run(instance, events[..|events| - 1]), instance)
    ensures AllOpen(P.Run(instance, events), instance)
  {
    hide P.Run, Q.Valid, Q.Step, Open, Taken, Given, P.NewlyDelivered;
    var n := |events| - 1;
    var s, s', e := P.Run(instance, events[..n]), P.Run(instance, events), events[n];
    LastEvent(instance, events);
    P.QueueValid(instance, events[..n]);
    NextAlone(instance, events[..n]);
    forall i | i in Waiting(s'.pod) ensures Open(s'.queue, instance, i) {
      match e {
        case Backend(a) =>
          if P.Foreign(s.queue, a, instance) {
            OpenInstance(s.queue, instance, i);
            StaysOpen(s.queue, a, instance, i);
          }
        case Poll(now, _) =>
          if !s.pod.stopped && s.pod.inbox == [] {
            ReturnedOpen(s.queue, instance, now);
            if i in Waiting(s.pod) {
              StaysOpen(s.queue, Q.Poll(instance, P.PollLimit, now), instance, i);
            }
          }
        case TakeItem(now, reached) =>
          if s.pod.inbox != [] {
            var first := s.pod.inbox[0];
            assert i in Waiting(s.pod) by {
              assert s.pod.inbox == [first] + s.pod.inbox[1..];
            }
            if s'.queue != s.queue {
              assert i in s.pod.applying + s.pod.guard.pending + s.pod.inbox[1..];
              StaysOpen(s.queue, Q.Ack({first}, now), instance, i);
            }
          }
        case ApplyNext(now, reached) =>
          if s.pod.applying != [] {
            var first := s.pod.applying[0];
            assert i in s.pod.applying[1..] + s.pod.guard.pending + s.pod.inbox;
            assert i in Waiting(s.pod);
            if reached {
              StaysOpen(s.queue, Q.Ack({first}, now), instance, i);
            }
          }
        case _ =>
      }
    }
  }

  lemma OpenInstance(q: Q.Queue, instance: string, i: nat)
    requires Open(q, instance, i)
    ensures i < |q.rows| && q.rows[i].instance == instance
  {
  }

  lemma {:induction false} RunOpen(instance: string, events: seq<P.Event>)
    requires Reliable(events) && Unfailed(instance, events)
    ensures AllOpen(P.Run(instance, events), instance)
  {
    hide P.Next, Reliable, Open;
    if events != [] {
      LastEvent(instance, events);
      RunOpen(instance, events[..|events| - 1]);
      OpenStep(instance, events);
    }
  }

  /** Items held or being applied are no notifications. */
  lemma InHandsSoft(instance: string, events: seq<P.Event>)
    requires Reliable(events)
    ensures var s := P.Run(instance, events);
            s.pod.applying != [] ==> s.pod.applying[0] < |s.queue.rows| && s.queue.rows[s.pod.applying[0]].mode != Q.Notify
  {
    hide P.Run, P.Soft, Taken, Given;
    var s := P.Run(instance, events);
    TakenInHands(instance, events);
    SoftFacts(Taken(instance, events), s.queue.rows);
    if s.pod.applying != [] {
      assert Hands(instance, events)[|Given(instance, events)|] == s.pod.applying[0];
      assert s.pod.applying[0] in Hands(instance, events);
    }
  }

  /** What one event adds to the applied rows of the instance. */
  lemma AppliedStep(instance: string, events: seq<P.Event>)
    requires events != [] && Reliable(events) && Unfailed(instance, events) && Answered(events)
    ensures var n := |events| - 1;
      var s, s' := P.Run(instance, events[..n]), P.Run(instance, events);
      P.AppliedFor(s'.queue.events, s'.queue.rows, instance)
      == P.AppliedFor(s.queue.events, s.queue.rows, instance)
         + if events[n].ApplyNext? && s.pod.applying != [] then [s.pod.applying[0]] else []
  {
    hide P.Run, Q.Valid, Q.Step, Open, P.AppliedFor, P.Acknowledged, P.Foreign, Reliable;
    var n := |events| - 1;
    var s, s', e := P.Run(instance, events[..n]), P.Run(instance, events), events[n];
    LastEvent(instance, events);
    P.QueueValid(instance, events[..n]);
    RunOpen(instance, events[..n]);
    InHandsSoft(instance, events[..n]);
    var applied := P.AppliedFor(s.queue.events, s.queue.rows, instance);
    assert applied + [] == applied;
    match e {
      case Backend(a) => if P.Foreign(s.queue, a, instance) { P.ForeignApplied(s.queue, a, instance); }
      case Poll(now, _) => P.ForeignApplied(s.queue, Q.Poll(instance, P.PollLimit, now), instance);
      case TakeItem(now, reached) =>
        if s.pod.inbox != [] {
          assert s.pod.inbox[0] in Waiting(s.pod);
          OpenInstance(s.queue, instance, s.pod.inbox[0]);
          AckApplies(s.queue, s.pod.inbox[0], now, instance);
        }
      case ApplyNext(now, reached) =>
        if s.pod.applying != [] {
          assert s.pod.applying[0] in Waiting(s.pod);
          AckApplies(s.queue, s.pod.applying[0], now, instance);
        }
      case _ =>
    }
  }

  lemma AnsweredBefore(events: seq<P.Event>)
    requires Answered(events) && events != []
    ensures Answered(events[..|events| - 1])
  {
    var n := |events| - 1;
    assert forall k :: 0 <= k < n ==> events[..n][k] == events[k];
  }

  lemma {:induction false} AppliedIsGiven(instance: string, events: seq<P.Event>)
    requires Reliable(events) && Unfailed(instance, events) && Answered(events)
    ensures var q := P.Run(instance, events).queue;
            P.AppliedFor(q.events, q.rows, instance) == Given(instance, events)
  {
    hide P.Next, Reliable, Answered, P.AppliedFor;
    if events == [] {
      NothingApplied(instance);
    } else {
      LastEvent(instance, events);
      AnsweredBefore(events);
      AppliedIsGiven(instance, events[..|events| - 1]);
      AppliedStep(instance, events);
    }
  }

  lemma NothingApplied(instance: string)
    ensures P.AppliedFor(P.Start.queue.events, P.Start.queue.rows, instance) == []
  {
  }

  /** Over every reliable run in which the acknowledgements arrive and nobody else fails the
      instance's rows: the soft injects and wakes that polls returned are, in that order and
      each once, applied, being applied, held, or in the inbox. */
  lemma AllAccountedFor(instance: string, events: seq<P.Event>)
    requires Reliable(events) && Unfailed(instance, events) && Answered(events)
    ensures var s := P.Run(instance, events);
      P.Soft(Mine(s.queue.delivered, s.queue.rows, instance), s.queue.rows)
      == P.AppliedFor(s.queue.events, s.queue.rows, instance) + s.pod.applying + s.pod.guard.pending + P.Soft(s.pod.inbox, s.queue.rows)
  {
    hide P.Run, P.Soft, Mine, P.AppliedFor, Given;
    NothingLost(instance, events);
    AppliedIsGiven(instance, events);
  }

  predicate NotifiedAcked(items: seq<nat>, rows: seq<Q.Row>) {
    forall i :: i in items && i < |rows| && rows[i].mode == Q.Notify ==> rows[i].status == Q.Acked
  }

  /** An acknowledged row of the instance stays so, if nobody fails it. */
  lemma AckedStays(s: P.System, instance: string, e: P.Event, i: nat)
    requires Q.Valid(s.queue) && i < |s.queue.rows| && s.queue.rows[i].status == Q.Acked
    requires e.Backend? && e.action.Fail? ==> e.action.row != i
    ensures var rows := P.Next(s, instance, e).queue.rows; i < |rows| && rows[i].status == Q.Acked
  {
    hide Q.Valid, Q.Step, P.Foreign;
    match e {
      case Backend(a) => Q.StepMoves(s.queue, a);
      case Poll(now, _) => Q.StepMoves(s.queue, Q.Poll(instance, P.PollLimit, now));
      case TakeItem(now, _) => if s.pod.inbox != [] { Q.StepMoves(s.queue, Q.Ack({s.pod.inbox[0]}, now)); }
      case ApplyNext(now, _) => if s.pod.applying != [] { Q.StepMoves(s.queue, Q.Ack({s.pod.applying[0]}, now)); }
      case _ =>
    }
  }

  lemma NotifyTaken(s: P.System, instance: string, now: int, reached: bool)
    requires Q.Valid(s.queue) && s.pod.inbox != [] && Open(s.queue, instance, s.pod.inbox[0]) && reached
    requires s.queue.rows[s.pod.inbox[0]].mode == Q.Notify
    ensures var i, rows := s.pod.inbox[0], P.Next(s, instance, P.TakeItem(now, reached)).queue.rows;
            i < |rows| && rows[i].status == Q.Acked
  {
    hide Q.Valid, P.Acknowledged, P.AppliedFor;
    AckApplies(s.queue, s.pod.inbox[0], now, instance);
  }

  lemma TakenMine(instance: string, events: seq<P.Event>)
    requires Reliable(events)
    ensures var rows := P.Run(instance, events).queue.rows;
            forall i :: i in Taken(instance, events) ==> i < |rows| && rows[i].instance == instance
  {
    hide P.Run, Taken, Mine;
    var s := P.Run(instance, events);
    TakenOrWaiting(instance, events);
    MineFacts(s.queue.delivered, s.queue.rows, instance);
    forall i | i in Taken(instance, events) ensures i < |s.queue.rows| && s.queue.rows[i].instance == instance {
      var k :| 0 <= k < |Taken(instance, events)| && Taken(instance, events)[k] == i;
      assert (Taken(instance, events) + s.pod.inbox)[k] == i;
    }
  }

  /** Under the same conditions every notification that the pod looked at is acknowledged. */
  lemma {:induction false} NotificationsAcked(instance: string, events: seq<P.Event>)
    requires Reliable(events) && Unfailed(instance, events) && Answered(events)
    ensures NotifiedAcked(Taken(instance, events), P.Run(instance, events).queue.rows)
  {
    hide P.Next, P.Run, Reliable, Answered, Q.Valid, Open, Q.TableEvolves;
    if events != [] {
      var n := |events| - 1;
      var s, s', e := P.Run(instance, events[..n]), P.Run(instance, events), events[n];
      LastEvent(instance, events);
      AnsweredBefore(events);
      NotificationsAcked(instance, events[..n]);
      P.QueueValid(instance, events[..n]);
      RunOpen(instance, events[..n]);
      TakenMine(instance, events[..n]);
      RowsGrew(instance, events);
      var taken := Taken(instance, events[..n]);
      forall i | i in Taken(instance, events) && i < |s'.queue.rows| && s'.queue.rows[i].mode == Q.Notify
        ensures s'.queue.rows[i].status == Q.Acked
      {
        if i in taken {
          SameMode(s.queue.rows, s'.queue.rows, i);
          AckedStays(s, instance, e, i);
        } else {
          assert e.TakeItem? && s.pod.inbox != [] && i == s.pod.inbox[0];
          assert i in Waiting(s.pod);
          OpenInstance(s.queue, instance, i);
          SameMode(s.queue.rows, s'.queue.rows, i);
          AnsweredLast(events);
          NotifyTaken(s, instance, e.now, e.reached);
        }
      }
    }
  }

  lemma AnsweredLast(events: seq<P.Event>)
    requires events != [] && Answered(events) && events[|events| - 1].TakeItem?
    ensures events[|events| - 1].reached
  {
  }

  lemma SameMode(rows: seq<Q.Row>, rows': seq<Q.Row>, i: nat)
    requires Q.TableEvolves(rows, rows') && i < |rows|
    ensures i < |rows'| && rows'[i].mode == rows[i].mode
  {
  }

  // ---------------------------------------------------------------------------
  // The pod can always finish
  // ---------------------------------------------------------------------------

  /** Something only the pod and its tools do, with acknowledgements that arrive. */
  predicate PodsOwn(e: P.Event) {
    e.SafePoint? || e.ToolResults? || (e.TakeItem? && e.reached) || (e.ApplyNext? && e.reached)
  }

  lemma RunMore(instance: string, events: seq<P.Event>, e: P.Event)
    ensures P.Run(instance, events + [e]) == P.Next(P.Run(instance, events), instance, e)
  {
    assert (events + [e])[..|events|] == events;
  }

  /** From any run the pod can empty its hands: look at what it received, see its tools finish, and
      apply what is released. */
  lemma {:induction false} Finishes(instance: string, events: seq<P.Event>) returns (more: seq<P.Event>)
    ensures forall k :: 0 <= k < |more| ==> PodsOwn(more[k])
    ensures Waiting(P.Run(instance, events + more).pod) == []
    decreases |P.Run(instance, events).pod.inbox|, |P.Run(instance, events).pod.guard.pending|,
              P.Run(instance, events).pod.guard.outstanding, |P.Run(instance, events).pod.applying|
  {
    hide P.Run, Q.Step;
    var p := P.Run(instance, events).pod;
    if Waiting(p) == [] {
      more := [];
      assert events + more == events;
    } else {
      var e := if p.inbox != [] then P.TakeItem(0, true)
               else if p.applying != [] then P.ApplyNext(0, true)
               else if p.guard.outstanding > 0 then P.ToolResults else P.SafePoint;
      RunMore(instance, events, e);
      var rest := Finishes(instance, events + [e]);
      more := [e] + rest;
      assert events + more == events + [e] + rest;
    }
  }

  lemma {:induction false} GoesOn(instance: string, events: seq<P.Event>, more: seq<P.Event>)
    requires Reliable(events) && Unfailed(instance, events) && Answered(events)
    requires forall k :: 0 <= k < |more| ==> PodsOwn(more[k])
    ensures Reliable(events + more) && Answered(events + more) && Unfailed(instance, events + more)
    decreases |more|
  {
    hide Reliable, Answered, Unfailed, PodsOwn;
    if more == [] {
      assert events + more == events;
    } else {
      var n := |more| - 1;
      GoesOn(instance, events, more[..n]);
      OwnEventMore(instance, events + more[..n], more[n]);
      assert events + more == events + more[..n] + [more[n]];
    }
  }

  lemma OwnEventMore(instance: string, events: seq<P.Event>, e: P.Event)
    requires Reliable(events) && Unfailed(instance, events) && Answered(events) && PodsOwn(e)
    ensures Reliable(events + [e]) && Answered(events + [e]) && Unfailed(instance, events + [e])
  {
    hide P.Run;
    assert (events + [e])[..|events|] == events;
  }

  /** So nothing that a poll returned need be lost: from every such run the pod can go on until the
      soft injects and wakes returned to it are exactly the ones applied, in order. */
  lemma EverythingApplied(instance: string, events: seq<P.Event>) returns (more: seq<P.Event>)
    requires Reliable(events) && Unfailed(instance, events) && Answered(events)
    ensures forall k :: 0 <= k < |more| ==> PodsOwn(more[k])
    ensures var q := P.Run(instance, events + more).queue;
            P.AppliedFor(q.events, q.rows, instance) == P.Soft(Mine(q.delivered, q.rows, instance), q.rows)
  {
    hide P.Run, Mine, P.AppliedFor, PodsOwn, Reliable, Answered, Unfailed;
    more := Finishes(instance, events);
    GoesOn(instance, events, more);
    AllAccountedFor(instance, events + more);
    var p, q := P.Run(instance, events + more).pod, P.Run(instance, events + more).queue;
    assert p.applying == [] && p.guard.pending == [] && p.inbox == [];
    var applied := P.AppliedFor(q.events, q.rows, instance);
    assert applied + [] + [] + [] == applied;
  }

  // ---------------------------------------------------------------------------
  // Tools
  // ---------------------------------------------------------------------------

  /** What a run does to the guard: items that must wait, tool uses and results that the main loop
      meets, and its safe points. */
  function GuardOps(instance: string, events: seq<P.Event>): seq<SP.Op<nat>> {
    if events == [] then []
    else
      var n := |events| - 1;
      var s := P.Run(instance, events[..n]);
      GuardOps(instance, events[..n])
      + match events[n]
        case TakeItem(_, _) =>
          if s.pod.inbox != [] && s.pod.inbox[0] < |s.queue.rows| && s.queue.rows[s.pod.inbox[0]].mode != Q.Notify
          then [SP.Hold(s.pod.inbox[0])] else []
        case ToolUse => if s.pod.applying == [] then [SP.ToolUse] else []
        case ToolResults => if s.pod.applying == [] then [SP.ToolResults] else []
        case SafePoint => if s.pod.applying == [] then [SP.Flush] else []
        case _ => []
  }

  lemma OneMoreOp(ops: seq<SP.Op<nat>>, more: seq<SP.Op<nat>>)
    requires |more| <= 1
    ensures SP.Run(ops + more).guard == if more == [] then SP.Run(ops).guard else SP.Apply(SP.Run(ops).guard, more[0]).guard
  {
    if more == [] {
      assert ops + more == ops;
    } else {
      assert (ops + more)[..|ops|] == ops;
    }
  }

  lemma GuardStep(s: P.System, instance: string, e: P.Event)
    ensures P.Next(s, instance, e).pod.guard == match e
      case TakeItem(_, _) =>
        if s.pod.inbox != [] && s.pod.inbox[0] < |s.queue.rows| && s.queue.rows[s.pod.inbox[0]].mode != Q.Notify
        then SP.Apply(s.pod.guard, SP.Hold(s.pod.inbox[0])).guard else s.pod.guard
      case ToolUse => if s.pod.applying == [] then SP.Apply(s.pod.guard, SP.ToolUse).guard else s.pod.guard
      case ToolResults => if s.pod.applying == [] then SP.Apply(s.pod.guard, SP.ToolResults).guard else s.pod.guard
      case SafePoint => if s.pod.applying == [] then SP.Apply(s.pod.guard, SP.Flush).guard else s.pod.guard
      case _ => s.pod.guard
  {
    hide Q.Step, P.Foreign, P.Acknowledged;
  }

  lemma {:induction false} GuardFollows(instance: string, events: seq<P.Event>)
    ensures P.Run(instance, events).pod.guard == SP.Run(GuardOps(instance, events)).guard
  {
    hide P.Next, SP.Apply, SP.Run;
    if events == [] {
      StartGuard();
    } else {
      var n := |events| - 1;
      GuardFollows(instance, events[..n]);
      GuardStep(P.Run(instance, events[..n]), instance, events[n]);
      var before := GuardOps(instance, events[..n]);
      var more := GuardOps(instance, events)[|before|..];
      assert GuardOps(instance, events) == before + more;
      OneMoreOp(before, more);
    }
  }

  lemma StartGuard()
    ensures SP.Run<nat>([]).guard == P.Start.pod.guard
  {
  }

  /** Whenever a row of the instance is applied, every tool use that the main loop met has its
      results: from no point on were there more uses than results. */
  lemma AppliedBetweenTools(instance: string, events: seq<P.Event>, e: P.Event)
    requires Q.KeysGrow(P.Run(instance, events).queue.rows, instance)
    requires var s, s' := P.Run(instance, events), P.Next(P.Run(instance, events), instance, e);
      P.AppliedFor(s'.queue.events, s'.queue.rows, instance) != P.AppliedFor(s.queue.events, s.queue.rows, instance)
    ensures SP.Safe(GuardOps(instance, events))
  {
    hide P.Run, P.Next, P.AppliedFor, Q.KeysGrow;
    P.AppliedAtSafePoint(instance, events, e);
    GuardFollows(instance, events);
    SP.SafeExactly(GuardOps(instance, events));
  }

  // ---------------------------------------------------------------------------
  // What is lost is lost for good
  // ---------------------------------------------------------------------------

  /** A poll returned the row and the pod does not have it. */
  predicate Gone(s: P.System, i: nat) {
    i in s.queue.delivered && i !in Waiting(s.pod)
  }

  lemma PollOnce(q: Q.Queue, instance: string, now: int)
    requires Q.Valid(q)
    ensures var q' := Q.Step(q, Q.Poll(instance, P.PollLimit, now));
      q.delivered <= q'.delivered && forall i :: i in q.delivered ==> i !in P.NewlyDelivered(q, q')
  {
    hide Q.Valid, Q.Step;
    var q' := Q.Step(q, Q.Poll(instance, P.PollLimit, now));
    PollAdds(q, instance, P.PollLimit, now);
    Q.StepValid(q, Q.Poll(instance, P.PollLimit, now));
    ValidOnce(q');
    assert q'.delivered == q.delivered + P.NewlyDelivered(q, q');
    FirstPartOnce(q.delivered, P.NewlyDelivered(q, q'));
  }

  lemma StaysGone(s: P.System, instance: string, e: P.Event, i: nat)
    requires Q.Valid(s.queue) && Gone(s, i)
    ensures Gone(P.Next(s, instance, e), i)
  {
    hide Q.Valid, Q.Step, P.Foreign, P.NewlyDelivered;
    match e {
      case Backend(a) => P.ForeignDelivers(s.queue, a);
      case Poll(now, _) => PollOnce(s.queue, instance, now);
      case TakeItem(now, reached) => if s.pod.inbox != [] { AckAdds(s.queue, s.pod.inbox[0], now, reached, instance); }
      case ApplyNext(now, reached) => if s.pod.applying != [] { AckAdds(s.queue, s.pod.applying[0], now, reached, instance); }
      case _ =>
    }
  }

  /** A row whose response did not reach the pod, or that a cancellation dropped, is never returned
      again: however the run goes on, the main loop is not given it. */
  lemma {:induction false} LostForGood(instance: string, events: seq<P.Event>, i: nat, more: seq<P.Event>)
    requires Gone(P.Run(instance, events), i)
    ensures Gone(P.Run(instance, events + more), i)
    ensures i in Given(instance, events + more) ==> i in Given(instance, events)
    decreases |more|
  {
    hide P.Next, P.Run, Q.Valid;
    if more == [] {
      assert events + more == events;
    } else {
      var n := |more| - 1;
      var before := events + more[..n];
      LostForGood(instance, events, i, more[..n]);
      assert events + more == before + [more[n]] && (before + [more[n]])[..|before|] == before;
      RunMore(instance, before, more[n]);
      P.QueueValid(instance, before);
      StaysGone(P.Run(instance, before), instance, more[n], i);
    }
  }
}

/** An agent pod at work on the inject queue: its control poll, its guard and its main loop,
    interleaved at every point where one of them waits. */
module PodLoop {
  import opened Prelude
  import Q = InjectQueue
  import SP = SafePoint

  /** What becomes of the response to a poll: it is received, it is lost on the way, or it
      carries a kill and its injects are not looked at. */
  datatype Fate = Received | Lost | Kill

  /** Items received but not looked at, the guard, and released items not yet acknowledged. */
  datatype Pod = Pod(inbox: seq<nat>, guard: SP.Guard<nat>, applying: seq<nat>, stopped: bool)

  datatype System = System(queue: Q.Queue, pod: Pod)

  const PollLimit: nat := 20

  datatype Event =
    | Backend(action: Q.Action)
    | Poll(now: int, fate: Fate)
    | TakeItem(now: int, reached: bool)
    | ToolUse
    | ToolResults
    | SafePoint
    | ApplyNext(now: int, reached: bool)
    | Cancel

  const Start := System(Q.EmptyQueue, Pod([], SP.Guard([], 0), [], false))

  /** An action that leaves polling and acknowledging the instance's rows to its pod. */
  predicate Foreign(q: Q.Queue, a: Q.Action, instance: string) {
    match a
    case Poll(other, _, _) => other != instance
    case Ack(asked, _) => forall i :: i in asked && i < |q.rows| ==> q.rows[i].instance != instance
    case _ => true
  }

  /** One acknowledgement, if the request reaches the backend. */
  function Acknowledged(q: Q.Queue, i: nat, now: int, reached: bool): Q.Queue {
    if reached then Q.Step(q, Q.Ack({i}, now)) else q
  }

  function NewlyDelivered(before: Q.Queue, after: Q.Queue): seq<nat> {
    if |before.delivered| <= |after.delivered| then after.delivered[|before.delivered|..] else []
  }

  function Next(s: System, instance: string, e: Event): System {
    var q, p := s.queue, s.pod;
    match e
    case Backend(action) => if Foreign(q, action, instance) then s.(queue := Q.Step(q, action)) else s
    case Poll(now, fate) =>
      if p.stopped || p.inbox != [] then s
      else
        var q' := Q.Step(q, Q.Poll(instance, PollLimit, now));
        System(q', if fate == Received then p.(inbox := NewlyDelivered(q, q')) else p.(stopped := fate == Kill))
    case TakeItem(now, reached) =>
      if p.inbox == [] then s
      else
        var i, p' := p.inbox[0], p.(inbox := p.inbox[1..]);
        if i < |q.rows| && q.rows[i].mode != Q.Notify then s.(pod := p'.(guard := SP.Apply(p.guard, SP.Hold(i)).guard))
        else System(Acknowledged(q, i, now, reached), p')
    // The main loop runs in one task: it meets no tools while it applies what it released.
    case ToolUse => if p.applying != [] then s else s.(pod := p.(guard := SP.Apply(p.guard, SP.ToolUse).guard))
    case ToolResults => if p.applying != [] then s else s.(pod := p.(guard := SP.Apply(p.guard, SP.ToolResults).guard))
    case SafePoint =>
      if p.applying != [] then s
      else
        var f := SP.Apply(p.guard, SP.Flush);
        s.(pod := p.(guard := f.guard, applying := f.released))
    case ApplyNext(now, reached) =>
      if p.applying == [] then s
      else System(Acknowledged(q, p.applying[0], now, reached), p.(applying := p.applying[1..]))
    case Cancel => s.(pod := p.(inbox := [], stopped := true))
  }

  function Run(instance: string, events: seq<Event>): System {
    if events == [] then Start else Next(Run(instance, events[..|events| - 1]), instance, events[|events| - 1])
  }

  // ---------------------------------------------------------------------------
  // What was applied
  // ---------------------------------------------------------------------------

  /** The rows of the instance in the order of their applied events. */
  function AppliedFor(events: seq<Q.Event>, rows: seq<Q.Row>, instance: string): seq<nat> {
    if events == [] then []
    else
      var e := events[|events| - 1];
      AppliedFor(events[..|events| - 1], rows, instance)
      + if e.Applied? && e.row < |rows| && rows[e.row].instance == instance then [e.row] else []
  }

  function Soft(items: seq<nat>, rows: seq<Q.Row>): seq<nat> {
    if items == [] then []
    else (if items[0] < |rows| && rows[items[0]].mode != Q.Notify then [items[0]] else []) + Soft(items[1..], rows)
  }

  /** Everything the pod was given to hold, in order: applied, being applied, held, on its way. */
  function Chain(s: System, instance: string): seq<nat> {
    AppliedFor(s.queue.events, s.queue.rows, instance) + s.pod.applying + s.pod.guard.pending + Soft(s.pod.inbox, s.queue.rows)
  }

  predicate Increasing(s: seq<nat>) {
    forall j, k :: 0 <= j < k < |s| ==> s[j] < s[k]
  }

  /** Rows of the instance that a poll has returned. */
  predicate Own(items: seq<nat>, q: Q.Queue, instance: string) {
    forall k :: 0 <= k < |items| ==> items[k] < |q.rows| && q.rows[items[k]].instance == instance && items[k] in q.delivered
  }

  predicate Inv(s: System, instance: string) {
    && Q.Valid(s.queue) && Q.InOrder(s.queue, instance)
    && Increasing(Chain(s, instance)) && Own(Chain(s, instance), s.queue, instance) && Own(s.pod.inbox, s.queue, instance)
  }

  lemma {:induction false} AppliedStable(events: seq<Q.Event>, rows: seq<Q.Row>, rows': seq<Q.Row>, instance: string)
    requires Q.TableEvolves(rows, rows') && forall k :: 0 <= k < |events| ==> events[k].row < |rows|
    ensures AppliedFor(events, rows', instance) == AppliedFor(events, rows, instance)
  {
    if events != [] {
      AppliedStable(events[..|events| - 1], rows, rows', instance);
    }
  }

  lemma AppliedAppend(events: seq<Q.Event>, e: Q.Event, rows: seq<Q.Row>, instance: string)
    ensures AppliedFor(events + [e], rows, instance)
            == AppliedFor(events, rows, instance)
               + if e.Applied? && e.row < |rows| && rows[e.row].instance == instance then [e.row] else []
  {
    assert (events + [e])[..|events|] == events;
  }

  lemma {:induction false} SoftStable(items: seq<nat>, rows: seq<Q.Row>, rows': seq<Q.Row>)
    requires Q.TableEvolves(rows, rows') && forall k :: 0 <= k < |items| ==> items[k] < |rows|
    ensures Soft(items, rows') == Soft(items, rows)
  {
    if items != [] {
      SoftStable(items[1..], rows, rows');
    }
  }

  /** Nothing becomes earlier by filtering. */
  lemma {:induction false} SoftAbove(items: seq<nat>, rows: seq<Q.Row>, x: nat)
    requires forall k :: 0 <= k < |items| ==> x < items[k]
    ensures forall k :: 0 <= k < |Soft(items, rows)| ==> x < Soft(items, rows)[k]
  {
    if items != [] {
      SoftAbove(items[1..], rows, x);
    }
  }

  lemma {:induction false} SoftOwn(items: seq<nat>, q: Q.Queue, instance: string)
    requires Own(items, q, instance)
    ensures Own(Soft(items, q.rows), q, instance)
  {
    if items != [] {
      SoftOwn(items[1..], q, instance);
    }
  }

  lemma {:induction false} SoftOf(items: seq<nat>, rows: seq<Q.Row>)
    requires Increasing(items)
    ensures Increasing(Soft(items, rows))
  {
    if items != [] {
      SoftOf(items[1..], rows);
      SoftAbove(items[1..], rows, items[0]);
    }
  }

  // ---------------------------------------------------------------------------
  // Steps of the backend, seen from the instance
  // ---------------------------------------------------------------------------

  lemma {:induction false} PickKeepsEvents(q: Q.Queue, other: string, now: int, limit: nat)
    ensures Q.PickedAll(q, other, now, limit).events == q.events
    decreases limit
  {
    hide Q.Oldest;
    var i := Q.Oldest(q.rows, other, now, |q.rows|);
    if limit > 0 && i.Some? {
      PickKeepsEvents(Q.Picked(q, i.value, now), other, now, limit - 1);
    }
  }

  lemma {:induction false} ForeignAck(q: Q.Queue, asked: set<nat>, now: int, n: nat, instance: string)
    requires n <= |q.rows| && forall i :: i in asked && i < |q.rows| ==> q.rows[i].instance != instance
    ensures AppliedFor(Q.AckedRows(q, asked, now, n).events, q.rows, instance) == AppliedFor(q.events, q.rows, instance)
  {
    hide AppliedFor;
    if n > 0 {
      ForeignAck(q, asked, now, n - 1, instance);
      AppliedAppend(Q.AckedRows(q, asked, now, n - 1).events, Q.Applied(n - 1), q.rows, instance);
    }
  }

  lemma EnqueueApplies(q: Q.Queue, a: Q.Action, instance: string)
    requires a.Enqueue?
    ensures AppliedFor(Q.Step(q, a).events, Q.Step(q, a).rows, instance) == AppliedFor(q.events, Q.Step(q, a).rows, instance)
  {
    hide AppliedFor;
    var n, rows := |q.rows|, Q.Step(q, a).rows;
    AppliedAppend(q.events, Q.Requested(n), rows, instance);
    assert (q.events + [Q.Requested(n)]) + [] == q.events + [Q.Requested(n)];
    AppliedAppend(q.events + [Q.Requested(n)], Q.CapabilityInjected(n), rows, instance);
    AppliedAppend(q.events + [Q.Requested(n)], Q.GeneInjected(n), rows, instance);
  }

  lemma ForeignApplied(q: Q.Queue, a: Q.Action, instance: string)
    requires Q.Valid(q) && (Foreign(q, a, instance) || a.Poll?)
    ensures AppliedFor(Q.Step(q, a).events, Q.Step(q, a).rows, instance) == AppliedFor(q.events, q.rows, instance)
  {
    hide Q.Valid, Q.PickedAll, Q.AckedRows, Q.TableEvolves, AppliedFor, Q.Enqueued;
    var q' := Q.Step(q, a);
    Q.StepEvolves(q, a);
    EventsInTable(q);
    AppliedStable(q.events, q.rows, q'.rows, instance);
    match a {
      case Enqueue(_, _, _, _, _, _, _) => EnqueueApplies(q, a, instance);
      case Poll(other, limit, now) => PickKeepsEvents(q.(rows := Q.ExpiredRows(q.rows, Some(other), now)), other, now, limit);
      case Ack(asked, now) =>
        ForeignAck(q, asked, now, |q.rows|, instance);
        AckStable(q, a, instance);
      case Fail(row, message, now) => AppliedAppend(q.events, Q.FailureNoted(row, message), q'.rows, instance);
      case _ =>
    }
  }

  lemma EventsInTable(q: Q.Queue)
    requires Q.Valid(q)
    ensures forall k :: 0 <= k < |q.events| ==> q.events[k].row < |q.rows|
  {
  }

  lemma AckStable(q: Q.Queue, a: Q.Action, instance: string)
    requires Q.Valid(q) && a.Ack?
    ensures AppliedFor(Q.Step(q, a).events, Q.Step(q, a).rows, instance) == AppliedFor(Q.Step(q, a).events, q.rows, instance)
  {
    hide Q.AckedRows;
    Q.StepEvolves(q, a);
    Q.StepValid(q, a);
    AppliedStable(Q.Step(q, a).events, q.rows, Q.Step(q, a).rows, instance);
  }

  lemma {:induction false} OneAck(q: Q.Queue, i: nat, now: int, n: nat)
    requires i < |q.rows| && n <= |q.rows|
    ensures Q.AckedRows(q, {i}, now, n) == if n <= i || q.rows[i].deleted then q else Q.AckedOne(q, i, now)
  {
    if n > 0 {
      OneAck(q, i, now, n - 1);
    }
  }

  /** An acknowledgement adds at most the row itself to what was applied. */
  lemma OwnAck(q: Q.Queue, i: nat, now: int, reached: bool, instance: string)
    requires Q.Valid(q) && i < |q.rows| && q.rows[i].instance == instance
    ensures var q' := Acknowledged(q, i, now, reached);
      var before, after := AppliedFor(q.events, q.rows, instance), AppliedFor(q'.events, q'.rows, instance);
      (after == before || (after == before + [i] && q.rows[i].mode != Q.Notify))
      && Q.TableEvolves(q.rows, q'.rows) && q'.delivered == q.delivered
  {
    hide Q.AckedRows, Q.Valid;
    if reached {
      OneAck(q, i, now, |q.rows|);
      AckStable(q, Q.Ack({i}, now), instance);
      Q.StepEvolves(q, Q.Ack({i}, now));
      AppliedAppend(q.events, Q.Applied(i), q.rows, instance);
    }
  }

  // ---------------------------------------------------------------------------
  // Every step keeps the order
  // ---------------------------------------------------------------------------

  lemma QueueStep(q: Q.Queue, a: Q.Action, instance: string)
    requires Q.Valid(q) && Q.InOrder(q, instance) && Q.KeysGrow(Q.Step(q, a).rows, instance)
    ensures var q' := Q.Step(q, a);
      Q.Valid(q') && Q.InOrder(q', instance) && Q.TableEvolves(q.rows, q'.rows)
  {
    hide Q.Step, Q.Valid, Q.InOrder, Q.TableEvolves, Q.KeysGrow;
    Q.StepValid(q, a);
    Q.StepEvolves(q, a);
    Q.StepInOrder(q, a, instance);
  }

  lemma OwnStable(items: seq<nat>, q: Q.Queue, q': Q.Queue, instance: string)
    requires Own(items, q, instance) && Q.TableEvolves(q.rows, q'.rows) && q.delivered <= q'.delivered
    ensures Own(items, q', instance)
  {
  }

  lemma ForeignDelivers(q: Q.Queue, a: Q.Action)
    ensures q.delivered <= Q.Step(q, a).delivered
  {
    hide Q.PickedAll, Q.AckedRows;
    match a {
      case Poll(other, limit, now) =>
        Q.PollTakesReady(q.(rows := Q.ExpiredRows(q.rows, Some(other), now)), other, now, limit);
      case Ack(asked, now) => Q.AckDelivers(q, asked, now, |q.rows|);
      case _ =>
    }
  }

  lemma BackendStep(s: System, a: Q.Action, instance: string)
    requires Inv(s, instance) && Foreign(s.queue, a, instance) && Q.KeysGrow(Q.Step(s.queue, a).rows, instance)
    ensures Inv(s.(queue := Q.Step(s.queue, a)), instance)
  {
    hide Q.Step, Q.Valid, Q.InOrder, Q.TableEvolves, Q.KeysGrow, Foreign;
    var q, q' := s.queue, Q.Step(s.queue, a);
    QueueStep(q, a, instance);
    ForeignApplied(q, a, instance);
    ForeignDelivers(q, a);
    SoftStable(s.pod.inbox, q.rows, q'.rows);
    OwnStable(Chain(s, instance), q, q', instance);
    OwnStable(s.pod.inbox, q, q', instance);
  }

  /** What a poll of the instance returns comes after everything it returned before. */
  lemma PollReturns(q: Q.Queue, instance: string, now: int)
    requires Q.Valid(q) && Q.InOrder(q, instance) && Q.KeysGrow(Q.Step(q, Q.Poll(instance, PollLimit, now)).rows, instance)
    ensures var q' := Q.Step(q, Q.Poll(instance, PollLimit, now));
      var items := NewlyDelivered(q, q');
      && Own(items, q', instance) && Increasing(items)
      && forall x, k :: x in q.delivered && x < |q.rows| && q.rows[x].instance == instance && 0 <= k < |items| ==> x < items[k]
  {
    hide Q.Valid, Q.KeysGrow, Q.Step, Q.InOrder, Q.TableEvolves, Own, Increasing;
    var a := Q.Poll(instance, PollLimit, now);
    var q' := Q.Step(q, a);
    QueueStep(q, a, instance);
    PollOwn(q, instance, now);
    NewInOrder(q, q', instance);
  }

  lemma NewInOrder(q: Q.Queue, q': Q.Queue, instance: string)
    requires q.delivered <= q'.delivered && Q.InOrder(q', instance) && Q.TableEvolves(q.rows, q'.rows)
    requires forall k :: |q.delivered| <= k < |q'.delivered| ==>
               q'.delivered[k] < |q'.rows| && q'.rows[q'.delivered[k]].instance == instance
    ensures var items := NewlyDelivered(q, q');
      && Own(items, q', instance) && Increasing(items)
      && forall x, k :: x in q.delivered && x < |q.rows| && q.rows[x].instance == instance && 0 <= k < |items| ==> x < items[k]
  {
    hide Own, Increasing, Q.InOrder, Q.TableEvolves;
    NewOwn(q, q', instance);
    NewIncreasing(q, q', instance);
    var items, n := NewlyDelivered(q, q'), |q.delivered|;
    forall x | x in q.delivered && x < |q.rows| && q.rows[x].instance == instance
      ensures forall k :: 0 <= k < |items| ==> x < items[k]
    {
      var j :| 0 <= j < n && q.delivered[j] == x;
      OlderFirst(q, q', instance, j);
    }
  }

  lemma NewOwn(q: Q.Queue, q': Q.Queue, instance: string)
    requires q.delivered <= q'.delivered
    requires forall k :: |q.delivered| <= k < |q'.delivered| ==>
               q'.delivered[k] < |q'.rows| && q'.rows[q'.delivered[k]].instance == instance
    ensures Own(NewlyDelivered(q, q'), q', instance)
  {
    var items, n := NewlyDelivered(q, q'), |q.delivered|;
    forall k | 0 <= k < |items| ensures items[k] == q'.delivered[n + k] && items[k] in q'.delivered {
    }
  }

  lemma NewIncreasing(q: Q.Queue, q': Q.Queue, instance: string)
    requires q.delivered <= q'.delivered && Q.InOrder(q', instance)
    requires forall k :: |q.delivered| <= k < |q'.delivered| ==>
               q'.delivered[k] < |q'.rows| && q'.rows[q'.delivered[k]].instance == instance
    ensures Increasing(NewlyDelivered(q, q'))
  {
    var items, n := NewlyDelivered(q, q'), |q.delivered|;
    forall j, k | 0 <= j < k < |items| ensures items[j] < items[k] {
      assert items[j] == q'.delivered[n + j] && items[k] == q'.delivered[n + k];
    }
  }

  lemma OlderFirst(q: Q.Queue, q': Q.Queue, instance: string, j: nat)
    requires q.delivered <= q'.delivered && Q.InOrder(q', instance) && Q.TableEvolves(q.rows, q'.rows)
    requires forall k :: |q.delivered| <= k < |q'.delivered| ==>
               q'.delivered[k] < |q'.rows| && q'.rows[q'.delivered[k]].instance == instance
    requires j < |q.delivered| && q.delivered[j] < |q.rows| && q.rows[q.delivered[j]].instance == instance
    ensures forall k :: 0 <= k < |NewlyDelivered(q, q')| ==> q.delivered[j] < NewlyDelivered(q, q')[k]
  {
    assert q'.delivered[j] == q.delivered[j] && Q.Evolves(q.rows[q.delivered[j]], q'.rows[q.delivered[j]]);
  }

  lemma PollOwn(q: Q.Queue, instance: string, now: int)
    requires Q.Valid(q)
    ensures var q' := Q.Step(q, Q.Poll(instance, PollLimit, now));
      && q.delivered <= q'.delivered
      && forall k :: |q.delivered| <= k < |q'.delivered| ==>
           q'.delivered[k] < |q'.rows| && q'.rows[q'.delivered[k]].instance == instance
  {
    hide Q.Valid, Q.PickedAll;
    Q.StepEvolves(q, Q.Poll(instance, PollLimit, now));
    Q.PollTakesReady(q.(rows := Q.ExpiredRows(q.rows, Some(instance), now)), instance, now, PollLimit);
    Q.PickEvolves(q.(rows := Q.ExpiredRows(q.rows, Some(instance), now)), instance, now, PollLimit);
  }

  lemma IncreasingJoin(a: seq<nat>, b: seq<nat>)
    requires Increasing(a) && Increasing(b) && forall j, k :: 0 <= j < |a| && 0 <= k < |b| ==> a[j] < b[k]
    ensures Increasing(a + b)
  {
  }

  lemma PollStep(s: System, now: int, fate: Fate, instance: string)
    requires Inv(s, instance) && !s.pod.stopped && s.pod.inbox == []
    requires Q.KeysGrow(Q.Step(s.queue, Q.Poll(instance, PollLimit, now)).rows, instance)
    ensures Inv(Next(s, instance, Poll(now, fate)), instance)
  {
    hide Q.Step, Q.Valid, Q.InOrder, Q.TableEvolves, Q.KeysGrow, Foreign, Own, Increasing;
    var a := Q.Poll(instance, PollLimit, now);
    var q, q', s' := s.queue, Q.Step(s.queue, a), Next(s, instance, Poll(now, fate));
    QueueStep(q, a, instance);
    ForeignApplied(q, a, instance);
    ForeignDelivers(q, a);
    PollReturns(q, instance, now);
    var items, chain := NewlyDelivered(q, q'), Chain(s, instance);
    OwnStable(chain, q, q', instance);
    if fate == Received {
      JoinSoft(chain, items, q, q', instance);
      assert Chain(s', instance) == chain + Soft(items, q'.rows);
    } else {
      assert Chain(s', instance) == chain;
      OwnNothing(q', instance);
    }
  }

  lemma OwnNothing(q: Q.Queue, instance: string)
    ensures Own([], q, instance)
  {
  }

  /** What arrives comes after what there is. */
  lemma JoinSoft(chain: seq<nat>, items: seq<nat>, q: Q.Queue, q': Q.Queue, instance: string)
    requires Increasing(chain) && Own(chain, q, instance) && Own(chain, q', instance)
    requires Increasing(items) && Own(items, q', instance)
    requires forall x, k :: x in q.delivered && x < |q.rows| && q.rows[x].instance == instance && 0 <= k < |items| ==> x < items[k]
    ensures Increasing(chain + Soft(items, q'.rows)) && Own(chain + Soft(items, q'.rows), q', instance)
  {
    var soft := Soft(items, q'.rows);
    SoftOf(items, q'.rows);
    SoftOwn(items, q', instance);
    forall j | 0 <= j < |chain| ensures forall k :: 0 <= k < |soft| ==> chain[j] < soft[k] {
      SoftAbove(items, q'.rows, chain[j]);
    }
    IncreasingJoin(chain, soft);
    assert Own(chain + soft, q', instance);
  }

  /** The chain without one of its elements. */
  lemma Without(a: seq<nat>, i: nat, b: seq<nat>, q: Q.Queue, instance: string)
    requires Increasing(a + [i] + b) && Own(a + [i] + b, q, instance)
    ensures Increasing(a + b) && Own(a + b, q, instance)
  {
    var all, some := a + [i] + b, a + b;
    assert forall k :: 0 <= k < |some| ==> some[k] == all[if k < |a| then k else k + 1];
  }

  lemma OwnRest(items: seq<nat>, q: Q.Queue, instance: string)
    requires Own(items, q, instance) && items != []
    ensures Own(items[1..], q, instance) && items[0] < |q.rows| && q.rows[items[0]].instance == instance
    ensures forall k :: 0 <= k < |items[1..]| ==> items[1..][k] < |q.rows|
  {
  }

  lemma TakeStep(s: System, now: int, reached: bool, instance: string)
    requires Inv(s, instance) && s.pod.inbox != [] && Q.KeysGrow(s.queue.rows, instance)
    ensures Inv(Next(s, instance, TakeItem(now, reached)), instance)
  {
    hide Q.Step, Q.Valid, Q.InOrder, Q.TableEvolves, Q.KeysGrow, Own, Increasing;
    var q, p, i, s' := s.queue, s.pod, s.pod.inbox[0], Next(s, instance, TakeItem(now, reached));
    OwnRest(p.inbox, q, instance);
    if q.rows[i].mode != Q.Notify {
      assert Chain(s', instance) == Chain(s, instance);
    } else {
      AckKeepsQueue(q, i, now, reached, instance);
      OwnAck(q, i, now, reached, instance);
      SoftStable(p.inbox[1..], q.rows, s'.queue.rows);
      assert Chain(s', instance) == Chain(s, instance);
      OwnStable(Chain(s, instance), q, s'.queue, instance);
      OwnStable(p.inbox[1..], q, s'.queue, instance);
    }
  }

  lemma AckKeepsQueue(q: Q.Queue, i: nat, now: int, reached: bool, instance: string)
    requires Q.Valid(q) && Q.InOrder(q, instance) && i < |q.rows|
    ensures Q.Valid(Acknowledged(q, i, now, reached)) && Q.InOrder(Acknowledged(q, i, now, reached), instance)
  {
    hide Q.Valid, Q.InOrder, Q.TableEvolves, Q.KeysGrow, Q.AckedRows;
    if reached {
      Q.StepValid(q, Q.Ack({i}, now));
      Q.StepEvolves(q, Q.Ack({i}, now));
      Q.AckDelivers(q, {i}, now, |q.rows|);
      Q.SameOrder(q, Q.Step(q, Q.Ack({i}, now)), instance);
    }
  }

  lemma FirstOwn(s: System, instance: string)
    requires Inv(s, instance) && s.pod.applying != []
    ensures s.pod.applying[0] < |s.queue.rows| && s.queue.rows[s.pod.applying[0]].instance == instance
  {
    var chain := Chain(s, instance);
    assert chain[|AppliedFor(s.queue.events, s.queue.rows, instance)|] == s.pod.applying[0];
  }

  lemma InTable(items: seq<nat>, q: Q.Queue, instance: string)
    requires Own(items, q, instance)
    ensures forall k :: 0 <= k < |items| ==> items[k] < |q.rows|
  {
  }

  /** The chain around the item applied next. */
  lemma ChainAround(s: System, instance: string)
    requires s.pod.applying != []
    ensures Chain(s, instance)
            == AppliedFor(s.queue.events, s.queue.rows, instance) + [s.pod.applying[0]]
               + (s.pod.applying[1..] + s.pod.guard.pending + Soft(s.pod.inbox, s.queue.rows))
  {
    hide AppliedFor, Soft;
    assert s.pod.applying == [s.pod.applying[0]] + s.pod.applying[1..];
  }

  /** The chain once the item is taken, applied or not. */
  lemma AppliedChain(ap: seq<nat>, ap': seq<nat>, i: nat, rest: seq<nat>, q: Q.Queue, q': Q.Queue, instance: string)
    requires Increasing(ap + [i] + rest) && Own(ap + [i] + rest, q, instance)
    requires (ap' == ap || ap' == ap + [i]) && Q.TableEvolves(q.rows, q'.rows) && q'.delivered == q.delivered
    ensures Increasing(ap' + rest) && Own(ap' + rest, q', instance)
  {
    hide Increasing, Own, Q.TableEvolves;
    Without(ap, i, rest, q, instance);
    OwnStable(ap' + rest, q, q', instance);
  }

  lemma ApplyStep(s: System, now: int, reached: bool, instance: string)
    requires Inv(s, instance) && s.pod.applying != []
    ensures Inv(Next(s, instance, ApplyNext(now, reached)), instance)
  {
    hide Q.Step, Q.Valid, Q.InOrder, Q.TableEvolves, Own, Increasing, AppliedFor, Soft, Acknowledged;
    var q, p, i, s' := s.queue, s.pod, s.pod.applying[0], Next(s, instance, ApplyNext(now, reached));
    var ap, ap' := AppliedFor(q.events, q.rows, instance), AppliedFor(s'.queue.events, s'.queue.rows, instance);
    var rest := p.applying[1..] + p.guard.pending + Soft(p.inbox, q.rows);
    ChainAround(s, instance);
    FirstOwn(s, instance);
    AckKeepsQueue(q, i, now, reached, instance);
    OwnAck(q, i, now, reached, instance);
    InTable(p.inbox, q, instance);
    SoftStable(p.inbox, q.rows, s'.queue.rows);
    OwnStable(p.inbox, q, s'.queue, instance);
    assert Chain(s', instance) == ap' + rest;
    AppliedChain(ap, ap', i, rest, q, s'.queue, instance);
  }

  lemma QuietStep(s: System, e: Event, instance: string)
    requires Inv(s, instance) && (e.ToolUse? || e.ToolResults? || e.SafePoint?)
    ensures Inv(Next(s, instance, e), instance)
  {
    hide Q.Valid, Q.InOrder, Own, Increasing;
    assert Chain(Next(s, instance, e), instance) == Chain(s, instance);
  }

  lemma CancelStep(s: System, instance: string)
    requires Inv(s, instance)
    ensures Inv(Next(s, instance, Cancel), instance)
  {
    hide Q.Valid, Q.InOrder, Own, Increasing;
    var s' := Next(s, instance, Cancel);
    Prefix(Chain(s', instance), Soft(s.pod.inbox, s.queue.rows), s.queue, instance);
    assert Chain(s', instance) + Soft(s.pod.inbox, s.queue.rows) == Chain(s, instance);
  }

  lemma Prefix(a: seq<nat>, b: seq<nat>, q: Q.Queue, instance: string)
    ensures Increasing(a + b) && Own(a + b, q, instance) ==> Increasing(a) && Own(a, q, instance) && Own([], q, instance)
  {
    if Increasing(a + b) && Own(a + b, q, instance) {
      assert forall k :: 0 <= k < |a| ==> a[k] == (a + b)[k];
    }
  }

  lemma StepInv(s: System, e: Event, instance: string)
    requires Inv(s, instance) && Q.KeysGrow(Next(s, instance, e).queue.rows, instance) && Q.KeysGrow(s.queue.rows, instance)
    ensures Inv(Next(s, instance, e), instance)
  {
    hide Inv, Q.Step, Q.KeysGrow, Foreign;
    match e {
      case Backend(a) => if Foreign(s.queue, a, instance) { BackendStep(s, a, instance); }
      case Poll(now, fate) => if !s.pod.stopped && s.pod.inbox == [] { PollStep(s, now, fate, instance); }
      case TakeItem(now, reached) => if s.pod.inbox != [] { TakeStep(s, now, reached, instance); }
      case ApplyNext(now, reached) => if s.pod.applying != [] { ApplyStep(s, now, reached, instance); }
      case Cancel => CancelStep(s, instance);
      case _ => QuietStep(s, e, instance);
    }
  }

  lemma RowsGrow(s: System, e: Event, instance: string)
    requires Q.Valid(s.queue)
    ensures Q.TableEvolves(s.queue.rows, Next(s, instance, e).queue.rows)
  {
    hide Q.Step, Q.Valid, Foreign;
    var q := s.queue;
    match e {
      case Backend(a) => Q.StepEvolves(q, a);
      case Poll(now, _) => Q.StepEvolves(q, Q.Poll(instance, PollLimit, now));
      case TakeItem(now, _) => if s.pod.inbox != [] { Q.StepEvolves(q, Q.Ack({s.pod.inbox[0]}, now)); }
      case ApplyNext(now, _) => if s.pod.applying != [] { Q.StepEvolves(q, Q.Ack({s.pod.applying[0]}, now)); }
      case _ =>
    }
  }

  lemma {:induction false} QueueValid(instance: string, events: seq<Event>)
    ensures Q.Valid(Run(instance, events).queue)
  {
    hide Q.Valid, Q.Step, Foreign;
    if events == [] {
      Q.EmptyValid();
    } else {
      var s, e := Run(instance, events[..|events| - 1]), events[|events| - 1];
      QueueValid(instance, events[..|events| - 1]);
      match e {
        case Backend(a) => Q.StepValid(s.queue, a);
        case Poll(now, _) => Q.StepValid(s.queue, Q.Poll(instance, PollLimit, now));
        case TakeItem(now, _) => if s.pod.inbox != [] { Q.StepValid(s.queue, Q.Ack({s.pod.inbox[0]}, now)); }
        case ApplyNext(now, _) => if s.pod.applying != [] { Q.StepValid(s.queue, Q.Ack({s.pod.applying[0]}, now)); }
        case _ =>
      }
    }
  }

  /** Over every interleaving of the backend with the pod's two tasks, the soft injects and
      wakes of the instance are applied in the order in which they were enqueued, and what
      the pod still has comes after them in that order. */
  lemma {:induction false} AppliedInOrder(instance: string, events: seq<Event>)
    requires Q.KeysGrow(Run(instance, events).queue.rows, instance)
    ensures Inv(Run(instance, events), instance)
  {
    hide Inv, Next, Q.KeysGrow, Q.Valid, Q.TableEvolves;
    if events == [] {
      StartInv(instance);
    } else {
      var s, e := Run(instance, events[..|events| - 1]), events[|events| - 1];
      QueueValid(instance, events[..|events| - 1]);
      RowsGrow(s, e, instance);
      Q.KeysGrewBefore(s.queue.rows, Run(instance, events).queue.rows, instance);
      AppliedInOrder(instance, events[..|events| - 1]);
      StepInv(s, e, instance);
    }
  }

  lemma StartInv(instance: string)
    ensures Inv(Start, instance)
  {
    Q.EmptyValid();
  }

  // ---------------------------------------------------------------------------
  // Only at safe points
  // ---------------------------------------------------------------------------

  /** While released items are being applied no tool use is outstanding. */
  predicate Quiet(s: System) {
    s.pod.applying != [] ==> s.pod.guard.outstanding == 0
  }

  lemma {:induction false} RunQuiet(instance: string, events: seq<Event>)
    ensures Quiet(Run(instance, events))
  {
    if events != [] {
      RunQuiet(instance, events[..|events| - 1]);
    }
  }

  /** What the pod applies of the instance, it applies at a safe point and after the guard
      released it; nothing else in the system applies it. */
  lemma AppliedAtSafePoint(instance: string, events: seq<Event>, e: Event)
    requires Q.KeysGrow(Run(instance, events).queue.rows, instance)
    ensures var s, s' := Run(instance, events), Next(Run(instance, events), instance, e);
      var before, after := AppliedFor(s.queue.events, s.queue.rows, instance), AppliedFor(s'.queue.events, s'.queue.rows, instance);
      after != before ==>
        e.ApplyNext? && s.pod.applying != [] && after == before + [s.pod.applying[0]] && s.pod.guard.outstanding == 0
  {
    hide Q.Step, Q.Valid, Foreign, Q.KeysGrow, Run;
    var s := Run(instance, events);
    RunQuiet(instance, events);
    AppliedInOrder(instance, events);
    match e {
      case Backend(a) => if Foreign(s.queue, a, instance) { ForeignApplied(s.queue, a, instance); }
      case Poll(now, _) => ForeignApplied(s.queue, Q.Poll(instance, PollLimit, now), instance);
      case TakeItem(now, reached) =>
        if s.pod.inbox != [] {
          OwnAck(s.queue, s.pod.inbox[0], now, reached, instance);
        }
      case ApplyNext(now, reached) =>
        if s.pod.applying != [] {
          FirstOwn(s, instance);
          OwnAck(s.queue, s.pod.applying[0], now, reached, instance);
        }
      case _ =>
    }
  }

  // ---------------------------------------------------------------------------
  // The loops themselves
  // ---------------------------------------------------------------------------

  /** A control event: its id if it is a number, and whether its action is a kill. */
  datatype Control = Control(id: Option<int>, kill: bool)

  /** An inject of a poll response: its queue id, if it has one, and whether it must wait. */
  datatype Item = Item(queueId: Option<nat>, waits: bool)

  /** The items of one kind, in order. */
  function Only(items: seq<Item>, waits: bool): seq<Item> {
    if items == [] then []
    else Only(items[..|items| - 1], waits) + if items[|items| - 1].waits == waits then [items[|items| - 1]] else []
  }

  /** The ids that applying some items acknowledges. */
  function Acks(items: seq<Item>): seq<nat> {
    if items == [] then []
    else Acks(items[..|items| - 1]) + if items[|items| - 1].queueId.Some? then [items[|items| - 1].queueId.value] else []
  }

  predicate Killed(events: seq<Control>) {
    exists i :: 0 <= i < |events| && events[i].kill
  }

  /** How many events are looked at: up to and with the first kill. */
  function Heard(events: seq<Control>): (n: nat)
    ensures n <= |events|
    ensures Killed(events) ==> n > 0 && events[n - 1].kill && forall i :: 0 <= i < n - 1 ==> !events[i].kill
    ensures !Killed(events) ==> n == |events|
  {
    if events == [] then 0
    else
      KilledLater(events);
      if events[0].kill then 1 else 1 + Heard(events[1..])
  }

  lemma KilledLater(events: seq<Control>)
    requires events != []
    ensures Killed(events) <==> events[0].kill || Killed(events[1..])
  {
    if Killed(events) && !events[0].kill {
      var i :| 0 <= i < |events| && events[i].kill;
      assert events[1..][i - 1].kill;
    }
  }

  /** The largest id seen among the first n events. */
  function Seen(start: int, events: seq<Control>, n: nat): int
    requires n <= |events|
  {
    if n == 0 then start
    else
      var s, id := Seen(start, events, n - 1), events[n - 1].id;
      if id.Some? && id.value > s then id.value else s
  }

  /** The cursor is the largest of where it stood and the ids of those events. */
  lemma {:induction false} SeenIsLargest(start: int, events: seq<Control>, n: nat)
    requires n <= |events|
    ensures Seen(start, events, n) >= start && forall i :: 0 <= i < n && events[i].id.Some? ==> Seen(start, events, n) >= events[i].id.value
    ensures Seen(start, events, n) == start || exists i :: 0 <= i < n && events[i].id == Some(Seen(start, events, n))
  {
    if n > 0 {
      SeenIsLargest(start, events, n - 1);
    }
  }

  class AgentPod {
    const guard: SP.SafePointGuard<Item>
    var stopFlag: bool
    var lastSeenId: int
    var acks: seq<nat>

    constructor ()
      ensures !stopFlag && lastSeenId == 0 && acks == [] && fresh(guard) && guard.State() == SP.Guard([], 0)
    {
      guard := new SP.SafePointGuard();
      stopFlag, lastSeenId, acks := false, 0, [];
    }

    method ApplyInject(item: Item)
      modifies this`acks
      ensures acks == old(acks) + if item.queueId.Some? then [item.queueId.value] else []
    {
      assert acks + [] == acks;
      if item.queueId.Some? {
        acks := acks + [item.queueId.value];
      }
    }

    /** The events of a response, up to a kill. */
    method HandleEvents(events: seq<Control>) returns (killed: bool)
      modifies this`stopFlag, this`lastSeenId
      ensures killed == Killed(events) && stopFlag == (old(stopFlag) || killed)
      ensures lastSeenId == Seen(old(lastSeenId), events, Heard(events))
    {
      for i := 0 to |events|
        invariant lastSeenId == Seen(old(lastSeenId), events, i) && stopFlag == old(stopFlag)
        invariant forall k :: 0 <= k < i ==> !events[k].kill
      {
        if events[i].id.Some? && events[i].id.value > lastSeenId {
          lastSeenId := events[i].id.value;
        }
        if events[i].kill {
          stopFlag := true;
          HeardFirst(events, i);
          return true;
        }
      }
      return false;
    }

    /** One response.  With a kill in it none of its injects is looked at; otherwise those that
        must wait are held, in order, and the others are applied at once. */
    method HandleResponse(events: seq<Control>, injects: seq<Item>)
      modifies this, guard
      ensures lastSeenId == Seen(old(lastSeenId), events, Heard(events))
      ensures stopFlag == (old(stopFlag) || Killed(events)) && guard.outstandingToolBatches == old(guard.outstandingToolBatches)
      ensures Killed(events) ==> acks == old(acks) && guard.State() == old(guard.State())
      ensures !Killed(events) ==> acks == old(acks) + Acks(Only(injects, false)) && guard.pending == old(guard.pending) + Only(injects, true)
    {
      var killed := HandleEvents(events);
      if !killed {
        HandleInjects(injects);
      }
    }

    method HandleInjects(injects: seq<Item>)
      modifies this`acks, guard
      ensures guard.outstandingToolBatches == old(guard.outstandingToolBatches)
      ensures acks == old(acks) + Acks(Only(injects, false)) && guard.pending == old(guard.pending) + Only(injects, true)
    {
      hide Only, Acks;
      NoneYet();
      assert injects[..0] == [] && injects[..|injects|] == injects;
      for i := 0 to |injects|
        invariant guard.outstandingToolBatches == old(guard.outstandingToolBatches)
        invariant acks == old(acks) + Acks(Only(injects[..i], false))
        invariant guard.pending == old(guard.pending) + Only(injects[..i], true)
      {
        OneMore(injects, i);
        if injects[i].waits {
          guard.DoHold(injects[i]);
        } else {
          ApplyInject(injects[i]);
        }
      }
    }

    /** The main loop's safe point: what the guard releases is applied, in order. */
    method FlushPoint()
      modifies this`acks, guard
      ensures guard.State() == SP.Apply(old(guard.State()), SP.Flush).guard
      ensures acks == old(acks) + Acks(SP.Apply(old(guard.State()), SP.Flush).released)
    {
      var items := guard.DoFlush();
      assert items[..|items|] == items;
      for i := 0 to |items|
        invariant acks == old(acks) + Acks(items[..i])
        invariant guard.State() == SP.Apply(old(guard.State()), SP.Flush).guard
      {
        assert items[..i + 1][..i] == items[..i];
        ApplyInject(items[i]);
      }
    }
  }

  lemma HeardFirst(events: seq<Control>, i: nat)
    requires i < |events| && events[i].kill && forall k :: 0 <= k < i ==> !events[k].kill
    ensures Killed(events) && Heard(events) == i + 1
  {
    assert Killed(events);
    assert events[Heard(events) - 1].kill;
  }

  lemma NoneYet()
    ensures Only([], true) == Only([], false) == [] && Acks([]) == []
  {
  }

  lemma OneMore(items: seq<Item>, i: nat)
    requires i < |items|
    ensures Only(items[..i + 1], true) == Only(items[..i], true) + if items[i].waits then [items[i]] else []
    ensures Acks(Only(items[..i + 1], false))
            == Acks(Only(items[..i], false)) + if !items[i].waits && items[i].queueId.Some? then [items[i].queueId.value] else []
  {
    assert items[..i + 1][..i] == items[..i];
    var before := Only(items[..i], false);
    assert (before + [items[i]])[..|before|] == before;
    assert before + [] == before;
  }

  // ---------------------------------------------------------------------------
  // The loops as steps of the system
  // ---------------------------------------------------------------------------

  /** When an acknowledgement is sent, and whether it arrives. */
  datatype Call = Call(now: int, reached: bool)

  /** Items received for rows of the queue: what waits is what is not a notification. */
  predicate For(items: seq<Item>, rowNumbers: seq<nat>, rows: seq<Q.Row>) {
    && |items| == |rowNumbers|
    && forall k :: 0 <= k < |items| ==>
         && rowNumbers[k] < |rows| && items[k].queueId == Some(rowNumbers[k])
         && items[k].waits == (rows[rowNumbers[k]].mode != Q.Notify)
  }

  /** One step of the control poll for each item. */
  function Takes(s: System, instance: string, calls: seq<Call>): System
    decreases |calls|
  {
    if calls == [] then s else Takes(Next(s, instance, TakeItem(calls[0].now, calls[0].reached)), instance, calls[1..])
  }

  /** One step of the main loop for each released item. */
  function Applies(s: System, instance: string, calls: seq<Call>): System
    decreases |calls|
  {
    if calls == [] then s else Applies(Next(s, instance, ApplyNext(calls[0].now, calls[0].reached)), instance, calls[1..])
  }

  /** Acknowledgements one after another. */
  function AckAll(q: Q.Queue, asked: seq<nat>, calls: seq<Call>): Q.Queue
    requires |asked| == |calls|
    decreases |asked|
  {
    if asked == [] then q else AckAll(Acknowledged(q, asked[0], calls[0].now, calls[0].reached), asked[1..], calls[1..])
  }

  /** The calls that are made for items that do not wait. */
  function Made(items: seq<Item>, calls: seq<Call>): (r: seq<Call>)
    requires |items| == |calls|
    decreases |items|
  {
    if items == [] then [] else (if items[0].waits then [] else [calls[0]]) + Made(items[1..], calls[1..])
  }

  lemma {:induction false} FirstItem(items: seq<Item>)
    requires items != []
    ensures Acks(Only(items, true)) == (if items[0].waits && items[0].queueId.Some? then [items[0].queueId.value] else []) + Acks(Only(items[1..], true))
    ensures Acks(Only(items, false)) == (if !items[0].waits && items[0].queueId.Some? then [items[0].queueId.value] else []) + Acks(Only(items[1..], false))
    decreases |items|
  {
    hide Only, Acks;
    var n := |items| - 1;
    LastItem(items);
    if n == 0 {
      NoneYet();
      assert items[..0] == [] && items[1..] == [];
    } else {
      FirstItem(items[..n]);
      LastItem(items[1..]);
      assert items[1..][..n - 1] == items[..n][1..];
    }
  }

  lemma LastItem(items: seq<Item>)
    requires items != []
    ensures var n := |items| - 1;
      && Acks(Only(items, true)) == Acks(Only(items[..n], true)) + (if items[n].waits && items[n].queueId.Some? then [items[n].queueId.value] else [])
      && Acks(Only(items, false)) == Acks(Only(items[..n], false)) + (if !items[n].waits && items[n].queueId.Some? then [items[n].queueId.value] else [])
  {
    hide Acks;
    var n := |items| - 1;
    AcksMore(Only(items[..n], true), items[n]);
    AcksMore(Only(items[..n], false), items[n]);
    assert Only(items[..n], true) + [] == Only(items[..n], true) && Only(items[..n], false) + [] == Only(items[..n], false);
  }

  lemma AcksMore(items: seq<Item>, item: Item)
    ensures Acks(items + [item]) == Acks(items) + if item.queueId.Some? then [item.queueId.value] else []
  {
    assert (items + [item])[..|items|] == items;
  }

  lemma {:induction false} AllAcked(items: seq<Item>, rowNumbers: seq<nat>, rows: seq<Q.Row>)
    requires For(items, rowNumbers, rows)
    ensures Acks(items) == rowNumbers
    decreases |items|
  {
    if items != [] {
      var n := |items| - 1;
      AllAcked(items[..n], rowNumbers[..n], rows);
      assert rowNumbers == rowNumbers[..n] + [rowNumbers[n]];
    }
  }

  lemma AckKeeps(items: seq<Item>, rowNumbers: seq<nat>, q: Q.Queue, i: nat, now: int, reached: bool)
    requires Q.Valid(q) && For(items, rowNumbers, q.rows)
    ensures Q.Valid(Acknowledged(q, i, now, reached)) && For(items, rowNumbers, Acknowledged(q, i, now, reached).rows)
  {
    hide Q.Step, Q.Valid;
    Q.StepEvolves(q, Q.Ack({i}, now));
    Q.StepValid(q, Q.Ack({i}, now));
  }

  lemma OneTake(s: System, instance: string, items: seq<Item>, call: Call)
    requires For(items, s.pod.inbox, s.queue.rows) && items != []
    ensures Next(s, instance, TakeItem(call.now, call.reached))
            == if items[0].waits
               then s.(pod := s.pod.(inbox := s.pod.inbox[1..], guard := s.pod.guard.(pending := s.pod.guard.pending + [s.pod.inbox[0]])))
               else System(Acknowledged(s.queue, s.pod.inbox[0], call.now, call.reached), s.pod.(inbox := s.pod.inbox[1..]))
  {
    hide Acknowledged;
  }

  /** The rest of a response after its first item. */
  lemma AfterOne(s: System, instance: string, items: seq<Item>, call: Call)
    requires Q.Valid(s.queue) && For(items, s.pod.inbox, s.queue.rows) && items != []
    ensures var s' := Next(s, instance, TakeItem(call.now, call.reached));
            Q.Valid(s'.queue) && For(items[1..], s'.pod.inbox, s'.queue.rows)
  {
    hide Acknowledged, Q.Valid, Next;
    OneTake(s, instance, items, call);
    AckKeeps(items[1..], s.pod.inbox[1..], s.queue, s.pod.inbox[0], call.now, call.reached);
  }

  lemma {:induction false} TakesPod(s: System, instance: string, items: seq<Item>, calls: seq<Call>)
    requires Q.Valid(s.queue) && For(items, s.pod.inbox, s.queue.rows) && |calls| == |items|
    ensures Takes(s, instance, calls).pod
            == s.pod.(inbox := [], guard := s.pod.guard.(pending := s.pod.guard.pending + Acks(Only(items, true))))
    decreases |items|
  {
    hide Only, Acks, Acknowledged, Q.Valid, Next;
    if items == [] {
      NoneYet();
      assert s.pod.guard.pending + [] == s.pod.guard.pending;
    } else {
      var s' := Next(s, instance, TakeItem(calls[0].now, calls[0].reached));
      FirstItem(items);
      OneTake(s, instance, items, calls[0]);
      AfterOne(s, instance, items, calls[0]);
      TakesPod(s', instance, items[1..], calls[1..]);
      var more := Acks(Only(items[1..], true));
      assert items[0].queueId == Some(s.pod.inbox[0]);
      if items[0].waits {
        assert s.pod.guard.pending + ([s.pod.inbox[0]] + more) == s.pod.guard.pending + [s.pod.inbox[0]] + more;
      } else {
        assert [] + more == more;
      }
    }
  }

  lemma {:induction false} TakesQueue(s: System, instance: string, items: seq<Item>, calls: seq<Call>)
    requires Q.Valid(s.queue) && For(items, s.pod.inbox, s.queue.rows) && |calls| == |items|
    ensures |Made(items, calls)| == |Acks(Only(items, false))|
    ensures Takes(s, instance, calls).queue == AckAll(s.queue, Acks(Only(items, false)), Made(items, calls))
    decreases |items|
  {
    hide Only, Acks, Acknowledged, Q.Valid, Next;
    if items == [] {
      NoneYet();
    } else {
      var s' := Next(s, instance, TakeItem(calls[0].now, calls[0].reached));
      FirstItem(items);
      OneTake(s, instance, items, calls[0]);
      AfterOne(s, instance, items, calls[0]);
      TakesQueue(s', instance, items[1..], calls[1..]);
      var asked, made := Acks(Only(items[1..], false)), Made(items[1..], calls[1..]);
      assert items[0].queueId == Some(s.pod.inbox[0]);
      if items[0].waits {
        assert [] + asked == asked && [] + made == made;
      } else {
        assert ([s.pod.inbox[0]] + asked)[1..] == asked && ([calls[0]] + made)[1..] == made;
      }
    }
  }

  /** What the control poll does with a whole response, as `HandleInjects` has it, is a step of
      the system for each item: the same items end up held, and the same acknowledgements are
      sent in the same order. */
  lemma InjectsAreSteps(s: System, instance: string, items: seq<Item>, calls: seq<Call>)
    requires Q.Valid(s.queue) && For(items, s.pod.inbox, s.queue.rows) && |calls| == |items|
    ensures |Made(items, calls)| == |Acks(Only(items, false))|
    ensures Takes(s, instance, calls)
            == System(AckAll(s.queue, Acks(Only(items, false)), Made(items, calls)),
                      s.pod.(inbox := [], guard := s.pod.guard.(pending := s.pod.guard.pending + Acks(Only(items, true)))))
  {
    hide Only, Acks, AckAll, Takes, Made, Q.Valid, For;
    TakesPod(s, instance, items, calls);
    TakesQueue(s, instance, items, calls);
  }

  /** What the main loop does at its safe point, `FlushPoint` has it, is a safe point of the
      system and a step for each released item. */
  lemma FlushIsSteps(s: System, instance: string, items: seq<Item>, calls: seq<Call>)
    requires s.pod.applying == []
    requires For(items, SP.Apply(s.pod.guard, SP.Flush).released, s.queue.rows) && |calls| == |items|
    ensures |Acks(items)| == |calls|
    ensures Applies(Next(s, instance, SafePoint), instance, calls)
            == System(AckAll(s.queue, Acks(items), calls), s.pod.(guard := SP.Apply(s.pod.guard, SP.Flush).guard))
  {
    var released := SP.Apply(s.pod.guard, SP.Flush).released;
    AllAcked(items, released, s.queue.rows);
    AppliesAll(Next(s, instance, SafePoint), instance, calls);
    assert s.pod.(guard := SP.Apply(s.pod.guard, SP.Flush).guard, applying := []) == s.pod.(guard := SP.Apply(s.pod.guard, SP.Flush).guard);
  }

  lemma {:induction false} AppliesAll(s: System, instance: string, calls: seq<Call>)
    requires |calls| == |s.pod.applying|
    ensures Applies(s, instance, calls) == System(AckAll(s.queue, s.pod.applying, calls), s.pod.(applying := []))
    decreases |calls|
  {
    hide Acknowledged;
    if calls != [] {
      AppliesAll(Next(s, instance, ApplyNext(calls[0].now, calls[0].reached)), instance, calls[1..]);
    }
  }
}

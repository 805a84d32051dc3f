/** The durable inject queue of the backend.

    A row is identified by its place in the table, which only grows; `id` is its random
    identifier, used to break ties of creation time. */
module InjectQueue {
  import opened Prelude
  import Text

  datatype InjectKind = CollabInject | GeneInject | CapabilityInject | CerebellumRoute

  datatype DeliveryMode = Notify | SoftInject | Wake

  datatype Status = Pending | Delivered | Acked | Failed | Expired

  datatype Row = Row(
    instance: string, kind: InjectKind, mode: DeliveryMode, created: int, id: int, expires: int,
    status: Status, updated: int, ackedAt: Option<int>, error: Option<string>, deleted: bool)

  datatype Event =
    | Requested(row: nat)
    | CapabilityInjected(row: nat)
    | GeneInjected(row: nat)
    | Applied(row: nat)
    | FailureNoted(row: nat, message: string)

  /** The table, the audit events in order, and every row that a poll returned, in order. */
  datatype Queue = Queue(rows: seq<Row>, events: seq<Event>, delivered: seq<nat>)

  const EmptyQueue := Queue([], [], [])

  // Times are in microseconds.
  const TTL := 3_600_000_000
  const SweepAge := 604_800_000_000
  const TldrMax := 200
  const ProseThreshold := 240

  predicate Completed(s: Status) {
    s == Acked || s == Failed || s == Expired
  }

  predicate TldrValid(tldr: Option<string>, prose: nat) {
    && (tldr.Some? ==> |tldr.value| <= TldrMax)
    && (prose > ProseThreshold ==> tldr.Some? && !Text.Every(tldr.value, Text.Spaces))
  }

  /** Order of delivery: creation time, then identifier. */
  predicate Before(a: Row, b: Row) {
    a.created < b.created || (a.created == b.created && a.id < b.id)
  }

  predicate Overdue(r: Row, now: int) {
    r.status == Pending && r.expires <= now && !r.deleted
  }

  predicate Ready(r: Row, instance: string, now: int) {
    r.instance == instance && r.status == Pending && r.expires > now && !r.deleted
  }

  // ---------------------------------------------------------------------------
  // Operations as functions
  // ---------------------------------------------------------------------------

  function NewRow(instance: string, kind: InjectKind, mode: DeliveryMode, id: int, now: int): Row {
    Row(instance, kind, mode, now, id, now + TTL, Pending, now, None, None, false)
  }

  function Enqueued(q: Queue, r: Row): Queue {
    var n := |q.rows|;
    q.(rows := q.rows + [r],
       events := q.events + [Requested(n)]
                 + (if r.kind == CapabilityInject then [CapabilityInjected(n)] else if r.kind == GeneInject then [GeneInjected(n)] else []))
  }

  /** Overdue pending rows become expired: those of one instance, or all. */
  function ExpiredRows(rows: seq<Row>, instance: Option<string>, now: int): (r: seq<Row>)
    ensures |r| == |rows|
    ensures forall i :: 0 <= i < |rows| ==>
              r[i] == if Overdue(rows[i], now) && (instance.None? || rows[i].instance == instance.value)
                      then rows[i].(status := Expired, updated := now) else rows[i]
  {
    seq(|rows|, i requires 0 <= i < |rows| =>
      if Overdue(rows[i], now) && (instance.None? || rows[i].instance == instance.value)
      then rows[i].(status := Expired, updated := now) else rows[i])
  }

  /** The first ready row in the order of delivery, among the first n. */
  function Oldest(rows: seq<Row>, instance: string, now: int, n: nat): (r: Option<nat>)
    requires n <= |rows|
    ensures r.Some? ==> r.value < n && Ready(rows[r.value], instance, now)
  {
    if n == 0 then None
    else
      var best := Oldest(rows, instance, now, n - 1);
      if Ready(rows[n - 1], instance, now) && (best.None? || Before(rows[n - 1], rows[best.value])) then Some(n - 1) else best
  }

  function Picked(q: Queue, i: nat, now: int): Queue
    requires i < |q.rows|
  {
    q.(rows := q.rows[i := q.rows[i].(status := Delivered, updated := now)], delivered := q.delivered + [i])
  }

  /** Up to `limit` ready rows, oldest first, each flipped to delivered. */
  function PickedAll(q: Queue, instance: string, now: int, limit: nat): Queue
    decreases limit
  {
    var i := Oldest(q.rows, instance, now, |q.rows|);
    if limit == 0 || i.None? then q else PickedAll(Picked(q, i.value, now), instance, now, limit - 1)
  }

  function Polled(q: Queue, instance: string, now: int, limit: nat): Queue {
    PickedAll(q.(rows := ExpiredRows(q.rows, Some(instance), now)), instance, now, limit)
  }

  function AckedOne(q: Queue, i: nat, now: int): Queue
    requires i < |q.rows|
  {
    var r := q.rows[i];
    if r.status != Delivered then q
    else q.(rows := q.rows[i := r.(status := Acked, ackedAt := Some(now), updated := now)],
            events := if r.mode == Notify then q.events else q.events + [Applied(i)])
  }

  /** The first n rows are acked where they are asked for. */
  function AckedRows(q: Queue, asked: set<nat>, now: int, n: nat): (r: Queue)
    requires n <= |q.rows|
    ensures |r.rows| == |q.rows|
  {
    if n == 0 then q
    else
      var q' := AckedRows(q, asked, now, n - 1);
      if n - 1 in asked && !q'.rows[n - 1].deleted then AckedOne(q', n - 1, now) else q'
  }

  function FailedRow(q: Queue, i: nat, message: string, now: int): Queue {
    if i >= |q.rows| || q.rows[i].deleted then q
    else q.(rows := q.rows[i := q.rows[i].(status := Failed, error := Some(message), updated := now)],
            events := q.events + [FailureNoted(i, message)])
  }

  predicate Old(r: Row, now: int) {
    Completed(r.status) && r.updated < now - SweepAge && !r.deleted
  }

  function SweptRows(rows: seq<Row>, now: int): (r: seq<Row>)
    ensures |r| == |rows|
    ensures forall i :: 0 <= i < |rows| ==> r[i] == if Old(rows[i], now) then rows[i].(deleted := true, updated := now) else rows[i]
  {
    seq(|rows|, i requires 0 <= i < |rows| => if Old(rows[i], now) then rows[i].(deleted := true, updated := now) else rows[i])
  }

  datatype Action =
    | Enqueue(instance: string, kind: InjectKind, mode: DeliveryMode, id: int, tldr: Option<string>, prose: nat, now: int)
    | Poll(instance: string, limit: nat, now: int)
    | Ack(asked: set<nat>, now: int)
    | Fail(row: nat, message: string, now: int)
    | SweepExpired(now: int)
    | SweepOld(now: int)

  function Step(q: Queue, a: Action): Queue {
    match a
    case Enqueue(instance, kind, mode, id, tldr, prose, now) =>
      if TldrValid(tldr, prose) then Enqueued(q, NewRow(instance, kind, mode, id, now)) else q
    case Poll(instance, limit, now) => Polled(q, instance, now, limit)
    case Ack(asked, now) => AckedRows(q, asked, now, |q.rows|)
    case Fail(row, message, now) => FailedRow(q, row, message, now)
    case SweepExpired(now) => q.(rows := ExpiredRows(q.rows, None, now))
    case SweepOld(now) => q.(rows := SweptRows(q.rows, now))
  }

  function Run(actions: seq<Action>): Queue {
    if actions == [] then EmptyQueue else Step(Run(actions[..|actions| - 1]), actions[|actions| - 1])
  }

  // ---------------------------------------------------------------------------
  // The service
  // ---------------------------------------------------------------------------

  /** The second event of a new row. */
  function Extra(kind: InjectKind, n: nat): seq<Event> {
    match kind
    case CapabilityInject => [CapabilityInjected(n)]
    case GeneInject => [GeneInjected(n)]
    case _ => []
  }

  /** An acknowledgement by rows: delivered rows that it names and that are not deleted become acked. */
  ghost predicate AckedByRow(before: seq<Row>, after: seq<Row>, asked: set<nat>, now: int, n: nat) {
    && |after| == |before|
    && forall i :: 0 <= i < |before| ==>
         var r := before[i];
         after[i] == if i < n && i in asked && r.status == Delivered && !r.deleted
                     then r.(status := Acked, ackedAt := Some(now), updated := now) else r
  }

  /** A poll by rows, no row twice: those it returns were ready and become delivered, the overdue rows of
      its instance expire, and every other row stays. */
  ghost predicate PollDid(before: seq<Row>, after: seq<Row>, picked: seq<nat>, instance: string, now: int) {
    && NoRepeats(picked) && |after| == |before|
    && (forall i :: i in picked ==> i < |before| && Ready(before[i], instance, now))
    && forall i :: 0 <= i < |before| ==>
         var r := before[i];
         after[i] == if i in picked then r.(status := Delivered, updated := now)
                     else if r.instance == instance && r.status == Pending && r.expires <= now && !r.deleted
                     then r.(status := Expired, updated := now)
                     else r
  }

  class InjectService {
    var rows: seq<Row>
    var events: seq<Event>
    ghost var delivered: seq<nat>

    constructor ()
      ensures State() == EmptyQueue
    {
      rows, events, delivered := [], [], [];
    }

    ghost function State(): Queue
      reads this
    {
      Queue(rows, events, delivered)
    }

    method Emit(e: Event)
      modifies this`events
      ensures events == old(events) + [e]
    {
      events := events + [e];
    }

    method EnqueueInject(instance: string, kind: InjectKind, mode: DeliveryMode, id: int, tldr: Option<string>, prose: nat, now: int)
      returns (row: Option<nat>)
      modifies this
      ensures State() == Step(old(State()), Enqueue(instance, kind, mode, id, tldr, prose, now))
      ensures row == if TldrValid(tldr, prose) then Some(|old(rows)|) else None
      ensures delivered == old(delivered)
      ensures rows == old(rows) + if row.None? then [] else [Row(instance, kind, mode, now, id, now + TTL, Pending, now, None, None, false)]
      ensures row.None? ==> events == old(events)
      ensures row.Some? ==> events == old(events) + [Requested(row.value)] + Extra(kind, row.value)
    {
      if !TldrValid(tldr, 0) || !TldrValid(tldr, prose) {
        return None;
      }
      var n := |rows|;
      rows := rows + [NewRow(instance, kind, mode, id, now)];
      Emit(Requested(n));
      assert events + [] == events;
      if kind == CapabilityInject {
        Emit(CapabilityInjected(n));
      } else if kind == GeneInject {
        Emit(GeneInjected(n));
      }
      return Some(n);
    }

    method PollPendingInjects(instance: string, limit: nat, now: int) returns (picked: seq<nat>)
      modifies this
      ensures State() == Step(old(State()), Poll(instance, limit, now))
      ensures delivered == old(delivered) + picked && events == old(events) && |picked| <= limit
      ensures PollDid(old(rows), rows, picked, instance, now)
    {
      hide Oldest, PickedAll, PollDid, PolledByRow;
      ghost var before := rows;
      rows := ExpiredRows(rows, Some(instance), now);
      ghost var start := State();
      PollRows(start, instance, now, limit);
      picked := [];
      for n := 0 to limit
        invariant delivered == old(delivered) + picked
        invariant PickedAll(State(), instance, now, limit - n) == PickedAll(start, instance, now, limit)
      {
        PickedOne(State(), instance, now, limit - n);
        var i := Oldest(rows, instance, now, |rows|);
        if i.None? {
          FirstPart(old(delivered), picked);
          PollTold(before, rows, picked, instance, now);
          return;
        }
        rows := rows[i.value := rows[i.value].(status := Delivered, updated := now)];
        picked, delivered := picked + [i.value], delivered + [i.value];
      }
      PickedOne(State(), instance, now, 0);
      FirstPart(old(delivered), picked);
      PollTold(before, rows, picked, instance, now);
    }

    method AckInjects(asked: set<nat>, now: int) returns (acked: nat)
      modifies this`rows, this`events
      ensures State() == Step(old(State()), Ack(asked, now))
      ensures acked == |rows| - Count(old(rows), rows, |rows|)
      ensures AckedByRow(old(rows), rows, asked, now, |rows|)
    {
      hide AckedByRow;
      AckRows(State(), asked, now, |rows|);
      acked := 0;
      for n := 0 to |rows|
        invariant |rows| == |old(rows)| && State() == AckedRows(old(State()), asked, now, n)
        invariant forall i :: n <= i < |rows| ==> rows[i] == old(rows[i])
        invariant acked == n - Count(old(rows), rows, n)
      {
        var r := rows[n];
        if n !in asked || r.deleted || r.status != Delivered {
          continue;
        }
        CountUpdate(old(rows), rows, n, r.(status := Acked, ackedAt := Some(now), updated := now));
        rows := rows[n := r.(status := Acked, ackedAt := Some(now), updated := now)];
        acked := acked + 1;
        if r.mode != Notify {
          Emit(Applied(n));
        }
      }
    }

    method MarkInjectFailed(row: nat, message: string, now: int) returns (found: bool)
      modifies this`rows, this`events
      ensures State() == Step(old(State()), Fail(row, message, now))
      ensures found <==> row < |old(rows)| && !old(rows)[row].deleted
      ensures !found ==> rows == old(rows) && events == old(events)
      ensures found ==>
        && events == old(events) + [FailureNoted(row, message)]
        && rows == old(rows)[row := old(rows)[row].(status := Failed, error := Some(message), updated := now)]
    {
      if row >= |rows| || rows[row].deleted {
        return false;
      }
      rows := rows[row := rows[row].(status := Failed, error := Some(message), updated := now)];
      Emit(FailureNoted(row, message));
      return true;
    }

    method DoSweepExpired(now: int) returns (swept: nat)
      modifies this`rows
      ensures State() == Step(old(State()), SweepExpired(now))
      ensures |rows| == |old(rows)| && forall i :: 0 <= i < |rows| ==>
                var r := old(rows)[i];
                rows[i] == if r.status == Pending && r.expires <= now && !r.deleted then r.(status := Expired, updated := now) else r
      ensures swept == |Changed(old(rows), rows)|
    {
      var overdue := set i | 0 <= i < |rows| && Overdue(rows[i], now);
      rows := ExpiredRows(rows, None, now);
      assert overdue == Changed(old(rows), rows);
      return |overdue|;
    }

    method DoSweepOldCompleted(now: int) returns (swept: nat)
      modifies this`rows
      ensures State() == Step(old(State()), SweepOld(now))
      ensures |rows| == |old(rows)| && forall i :: 0 <= i < |rows| ==>
                var r := old(rows)[i];
                rows[i] == if r.status !in {Pending, Delivered} && r.updated < now - SweepAge && !r.deleted
                           then r.(deleted := true, updated := now) else r
      ensures swept == |Changed(old(rows), rows)|
    {
      var aged := set i | 0 <= i < |rows| && Old(rows[i], now);
      rows := SweptRows(rows, now);
      assert aged == Changed(old(rows), rows);
      return |aged|;
    }
  }

  /** The rows that differ between two tables. */
  function Changed(a: seq<Row>, b: seq<Row>): set<nat>
    requires |a| == |b|
  {
    set i | 0 <= i < |a| && b[i] != a[i]
  }

  /** How many of the first n rows are the same in both tables. */
  function Count(a: seq<Row>, b: seq<Row>, n: nat): (k: nat)
    requires n <= |a| == |b|
    ensures k <= n
  {
    if n == 0 then 0 else Count(a, b, n - 1) + if a[n - 1] == b[n - 1] then 1 else 0
  }

  lemma {:induction false} CountUpdate(a: seq<Row>, b: seq<Row>, n: nat, r: Row)
    requires n < |a| == |b|
    ensures Count(a, b[n := r], n) == Count(a, b, n)
  {
    CountSame(a, b, b[n := r], n);
  }

  lemma {:induction false} CountSame(a: seq<Row>, b: seq<Row>, c: seq<Row>, n: nat)
    requires n <= |a| == |b| == |c| && forall i :: 0 <= i < n ==> b[i] == c[i]
    ensures Count(a, b, n) == Count(a, c, n)
  {
    if n > 0 {
      CountSame(a, b, c, n - 1);
    }
  }

  // ---------------------------------------------------------------------------
  // One poll
  // ---------------------------------------------------------------------------

  lemma {:induction false} OldestIsFirst(rows: seq<Row>, instance: string, now: int, n: nat)
    requires n <= |rows|
    ensures var best := Oldest(rows, instance, now, n);
            forall i :: 0 <= i < n && Ready(rows[i], instance, now) ==> best.Some? && !Before(rows[i], rows[best.value])
  {
    if n > 0 {
      OldestIsFirst(rows, instance, now, n - 1);
    }
  }

  /** What a poll adds is ready rows, in the order of delivery. */
  lemma {:induction false} PollTakesReady(q: Queue, instance: string, now: int, limit: nat)
    ensures var r := PickedAll(q, instance, now, limit);
      && |r.rows| == |q.rows| && |q.delivered| <= |r.delivered| <= |q.delivered| + limit && q.delivered <= r.delivered
      && (forall k :: |q.delivered| <= k < |r.delivered| ==> r.delivered[k] < |q.rows| && Ready(q.rows[r.delivered[k]], instance, now))
      && (forall k :: |q.delivered| < k < |r.delivered| ==> !Before(q.rows[r.delivered[k]], q.rows[r.delivered[k - 1]]))
    decreases limit
  {
    hide Oldest, Before;
    var i := Oldest(q.rows, instance, now, |q.rows|);
    OldestIsFirst(q.rows, instance, now, |q.rows|);
    if limit > 0 && i.Some? {
      PollTakesReady(Picked(q, i.value, now), instance, now, limit - 1);
    }
  }

  /** What an acknowledgement does to each of the first n rows. */
  lemma {:induction false} AckRows(q: Queue, asked: set<nat>, now: int, n: nat)
    requires n <= |q.rows|
    ensures AckedByRow(q.rows, AckedRows(q, asked, now, n).rows, asked, now, n)
  {
    hide AckedByRow;
    if n == 0 {
      NoneAcked(q.rows, asked, now);
    } else {
      AckRows(q, asked, now, n - 1);
      AckedOneMore(q.rows, AckedRows(q, asked, now, n - 1), asked, now, n - 1);
    }
  }

  lemma NoneAcked(rows: seq<Row>, asked: set<nat>, now: int)
    ensures AckedByRow(rows, rows, asked, now, 0)
  {
  }

  lemma AckedOneMore(before: seq<Row>, q: Queue, asked: set<nat>, now: int, n: nat)
    requires n < |before| && AckedByRow(before, q.rows, asked, now, n)
    ensures AckedByRow(before, (if n in asked && !q.rows[n].deleted then AckedOne(q, n, now) else q).rows, asked, now, n + 1)
  {
  }

  /** A poll by rows: those it returned become delivered, the others stay. */
  ghost predicate PolledByRow(before: seq<Row>, after: seq<Row>, picked: seq<nat>, instance: string, now: int) {
    && |after| == |before| && NoRepeats(picked)
    && (forall i :: i in picked ==> i < |before| && Ready(before[i], instance, now))
    && forall i :: 0 <= i < |before| ==>
         after[i] == if i in picked then before[i].(status := Delivered, updated := now) else before[i]
  }

  lemma PolledOneMore(before: seq<Row>, after: seq<Row>, i: nat, rest: seq<nat>, instance: string, now: int)
    requires i < |before| && Ready(before[i], instance, now)
    requires PolledByRow(before[i := before[i].(status := Delivered, updated := now)], after, rest, instance, now)
    ensures PolledByRow(before, after, [i] + rest, instance, now)
  {
    var all, once := [i] + rest, before[i := before[i].(status := Delivered, updated := now)];
    assert once[i].status == Delivered;
    assert i !in rest;
    forall x | x in all ensures x < |before| && Ready(before[x], instance, now) {
      assert x == i || x in rest;
    }
    forall x | 0 <= x < |before| ensures after[x] == if x in all then before[x].(status := Delivered, updated := now) else before[x] {
      assert x in all <==> x == i || x in rest;
    }
  }

  /** What a poll does to each row, and that it returns no row twice. */
  lemma {:induction false} PollRows(q: Queue, instance: string, now: int, limit: nat)
    ensures var r := PickedAll(q, instance, now, limit);
      && r.events == q.events && q.delivered <= r.delivered && |r.delivered| <= |q.delivered| + limit
      && PolledByRow(q.rows, r.rows, r.delivered[|q.delivered|..], instance, now)
    decreases limit
  {
    hide Oldest, PolledByRow, Ready;
    var i := Oldest(q.rows, instance, now, |q.rows|);
    var r := PickedAll(q, instance, now, limit);
    if limit > 0 && i.Some? {
      PollRows(Picked(q, i.value, now), instance, now, limit - 1);
      var rest := r.delivered[|q.delivered| + 1..];
      assert r.delivered[|q.delivered|] == i.value;
      assert r.delivered[|q.delivered|..] == [i.value] + rest;
      PolledOneMore(q.rows, r.rows, i.value, rest, instance, now);
    } else {
      NonePolled(q.rows, instance, now);
      assert r.delivered[|q.delivered|..] == [];
    }
  }

  lemma NonePolled(rows: seq<Row>, instance: string, now: int)
    ensures PolledByRow(rows, rows, [], instance, now)
  {
  }

  lemma PollTold(before: seq<Row>, after: seq<Row>, picked: seq<nat>, instance: string, now: int)
    requires PolledByRow(ExpiredRows(before, Some(instance), now), after, picked, instance, now)
    ensures PollDid(before, after, picked, instance, now)
  {
  }

  lemma PickedOne(q: Queue, instance: string, now: int, limit: nat)
    ensures var i := Oldest(q.rows, instance, now, |q.rows|);
      PickedAll(q, instance, now, limit) == if limit == 0 || i.None? then q else PickedAll(Picked(q, i.value, now), instance, now, limit - 1)
  {
  }

  lemma FirstPart(a: seq<nat>, b: seq<nat>)
    ensures (a + b)[|a|..] == b
  {
  }

  /** A poll leaves a ready row behind only when it returned `limit` rows, and the last of
      them is no later than the one left. */
  lemma {:induction false} PollTakesOldest(q: Queue, instance: string, now: int, limit: nat)
    ensures var r := PickedAll(q, instance, now, limit);
      && |r.rows| == |q.rows| && |q.delivered| <= |r.delivered|
      && (forall i :: 0 <= i < |r.rows| && Ready(r.rows[i], instance, now) ==>
            |r.delivered| == |q.delivered| + limit && q.rows[i] == r.rows[i]
            && (limit > 0 ==>
                  var last := r.delivered[|r.delivered| - 1];
                  last < |q.rows| && !Before(q.rows[i], q.rows[last])))
    decreases limit
  {
    hide Oldest, Before;
    var i := Oldest(q.rows, instance, now, |q.rows|);
    if limit > 0 && i.Some? {
      OldestIsFirst(q.rows, instance, now, |q.rows|);
      PollTakesOldest(Picked(q, i.value, now), instance, now, limit - 1);
    } else if limit > 0 {
      OldestIsFirst(q.rows, instance, now, |q.rows|);
    }
  }

  // ---------------------------------------------------------------------------
  // Every run
  // ---------------------------------------------------------------------------

  function AppliedCount(events: seq<Event>, i: nat): nat {
    if events == [] then 0
    else AppliedCount(events[..|events| - 1], i) + if events[|events| - 1] == Applied(i) then 1 else 0
  }

  lemma AppliedAppend(events: seq<Event>, e: Event, i: nat)
    ensures AppliedCount(events + [e], i) == AppliedCount(events, i) + if e == Applied(i) then 1 else 0
  {
    assert (events + [e])[..|events|] == events;
  }

  /** What the status, the acknowledgement, the polls and the events say about one row agree. */
  predicate RowConsistent(q: Queue, i: nat)
    requires i < |q.rows|
  {
    var r := q.rows[i];
    && (r.deleted ==> Completed(r.status))
    && (r.status == Acked ==> r.ackedAt.Some?)
    && (r.ackedAt.Some? ==> (r.status == Acked || r.status == Failed) && i in q.delivered)
    && (r.status == Pending || r.status == Expired ==> i !in q.delivered)
    && (r.status == Delivered ==> i in q.delivered)
    && AppliedCount(q.events, i) == if r.ackedAt.Some? && r.mode != Notify then 1 else 0
  }

  predicate NoRepeats(s: seq<nat>) {
    forall j, k :: 0 <= j < k < |s| ==> s[j] != s[k]
  }

  predicate Valid(q: Queue) {
    && (forall i :: 0 <= i < |q.rows| ==> RowConsistent(q, i))
    && (forall k :: 0 <= k < |q.delivered| ==> q.delivered[k] < |q.rows|)
    && (forall k :: 0 <= k < |q.events| ==> q.events[k].row < |q.rows|)
    && NoRepeats(q.delivered)
  }

  lemma {:induction false} NoneApplied(events: seq<Event>, i: nat)
    requires forall k :: 0 <= k < |events| ==> events[k] != Applied(i)
    ensures AppliedCount(events, i) == 0
  {
    if events != [] {
      NoneApplied(events[..|events| - 1], i);
    }
  }

  /** A row that may have expired or been deleted, and nothing else. */
  predicate OnlyAged(a: Row, b: Row) {
    && a.mode == b.mode && a.ackedAt == b.ackedAt && (b.deleted ==> Completed(b.status))
    && (a.status == b.status || (a.status == Pending && b.status == Expired))
  }

  lemma RowsOnly(q: Queue, rows: seq<Row>)
    requires Valid(q) && |rows| == |q.rows|
    requires forall i :: 0 <= i < |rows| ==> OnlyAged(q.rows[i], rows[i])
    ensures Valid(q.(rows := rows))
  {
    hide AppliedCount, NoRepeats;
    forall i | 0 <= i < |rows| ensures RowConsistent(q.(rows := rows), i) {
      assert RowConsistent(q, i) && OnlyAged(q.rows[i], rows[i]);
    }
  }

  lemma EnqueueApplied(q: Queue, r: Row, i: nat)
    ensures AppliedCount(Enqueued(q, r).events, i) == AppliedCount(q.events, i)
  {
    hide AppliedCount;
    var more := [Requested(|q.rows|)]
                + (if r.kind == CapabilityInject then [CapabilityInjected(|q.rows|)] else if r.kind == GeneInject then [GeneInjected(|q.rows|)] else []);
    assert Enqueued(q, r).events == q.events + more;
    OtherEvents(q.events, more, i);
  }

  lemma EnqueueRow(q: Queue, r: Row, i: nat)
    requires Valid(q) && r.status == Pending && r.ackedAt.None? && !r.deleted && i <= |q.rows|
    ensures RowConsistent(Enqueued(q, r), i)
  {
    hide AppliedCount, NoRepeats;
    EnqueueApplied(q, r, i);
    if i == |q.rows| {
      NoneApplied(q.events, i);
    } else {
      assert RowConsistent(q, i);
    }
  }

  lemma EnqueueValid(q: Queue, r: Row)
    requires Valid(q) && r.status == Pending && r.ackedAt.None? && !r.deleted
    ensures Valid(Enqueued(q, r))
  {
    hide NoRepeats, RowConsistent;
    forall i | 0 <= i <= |q.rows| ensures RowConsistent(Enqueued(q, r), i) {
      EnqueueRow(q, r, i);
    }
  }

  lemma {:induction false} OtherEvents(events: seq<Event>, more: seq<Event>, i: nat)
    requires forall k :: 0 <= k < |more| ==> !more[k].Applied?
    ensures AppliedCount(events + more, i) == AppliedCount(events, i)
  {
    if more == [] {
      assert events + more == events;
    } else {
      var n := |more| - 1;
      assert (events + more)[..|events| + n] == events + more[..n];
      OtherEvents(events, more[..n], i);
    }
  }

  lemma PickValid(q: Queue, i: nat, now: int)
    requires Valid(q) && i < |q.rows| && q.rows[i].status == Pending
    ensures Valid(Picked(q, i, now))
  {
    hide AppliedCount;
    var q' := Picked(q, i, now);
    assert RowConsistent(q, i);
    forall j | 0 <= j < |q'.rows| ensures RowConsistent(q', j) {
      assert RowConsistent(q, j);
    }
  }

  lemma {:induction false} PickAllValid(q: Queue, instance: string, now: int, limit: nat)
    requires Valid(q)
    ensures Valid(PickedAll(q, instance, now, limit))
    decreases limit
  {
    hide Valid, Oldest;
    var i := Oldest(q.rows, instance, now, |q.rows|);
    if limit > 0 && i.Some? {
      PickValid(q, i.value, now);
      PickAllValid(Picked(q, i.value, now), instance, now, limit - 1);
    }
  }

  lemma AckValid(q: Queue, i: nat, now: int)
    requires Valid(q) && i < |q.rows| && !q.rows[i].deleted
    ensures Valid(AckedOne(q, i, now))
  {
    hide AppliedCount, NoRepeats;
    var q' := AckedOne(q, i, now);
    if q.rows[i].status == Delivered {
      forall j | 0 <= j < |q'.rows| ensures RowConsistent(q', j) {
        assert RowConsistent(q, j);
        AppliedAppend(q.events, Applied(i), j);
      }
    }
  }

  lemma {:induction false} AckRowsValid(q: Queue, asked: set<nat>, now: int, n: nat)
    requires Valid(q) && n <= |q.rows|
    ensures Valid(AckedRows(q, asked, now, n))
  {
    hide Valid, AckedOne;
    if n > 0 {
      AckRowsValid(q, asked, now, n - 1);
      var q' := AckedRows(q, asked, now, n - 1);
      if n - 1 in asked && !q'.rows[n - 1].deleted {
        AckValid(q', n - 1, now);
      }
    }
  }

  lemma FailValid(q: Queue, i: nat, message: string, now: int)
    requires Valid(q)
    ensures Valid(FailedRow(q, i, message, now))
  {
    hide AppliedCount, NoRepeats;
    var q' := FailedRow(q, i, message, now);
    if i < |q.rows| && !q.rows[i].deleted {
      forall j | 0 <= j < |q'.rows| ensures RowConsistent(q', j) {
        assert RowConsistent(q, j);
        AppliedAppend(q.events, FailureNoted(i, message), j);
      }
    }
  }

  lemma StepValid(q: Queue, a: Action)
    requires Valid(q)
    ensures Valid(Step(q, a))
  {
    hide Valid, PickedAll, AckedRows, FailedRow, Enqueued;
    match a {
      case Enqueue(instance, kind, mode, id, tldr, prose, now) =>
        EnqueueValid(q, NewRow(instance, kind, mode, id, now));
      case Poll(instance, limit, now) =>
        ExpiredValid(q, Some(instance), now);
        PickAllValid(q.(rows := ExpiredRows(q.rows, Some(instance), now)), instance, now, limit);
      case Ack(asked, now) => AckRowsValid(q, asked, now, |q.rows|);
      case Fail(row, message, now) => FailValid(q, row, message, now);
      case SweepExpired(now) => ExpiredValid(q, None, now);
      case SweepOld(now) => SweptValid(q, now);
    }
  }

  lemma ExpiredValid(q: Queue, instance: Option<string>, now: int)
    requires Valid(q)
    ensures Valid(q.(rows := ExpiredRows(q.rows, instance, now)))
  {
    hide AppliedCount, NoRepeats;
    var rows := ExpiredRows(q.rows, instance, now);
    forall i | 0 <= i < |rows| ensures OnlyAged(q.rows[i], rows[i]) {
      assert RowConsistent(q, i);
    }
    RowsOnly(q, rows);
  }

  lemma SweptValid(q: Queue, now: int)
    requires Valid(q)
    ensures Valid(q.(rows := SweptRows(q.rows, now)))
  {
    hide AppliedCount, NoRepeats;
    var rows := SweptRows(q.rows, now);
    forall i | 0 <= i < |rows| ensures OnlyAged(q.rows[i], rows[i]) {
      assert RowConsistent(q, i);
    }
    RowsOnly(q, rows);
  }

  /** Over every run each row is returned by at most one poll, and a soft inject or a wake
      gets one applied event if it is ever acknowledged and none otherwise; a notify none. */
  lemma {:induction false} RunValid(actions: seq<Action>)
    ensures Valid(Run(actions))
  {
    hide Step, Valid;
    if actions == [] {
      EmptyValid();
    } else {
      RunValid(actions[..|actions| - 1]);
      StepValid(Run(actions[..|actions| - 1]), actions[|actions| - 1]);
    }
  }

  lemma EmptyValid()
    ensures Valid(EmptyQueue)
  {
  }

  // ---------------------------------------------------------------------------
  // How a row may change
  // ---------------------------------------------------------------------------

  predicate MayBecome(a: Status, b: Status) {
    match a
    case Pending => true
    case Delivered => b != Pending && b != Expired
    case Acked => b == Acked || b == Failed
    case Failed => b == Failed
    case Expired => b == Expired || b == Failed
  }

  /** A row keeps what it was made with, never waits again, and stays deleted. */
  predicate Evolves(a: Row, b: Row) {
    && a.instance == b.instance && a.kind == b.kind && a.mode == b.mode
    && a.created == b.created && a.id == b.id && a.expires == b.expires
    && MayBecome(a.status, b.status) && (a.ackedAt.Some? ==> a.ackedAt == b.ackedAt) && (a.deleted ==> b == a)
  }

  predicate TableEvolves(a: seq<Row>, b: seq<Row>) {
    |a| <= |b| && forall i :: 0 <= i < |a| ==> Evolves(a[i], b[i])
  }

  lemma {:induction false} PickEvolves(q: Queue, instance: string, now: int, limit: nat)
    ensures TableEvolves(q.rows, PickedAll(q, instance, now, limit).rows)
    decreases limit
  {
    hide Oldest;
    var i := Oldest(q.rows, instance, now, |q.rows|);
    if limit > 0 && i.Some? {
      PickEvolves(Picked(q, i.value, now), instance, now, limit - 1);
    }
  }

  lemma {:induction false} AckEvolves(q: Queue, asked: set<nat>, now: int, n: nat)
    requires Valid(q) && n <= |q.rows|
    ensures TableEvolves(q.rows, AckedRows(q, asked, now, n).rows)
  {
    hide Valid, Evolves, AckedOne;
    if n > 0 {
      var q' := AckedRows(q, asked, now, n - 1);
      AckEvolves(q, asked, now, n - 1);
      AckRowsValid(q, asked, now, n - 1);
      if n - 1 in asked && !q'.rows[n - 1].deleted {
        AckOneEvolves(q', n - 1, now);
        forall i | 0 <= i < |q.rows| ensures Evolves(q.rows[i], AckedOne(q', n - 1, now).rows[i]) {
          EvolvesOn(q.rows[i], q'.rows[i], AckedOne(q', n - 1, now).rows[i]);
        }
      }
    } else {
      forall i | 0 <= i < |q.rows| ensures Evolves(q.rows[i], q.rows[i]) {
        EvolvesSame(q.rows[i]);
      }
    }
  }

  lemma EvolvesSame(a: Row)
    ensures Evolves(a, a)
  {
  }

  lemma EvolvesOn(a: Row, b: Row, c: Row)
    requires Evolves(a, b) && Evolves(b, c)
    ensures Evolves(a, c)
  {
  }

  lemma AckOneEvolves(q: Queue, i: nat, now: int)
    requires Valid(q) && i < |q.rows| && !q.rows[i].deleted
    ensures TableEvolves(q.rows, AckedOne(q, i, now).rows) && |AckedOne(q, i, now).rows| == |q.rows|
  {
    hide Valid;
    DeliveredUnacked(q, i);
  }

  lemma DeliveredUnacked(q: Queue, i: nat)
    requires Valid(q) && i < |q.rows|
    ensures q.rows[i].status == Delivered ==> q.rows[i].ackedAt.None?
  {
    assert RowConsistent(q, i);
  }

  /** Every operation keeps every row in its lifecycle.  Failing is not the end of a waiting
      row only: a delivered, acknowledged or expired row can still be failed. */
  lemma StepEvolves(q: Queue, a: Action)
    requires Valid(q)
    ensures TableEvolves(q.rows, Step(q, a).rows)
  {
    hide Valid, PickedAll, AckedRows;
    match a {
      case Poll(instance, limit, now) =>
        PickEvolves(q.(rows := ExpiredRows(q.rows, Some(instance), now)), instance, now, limit);
      case Ack(asked, now) => AckEvolves(q, asked, now, |q.rows|);
      case _ =>
    }
  }

  // ---------------------------------------------------------------------------
  // The documented lifecycle
  // ---------------------------------------------------------------------------

  /** What each operation may do to the status of row i. */
  predicate Moves(a: Action, i: nat, s: Status, t: Status) {
    s == t ||
    match a
    case Poll(_, _, _) => s == Pending && (t == Delivered || t == Expired)
    case Ack(asked, _) => i in asked && s == Delivered && t == Acked
    case Fail(row, _, _) => i == row && t == Failed
    case SweepExpired(_) => s == Pending && t == Expired
    case _ => false
  }

  lemma {:induction false} PickMoves(q: Queue, instance: string, now: int, limit: nat)
    ensures var r := PickedAll(q, instance, now, limit).rows;
      && |r| == |q.rows|
      && forall i :: 0 <= i < |r| && r[i].status != q.rows[i].status ==> q.rows[i].status == Pending && r[i].status == Delivered
    decreases limit
  {
    hide Oldest;
    var i := Oldest(q.rows, instance, now, |q.rows|);
    if limit > 0 && i.Some? {
      PickMoves(Picked(q, i.value, now), instance, now, limit - 1);
    }
  }

  lemma {:induction false} AckMoves(q: Queue, asked: set<nat>, now: int, n: nat)
    requires n <= |q.rows|
    ensures var r := AckedRows(q, asked, now, n).rows;
      && (forall i :: n <= i < |r| ==> r[i] == q.rows[i])
      && forall i :: 0 <= i < n && r[i].status != q.rows[i].status ==> i in asked && q.rows[i].status == Delivered && r[i].status == Acked
  {
    if n > 0 {
      AckMoves(q, asked, now, n - 1);
    }
  }

  /** Every operation makes its own moves only: a poll delivers or expires waiting rows, an
      acknowledgement takes delivered rows it names, a failure one row, a sweep overdue ones. */
  lemma StepMoves(q: Queue, a: Action)
    ensures |q.rows| <= |Step(q, a).rows|
    ensures forall i :: 0 <= i < |q.rows| ==> Moves(a, i, q.rows[i].status, Step(q, a).rows[i].status)
  {
    hide PickedAll, AckedRows;
    match a {
      case Poll(instance, limit, now) =>
        PickMoves(q.(rows := ExpiredRows(q.rows, Some(instance), now)), instance, now, limit);
      case Ack(asked, now) => AckMoves(q, asked, now, |q.rows|);
      case _ =>
    }
  }

  /** The lifecycle that the row's own documentation gives. */
  predicate Documented(a: Status, b: Status) {
    a == b || (a == Pending && b in {Delivered, Failed, Expired}) || (a == Delivered && b == Acked)
  }

  predicate TableDocumented(a: seq<Row>, b: seq<Row>) {
    |a| <= |b| && forall i :: 0 <= i < |a| ==> Documented(a[i].status, b[i].status)
  }

  /** A failure reported for a row that no longer waits and has not failed before. */
  predicate LateFailure(q: Queue, a: Action) {
    a.Fail? && a.row < |q.rows| && !q.rows[a.row].deleted && q.rows[a.row].status !in {Pending, Failed}
  }

  /** An operation keeps every row in its documented lifecycle exactly when it is no late
      failure. */
  lemma StepDocumented(q: Queue, a: Action)
    ensures TableDocumented(q.rows, Step(q, a).rows) <==> !LateFailure(q, a)
  {
    hide Step;
    StepMoves(q, a);
    if a.Fail? {
      FailStep(q, a);
    }
  }

  lemma FailStep(q: Queue, a: Action)
    requires a.Fail?
    ensures var rows := Step(q, a).rows;
      && |rows| == |q.rows|
      && forall i :: 0 <= i < |rows| ==>
           rows[i].status == if i == a.row && !q.rows[i].deleted then Failed else q.rows[i].status
  {
  }

  /** Over every run all steps follow the documented lifecycle exactly when none of them is a
      late failure. */
  lemma RunDocumented(actions: seq<Action>)
    ensures (forall n :: 0 <= n < |actions| ==> FollowsAt(actions, n)) <==> (forall n :: 0 <= n < |actions| ==> !LateAt(actions, n))
  {
    hide FollowsAt, LateAt;
    forall n | 0 <= n < |actions| ensures FollowsAt(actions, n) <==> !LateAt(actions, n) {
      PlaceDocumented(actions, n);
    }
  }

  predicate FollowsAt(actions: seq<Action>, n: nat)
    requires n < |actions|
  {
    TableDocumented(Run(actions[..n]).rows, Run(actions[..n + 1]).rows)
  }

  predicate LateAt(actions: seq<Action>, n: nat)
    requires n < |actions|
  {
    LateFailure(Run(actions[..n]), actions[n])
  }

  lemma PlaceDocumented(actions: seq<Action>, n: nat)
    requires n < |actions|
    ensures FollowsAt(actions, n) <==> !LateAt(actions, n)
  {
    hide Step, TableDocumented, LateFailure;
    assert actions[..n + 1][..n] == actions[..n];
    StepDocumented(Run(actions[..n]), actions[n]);
  }

  /** An acknowledged row that fails afterwards keeps its applied event: it ends as failed
      although it was applied. */
  lemma AppliedThenFailed(q: Queue, i: nat, message: string, now: int)
    requires Valid(q) && i < |q.rows| && q.rows[i].status == Acked && q.rows[i].mode != Notify && !q.rows[i].deleted
    ensures var q' := Step(q, Fail(i, message, now));
            q'.rows[i].status == Failed && AppliedCount(q'.events, i) == 1
  {
    assert RowConsistent(q, i);
    AppliedAppend(q.events, FailureNoted(i, message), i);
  }

  // ---------------------------------------------------------------------------
  // First in, first out
  // ---------------------------------------------------------------------------

  /** Creation keys grow with the table, for the rows of one instance. */
  predicate KeysGrow(rows: seq<Row>, instance: string) {
    forall i, j :: 0 <= i < j < |rows| && rows[i].instance == instance == rows[j].instance ==> Before(rows[i], rows[j])
  }

  /** What was delivered of the instance is in table order, and before all that waits. */
  predicate InOrder(q: Queue, instance: string) {
    && (forall k :: 0 <= k < |q.delivered| ==> q.delivered[k] < |q.rows|)
    && (forall j, k ::
          0 <= j < k < |q.delivered| && q.rows[q.delivered[j]].instance == instance == q.rows[q.delivered[k]].instance
          ==> q.delivered[j] < q.delivered[k])
    && (forall k, i ::
          (0 <= k < |q.delivered| && 0 <= i < |q.rows| && q.rows[i].instance == instance == q.rows[q.delivered[k]].instance
           && q.rows[i].status == Pending) ==> q.delivered[k] < i)
  }

  /** Nothing of the instance waits beyond its time or under a deletion mark. */
  predicate NoneOverdue(rows: seq<Row>, instance: string, now: int) {
    forall i :: 0 <= i < |rows| && rows[i].instance == instance && rows[i].status == Pending ==> Ready(rows[i], instance, now)
  }

  lemma PickedBeforeWaiting(q: Queue, i: nat, instance: string, now: int)
    requires KeysGrow(q.rows, instance) && i < |q.rows| && Ready(q.rows[i], instance, now) && NoneOverdue(q.rows, instance, now)
    requires forall j :: 0 <= j < |q.rows| && Ready(q.rows[j], instance, now) ==> !Before(q.rows[j], q.rows[i])
    ensures forall j :: 0 <= j < |q.rows| && j != i && q.rows[j].instance == instance && q.rows[j].status == Pending ==> i < j
  {
    forall j | 0 <= j < |q.rows| && j != i && q.rows[j].instance == instance && q.rows[j].status == Pending ensures i < j {
      assert Ready(q.rows[j], instance, now);
    }
  }

  lemma PickKeepsKeys(q: Queue, i: nat, instance: string, now: int)
    requires i < |q.rows|
    ensures KeysGrow(q.rows, instance) ==> KeysGrow(Picked(q, i, now).rows, instance)
    ensures NoneOverdue(q.rows, instance, now) ==> NoneOverdue(Picked(q, i, now).rows, instance, now)
  {
    var rows := Picked(q, i, now).rows;
    assert forall j :: 0 <= j < |rows| && rows[j].status == Pending ==> rows[j] == q.rows[j];
  }

  lemma PickInOrder(q: Queue, i: nat, instance: string, other: string, now: int)
    requires InOrder(q, instance) && KeysGrow(q.rows, instance)
    requires i < |q.rows| && Ready(q.rows[i], other, now)
    requires other == instance ==> NoneOverdue(q.rows, instance, now)
    requires forall j :: 0 <= j < |q.rows| && Ready(q.rows[j], other, now) ==> !Before(q.rows[j], q.rows[i])
    ensures InOrder(Picked(q, i, now), instance) && KeysGrow(Picked(q, i, now).rows, instance)
    ensures other == instance ==> NoneOverdue(Picked(q, i, now).rows, instance, now)
  {
    hide KeysGrow, NoneOverdue, Before;
    PickKeepsKeys(q, i, instance, now);
    if other == instance {
      PickedBeforeWaiting(q, i, instance, now);
    }
  }

  lemma {:induction false} PickAllInOrder(q: Queue, instance: string, other: string, now: int, limit: nat)
    requires InOrder(q, instance) && KeysGrow(q.rows, instance)
    requires other == instance ==> NoneOverdue(q.rows, instance, now)
    ensures InOrder(PickedAll(q, other, now, limit), instance)
    decreases limit
  {
    hide InOrder, KeysGrow, NoneOverdue, Oldest;
    var i := Oldest(q.rows, other, now, |q.rows|);
    if limit > 0 && i.Some? {
      OldestIsFirst(q.rows, other, now, |q.rows|);
      PickInOrder(q, i.value, instance, other, now);
      PickAllInOrder(Picked(q, i.value, now), instance, other, now, limit - 1);
    }
  }

  lemma PollInOrder(q: Queue, instance: string, other: string, now: int, limit: nat)
    requires Valid(q) && InOrder(q, instance) && KeysGrow(q.rows, instance)
    ensures InOrder(Polled(q, other, now, limit), instance)
  {
    var q' := q.(rows := ExpiredRows(q.rows, Some(other), now));
    assert InOrder(q', instance) && KeysGrow(q'.rows, instance) by {
      SameOrder(q, q', instance);
    }
    if other == instance {
      forall i | 0 <= i < |q.rows| && q'.rows[i].instance == instance && q'.rows[i].status == Pending ensures Ready(q'.rows[i], instance, now) {
        assert RowConsistent(q, i);
      }
    }
    PickAllInOrder(q', instance, other, now, limit);
  }

  /** Nothing is delivered, and no row starts to wait but at the end of the table. */
  lemma SameOrder(q: Queue, q': Queue, instance: string)
    requires InOrder(q, instance) && q'.delivered == q.delivered && TableEvolves(q.rows, q'.rows)
    ensures InOrder(q', instance)
    ensures KeysGrow(q'.rows, instance) ==> KeysGrow(q.rows, instance)
    ensures |q'.rows| == |q.rows| && KeysGrow(q.rows, instance) ==> KeysGrow(q'.rows, instance)
  {
  }

  lemma {:induction false} AckDelivers(q: Queue, asked: set<nat>, now: int, n: nat)
    requires n <= |q.rows|
    ensures AckedRows(q, asked, now, n).delivered == q.delivered
  {
    if n > 0 {
      AckDelivers(q, asked, now, n - 1);
    }
  }

  lemma StepInOrder(q: Queue, a: Action, instance: string)
    requires Valid(q) && InOrder(q, instance) && KeysGrow(Step(q, a).rows, instance)
    ensures InOrder(Step(q, a), instance)
  {
    hide Valid, InOrder, KeysGrow, PickedAll, AckedRows, TableEvolves;
    StepEvolves(q, a);
    match a {
      case Poll(other, limit, now) =>
        KeysGrewBefore(q.rows, Step(q, a).rows, instance);
        PollInOrder(q, instance, other, now, limit);
      case Ack(asked, now) =>
        AckDelivers(q, asked, now, |q.rows|);
        SameOrder(q, Step(q, a), instance);
      case _ => SameOrder(q, Step(q, a), instance);
    }
  }

  lemma KeysGrewBefore(a: seq<Row>, b: seq<Row>, instance: string)
    requires TableEvolves(a, b) && KeysGrow(b, instance)
    ensures KeysGrow(a, instance)
  {
  }

  /** When the creation keys of an instance's rows never go back, its rows are delivered in
      the order in which they were enqueued, over every run. */
  lemma {:induction false} FirstInFirstOut(actions: seq<Action>, instance: string)
    requires KeysGrow(Run(actions).rows, instance)
    ensures InOrder(Run(actions), instance)
  {
    hide Step, InOrder, KeysGrow, Valid;
    if actions == [] {
      EmptyInOrder(instance);
    } else {
      var before, a := Run(actions[..|actions| - 1]), actions[|actions| - 1];
      RunValid(actions[..|actions| - 1]);
      StepEvolves(before, a);
      KeysGrewBefore(before.rows, Step(before, a).rows, instance);
      FirstInFirstOut(actions[..|actions| - 1], instance);
      StepInOrder(before, a, instance);
    }
  }

  lemma EmptyInOrder(instance: string)
    ensures InOrder(EmptyQueue, instance)
  {
  }
}

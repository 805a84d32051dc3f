/** The delayed task queue: one worker, a heap ordered by (run_at, seq), and a wakeup
    flag.  Code between two suspension points runs without interleaving, so each such
    piece is one action; enqueues, stops, timers and the clock move between them. */
module TaskQueue {
  import opened Prelude

  type Time = int

  datatype Task = Task(runAt: Time, seqNo: nat, name: string, payload: string)

  /** Heap order. */
  predicate Before(a: Task, b: Task) {
    a.runAt < b.runAt || (a.runAt == b.runAt && a.seqNo < b.seqNo)
  }

  /** Where a worker coroutine is suspended. */
  datatype Worker =
    | Created              // scheduled, first piece not run yet
    | Idle                 // waiting for the flag, nothing queued
    | Holding(task: Task)  // sleeping until its task is due or the flag is set
    | Running(task: Task)  // inside a handler
    | Exited

  datatype Execution = Execution(task: Task, at: Time)

  /** `pending` is the heap, in heap order; `woken` holds the waiting workers whose wait the
      flag has resolved; `all` and `log` are the history of enqueued and started tasks;
      `stops` holds, for each stop() in progress, the worker it awaits. */
  datatype Queue = Queue(
    pending: seq<Task>, handlers: set<string>, seqNo: nat, wakeup: bool, woken: set<nat>, stopping: bool,
    workerTask: Option<nat>, workers: seq<Worker>, stops: seq<nat>, now: Time,
    all: seq<Task>, log: seq<Execution>)

  const Init: Queue := Queue([], {}, 0, false, {}, false, None, [], [], 0, [], [])

  predicate Waiting(p: Worker) {
    p.Idle? || p.Holding?
  }

  /** Setting the flag resolves the wait of every worker waiting; clearing it later does
      not undo that. */
  function Waiters(workers: seq<Worker>): (r: set<nat>)
    ensures forall w :: w in r <==> 0 <= w < |workers| && Waiting(workers[w])
  {
    set w | 0 <= w < |workers| && Waiting(workers[w])
  }

  function Inserted(s: seq<Task>, t: Task): seq<Task> {
    if s == [] || Before(t, s[0]) then [t] + s else [s[0]] + Inserted(s[1..], t)
  }

  // ---------------------------------------------------------------------------
  // Actions
  // ---------------------------------------------------------------------------

  datatype Action =
    | Register(name: string)
    | Enqueue(name: string, delay: int, payload: string)
    | Start
    | StopCall
    | StopReturn(k: nat)
    | Tick(dt: nat)
    | Boot(w: nat)     // first piece of a created worker
    | Wake(w: nat)     // the wait ends because the flag was set
    | Timeout(w: nat)  // the timer wins, whether or not the flag was set
    | Finish(w: nat)   // the handler returns or raises

  /** From the top of the worker loop to the next suspension. */
  function LoopTop(q: Queue, w: nat): Queue
    requires w < |q.workers|
  {
    if q.stopping then q.(woken := q.woken - {w}, workers := q.workers[w := Exited])
    else if q.pending == [] then q.(wakeup := false, woken := q.woken - {w}, workers := q.workers[w := Idle])
    else
      var head, popped := q.pending[0], q.(pending := q.pending[1..]);
      if head.runAt <= q.now then Begin(popped, w, head)
      else popped.(wakeup := false, woken := q.woken - {w}, workers := q.workers[w := Holding(head)])
  }

  function Begin(q: Queue, w: nat, t: Task): Queue
    requires w < |q.workers|
  {
    q.(woken := q.woken - {w}, workers := q.workers[w := Running(t)], log := q.log + [Execution(t, q.now)])
  }

  predicate Enabled(q: Queue, a: Action) {
    match a
    case Register(name) => name !in q.handlers
    case Enqueue(name, _, _) => name in q.handlers
    case Start => q.workerTask == None
    case StopCall => true
    case StopReturn(k) => k < |q.stops| && q.stops[k] < |q.workers| && q.workers[q.stops[k]].Exited?
    case Tick(_) => true
    case Boot(w) => w < |q.workers| && q.workers[w].Created?
    case Wake(w) => w < |q.workers| && Waiting(q.workers[w]) && w in q.woken
    case Timeout(w) => w < |q.workers| && q.workers[w].Holding? && q.workers[w].task.runAt <= q.now
    case Finish(w) => w < |q.workers| && q.workers[w].Running?
  }

  /** An action that is not enabled, such as enqueueing an unknown name, changes nothing. */
  function Next(q: Queue, a: Action): Queue {
    if !Enabled(q, a) then q
    else match a
      case Register(name) => q.(handlers := q.handlers + {name})
      case Enqueue(name, delay, payload) =>
        var t := Task(q.now + delay, q.seqNo + 1, name, payload);
        q.(seqNo := q.seqNo + 1, pending := Inserted(q.pending, t), wakeup := true, woken := Waiters(q.workers),
           all := q.all + [t])
      case Start =>
        q.(stopping := false, workerTask := Some(|q.workers|), workers := q.workers + [Created])
      case StopCall =>
        q.(stopping := true, wakeup := true, woken := Waiters(q.workers),
           stops := q.stops + if q.workerTask.Some? then [q.workerTask.value] else [])
      case StopReturn(k) => q.(workerTask := None, stops := q.stops[..k] + q.stops[k + 1..])
      case Tick(dt) => q.(now := q.now + dt)
      case Boot(w) => LoopTop(q, w)
      case Wake(w) =>
        var q' := if q.workers[w].Holding? then q.(pending := Inserted(q.pending, q.workers[w].task)) else q;
        LoopTop(q', w)
      case Timeout(w) => Begin(q, w, q.workers[w].task)
      case Finish(w) => LoopTop(q, w)
  }

  function Run(q: Queue, actions: seq<Action>): Queue
    decreases |actions|
  {
    if actions == [] then q else Run(Next(q, actions[0]), actions[1..])
  }

  // ---------------------------------------------------------------------------
  // The class, proved against the actions
  // ---------------------------------------------------------------------------

  class InMemoryTaskQueue {
    var heap: seq<Task>
    var handlers: set<string>
    var seqNo: nat
    var wakeup: bool
    var woken: set<nat>
    var stopping: bool
    var workerTask: Option<nat>
    var workers: seq<Worker>
    var stops: seq<nat>
    var clock: Time
    var all: seq<Task>
    var log: seq<Execution>

    function View(): Queue
      reads this
    {
      Queue(heap, handlers, seqNo, wakeup, woken, stopping, workerTask, workers, stops, clock, all, log)
    }

    constructor ()
      ensures View() == Init
    {
      heap, handlers, seqNo, wakeup, woken, stopping, workerTask := [], {}, 0, false, {}, false, None;
      workers, stops, clock, all, log := [], [], 0, [], [];
    }

    method RegisterTask(name: string) returns (ok: bool)
      modifies this
      ensures ok == old(name !in handlers) && View() == Next(old(View()), Register(name))
    {
      if name in handlers {
        return false;
      }
      handlers := handlers + {name};
      return true;
    }

    method EnqueueTask(name: string, delay: int, payload: string) returns (id: Option<nat>)
      modifies this
      ensures id == (if name in old(handlers) then Some(old(seqNo) + 1) else None)
      ensures clock == old(clock) && log == old(log)
      ensures all == old(all) + if name in old(handlers) then [Task(old(clock) + delay, old(seqNo) + 1, name, payload)] else []
      ensures View() == Next(old(View()), Enqueue(name, delay, payload))
    {
      if name !in handlers {
        return None;
      }
      var runAt := clock + delay;
      seqNo := seqNo + 1;
      var task := Task(runAt, seqNo, name, payload);
      heap := Inserted(heap, task);
      all := all + [task];
      wakeup, woken := true, Waiters(workers);
      return Some(seqNo);
    }

    method StartWorker()
      modifies this
      ensures View() == Next(old(View()), Start)
    {
      if workerTask.Some? {
        return;
      }
      stopping := false;
      workerTask := Some(|workers|);
      workers := workers + [Created];
    }

    /** stop(), up to the point where it awaits the worker. */
    method BeginStop()
      modifies this
      ensures View() == Next(old(View()), StopCall)
    {
      stopping := true;
      wakeup, woken := true, Waiters(workers);
      if workerTask.Some? {
        stops := stops + [workerTask.value];
      } else {
        assert stops + [] == stops;
      }
    }

    /** The rest of stop(), once the awaited worker has exited. */
    method FinishStop(k: nat)
      requires Enabled(View(), StopReturn(k))
      modifies this
      ensures View() == Next(old(View()), StopReturn(k))
    {
      workerTask := None;
      stops := stops[..k] + stops[k + 1..];
    }

    /** The worker loop, from its top to the next suspension. */
    method WorkerPiece(w: nat)
      requires w < |workers|
      modifies this
      ensures View() == LoopTop(old(View()), w)
    {
      woken := woken - {w};
      if stopping {
        workers := workers[w := Exited];
        return;
      }
      if heap == [] {
        wakeup := false;
        workers := workers[w := Idle];
        return;
      }
      var head := heap[0];
      heap := heap[1..];
      var delay := head.runAt - clock;
      if delay <= 0 {
        Execute(w, head);
        return;
      }
      wakeup := false;
      workers := workers[w := Holding(head)];
    }

    method Execute(w: nat, task: Task)
      requires w < |workers|
      modifies this
      ensures View() == Begin(old(View()), w, task)
    {
      woken, workers := woken - {w}, workers[w := Running(task)];
      log := log + [Execution(task, clock)];
    }

    /** Resuming a worker: the timed wait either expired or saw the flag. */
    method Resume(w: nat, timedOut: bool)
      requires w < |workers|
      requires if timedOut then Enabled(View(), Timeout(w))
               else Enabled(View(), Boot(w)) || Enabled(View(), Wake(w)) || Enabled(View(), Finish(w))
      modifies this
      ensures var q := old(View());
              View() == Next(q, if timedOut then Timeout(w)
                                else if q.workers[w].Created? then Boot(w)
                                else if q.workers[w].Running? then Finish(w) else Wake(w))
    {
      if timedOut {
        Execute(w, workers[w].task);
        return;
      }
      if workers[w].Holding? {
        heap := Inserted(heap, workers[w].task);
      }
      WorkerPiece(w);
    }
  }

  // ---------------------------------------------------------------------------
  // Conservation: over every run, whatever the callers do
  // ---------------------------------------------------------------------------

  predicate Sorted(s: seq<Task>) {
    forall i, j :: 0 <= i < j < |s| ==> Before(s[i], s[j])
  }

  ghost predicate IsHeld(workers: seq<Worker>, t: Task) {
    exists w :: 0 <= w < |workers| && workers[w] == Holding(t)
  }

  ghost predicate IsStarted(log: seq<Execution>, t: Task) {
    exists i :: 0 <= i < |log| && log[i].task == t
  }

  predicate Enqueued(all: seq<Task>, t: Task) {
    1 <= t.seqNo <= |all| && all[t.seqNo - 1] == t
  }

  ghost predicate InOnePlace(all: seq<Task>, pending: seq<Task>, workers: seq<Worker>, log: seq<Execution>) {
    && (forall t :: Enqueued(all, t) <==> t in pending || IsHeld(workers, t) || IsStarted(log, t))
    && (forall t :: t in pending ==> !IsHeld(workers, t) && !IsStarted(log, t))
    && (forall t :: IsHeld(workers, t) ==> !IsStarted(log, t))
  }

  ghost predicate HeldOnce(workers: seq<Worker>) {
    forall v, w :: 0 <= v < |workers| && 0 <= w < |workers| && v != w && workers[v].Holding? ==> workers[v] != workers[w]
  }

  ghost predicate StartedOnceWhenDue(log: seq<Execution>, now: Time) {
    && (forall i, j :: 0 <= i < j < |log| ==> log[i].task != log[j].task)
    && (forall i :: 0 <= i < |log| ==> log[i].task.runAt <= log[i].at <= now)
  }

  /** Each enqueued task is in exactly one place: queued, held by one worker, or started
      once, and not before it was due. */
  ghost predicate Conserved(q: Queue) {
    && Sorted(q.pending)
    && InOnePlace(q.all, q.pending, q.workers, q.log)
    && HeldOnce(q.workers)
    && StartedOnceWhenDue(q.log, q.now)
  }

  /** Sequence numbers are positions in the order of enqueueing. */
  ghost predicate Numbered(q: Queue) {
    |q.all| == q.seqNo && forall i :: 0 <= i < |q.all| ==> q.all[i].seqNo == i + 1
  }

  lemma {:induction false} InsertedRows(s: seq<Task>, t: Task)
    requires Sorted(s) && forall u :: u in s ==> u.seqNo != t.seqNo
    ensures Sorted(Inserted(s, t))
    ensures forall u :: u in Inserted(s, t) <==> u in s || u == t
  {
    if s != [] && !Before(t, s[0]) {
      InsertedRows(s[1..], t);
      assert s == [s[0]] + s[1..];
      assert forall u :: u in Inserted(s[1..], t) ==> Before(s[0], u);
    }
  }

  lemma HeadRemoved(s: seq<Task>)
    requires Sorted(s) && s != []
    ensures Sorted(s[1..])
    ensures forall u :: u in s[1..] <==> u in s && u != s[0]
    ensures forall u :: u in s[1..] ==> Before(s[0], u)
  {
    assert s == [s[0]] + s[1..];
  }

  /** Only worker w changes what it holds. */
  lemma HeldAfter(workers: seq<Worker>, w: nat, p: Worker)
    requires w < |workers|
    requires HeldOnce(workers)
    ensures forall t :: IsHeld(workers[w := p], t) <==> p == Holding(t) || (IsHeld(workers, t) && workers[w] != Holding(t))
  {
    forall t ensures IsHeld(workers[w := p], t) <==> p == Holding(t) || (IsHeld(workers, t) && workers[w] != Holding(t)) {
      if p == Holding(t) {
        assert workers[w := p][w] == Holding(t);
      } else if IsHeld(workers, t) && workers[w] != Holding(t) {
        var v :| 0 <= v < |workers| && workers[v] == Holding(t);
        assert workers[w := p][v] == Holding(t);
      }
    }
  }

  lemma StartedAfter(log: seq<Execution>, e: Execution)
    ensures forall t :: IsStarted(log + [e], t) <==> IsStarted(log, t) || t == e.task
  {
    forall t ensures IsStarted(log + [e], t) <==> IsStarted(log, t) || t == e.task {
      assert (log + [e])[|log|] == e;
      if IsStarted(log, t) {
        var i :| 0 <= i < |log| && log[i].task == t;
        assert (log + [e])[i].task == t;
      }
    }
  }

  lemma LogEntriesStarted(log: seq<Execution>)
    ensures forall i :: 0 <= i < |log| ==> IsStarted(log, log[i].task)
  {
  }

  /** From the heap into the hands of a worker, or straight to its handler. */
  lemma LoopTopConserves(q: Queue, w: nat)
    requires w < |q.workers| && !q.workers[w].Holding? && Conserved(q)
    ensures Conserved(LoopTop(q, w))
  {
    var q' := LoopTop(q, w);
    HeldAfter(q.workers, w, q'.workers[w]);
    if !q.stopping && q.pending != [] {
      HeadRemoved(q.pending);
      assert q.pending[0] in q.pending;
      if q.pending[0].runAt <= q.now {
        StartedAfter(q.log, Execution(q.pending[0], q.now));
        LogEntriesStarted(q.log);
      }
    }
  }

  lemma HeldNotPending(q: Queue, w: nat)
    requires Conserved(q) && Numbered(q) && w < |q.workers| && q.workers[w].Holding?
    ensures forall u :: u in q.pending ==> u.seqNo != q.workers[w].task.seqNo
  {
    assert IsHeld(q.workers, q.workers[w].task);
  }

  /** A woken worker first puts back what it held. */
  function PutBack(q: Queue, w: nat): Queue
    requires w < |q.workers| && q.workers[w].Holding?
  {
    q.(pending := Inserted(q.pending, q.workers[w].task), workers := q.workers[w := Idle])
  }

  lemma PutBackConserves(q: Queue, w: nat)
    requires Conserved(q) && Numbered(q) && w < |q.workers| && q.workers[w].Holding?
    ensures Conserved(PutBack(q, w))
    ensures Next(q, Wake(w)) == if w in q.woken then LoopTop(PutBack(q, w), w) else q
  {
    HeldNotPending(q, w);
    InsertedRows(q.pending, q.workers[w].task);
    HeldAfter(q.workers, w, Idle);
    assert IsHeld(q.workers, q.workers[w].task);
    var ws := q.workers;
    assert ws[w := Idle][w := Exited] == ws[w := Exited] && ws[w := Idle][w := Idle] == ws[w := Idle];
    var head := PutBack(q, w).pending;
    if head != [] {
      assert ws[w := Idle][w := Running(head[0])] == ws[w := Running(head[0])];
      assert ws[w := Idle][w := Holding(head[0])] == ws[w := Holding(head[0])];
    }
  }

  lemma TimeoutConserves(q: Queue, w: nat)
    requires Conserved(q) && Enabled(q, Timeout(w))
    ensures Conserved(Next(q, Timeout(w)))
  {
    var t := q.workers[w].task;
    HeldAfter(q.workers, w, Running(t));
    StartedAfter(q.log, Execution(t, q.now));
    LogEntriesStarted(q.log);
    assert IsHeld(q.workers, t);
  }

  lemma QueuedInOnePlace(all: seq<Task>, pending: seq<Task>, workers: seq<Worker>, log: seq<Execution>, t: Task)
    requires InOnePlace(all, pending, workers, log) && Sorted(pending)
    requires t.seqNo == |all| + 1
    ensures InOnePlace(all + [t], Inserted(pending, t), workers, log) && Sorted(Inserted(pending, t))
  {
    assert forall u :: u in pending ==> Enqueued(all, u);
    assert forall u :: Enqueued(all + [t], u) <==> Enqueued(all, u) || u == t;
    InsertedRows(pending, t);
  }

  lemma EnqueueConserves(q: Queue, name: string, delay: int, payload: string)
    requires Conserved(q) && Numbered(q)
    ensures Conserved(Next(q, Enqueue(name, delay, payload))) && Numbered(Next(q, Enqueue(name, delay, payload)))
  {
    if name in q.handlers {
      var t := Task(q.now + delay, q.seqNo + 1, name, payload);
      QueuedInOnePlace(q.all, q.pending, q.workers, q.log, t);
    }
  }

  lemma StartConserves(q: Queue)
    requires Conserved(q)
    ensures Conserved(Next(q, Start))
  {
    var ws := q.workers + [Created];
    forall t ensures IsHeld(ws, t) <==> IsHeld(q.workers, t) {
      if IsHeld(q.workers, t) {
        var w :| 0 <= w < |q.workers| && q.workers[w] == Holding(t);
        assert ws[w] == Holding(t);
      }
    }
  }

  lemma StepConserves(q: Queue, a: Action)
    requires Conserved(q) && Numbered(q)
    ensures Conserved(Next(q, a)) && Numbered(Next(q, a))
  {
    if Enabled(q, a) {
      match a {
        case Enqueue(name, delay, payload) => EnqueueConserves(q, name, delay, payload);
        case Start => StartConserves(q);
        case Boot(w) => LoopTopConserves(q, w);
        case Finish(w) => LoopTopConserves(q, w);
        case Wake(w) =>
          if q.workers[w].Holding? {
            PutBackConserves(q, w);
            LoopTopConserves(PutBack(q, w), w);
          } else {
            LoopTopConserves(q, w);
          }
        case Timeout(w) => TimeoutConserves(q, w);
        case _ =>
      }
    }
  }

  /** Over every run, including ones where calls to stop overlap: the enqueued tasks are
      the queued, the held and the started ones, each in one place, no task starts twice
      and none before it is due. */
  lemma {:induction false} RunConserves(q: Queue, actions: seq<Action>)
    requires Conserved(q) && Numbered(q)
    ensures Conserved(Run(q, actions)) && Numbered(Run(q, actions))
    decreases |actions|
  {
    if actions != [] {
      StepConserves(q, actions[0]);
      RunConserves(Next(q, actions[0]), actions[1..]);
    }
  }

  // ---------------------------------------------------------------------------
  // One worker: order and wakeups
  // ---------------------------------------------------------------------------

  ghost predicate OneWorker(q: Queue) {
    && (forall w :: 0 <= w < |q.workers| && q.workerTask != Some(w) ==> q.workers[w].Exited?)
    && (q.workerTask.Some? ==> q.workerTask.value < |q.workers|)
    && (forall k :: 0 <= k < |q.stops| ==> q.stops[k] < |q.workers| && (q.workerTask.Some? ==> q.workerTask.value == q.stops[k]))
  }

  /** A task out of the heap precedes every older task still in it. */
  ghost predicate Overtakes(t: Task, pending: seq<Task>) {
    forall u :: u in pending && u.seqNo < t.seqNo ==> Before(t, u)
  }

  /** Whatever was enqueued earlier for no later was started earlier. */
  ghost predicate FairLog(all: seq<Task>, log: seq<Execution>) {
    forall i, t :: 0 <= i < |log| && Enqueued(all, t) && t.seqNo < log[i].task.seqNo && t.runAt <= log[i].task.runAt
      ==> IsStarted(log[..i], t)
  }

  ghost predicate HeldOvertake(q: Queue) {
    forall w :: 0 <= w < |q.workers| && q.workers[w].Holding? ==> Overtakes(q.workers[w].task, q.pending)
  }

  /** A worker that sleeps and has not been woken has nothing better to wait for. */
  ghost predicate NoLostWakeup(q: Queue) {
    forall w :: 0 <= w < |q.workers| && w !in q.woken ==>
      && (q.workers[w].Idle? ==> !q.stopping && q.pending == [])
      && (q.workers[w].Holding? ==> !q.stopping && forall t :: t in q.pending ==> Before(q.workers[w].task, t))
  }

  ghost predicate Inv(q: Queue) {
    && Conserved(q) && Numbered(q) && OneWorker(q)
    && FairLog(q.all, q.log) && HeldOvertake(q) && NoLostWakeup(q)
  }

  /** Starting a task that overtakes the heap keeps the log fair, if nothing else is held. */
  lemma BeginFair(all: seq<Task>, pending: seq<Task>, log: seq<Execution>, e: Execution)
    requires FairLog(all, log) && Overtakes(e.task, pending)
    requires forall u :: Enqueued(all, u) ==> u in pending || u == e.task || IsStarted(log, u)
    ensures FairLog(all, log + [e])
  {
    var log' := log + [e];
    forall i, t | 0 <= i < |log'| && Enqueued(all, t) && t.seqNo < log'[i].task.seqNo && t.runAt <= log'[i].task.runAt
      ensures IsStarted(log'[..i], t)
    {
      assert log'[..i] == log[..i];
      assert log[..|log|] == log;
    }
  }

  lemma LoopTopInv(q: Queue, w: nat)
    requires w < |q.workers| && q.workerTask == Some(w) && !q.workers[w].Holding? && !q.workers[w].Exited?
    requires Conserved(q) && Numbered(q) && OneWorker(q) && FairLog(q.all, q.log)
    ensures Inv(LoopTop(q, w))
  {
    LoopTopConserves(q, w);
    assert forall t :: !IsHeld(q.workers, t);
    if !q.stopping && q.pending != [] {
      HeadRemoved(q.pending);
      if q.pending[0].runAt <= q.now {
        BeginFair(q.all, q.pending[1..], q.log, Execution(q.pending[0], q.now));
      }
    }
  }

  lemma WakeInv(q: Queue, w: nat)
    requires Inv(q) && Enabled(q, Wake(w))
    ensures Inv(Next(q, Wake(w)))
  {
    if q.workers[w].Holding? {
      PutBackConserves(q, w);
      LoopTopInv(PutBack(q, w), w);
    } else {
      LoopTopInv(q, w);
    }
  }

  lemma EnqueueInv(q: Queue, name: string, delay: int, payload: string)
    requires Inv(q)
    ensures Inv(Next(q, Enqueue(name, delay, payload)))
  {
    EnqueueConserves(q, name, delay, payload);
    if name in q.handlers {
      var t, q' := Task(q.now + delay, q.seqNo + 1, name, payload), Next(q, Enqueue(name, delay, payload));
      InsertedRows(q.pending, t);
      forall w | 0 <= w < |q.workers| && q.workers[w].Holding? ensures Overtakes(q.workers[w].task, q'.pending) {
        assert IsHeld(q.workers, q.workers[w].task);
      }
      forall i | 0 <= i < |q.log| ensures Enqueued(q.all, q.log[i].task) {
        assert IsStarted(q.log, q.log[i].task);
      }
    }
  }

  lemma TimeoutInv(q: Queue, w: nat)
    requires Inv(q) && Enabled(q, Timeout(w))
    ensures Inv(Next(q, Timeout(w)))
  {
    TimeoutConserves(q, w);
    BeginFair(q.all, q.pending, q.log, Execution(q.workers[w].task, q.now));
  }

  /** No worker is started while a stop() has still to return. */
  predicate StartsApart(q: Queue, a: Action) {
    a.Start? && q.workerTask == None ==> q.stops == []
  }

  lemma StepInv(q: Queue, a: Action)
    requires Inv(q) && StartsApart(q, a)
    ensures Inv(Next(q, a))
  {
    StepConserves(q, a);
    if Enabled(q, a) {
      match a {
        case Enqueue(name, delay, payload) => EnqueueInv(q, name, delay, payload);
        case Boot(w) => LoopTopInv(q, w);
        case Finish(w) => LoopTopInv(q, w);
        case Wake(w) => WakeInv(q, w);
        case Timeout(w) => TimeoutInv(q, w);
        case _ =>
      }
    }
  }

  predicate NoStartDuringStop(q: Queue, actions: seq<Action>)
    decreases |actions|
  {
    actions != [] ==> StartsApart(q, actions[0]) && NoStartDuringStop(Next(q, actions[0]), actions[1..])
  }

  lemma {:induction false} RunInv(q: Queue, actions: seq<Action>)
    requires Inv(q) && NoStartDuringStop(q, actions)
    ensures Inv(Run(q, actions))
    decreases |actions|
  {
    if actions != [] {
      StepInv(q, actions[0]);
      RunInv(Next(q, actions[0]), actions[1..]);
    }
  }

  /** Over every interleaving with no start during a stop, a task never starts before
      an older one whose deadline is no later, and no wakeup is lost. */
  lemma FairOrder(actions: seq<Action>)
    requires NoStartDuringStop(Init, actions)
    ensures FairLog(Run(Init, actions).all, Run(Init, actions).log)
    ensures NoLostWakeup(Run(Init, actions))
  {
    InitInv();
    RunInv(Init, actions);
  }

  lemma InitInv()
    ensures Inv(Init)
  {
  }

  /** The condition is needed: a stop that returns after such a start forgets the new
      worker, which stays alive. */
  lemma StartDuringStopLosesWorker(q: Queue)
    requires Inv(q) && q.workerTask == None && q.stops != []
    ensures Enabled(q, Start) && Enabled(Next(q, Start), StopReturn(0))
    ensures !OneWorker(Next(Next(q, Start), StopReturn(0)))
  {
    var q1 := Next(q, Start);
    assert q1.workers[q.stops[0]] == q.workers[q.stops[0]];
    assert Next(q1, StopReturn(0)).workers[|q.workers|] == Created;
  }

  /** While a task is due and not started, the worker can move. */
  lemma DueTaskNotStuck(q: Queue, w: nat, t: Task)
    requires Inv(q) && q.workerTask == Some(w) && !q.workers[w].Exited?
    requires Enqueued(q.all, t) && !IsStarted(q.log, t) && t.runAt <= q.now
    ensures Enabled(q, Boot(w)) || Enabled(q, Wake(w)) || Enabled(q, Timeout(w)) || Enabled(q, Finish(w))
  {
  }

  /** Once stop() has been called, the sleeping worker's next piece is its last, and a
      task it held is back in the heap; a running handler is drained first. */
  lemma StopDrains(q: Queue, w: nat)
    requires Inv(q) && q.stopping && w < |q.workers|
    ensures (q.workers[w].Idle? || q.workers[w].Holding?) ==> Enabled(q, Wake(w)) && Next(q, Wake(w)).workers[w].Exited?
    ensures q.workers[w].Holding? ==> q.workers[w].task in Next(q, Wake(w)).pending
    ensures q.workers[w].Running? ==> Next(q, Finish(w)).workers[w].Exited? && Next(q, Finish(w)).pending == q.pending
  {
    if q.workers[w].Holding? {
      HeldNotPending(q, w);
      InsertedRows(q.pending, q.workers[w].task);
    }
  }

  // ---------------------------------------------------------------------------
  // A start during a stop
  // ---------------------------------------------------------------------------

  lemma {:induction false} RunSplit(q: Queue, a: seq<Action>, b: seq<Action>)
    ensures Run(q, a + b) == Run(Run(q, a), b)
    decreases |a|
  {
    if a == [] {
      assert a + b == b;
    } else {
      RunSplit(Next(q, a[0]), a[1..], b);
      assert (a + b)[1..] == a[1..] + b;
    }
  }

  /** Runs put one after the other, with what they ask of their starts. */
  lemma {:induction false} FollowedBy(q: Queue, a: seq<Action>, b: seq<Action>)
    requires NoStartDuringStop(q, a) && NoStartDuringStop(Run(q, a), b)
    ensures Run(q, a + b) == Run(Run(q, a), b) && NoStartDuringStop(q, a + b)
    decreases |a|
  {
    RunSplit(q, a, b);
    if a == [] {
      assert a + b == b;
    } else {
      FollowedBy(Next(q, a[0]), a[1..], b);
      assert (a + b)[1..] == a[1..] + b;
    }
  }

  /** One more action at the front. */
  lemma Led(q: Queue, a: Action, rest: seq<Action>)
    ensures Run(q, [a] + rest) == Run(Next(q, a), rest)
    ensures NoStartDuringStop(q, [a] + rest) <==> StartsApart(q, a) && NoStartDuringStop(Next(q, a), rest)
  {
    assert ([a] + rest)[1..] == rest;
  }

  lemma OneAction(q: Queue, a: Action)
    ensures Run(q, [a]) == Next(q, a)
    ensures NoStartDuringStop(q, [a]) <==> StartsApart(q, a)
  {
    Led(q, a, []);
    assert [a] + [] == [a];
  }

  /** Two calls of stop() whose awaits overlap: the first to return leaves the second
      pending and no known worker. */
  lemma StopsOverlap()
    ensures var q := Run(Init, [Start, Boot(0), StopCall, StopCall, Wake(0), StopReturn(0)]);
            q.workerTask == None && q.stops == [0]
  {
    var q2 := Init.(workerTask := Some(0), workers := [Idle]);
    assert Next(Init, Start) == Init.(workerTask := Some(0), workers := [Created]);
    assert Next(Next(Init, Start), Boot(0)) == q2;
    var q4 := q2.(stopping := true, wakeup := true, woken := {0}, stops := [0, 0]);
    assert Waiters([Idle]) == {0};
    assert Next(Next(q2, StopCall), StopCall) == q4;
    assert Next(q4, Wake(0)) == q4.(woken := {}, workers := [Exited]);
    Led(Init, Start, [Boot(0), StopCall, StopCall, Wake(0), StopReturn(0)]);
    Led(Next(Init, Start), Boot(0), [StopCall, StopCall, Wake(0), StopReturn(0)]);
    Led(q2, StopCall, [StopCall, Wake(0), StopReturn(0)]);
    Led(Next(q2, StopCall), StopCall, [Wake(0), StopReturn(0)]);
    Led(q4, Wake(0), [StopReturn(0)]);
    OneAction(Next(q4, Wake(0)), StopReturn(0));
  }

  /** What the stops still to return leave behind: no known worker and no stop. */
  lemma {:induction false} StopsReturn(q: Queue) returns (actions: seq<Action>)
    requires q.stops != [] && forall k :: 0 <= k < |q.stops| ==> q.stops[k] < |q.workers| && q.workers[q.stops[k]].Exited?
    ensures NoStartDuringStop(q, actions)
    ensures Run(q, actions) == q.(workerTask := None, stops := [])
    decreases |q.stops|
  {
    var q' := Next(q, StopReturn(0));
    assert q' == q.(workerTask := None, stops := q.stops[1..]);
    if |q.stops| == 1 {
      actions := [StopReturn(0)];
      OneAction(q, StopReturn(0));
    } else {
      var rest := StopsReturn(q');
      actions := [StopReturn(0)] + rest;
      Led(q, StopReturn(0), rest);
    }
  }

  /** What the history of the heap may have changed by while one worker drains it. */
  predicate DrainedBy(q: Queue, w: nat, q': Queue) {
    w < |q.workers| && q' == q.(pending := [], wakeup := false, woken := q.woken - {w},
                               workers := q.workers[w := Idle], log := q'.log)
  }

  /** Time passes, or worker w goes on: nobody asks for anything. */
  predicate LeftAlone(a: Action, w: nat) {
    a.Tick? || a == Boot(w) || a == Wake(w) || a == Timeout(w) || a == Finish(w)
  }

  /** A worker out of its wait runs every due task and goes idle. */
  lemma {:induction false} Drains(q: Queue, w: nat) returns (actions: seq<Action>)
    requires w < |q.workers| && (q.workers[w].Created? || q.workers[w].Running?)
    requires !q.stopping && forall t :: t in q.pending ==> t.runAt <= q.now
    ensures NoStartDuringStop(q, actions) && DrainedBy(q, w, Run(q, actions))
    ensures forall k :: 0 <= k < |actions| ==> LeftAlone(actions[k], w)
    decreases |q.pending|
  {
    var a := if q.workers[w].Created? then Boot(w) else Finish(w);
    var q' := Next(q, a);
    if q.pending == [] {
      actions := [a];
      OneAction(q, a);
    } else {
      var t := q.pending[0];
      assert t in q.pending;
      assert q' == Begin(q.(pending := q.pending[1..]), w, t);
      var rest := Drains(q', w);
      actions := [a] + rest;
      Led(q, a, rest);
      assert q.workers[w := Running(t)][w := Idle] == q.workers[w := Idle];
      assert q.woken - {w} - {w} == q.woken - {w};
    }
  }

  /** A younger task with the same deadline has started, the older one has not. */
  ghost predicate OutOfOrder(q: Queue) {
    exists a: Task, b: Task ::
      Enqueued(q.all, a) && a.runAt == b.runAt && a.seqNo < b.seqNo && IsStarted(q.log, b) && !IsStarted(q.log, a)
  }

  lemma OutOfOrderUnfair(q: Queue)
    requires OutOfOrder(q)
    ensures !FairLog(q.all, q.log)
  {
    var a: Task, b: Task :|
      Enqueued(q.all, a) && a.runAt == b.runAt && a.seqNo < b.seqNo && IsStarted(q.log, b) && !IsStarted(q.log, a);
    var i :| 0 <= i < |q.log| && q.log[i].task == b;
    assert !IsStarted(q.log[..i], a);
  }

  /** Two workers with nothing to do, and a task that can be asked for. */
  ghost predicate TwoIdle(q: Queue, v: nat, w: nat) {
    && Conserved(q) && Numbered(q)
    && v < |q.workers| && w < |q.workers| && v != w && q.workers[v].Idle? && q.workers[w].Idle?
    && "t" in q.handlers && q.pending == [] && !q.stopping
  }

  /** One worker takes a task asked for in ten seconds into its hands. */
  lemma TakesOne(q: Queue, w: nat, payload: string) returns (actions: seq<Action>)
    requires Conserved(q) && Numbered(q)
    requires w < |q.workers| && q.workers[w].Idle? && "t" in q.handlers && q.pending == [] && !q.stopping
    ensures NoStartDuringStop(q, actions)
    ensures var t, q' := Task(q.now + 10, q.seqNo + 1, "t", payload), Run(q, actions);
            q' == q.(wakeup := false, woken := q'.woken, seqNo := q.seqNo + 1, all := q.all + [t],
                     workers := q.workers[w := Holding(t)])
  {
    var q1 := Next(q, Enqueue("t", 10, payload));
    assert q1.pending == [Task(q.now + 10, q.seqNo + 1, "t", payload)];
    actions := [Enqueue("t", 10, payload)] + [Wake(w)];
    OneAction(q1, Wake(w));
    Led(q, Enqueue("t", 10, payload), [Wake(w)]);
  }

  /** The deadline of a held task passes and its worker starts it. */
  lemma StartsLate(q: Queue, w: nat) returns (actions: seq<Action>)
    requires w < |q.workers| && q.workers[w].Holding? && q.workers[w].task.runAt <= q.now + 10
    ensures NoStartDuringStop(q, actions)
    ensures var q' := Run(q, actions);
            && q'.workers == q.workers[w := Running(q.workers[w].task)]
            && q'.log == q.log + [Execution(q.workers[w].task, q.now + 10)]
  {
    actions := [Tick(10)] + [Timeout(w)];
    OneAction(Next(q, Tick(10)), Timeout(w));
    Led(q, Tick(10), [Timeout(w)]);
  }

  /** With two idle workers the younger of two tasks with one deadline can start first. */
  lemma SecondRunsFirst(q: Queue, v: nat, w: nat) returns (actions: seq<Action>)
    requires TwoIdle(q, v, w)
    ensures NoStartDuringStop(q, actions) && OutOfOrder(Run(q, actions))
  {
    hide Conserved, Numbered, OutOfOrder, Next;
    var a, b := Task(q.now + 10, q.seqNo + 1, "t", "a"), Task(q.now + 10, q.seqNo + 2, "t", "b");
    var first := TakesOne(q, v, "a");
    RunConserves(q, first);
    var second := TakesOne(Run(q, first), w, "b");
    FollowedBy(q, first, second);
    var third := StartsLate(Run(q, first + second), w);
    FollowedBy(q, first + second, third);
    actions := first + second + third;
    RunConserves(q, actions);
    StartedBHeldA(Run(q, actions), v, a, b);
  }

  lemma StartedBHeldA(q: Queue, v: nat, a: Task, b: Task)
    requires Conserved(q) && v < |q.workers| && q.workers[v] == Holding(a)
    requires a.runAt == b.runAt && a.seqNo < b.seqNo
    requires q.log != [] && q.log[|q.log| - 1].task == b
    ensures OutOfOrder(q)
  {
    assert IsHeld(q.workers, a);
    assert IsStarted(q.log, b);
  }

  /** When everything queued is due. */
  function DueIn(pending: seq<Task>, now: Time): (dt: nat)
    requires Sorted(pending)
    ensures forall t :: t in pending ==> t.runAt <= now + dt
  {
    if pending == [] || pending[|pending| - 1].runAt <= now then 0 else pending[|pending| - 1].runAt - now
  }

  /** A forgotten worker and one more start: both can come to wait at the same time. */
  lemma BothComeToWait(q: Queue, v: nat) returns (actions: seq<Action>)
    requires Conserved(q) && Numbered(q)
    requires v < |q.workers| && q.workers[v].Created?
    requires q.workerTask == None && q.stops == [] && !q.stopping
    ensures NoStartDuringStop(q, actions) && TwoIdle(Run(q, actions), v, |q.workers|)
  {
    var w := |q.workers|;
    var q1 := Next(q, Start);
    var q2 := Next(q1, Register("t"));
    var dt := DueIn(q2.pending, q2.now);
    var q3 := Next(q2, Tick(dt));
    var first := Drains(q3, v);
    var q4 := Run(q3, first);
    var second := Drains(q4, w);
    FollowedBy(q3, first, second);
    Led(q2, Tick(dt), first + second);
    Led(q1, Register("t"), [Tick(dt)] + (first + second));
    Led(q, Start, [Register("t")] + ([Tick(dt)] + (first + second)));
    actions := [Start] + ([Register("t")] + ([Tick(dt)] + (first + second)));
    RunConserves(q, actions);
  }

  /** A start while a stop() has still to return, whatever is queued at the time. */
  lemma StartDuringStopBreaksOrder(q: Queue) returns (actions: seq<Action>)
    requires Inv(q) && q.workerTask == None && q.stops != []
    ensures NoStartDuringStop(Next(q, Start), actions)
    ensures OutOfOrder(Run(Next(q, Start), actions))
  {
    var q1 := Next(q, Start);
    StepConserves(q, Start);
    var back := StopsReturn(q1);
    var q2 := Run(q1, back);
    RunConserves(q1, back);
    var waits := BothComeToWait(q2, |q.workers|);
    var q3 := Run(q2, waits);
    var last := SecondRunsFirst(q3, |q.workers|, |q2.workers|);
    FollowedBy(q2, waits, last);
    FollowedBy(q1, back, waits + last);
    actions := back + (waits + last);
  }

  /** However the callers go on, if they start no further worker during a stop. */
  ghost predicate EveryRunFair(q: Queue) {
    forall actions :: NoStartDuringStop(q, actions) ==> FairLog(Run(q, actions).all, Run(q, actions).log)
  }

  /** A start that makes a worker keeps every later run fair, in which no further start
      comes during a stop, exactly when it does not itself come during a stop. */
  lemma StartExactly(q: Queue)
    requires Inv(q) && Enabled(q, Start)
    ensures StartsApart(q, Start) <==> EveryRunFair(Next(q, Start))
  {
    if StartsApart(q, Start) {
      StepInv(q, Start);
      forall actions | NoStartDuringStop(Next(q, Start), actions)
        ensures FairLog(Run(Next(q, Start), actions).all, Run(Next(q, Start), actions).log)
      {
        RunInv(Next(q, Start), actions);
      }
    } else {
      var actions := StartDuringStopBreaksOrder(q);
      var q' := Run(Next(q, Start), actions);
      OutOfOrderUnfair(q');
      assert NoStartDuringStop(Next(q, Start), actions) && !FairLog(q'.all, q'.log);
    }
  }

  // ---------------------------------------------------------------------------
  // What was asked for, told from the actions alone
  // ---------------------------------------------------------------------------

  /** Someone asks for a task by name, with a payload, to be due at a time. */
  datatype Wish = Wish(name: string, payload: string, due: Time)

  /** The enqueues with a known name, each due its delay after the time it was asked at. */
  function Wishes(actions: seq<Action>, names: set<string>, now: Time): seq<Wish>
    decreases |actions|
  {
    if actions == [] then []
    else match actions[0]
      case Register(name) => Wishes(actions[1..], names + {name}, now)
      case Tick(dt) => Wishes(actions[1..], names, now + dt)
      case Enqueue(name, delay, payload) =>
        (if name in names then [Wish(name, payload, now + delay)] else []) + Wishes(actions[1..], names, now)
      case _ => Wishes(actions[1..], names, now)
  }

  /** The entries for these wishes, numbered on from n. */
  function Entries(wishes: seq<Wish>, n: nat): seq<Task> {
    if wishes == [] then []
    else [Task(wishes[0].due, n + 1, wishes[0].name, wishes[0].payload)] + Entries(wishes[1..], n + 1)
  }

  lemma LoopTopKeeps(q: Queue, w: nat)
    requires w < |q.workers|
    ensures var q' := LoopTop(q, w);
            q'.now == q.now && q'.handlers == q.handlers && q'.all == q.all && q'.seqNo == q.seqNo && q'.workerTask == q.workerTask
  {
  }

  lemma StepRecords(q: Queue, a: Action)
    requires Numbered(q)
    ensures Numbered(Next(q, a))
    ensures var q' := Next(q, a);
      && q'.now == (if a.Tick? then q.now + a.dt else q.now)
      && q'.handlers == (if a.Register? then q.handlers + {a.name} else q.handlers)
      && q'.all == q.all + if a.Enqueue? && a.name in q.handlers then [Task(q.now + a.delay, |q.all| + 1, a.name, a.payload)] else []
  {
    hide LoopTop;
    assert q.all + [] == q.all;
    match a {
      case Boot(w) => if w < |q.workers| { LoopTopKeeps(q, w); }
      case Finish(w) => if w < |q.workers| { LoopTopKeeps(q, w); }
      case Wake(w) =>
        if w < |q.workers| {
          LoopTopKeeps(q, w);
          if q.workers[w].Holding? {
            LoopTopKeeps(q.(pending := Inserted(q.pending, q.workers[w].task)), w);
          }
        }
      case _ =>
    }
  }

  lemma WishesMore(actions: seq<Action>, names: set<string>, now: Time)
    requires actions != []
    ensures var a := actions[0];
            Wishes(actions, names, now)
            == (if a.Enqueue? && a.name in names then [Wish(a.name, a.payload, now + a.delay)] else [])
               + Wishes(actions[1..], if a.Register? then names + {a.name} else names, if a.Tick? then now + a.dt else now)
  {
    var later := Wishes(actions[1..], if actions[0].Register? then names + {actions[0].name} else names,
                        if actions[0].Tick? then now + actions[0].dt else now);
    assert [] + later == later;
  }

  /** Over every run the entries are exactly what was asked for, in that order: each with its
      name, its payload and the deadline asked for. */
  lemma {:induction false} EntriesAreWishes(q: Queue, actions: seq<Action>)
    requires Numbered(q)
    ensures Run(q, actions).all == q.all + Entries(Wishes(actions, q.handlers, q.now), |q.all|)
    decreases |actions|
  {
    hide Next, Numbered, Wishes, Entries;
    if actions == [] {
      NoEntries(q);
    } else {
      var a, q1 := actions[0], Next(q, actions[0]);
      StepRecords(q, a);
      EntriesAreWishes(q1, actions[1..]);
      WishesMore(actions, q.handlers, q.now);
      var later := Wishes(actions[1..], q1.handlers, q1.now);
      if a.Enqueue? && a.name in q.handlers {
        var t := Task(q.now + a.delay, |q.all| + 1, a.name, a.payload);
        FirstEntry(Wish(a.name, a.payload, q.now + a.delay), later, |q.all|);
        assert q.all + [t] + Entries(later, |q.all| + 1) == q.all + ([t] + Entries(later, |q.all| + 1));
      } else {
        assert [] + later == later && q.all + [] == q.all;
      }
    }
  }

  lemma NoEntries(q: Queue)
    ensures q.all + Entries(Wishes([], q.handlers, q.now), |q.all|) == q.all
  {
  }

  lemma FirstEntry(wish: Wish, later: seq<Wish>, n: nat)
    ensures Entries([wish] + later, n) == [Task(wish.due, n + 1, wish.name, wish.payload)] + Entries(later, n + 1)
  {
  }

  /** However the run goes on after an enqueue, its entry keeps what was asked for, is not
      started before the deadline, and is started with its payload when its timer wins. */
  lemma NeverEarly(q: Queue, name: string, delay: int, payload: string, rest: seq<Action>)
    requires Conserved(q) && Numbered(q) && name in q.handlers
    ensures var t, s := Task(q.now + delay, |q.all| + 1, name, payload), Run(q, [Enqueue(name, delay, payload)] + rest);
      && |s.all| > |q.all| && s.all[..|q.all| + 1] == q.all + [t]
      && (forall i :: 0 <= i < |s.log| && s.log[i].task.seqNo == t.seqNo ==> s.log[i].task == t && s.log[i].at >= q.now + delay)
      && (forall w: nat :: Enabled(s, Timeout(w)) && s.workers[w].task.seqNo == t.seqNo ==>
            s.now >= q.now + delay && Next(s, Timeout(w)).log == s.log + [Execution(t, s.now)])
  {
    hide Next, Numbered, Conserved;
    var a, t := Enqueue(name, delay, payload), Task(q.now + delay, |q.all| + 1, name, payload);
    assert ([a] + rest)[1..] == rest;
    StepRecords(q, a);
    EntriesAreWishes(Next(q, a), rest);
    var s := Run(q, [a] + rest);
    assert s.all[..|q.all| + 1] == q.all + [t] && s.all[|q.all|] == t;
    RunConserves(q, [a] + rest);
    OnceInBooks(s, t);
  }

  lemma OnceInBooks(q: Queue, t: Task)
    requires Conserved(q) && Numbered(q) && Enqueued(q.all, t)
    ensures forall i :: 0 <= i < |q.log| && q.log[i].task.seqNo == t.seqNo ==> q.log[i].task == t && q.log[i].at >= t.runAt
    ensures forall w: nat :: Enabled(q, Timeout(w)) && q.workers[w].task.seqNo == t.seqNo ==>
              q.now >= t.runAt && Next(q, Timeout(w)).log == q.log + [Execution(t, q.now)]
  {
    LogEntriesStarted(q.log);
    forall w: nat | Enabled(q, Timeout(w)) ensures Enqueued(q.all, q.workers[w].task) {
      assert IsHeld(q.workers, q.workers[w].task);
    }
  }

  lemma TakesWish(q: Queue, w: nat, name: string, delay: int, payload: string)
    requires w < |q.workers| && q.workers[w].Idle? && name in q.handlers && q.pending == [] && !q.stopping
    ensures var t, q' := Task(q.now + delay, q.seqNo + 1, name, payload), Next(Next(q, Enqueue(name, delay, payload)), Wake(w));
      && w < |q'.workers| && q'.now == q.now
      && (if delay <= 0 then q'.log == q.log + [Execution(t, q.now)] else q'.log == q.log && q'.workers[w] == Holding(t))
  {
    assert Next(q, Enqueue(name, delay, payload)).pending == [Task(q.now + delay, q.seqNo + 1, name, payload)];
  }

  lemma TwoActions(q: Queue, a: Action, b: Action)
    ensures Run(q, [a, b]) == Next(Next(q, a), b)
  {
    hide Next;
    OneAction(Next(q, a), b);
    Led(q, a, [b]);
    assert [a] + [b] == [a, b];
  }

  /** An idle worker with nothing else queued starts the task at its deadline, or at once if
      that is not ahead. */
  lemma StartsOnTime(q: Queue, w: nat, name: string, delay: int, payload: string)
    requires w < |q.workers| && q.workers[w].Idle? && name in q.handlers && q.pending == [] && !q.stopping
    ensures var t := Task(q.now + delay, q.seqNo + 1, name, payload);
            var asked := [Enqueue(name, delay, payload), Wake(w)];
            Run(q, if delay <= 0 then asked else asked + [Tick(delay), Timeout(w)]).log
            == q.log + [Execution(t, if delay <= 0 then q.now else q.now + delay)]
  {
    hide Next;
    TwoActions(q, Enqueue(name, delay, payload), Wake(w));
    TakesWish(q, w, name, delay, payload);
    if delay > 0 {
      var q2 := Next(Next(q, Enqueue(name, delay, payload)), Wake(w));
      RunSplit(q, [Enqueue(name, delay, payload), Wake(w)], [Tick(delay), Timeout(w)]);
      TwoActions(q2, Tick(delay), Timeout(w));
      DeadlinePasses(q2, w, delay);
    }
  }

  lemma DeadlinePasses(q: Queue, w: nat, delay: nat)
    requires w < |q.workers| && q.workers[w].Holding? && q.workers[w].task.runAt == q.now + delay
    ensures Next(Next(q, Tick(delay)), Timeout(w)).log == q.log + [Execution(q.workers[w].task, q.now + delay)]
  {
  }

  /** With everything due, a worker that is not out of its wait starts a task. */
  lemma ComesOut(q: Queue, w: nat) returns (go: Action)
    requires Inv(q) && q.workerTask == Some(w) && Waiting(q.workers[w]) && !q.stopping
    requires q.workers[w].Idle? ==> q.pending != []
    requires q.workers[w].Holding? ==> q.workers[w].task.runAt <= q.now
    requires forall t :: t in q.pending ==> t.runAt <= q.now
    ensures go == Wake(w) || go == Timeout(w)
    ensures var q' := Next(q, go);
      && q'.workers == q.workers[w := q'.workers[w]] && q'.workers[w].Running? && !q'.stopping
      && q'.now == q.now && q'.all == q.all && forall t :: t in q'.pending ==> t in q.pending
  {
    go := if q.workers[w].Idle? then Wake(w) else Timeout(w);
    if q.pending != [] {
      assert q.pending[0] in q.pending;
    }
  }

  lemma OnceDrained(q: Queue, w: nat, actions: seq<Action>)
    requires Conserved(q) && Numbered(q) && OneWorker(q) && q.workerTask == Some(w) && DrainedBy(q, w, Run(q, actions))
    ensures forall t :: Enqueued(q.all, t) ==> IsStarted(Run(q, actions).log, t)
  {
    hide DrainedBy, Numbered;
    RunConserves(q, actions);
    assert DrainedBy(q, w, Run(q, actions));
    Emptied(q, w, Run(q, actions));
    NoneHeld(Run(q, actions), w);
  }

  lemma Emptied(q: Queue, w: nat, q': Queue)
    requires OneWorker(q) && q.workerTask == Some(w) && DrainedBy(q, w, q')
    ensures q'.pending == [] && q'.all == q.all && w < |q'.workers| && q'.workers[w].Idle?
    ensures forall v :: 0 <= v < |q'.workers| && v != w ==> q'.workers[v].Exited?
  {
  }

  /** With its one worker alive and not told to stop, the queue left to itself can start every
      task that was ever enqueued. */
  lemma AllServed(q: Queue, w: nat) returns (actions: seq<Action>)
    requires Inv(q) && q.workerTask == Some(w) && !q.workers[w].Exited? && !q.stopping
    ensures forall k :: 0 <= k < |actions| ==> LeftAlone(actions[k], w)
    ensures forall t :: Enqueued(q.all, t) ==> IsStarted(Run(q, actions).log, t)
  {
    hide DrainedBy, Conserved, FairLog, HeldOvertake, Numbered, Next;
    var p := q.workers[w];
    if p.Idle? && q.pending == [] {
      actions := [];
      NoneHeld(q, w);
    } else {
      var q1, dt := AllDue(q, w);
      var q2, go := q1, [];
      if Waiting(p) {
        var a := ComesOut(q1, w);
        q2, go := Next(q1, a), [a];
        StepInv(q1, a);
        OneAction(q1, a);
      }
      var rest := Drains(q2, w);
      RunSplit(q1, go, rest);
      OnceDrained(q2, w, rest);
      Led(q, Tick(dt), go + rest);
      actions := [Tick(dt)] + (go + rest);
    }
  }

  /** Time passes until everything queued or held is due. */
  lemma AllDue(q: Queue, w: nat) returns (q1: Queue, dt: nat)
    requires Inv(q) && q.workerTask == Some(w)
    ensures q1 == Next(q, Tick(dt)) == q.(now := q1.now) && Inv(q1)
    ensures q1.workers[w].Holding? ==> q1.workers[w].task.runAt <= q1.now
    ensures forall t :: t in q1.pending ==> t.runAt <= q1.now
  {
    var p := q.workers[w];
    dt := DueIn(q.pending, q.now) + if p.Holding? && p.task.runAt > q.now then p.task.runAt - q.now else 0;
    q1 := Next(q, Tick(dt));
    StepInv(q, Tick(dt));
  }

  lemma NoneHeld(q: Queue, w: nat)
    requires Conserved(q) && q.pending == [] && w < |q.workers| && q.workers[w].Idle?
    requires forall v :: 0 <= v < |q.workers| && v != w ==> q.workers[v].Exited?
    ensures forall t :: Enqueued(q.all, t) ==> IsStarted(q.log, t)
  {
  }

  // ---------------------------------------------------------------------------
  // What a stop stops
  // ---------------------------------------------------------------------------

  /** Since q0 the queue is stopping, and only what a worker held then was started. */
  ghost predicate Winding(q0: Queue, q: Queue) {
    && q.stopping
    && (forall t :: IsHeld(q.workers, t) ==> IsHeld(q0.workers, t))
    && |q0.log| <= |q.log| && q.log[..|q0.log|] == q0.log
    && (forall i :: |q0.log| <= i < |q.log| ==> IsHeld(q0.workers, q.log[i].task))
  }

  lemma HeldByOthers(workers: seq<Worker>, w: nat, p: Worker, t: Task)
    requires w < |workers| && !p.Holding? && IsHeld(workers[w := p], t)
    ensures IsHeld(workers, t)
  {
    var v :| 0 <= v < |workers| && workers[w := p][v] == Holding(t);
    assert workers[v] == Holding(t);
  }

  lemma StepWinds(q0: Queue, q: Queue, a: Action)
    requires Winding(q0, q) && !a.Start?
    ensures Winding(q0, Next(q, a))
  {
    var q' := Next(q, a);
    if Enabled(q, a) && (a.Boot? || a.Wake? || a.Timeout? || a.Finish?) {
      assert q'.workers == q.workers[a.w := q'.workers[a.w]] && !q'.workers[a.w].Holding?;
      forall t | IsHeld(q'.workers, t) ensures IsHeld(q0.workers, t) {
        HeldByOthers(q.workers, a.w, q'.workers[a.w], t);
      }
      if a.Timeout? {
        assert q.workers[a.w] == Holding(q.workers[a.w].task);
        assert IsHeld(q0.workers, q.workers[a.w].task);
      }
    }
  }

  /** After a call of stop(), and until a worker is started again, nothing is started but what a
      worker held at the time of the call. */
  lemma {:induction false} StopHolds(q: Queue, actions: seq<Action>)
    requires forall k :: 0 <= k < |actions| ==> !actions[k].Start?
    ensures Winding(q, Run(q, [StopCall] + actions))
  {
    hide Next, Winding;
    var all := [StopCall] + actions;
    if actions == [] {
      OneAction(q, StopCall);
      assert all == [StopCall];
      StopBegins(q);
    } else {
      var n := |actions| - 1;
      StopHolds(q, actions[..n]);
      assert all == ([StopCall] + actions[..n]) + [actions[n]];
      RunSplit(q, [StopCall] + actions[..n], [actions[n]]);
      OneAction(Run(q, [StopCall] + actions[..n]), actions[n]);
      StepWinds(q, Run(q, [StopCall] + actions[..n]), actions[n]);
    }
  }

  lemma StopBegins(q: Queue)
    ensures Winding(q, Next(q, StopCall))
  {
  }
}

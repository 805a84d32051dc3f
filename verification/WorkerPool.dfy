/** Bounded concurrency: workers that claim the next index whenever they are free. */
module WorkerPool {
  import opened Prelude

  /** What the call for one item comes to. */
  datatype Outcome<+T, +E> = Value(value: T) | Rejection(error: E)

  /** A worker between its steps: about to claim, awaiting a call, done, or ended by a
      rejected call. */
  datatype Worker = Ready | Calling(index: nat) | Finished | Rejected(index: nat)

  /** The counter, the results, the workers, and the worker that claimed each index. */
  datatype Pool<T> = Pool(next: nat, results: seq<Option<T>>, workers: seq<Worker>, claims: seq<nat>)

  function Limit(concurrency: int, n: nat): (limit: nat)
    ensures limit >= 1 && (n > 0 ==> limit <= n) && (concurrency >= 1 ==> limit <= concurrency)
    ensures limit == 1 || limit == n || limit == concurrency
    ensures 1 <= concurrency <= n ==> limit == concurrency
    ensures 1 <= n <= concurrency ==> limit == n
  {
    var m := if concurrency < n then concurrency else n;
    if m > 1 then m else 1
  }

  function Start<T>(n: nat, concurrency: int): Pool<T> {
    Pool(0, seq(n, _ => None), seq(Limit(concurrency, n), _ => Ready), [])
  }

  predicate Active(w: Worker) {
    w.Ready? || w.Calling?
  }

  /** The worker takes the next index, or ends when there is none. */
  function Claimed<T>(p: Pool<T>, w: nat): Pool<T>
    requires w < |p.workers|
  {
    if p.next < |p.results| then Pool(p.next + 1, p.results, p.workers[w := Calling(p.next)], p.claims + [w])
    else p.(next := p.next + 1, workers := p.workers[w := Finished])
  }

  /** One turn of an active worker: its call settles, and it goes on at once. */
  function Turn<T, E>(p: Pool<T>, w: nat, call: nat -> Outcome<T, E>): Pool<T>
    requires w < |p.workers| && (p.workers[w].Calling? ==> p.workers[w].index < |p.results|)
  {
    match p.workers[w]
    case Ready => Claimed(p, w)
    case Calling(i) =>
      (match call(i)
       case Value(v) => Claimed(p.(results := p.results[i := Some(v)]), w)
       case Rejection(_) => p.(workers := p.workers[w := Rejected(i)]))
    case _ => p
  }

  // ---------------------------------------------------------------------------
  // What every step keeps
  // ---------------------------------------------------------------------------

  /** The worker awaits the call of index i or ended with it. */
  predicate Holds(w: Worker, i: nat) {
    w == Calling(i) || w == Rejected(i)
  }

  ghost predicate WorkerValid<T, E>(p: Pool<T>, call: nat -> Outcome<T, E>, w: nat)
    requires w < |p.workers|
  {
    match p.workers[w]
    case Ready => true
    case Calling(i) => i < |p.claims| && p.claims[i] == w && i < |p.results| && p.results[i].None?
    case Rejected(i) => i < |p.claims| && p.claims[i] == w && i < |p.results| && p.results[i].None? && call(i).Rejection?
    case Finished => p.next >= |p.results|
  }

  /** Every claimed index is held by the worker that claimed it, or settled with the value of
      its own call; no other index has a result. */
  ghost predicate IndexValid<T, E>(p: Pool<T>, call: nat -> Outcome<T, E>, i: nat)
    requires i < |p.results|
  {
    if p.results[i].Some? then i < |p.claims| && call(i) == Value(p.results[i].value)
    else i < |p.claims| ==> p.claims[i] < |p.workers| && Holds(p.workers[p.claims[i]], i)
  }

  ghost predicate Valid<T, E>(p: Pool<T>, call: nat -> Outcome<T, E>) {
    && |p.claims| == (if p.next < |p.results| then p.next else |p.results|)
    && (forall w :: 0 <= w < |p.workers| ==> WorkerValid(p, call, w))
    && (forall i :: 0 <= i < |p.results| ==> IndexValid(p, call, i))
  }

  lemma ClaimValid<T, E>(p: Pool<T>, w: nat, call: nat -> Outcome<T, E>)
    requires |p.claims| == (if p.next < |p.results| then p.next else |p.results|) && w < |p.workers|
    requires forall x :: 0 <= x < |p.workers| && x != w ==> WorkerValid(p, call, x)
    requires forall i :: 0 <= i < |p.results| ==> IndexValid(p, call, i)
    requires forall i :: 0 <= i < |p.claims| && p.results[i].None? ==> p.claims[i] != w
    ensures Valid(Claimed(p, w), call)
  {
    var p' := Claimed(p, w);
    assert p.next < |p.results| ==> IndexValid(p, call, p.next);
    forall x | 0 <= x < |p'.workers| ensures WorkerValid(p', call, x) {
      assert x != w ==> WorkerValid(p, call, x);
    }
    forall i | 0 <= i < |p'.results| ensures IndexValid(p', call, i) {
      assert IndexValid(p, call, i);
    }
  }

  lemma SettledValid<T, E>(p: Pool<T>, w: nat, i: nat, v: T, call: nat -> Outcome<T, E>)
    requires Valid(p, call) && w < |p.workers| && p.workers[w] == Calling(i) && i < |p.results| && call(i) == Value(v)
    ensures var q := p.(results := p.results[i := Some(v)]);
      && (forall x :: 0 <= x < |q.workers| && x != w ==> WorkerValid(q, call, x))
      && (forall k :: 0 <= k < |q.results| ==> IndexValid(q, call, k))
      && (forall k :: 0 <= k < |q.claims| && q.results[k].None? ==> q.claims[k] != w)
  {
    var q := p.(results := p.results[i := Some(v)]);
    assert WorkerValid(p, call, w);
    forall x | 0 <= x < |q.workers| && x != w ensures WorkerValid(q, call, x) {
      assert WorkerValid(p, call, x);
    }
    forall k | 0 <= k < |q.results| ensures IndexValid(q, call, k) && (k < |q.claims| && q.results[k].None? ==> q.claims[k] != w) {
      assert IndexValid(p, call, k);
    }
  }

  lemma TurnValid<T, E>(p: Pool<T>, w: nat, call: nat -> Outcome<T, E>)
    requires Valid(p, call) && w < |p.workers|
    ensures p.workers[w].Calling? ==> p.workers[w].index < |p.results|
    ensures Valid(Turn(p, w, call), call)
  {
    hide WorkerValid, IndexValid, Claimed;
    assert WorkerValid(p, call, w);
    Holding(p, w, call);
    match p.workers[w] {
      case Ready => ClaimValid(p, w, call);
      case Calling(i) =>
        if call(i).Value? {
          SettledValid(p, w, i, call(i).value, call);
          ClaimValid(p.(results := p.results[i := Some(call(i).value)]), w, call);
        } else {
          RejectValid(p, w, i, call);
        }
      case _ =>
    }
  }

  lemma Holding<T, E>(p: Pool<T>, w: nat, call: nat -> Outcome<T, E>)
    requires Valid(p, call) && w < |p.workers|
    ensures p.workers[w].Calling? ==> p.workers[w].index < |p.results|
    ensures p.workers[w].Ready? ==> forall i :: 0 <= i < |p.claims| && p.results[i].None? ==> p.claims[i] != w
  {
    assert WorkerValid(p, call, w);
    forall i | 0 <= i < |p.claims| && p.results[i].None? && p.workers[w].Ready? ensures p.claims[i] != w {
      assert IndexValid(p, call, i);
    }
  }

  lemma RejectValid<T, E>(p: Pool<T>, w: nat, i: nat, call: nat -> Outcome<T, E>)
    requires Valid(p, call) && w < |p.workers| && p.workers[w] == Calling(i) && i < |p.results| && call(i).Rejection?
    ensures Valid(p.(workers := p.workers[w := Rejected(i)]), call)
  {
    var q := p.(workers := p.workers[w := Rejected(i)]);
    assert WorkerValid(p, call, w);
    forall x | 0 <= x < |q.workers| ensures WorkerValid(q, call, x) {
      assert WorkerValid(p, call, x);
    }
    forall k | 0 <= k < |q.results| ensures IndexValid(q, call, k) {
      assert IndexValid(p, call, k);
    }
  }

  lemma StartValid<T, E>(n: nat, concurrency: int, call: nat -> Outcome<T, E>)
    ensures Valid<T, E>(Start(n, concurrency), call)
  {
    var p := Start<T>(n, concurrency);
    assert forall w :: 0 <= w < |p.workers| ==> p.workers[w] == Ready;
    assert forall i :: 0 <= i < |p.results| ==> p.results[i] == None;
  }

  // ---------------------------------------------------------------------------
  // Every interleaving
  // ---------------------------------------------------------------------------

  /** The pool after the workers took turns in some order; a turn of a worker that has ended,
      or that does not exist, does nothing. */
  function Run<T, E>(n: nat, concurrency: int, call: nat -> Outcome<T, E>, turns: seq<nat>): Pool<T> {
    if turns == [] then Start(n, concurrency)
    else
      var p, w := Run(n, concurrency, call, turns[..|turns| - 1]), turns[|turns| - 1];
      if w < |p.workers| && (p.workers[w].Calling? ==> p.workers[w].index < |p.results|) then Turn(p, w, call) else p
  }

  /** Calls that are awaited. */
  function InFlight(workers: seq<Worker>): nat {
    if workers == [] then 0 else InFlight(workers[..|workers| - 1]) + if workers[|workers| - 1].Calling? then 1 else 0
  }

  lemma {:induction false} InFlightBound(workers: seq<Worker>)
    ensures InFlight(workers) <= |workers|
  {
    if workers != [] {
      InFlightBound(workers[..|workers| - 1]);
    }
  }

  /** Under every interleaving each index is claimed at most once and only by one worker, a
      result is the value of its own call, and no more calls are awaited than the limit. */
  lemma {:induction false} RunValid<T, E>(n: nat, concurrency: int, call: nat -> Outcome<T, E>, turns: seq<nat>)
    ensures var p := Run(n, concurrency, call, turns);
      Valid(p, call) && |p.results| == n && |p.workers| == Limit(concurrency, n) && InFlight(p.workers) <= Limit(concurrency, n)
  {
    hide Valid;
    if turns == [] {
      StartValid(n, concurrency, call);
    } else {
      RunValid(n, concurrency, call, turns[..|turns| - 1]);
      var p, w := Run(n, concurrency, call, turns[..|turns| - 1]), turns[|turns| - 1];
      if w < |p.workers| {
        TurnValid(p, w, call);
      }
    }
    InFlightBound(Run(n, concurrency, call, turns).workers);
  }

  function UpTo(k: nat): seq<nat> {
    seq(k, i requires 0 <= i < k => i)
  }

  /** The limit is used: when each worker has had its first turn, that many calls are awaited. */
  lemma {:induction false} LimitReached<T, E>(n: nat, concurrency: int, call: nat -> Outcome<T, E>, k: nat)
    requires n > 0 && k <= Limit(concurrency, n)
    ensures var p := Run(n, concurrency, call, UpTo(k));
      && |p.results| == n && |p.workers| == Limit(concurrency, n) && p.next == k
      && (forall w :: 0 <= w < |p.workers| ==> p.workers[w] == if w < k then Calling(w) else Ready)
      && (k == Limit(concurrency, n) ==> InFlight(p.workers) == Limit(concurrency, n))
  {
    if k > 0 {
      LimitReached(n, concurrency, call, k - 1);
      assert UpTo(k)[..k - 1] == UpTo(k - 1);
    }
    AllInFlight(Run(n, concurrency, call, UpTo(k)).workers);
  }

  lemma {:induction false} AllInFlight(workers: seq<Worker>)
    ensures (forall w :: 0 <= w < |workers| ==> workers[w].Calling?) ==> InFlight(workers) == |workers|
  {
    if workers != [] {
      AllInFlight(workers[..|workers| - 1]);
    }
  }

  /** The item has its value, or the worker that claimed it ended with its rejection. */
  ghost predicate Settled<T, E>(p: Pool<T>, call: nat -> Outcome<T, E>, i: nat)
    requires i < |p.results|
  {
    match call(i)
    case Value(v) => p.results[i] == Some(v)
    case Rejection(_) => i < |p.claims| && p.claims[i] < |p.workers| && p.workers[p.claims[i]] == Rejected(i)
  }

  /** When every worker has ended, and one of them not by a rejection, every index was claimed
      and is settled by its own call. */
  lemma WhenAllEnded<T, E>(p: Pool<T>, call: nat -> Outcome<T, E>, w: nat)
    requires Valid(p, call) && w < |p.workers| && p.workers[w].Finished?
    requires forall x :: 0 <= x < |p.workers| ==> !Active(p.workers[x])
    ensures |p.claims| == |p.results|
    ensures forall i :: 0 <= i < |p.results| ==> Settled(p, call, i)
  {
    assert WorkerValid(p, call, w);
    forall i | 0 <= i < |p.results|
      ensures Settled(p, call, i)
    {
      assert IndexValid(p, call, i);
      if p.results[i].None? {
        assert WorkerValid(p, call, p.claims[i]);
      }
    }
  }

  function Worth(w: Worker): nat {
    if w.Ready? then 2 else if w.Calling? then 1 else 0
  }

  function Weight(workers: seq<Worker>): nat {
    if workers == [] then 0 else Weight(workers[..|workers| - 1]) + Worth(workers[|workers| - 1])
  }

  lemma {:induction false} WeightUpdate(workers: seq<Worker>, w: nat, x: Worker)
    requires w < |workers|
    ensures Weight(workers[w := x]) == Weight(workers) - Worth(workers[w]) + Worth(x)
  {
    var n := |workers| - 1;
    if w == n {
      assert workers[w := x][..n] == workers[..n];
    } else {
      assert workers[w := x][..n] == workers[..n][w := x];
      WeightUpdate(workers[..n], w, x);
    }
  }

  /** What is left to do: indices to claim, then calls to settle. */
  function Measure<T>(p: Pool<T>): nat {
    2 * (if p.next < |p.results| then |p.results| - p.next else 0) + Weight(p.workers)
  }

  /** Every turn of an active worker brings the pool closer to its end. */
  lemma TurnDecreases<T, E>(p: Pool<T>, w: nat, call: nat -> Outcome<T, E>)
    requires Valid(p, call) && w < |p.workers| && Active(p.workers[w])
    ensures p.workers[w].Calling? ==> p.workers[w].index < |p.results|
    ensures Measure(Turn(p, w, call)) < Measure(p)
  {
    hide Weight;
    TurnValid(p, w, call);
    WeightUpdate(p.workers, w, Turn(p, w, call).workers[w]);
    assert Turn(p, w, call).workers == p.workers[w := Turn(p, w, call).workers[w]];
  }

  /** The map itself, for any choice of the worker that goes next: it returns the values of
      all calls in the order of the items, or the error of a call that was rejected. */
  method MapWithConcurrencyLimit<T, E>(n: nat, concurrency: int, call: nat -> Outcome<T, E>) returns (r: Outcome<seq<T>, E>)
    ensures r.Value? <==> forall i :: 0 <= i < n ==> call(i).Value?
    ensures r.Value? ==> |r.value| == n && forall i :: 0 <= i < n ==> call(i) == Value(r.value[i])
    ensures r.Rejection? ==> exists i :: 0 <= i < n && call(i) == Rejection(r.error)
  {
    if n == 0 {
      return Value([]);
    }
    var p := Start<T>(n, concurrency);
    StartValid(n, concurrency, call);
    while exists w :: 0 <= w < |p.workers| && Active(p.workers[w])
      invariant Valid(p, call) && |p.results| == n && |p.workers| >= 1
      invariant forall w :: 0 <= w < |p.workers| ==> !p.workers[w].Rejected?
      decreases Measure(p)
    {
      var w :| 0 <= w < |p.workers| && Active(p.workers[w]);
      TurnDecreases(p, w, call);
      TurnValid(p, w, call);
      if p.workers[w].Calling? && call(p.workers[w].index).Rejection? {
        return Rejection(call(p.workers[w].index).error);
      }
      p := Turn(p, w, call);
    }
    assert p.workers[0].Finished?;
    WhenAllEnded(p, call, 0);
    forall i | 0 <= i < n ensures p.results[i].Some? && call(i) == Value(p.results[i].value) {
      assert Settled(p, call, i);
    }
    return Value(seq(n, i requires 0 <= i < n && p.results[i].Some? => p.results[i].value));
  }
}

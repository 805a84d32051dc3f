/** The pod's safe-point guard: deliveries wait while a tool use has no result. */
module SafePoint {

  datatype Guard<T> = Guard(pending: seq<T>, outstanding: nat)

  datatype Op<T> = Hold(item: T) | ToolUse | ToolResults | Flush

  /** The guard after an operation, and what the operation released. */
  datatype Effect<T> = Effect(guard: Guard<T>, released: seq<T>)

  function Apply<T>(g: Guard<T>, op: Op<T>): Effect<T> {
    match op
    case Hold(item) => Effect(g.(pending := g.pending + [item]), [])
    case ToolUse => Effect(g.(outstanding := g.outstanding + 1), [])
    case ToolResults => Effect(g.(outstanding := if g.outstanding == 0 then 0 else g.outstanding - 1), [])
    case Flush => if g.outstanding == 0 then Effect(g.(pending := []), g.pending) else Effect(g, [])
  }

  class SafePointGuard<T> {
    var pending: seq<T>
    var outstandingToolBatches: nat

    constructor ()
      ensures State() == Guard([], 0)
    {
      pending, outstandingToolBatches := [], 0;
    }

    ghost function State(): Guard<T>
      reads this
    {
      Guard(pending, outstandingToolBatches)
    }

    predicate AtSafePoint()
      reads this
    {
      outstandingToolBatches == 0
    }

    method DoHold(item: T)
      modifies this
      ensures State() == Apply(old(State()), Hold(item)).guard
    {
      pending := pending + [item];
    }

    method OnToolUse()
      modifies this
      ensures State() == Apply(old(State()), ToolUse).guard
    {
      outstandingToolBatches := outstandingToolBatches + 1;
    }

    method OnToolResults()
      modifies this
      ensures State() == Apply(old(State()), ToolResults).guard
    {
      outstandingToolBatches := if outstandingToolBatches - 1 > 0 then outstandingToolBatches - 1 else 0;
    }

    method DoFlush() returns (delivered: seq<T>)
      modifies this
      ensures Effect(State(), delivered) == Apply(old(State()), Flush)
    {
      if !AtSafePoint() || pending == [] {
        return [];
      }
      delivered, pending := pending, [];
    }
  }

  // ---------------------------------------------------------------------------
  // Traces
  // ---------------------------------------------------------------------------

  /** The guard, and everything it held and released so far. */
  datatype Trace<T> = Trace(guard: Guard<T>, held: seq<T>, released: seq<T>)

  function Run<T>(ops: seq<Op<T>>): Trace<T> {
    if ops == [] then Trace(Guard([], 0), [], [])
    else
      var t, op := Run(ops[..|ops| - 1]), ops[|ops| - 1];
      var e := Apply(t.guard, op);
      Trace(e.guard, if op.Hold? then t.held + [op.item] else t.held, t.released + e.released)
  }

  /** Nothing is lost, repeated or reordered. */
  lemma {:induction false} HeldInOrder<T>(ops: seq<Op<T>>)
    ensures Run(ops).released + Run(ops).guard.pending == Run(ops).held
  {
    if ops != [] {
      HeldInOrder(ops[..|ops| - 1]);
    }
  }

  /** Tool uses minus tool results from operation k on. */
  function Balance<T>(ops: seq<Op<T>>, k: nat): int
    requires k <= |ops|
  {
    if k == |ops| then 0
    else
      var op := ops[|ops| - 1];
      Balance(ops[..|ops| - 1], k) + if op.ToolUse? then 1 else if op.ToolResults? then -1 else 0
  }

  /** No tool use waits for its result: from no point on are there more uses than results. */
  ghost predicate Safe<T>(ops: seq<Op<T>>) {
    forall k :: 0 <= k <= |ops| ==> Balance(ops, k) <= 0
  }

  lemma {:induction false} OutstandingIsMax<T>(ops: seq<Op<T>>) returns (k: nat)
    ensures k <= |ops| && Balance(ops, k) == Run(ops).guard.outstanding
    ensures forall j :: 0 <= j <= |ops| ==> Balance(ops, j) <= Run(ops).guard.outstanding
  {
    if ops == [] {
      k := 0;
    } else {
      var n := |ops| - 1;
      k := OutstandingIsMax(ops[..n]);
      if ops[n].ToolResults? && Run(ops[..n]).guard.outstanding == 0 {
        k := |ops|;
      }
    }
  }

  /** The counter is zero exactly when no tool use is unmatched. */
  lemma SafeExactly<T>(ops: seq<Op<T>>)
    ensures Run(ops).guard.outstanding == 0 <==> Safe(ops)
  {
    var k := OutstandingIsMax(ops);
  }

  /** Whatever an operation releases, it releases at a safe point. */
  lemma ReleasedSafely<T>(ops: seq<Op<T>>, op: Op<T>)
    requires Run(ops + [op]).released != Run(ops).released
    ensures op.Flush? && Safe(ops) && Run(ops + [op]).released == Run(ops).held
  {
    assert (ops + [op])[..|ops|] == ops;
    SafeExactly(ops);
    HeldInOrder(ops);
    assert Run(ops).released + [] == Run(ops).released;
  }

  /** A flush releases everything still held exactly when no tool use is unmatched; otherwise it
      releases nothing. */
  lemma FlushExactly<T>(ops: seq<Op<T>>)
    ensures var t := Run(ops + [Flush]);
      && (Safe(ops) ==> t.released == Run(ops).held && t.guard.pending == [])
      && (!Safe(ops) ==> t.released == Run(ops).released && t.guard.pending == Run(ops).guard.pending)
      && t.guard.outstanding == Run(ops).guard.outstanding
  {
    assert (ops + [Flush])[..|ops|] == ops;
    SafeExactly(ops);
    HeldInOrder(ops);
    assert Run(ops).released + [] == Run(ops).released;
  }
}

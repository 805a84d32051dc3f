/** Checkpoints of one instance that come between each other's database waits.

    The metrics are an object that the registry and every open checkpoint share; a checkpoint
    takes it when it arrives, waits for the limits, and trips on it as it then is. */
module CheckpointOverlap {
  import opened Prelude
  import H = Harness

  /** How far an open checkpoint has come: waiting for the limits, sending its trip, or past the
      stop event, which has dropped the entry. */
  datatype Phase = Waiting | Tripping | Stopped

  datatype Open = Open(metrics: nat, phase: Phase)

  /** The metrics objects ever made, the one in the registry, the limits in the loop-state row,
      the open checkpoints, and the objects of committed trips. */
  datatype Service = Service(
    objects: seq<H.Metrics>, entry: Option<nat>, limits: Option<H.Limits>, open: seq<Open>, tripped: seq<nat>)

  datatype Move =
    | Arrive(tokens: int, stamp: int)       // up to the wait for the limits
    | ArriveBad                             // the token is no number: the checkpoint ends there
    | Evaluate(k: nat, now: int)            // the limits are there: trip or end
    | Stop(k: nat)                          // the stop event of a trip is dispatched
    | Finish(k: nat)                        // the trip is committed and the entry dropped
    | Fault(k: nat)                         // writing the trip fails
    | Replace(metrics: H.Metrics)           // the loop starts, or saved metrics are loaded
    | Forget                                // the loop stops or is interrupted
    | Continued(now: int)
    | SetLimits(limits: Option<H.Limits>)

  predicate Known(s: Service) {
    s.entry.Some? && s.entry.value < |s.objects|
  }

  /** The object that an arrival takes, made if the registry has none. */
  function Taken(s: Service): nat {
    if Known(s) then s.entry.value else |s.objects|
  }

  function WithObject(s: Service): Service {
    if Known(s) then s else s.(objects := s.objects + [H.Fresh], entry := Some(|s.objects|))
  }

  function Dropped(s: Service, k: nat): Service
    requires k < |s.open|
  {
    s.(open := s.open[..k] + s.open[k + 1..])
  }

  predicate At(s: Service, k: nat, phase: Phase) {
    k < |s.open| && s.open[k].phase == phase && s.open[k].metrics < |s.objects|
  }

  function Next(s: Service, m: Move): Service {
    match m
    case Arrive(tokens, stamp) =>
      var x, s' := Taken(s), WithObject(s);
      var o := s'.objects[x];
      s'.(objects := s'.objects[x := o.(count := o.count + 1, tokens := o.tokens + tokens, lastCheckpoint := Some(stamp))],
          open := s'.open + [Open(x, Waiting)])
    case ArriveBad =>
      var x, s' := Taken(s), WithObject(s);
      s'.(objects := s'.objects[x := s'.objects[x].(count := s'.objects[x].count + 1)])
    case Evaluate(k, now) =>
      if !At(s, k, Waiting) then s
      else if s.limits.Some? && H.FirstReason(s.objects[s.open[k].metrics], s.limits.value, now).Some?
      then s.(open := s.open[k := s.open[k].(phase := Tripping)])
      else Dropped(s, k)
    case Stop(k) => if At(s, k, Tripping) then s.(entry := None, open := s.open[k := s.open[k].(phase := Stopped)]) else s
    case Finish(k) =>
      if At(s, k, Stopped) then Dropped(s, k).(entry := None, tripped := s.tripped + [s.open[k].metrics]) else s
    case Fault(k) => if At(s, k, Tripping) || At(s, k, Stopped) then Dropped(s, k) else s
    case Replace(metrics) => s.(objects := s.objects + [metrics], entry := Some(|s.objects|))
    case Forget => s.(entry := None)
    case Continued(now) =>
      if Known(s) then s.(objects := s.objects[s.entry.value := s.objects[s.entry.value].(lastCheckpoint := Some(now))]) else s
    case SetLimits(limits) => s.(limits := limits)
  }

  function Run(s: Service, moves: seq<Move>): Service
    decreases |moves|
  {
    if moves == [] then s else Run(Next(s, moves[0]), moves[1..])
  }

  /** No open checkpoint holds the object that the arrival takes. */
  predicate Alone(s: Service, m: Move) {
    m.Arrive? ==> forall k :: 0 <= k < |s.open| ==> s.open[k].metrics != Taken(s)
  }

  predicate AllAlone(s: Service, moves: seq<Move>)
    decreases |moves|
  {
    moves != [] ==> Alone(s, moves[0]) && AllAlone(Next(s, moves[0]), moves[1..])
  }

  predicate NoRepeats(s: seq<nat>) {
    forall j, k :: 0 <= j < k < |s| ==> s[j] != s[k]
  }

  /** No loop trips twice: no metrics object has two committed trips. */
  predicate Once(s: Service) {
    NoRepeats(s.tripped)
  }

  /** Open checkpoints hold different objects, none of which has tripped; the object in the
      registry has not tripped either, and nobody is past the stop event of its trip. */
  predicate Inv(s: Service) {
    && NoRepeats(s.tripped)
    && (forall i :: i in s.tripped ==> i < |s.objects|)
    && (s.entry.Some? ==> s.entry.value < |s.objects| && s.entry.value !in s.tripped)
    && (forall k :: 0 <= k < |s.open| ==> OpenWell(s, s.open[k]))
    && (forall j, k :: 0 <= j < k < |s.open| ==> s.open[j].metrics != s.open[k].metrics)
  }

  predicate OpenWell(s: Service, c: Open) {
    c.metrics < |s.objects| && c.metrics !in s.tripped && (c.phase == Stopped ==> s.entry != Some(c.metrics))
  }

  lemma DropInv(s: Service, k: nat)
    requires Inv(s) && k < |s.open|
    ensures Inv(Dropped(s, k)) && forall j :: 0 <= j < |Dropped(s, k).open| ==> Dropped(s, k).open[j].metrics != s.open[k].metrics
  {
    var open := Dropped(s, k).open;
    assert forall j :: 0 <= j < |open| ==> open[j] == s.open[if j < k then j else j + 1];
  }

  lemma FinishInv(s: Service, k: nat)
    requires Inv(s) && At(s, k, Stopped)
    ensures Inv(Next(s, Finish(k)))
  {
    DropInv(s, k);
    assert OpenWell(s, s.open[k]);
    var s' := Next(s, Finish(k));
    forall j | 0 <= j < |s'.open| ensures OpenWell(s', s'.open[j]) {
      assert OpenWell(Dropped(s, k), s'.open[j]);
    }
  }

  lemma ArriveInv(s: Service, m: Move)
    requires Inv(s) && (m.Arrive? || m.ArriveBad?) && Alone(s, m)
    ensures Inv(Next(s, m))
  {
    var s' := Next(s, m);
    forall k | 0 <= k < |s.open| ensures OpenWell(s', s.open[k]) && s.open[k].metrics < |s.objects| {
      assert OpenWell(s, s.open[k]);
    }
  }

  lemma StepInv(s: Service, m: Move)
    requires Inv(s) && Alone(s, m)
    ensures Inv(Next(s, m))
  {
    match m {
      case Arrive(_, _) => ArriveInv(s, m);
      case ArriveBad => ArriveInv(s, m);
      case Evaluate(k, _) => if At(s, k, Waiting) { DropInv(s, k); }
      case Finish(k) => if At(s, k, Stopped) { FinishInv(s, k); }
      case Fault(k) => if k < |s.open| { DropInv(s, k); }
      case _ =>
    }
  }

  /** Over every run in which each checkpoint arrives when none that holds the same metrics is
      open, no metrics trip twice, whatever faults, starts, stops and changes of the limits there are. */
  lemma {:induction false} RunOnce(s: Service, moves: seq<Move>)
    requires Inv(s) && AllAlone(s, moves)
    ensures Inv(Run(s, moves))
    decreases |moves|
  {
    hide Inv, Next, Alone;
    if moves != [] {
      StepInv(s, moves[0]);
      RunOnce(Next(s, moves[0]), moves[1..]);
    }
  }

  /** However things go on, if checkpoints arrive alone from now on. */
  ghost predicate EveryRunOnce(s: Service) {
    forall moves :: AllAlone(s, moves) ==> Once(Run(s, moves))
  }

  // ---------------------------------------------------------------------------
  // Two checkpoints with the same metrics
  // ---------------------------------------------------------------------------

  lemma OneMove(s: Service, m: Move, rest: seq<Move>)
    requires !m.Arrive?
    ensures Run(s, [m] + rest) == Run(Next(s, m), rest) && (AllAlone(s, [m] + rest) <==> AllAlone(Next(s, m), rest))
  {
    assert ([m] + rest)[1..] == rest;
  }

  /** Late enough, the limits of any row are reached. */
  function Late(s: Service, x: nat): int
    requires x < |s.objects| && s.objects[x].lastCheckpoint.Some? && s.limits.Some?
  {
    s.objects[x].lastCheckpoint.value + s.limits.value.idleTimeout
  }

  lemma LateReaches(s: Service, x: nat)
    requires x < |s.objects| && s.objects[x].lastCheckpoint.Some? && s.limits.Some?
    ensures H.FirstReason(s.objects[x], s.limits.value, Late(s, x)).Some?
  {
  }

  /** The state two checkpoints are in when both are past their stop events. */
  predicate BothStopped(s: Service, k: nat, l: nat) {
    k < l < |s.open| && At(s, k, Stopped) && At(s, l, Stopped) && s.open[k].metrics == s.open[l].metrics
  }

  lemma BothFinish(s: Service, k: nat, l: nat)
    requires BothStopped(s, k, l)
    ensures AllAlone(s, [Finish(l)] + [Finish(k)]) && !Once(Run(s, [Finish(l)] + [Finish(k)]))
  {
    var s1 := Next(s, Finish(l));
    assert s1.open[k] == s.open[k];
    var s2 := Next(s1, Finish(k));
    OneMove(s1, Finish(k), []);
    assert [Finish(k)] + [] == [Finish(k)];
    OneMove(s, Finish(l), [Finish(k)]);
    var x, n := s.open[k].metrics, |s.tripped|;
    assert s2.tripped == s.tripped + [x] + [x];
    assert s2.tripped[n] == x && s2.tripped[n + 1] == x;
  }

  /** A checkpoint that is not past its stop event can get there. */
  lemma GetsStopped(s: Service, k: nat) returns (moves: seq<Move>)
    requires (At(s, k, Waiting) || At(s, k, Tripping)) && s.limits.Some? && s.objects[s.open[k].metrics].lastCheckpoint.Some?
    ensures AllAlone(s, moves) && Run(s, moves) == s.(entry := None, open := s.open[k := s.open[k].(phase := Stopped)])
  {
    if s.open[k].phase == Tripping {
      moves := [Stop(k)];
      OneMove(s, Stop(k), []);
      assert [Stop(k)] + [] == [Stop(k)];
    } else {
      var now := Late(s, s.open[k].metrics);
      LateReaches(s, s.open[k].metrics);
      var s1 := Next(s, Evaluate(k, now));
      assert s1 == s.(open := s.open[k := s.open[k].(phase := Tripping)]);
      moves := [Evaluate(k, now)] + [Stop(k)];
      OneMove(s1, Stop(k), []);
      assert [Stop(k)] + [] == [Stop(k)];
      OneMove(s, Evaluate(k, now), [Stop(k)]);
      assert s1.open[k := s1.open[k].(phase := Stopped)] == s.open[k := s.open[k].(phase := Stopped)];
    }
  }

  lemma {:induction false} FollowedBy(s: Service, a: seq<Move>, b: seq<Move>)
    requires AllAlone(s, a) && AllAlone(Run(s, a), b)
    ensures AllAlone(s, a + b) && Run(s, a + b) == Run(Run(s, a), b)
    decreases |a|
  {
    hide Next, Alone;
    if a == [] {
      assert a + b == b;
    } else {
      FollowedBy(Next(s, a[0]), a[1..], b);
      assert (a + b)[1..] == a[1..] + b;
    }
  }

  /** Both go on to their stop events, evaluated late enough, and commit. */
  lemma BothTrip(s: Service, k: nat, l: nat) returns (moves: seq<Move>)
    requires s.limits.Some? && k < l && At(s, l, Waiting) && (At(s, k, Waiting) || At(s, k, Tripping))
    requires s.open[k].metrics == s.open[l].metrics && s.objects[s.open[k].metrics].lastCheckpoint.Some?
    ensures AllAlone(s, moves) && !Once(Run(s, moves))
  {
    hide Run, AllAlone, Next;
    var first := GetsStopped(s, k);
    var s1 := Run(s, first);
    var second := GetsStopped(s1, l);
    var s2 := Run(s1, second);
    BothFinish(s2, k, l);
    FollowedBy(s1, second, [Finish(l)] + [Finish(k)]);
    FollowedBy(s, first, second + ([Finish(l)] + [Finish(k)]));
    moves := first + (second + ([Finish(l)] + [Finish(k)]));
  }

  /** A row for the limits, if there is none. */
  lemma SomeLimits(s: Service) returns (moves: seq<Move>)
    ensures AllAlone(s, moves) && Run(s, moves).limits.Some? && Run(s, moves) == s.(limits := Run(s, moves).limits)
  {
    if s.limits.Some? {
      moves := [];
    } else {
      var m := SetLimits(Some(H.Limits(1, 1, 1, 1)));
      moves := [m];
      OneMove(s, m, []);
      assert [m] + [] == [m];
    }
  }

  /** A checkpoint that arrives leaves no metrics to trip twice, however things go on, exactly
      when no open checkpoint holds the metrics it takes: a second trip needs an arrival
      between another's arrival and that one's stop event. */
  lemma ArriveExactly(s: Service, tokens: int, stamp: int)
    requires Inv(s)
    ensures Alone(s, Arrive(tokens, stamp)) <==> EveryRunOnce(Next(s, Arrive(tokens, stamp)))
  {
    var m := Arrive(tokens, stamp);
    var s' := Next(s, m);
    if Alone(s, m) {
      StepInv(s, m);
      forall moves | AllAlone(s', moves) ensures Once(Run(s', moves)) {
        RunOnce(s', moves);
      }
    } else {
      var moves := SecondTrip(s, tokens, stamp);
      assert AllAlone(s', moves) && !Once(Run(s', moves));
    }
  }

  lemma SecondTrip(s: Service, tokens: int, stamp: int) returns (moves: seq<Move>)
    requires Inv(s) && !Alone(s, Arrive(tokens, stamp))
    ensures AllAlone(Next(s, Arrive(tokens, stamp)), moves) && !Once(Run(Next(s, Arrive(tokens, stamp)), moves))
  {
    hide Run, AllAlone;
    var s' := Next(s, Arrive(tokens, stamp));
    var k :| 0 <= k < |s.open| && s.open[k].metrics == Taken(s);
    assert OpenWell(s, s.open[k]);
    assert s'.open[k] == s.open[k] && s'.open[|s.open|] == Open(Taken(s), Waiting);
    var first := SomeLimits(s');
    var rest := BothTrip(Run(s', first), k, |s.open|);
    FollowedBy(s', first, rest);
    moves := first + rest;
  }

  // ---------------------------------------------------------------------------
  // A checkpoint nothing comes between
  // ---------------------------------------------------------------------------

  /** The instance's part of the supervisor's state. */
  predicate Matches(s: Service, h: H.State, instance: string) {
    && (Known(s) <==> instance in h.registry)
    && (Known(s) ==> s.objects[s.entry.value] == h.registry[instance])
    && (s.limits.Some? <==> instance in h.rows)
    && (s.limits.Some? ==> s.limits.value == h.rows[instance].limits)
  }

  /** The moves of one whole checkpoint that arrives when none is open. */
  function Whole(env: H.Env): seq<Move>
    requires env.token.Num?
  {
    [Arrive(env.token.value, env.stamp)] + ([Evaluate(0, env.now)] + ([Stop(0)] + [Finish(0)]))
  }

  lemma WholeRun(s: Service, env: H.Env)
    requires env.token.Num?
    ensures Run(s, Whole(env))
            == Next(Next(Next(Next(s, Arrive(env.token.value, env.stamp)), Evaluate(0, env.now)), Stop(0)), Finish(0))
  {
    hide Next;
    var a, b, c, d := Arrive(env.token.value, env.stamp), Evaluate(0, env.now), Stop(0), Finish(0);
    assert Whole(env)[1..] == [b] + ([c] + [d]);
    var s1 := Next(s, a);
    var s2 := Next(s1, b);
    assert ([b] + ([c] + [d]))[1..] == [c] + [d] && ([c] + [d])[1..] == [d] && [d][1..] == [];
    assert Run(s, Whole(env)) == Run(s1, [b] + ([c] + [d])) == Run(s2, [c] + [d]);
    assert Run(s2, [c] + [d]) == Run(Next(s2, c), [d]) == Run(Next(Next(s2, c), d), []);
  }

  /** Its moves one after the other have the effect of the supervisor's checkpoint, and commit
      a trip exactly when that does. */
  lemma AloneIsCheckpoint(s: Service, h: H.State, instance: string, env: H.Env)
    requires Matches(s, h, instance) && s.open == [] && env.token.Num? && !H.Raises(env.fault) && instance in h.rows
    ensures var h', s' := H.Emitted(h, H.Event(H.Checkpoint, instance, None), env), Run(s, Whole(env));
      && Matches(s', h', instance) && s'.open == []
      && (|s'.tripped| > |s.tripped| <==> |h'.persisted| > |h.persisted|)
  {
    hide H.Emitted, H.FirstReason;
    H.CheckpointExact(h, instance, env);
    WholeRun(s, env);
    var h' := H.Emitted(h, H.Event(H.Checkpoint, instance, None), env);
    H.CheckpointRows(h, instance, env);
    var x := Taken(s);
    var s1 := Next(s, Arrive(env.token.value, env.stamp));
    assert s1.objects[x] == H.Stamped(h, instance, env) && s1.open == [Open(x, Waiting)];
    var s2 := Next(s1, Evaluate(0, env.now));
    if H.FirstReason(H.Stamped(h, instance, env), h.rows[instance].limits, env.now).Some? {
      assert s2.open == [Open(x, Tripping)];
      var s3 := Next(s2, Stop(0));
      assert s3.open == [Open(x, Stopped)];
    } else {
      assert s2.open == [];
    }
  }
}

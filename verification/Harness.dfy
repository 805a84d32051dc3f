/** The harness supervisor: loop metrics, four circuit breakers, and an event dispatcher
    that calls back into the supervisor while a breaker trips. */
module Harness {
  import opened Prelude

  datatype Reason = MaxContinuations | TokenBudget | WallClock | IdleTimeout

  datatype Kind =
    | LoopStarted | Checkpoint | ContinuationInjected | LoopStopped
    | BreakerTripped | ControlSent | Interrupted | Paused | Resumed

  datatype Event = Event(kind: Kind, instance: string, reason: Option<Reason>)

  datatype Metrics = Metrics(count: int, tokens: int, wallStarted: Option<int>, lastCheckpoint: Option<int>)

  datatype Limits = Limits(maxContinuations: int, maxTokens: int, maxWallClock: int, idleTimeout: int)

  datatype LoopStatus = Running | PausedLoop | InterruptedLoop | OtherStatus

  /** The loop-state row of an instance; times are in seconds. */
  datatype Row = Row(status: LoopStatus, limits: Limits, saved: Metrics)

  /** The `token_estimate` of a checkpoint: a number, or something `int()` rejects. */
  datatype Token = Num(value: int) | Bad

  /** Where writing the events of a trip fails: before the k-th event is dispatched, at the
      commit, or nowhere. */
  datatype Fault = NoFault | AtFlush(k: nat) | AtCommit

  /** What a checkpoint depends on: its token, the clock when its metrics are updated and
      when its breakers are evaluated, and the fault of a trip. */
  datatype Env = Env(token: Token, stamp: int, now: int, fault: Fault)

  /** The registry, the loop-state rows, every event dispatched, and the events of trips
      that were committed. */
  datatype State = State(registry: map<string, Metrics>, rows: map<string, Row>, dispatched: seq<Event>, persisted: seq<Event>)

  const Fresh := Metrics(0, 0, None, None)

  /** The first breaker, in the order of evaluation, whose limit is reached. */
  function FirstReason(m: Metrics, l: Limits, now: int): Option<Reason> {
    if m.count >= l.maxContinuations then Some(MaxContinuations)
    else if m.tokens >= l.maxTokens then Some(TokenBudget)
    else if m.wallStarted.Some? && now - m.wallStarted.value >= l.maxWallClock then Some(WallClock)
    else if m.lastCheckpoint.Some? && now - m.lastCheckpoint.value >= l.idleTimeout then Some(IdleTimeout)
    else None
  }

  function Triple(instance: string, r: Reason): seq<Event> {
    [Event(BreakerTripped, instance, Some(r)), Event(LoopStopped, instance, Some(r)), Event(ControlSent, instance, Some(r))]
  }

  // ---------------------------------------------------------------------------
  // Events as functions
  // ---------------------------------------------------------------------------

  /** Dispatch of any event that cannot trip a breaker. */
  function Plain(s: State, e: Event, now: int): State {
    var s' := s.(dispatched := s.dispatched + [e]);
    match e.kind
    case LoopStarted => s'.(registry := s.registry[e.instance := Fresh.(wallStarted := Some(now))])
    case ContinuationInjected =>
      if e.instance in s.registry
      then s'.(registry := s.registry[e.instance := s.registry[e.instance].(lastCheckpoint := Some(now))]) else s'
    case LoopStopped => s'.(registry := s.registry - {e.instance})
    case _ => s'
  }

  /** The first n events of a trip. */
  function TripEvents(s: State, instance: string, r: Reason, n: nat, now: int): State
    requires n <= 3
  {
    if n == 0 then s else Plain(TripEvents(s, instance, r, n - 1, now), Triple(instance, r)[n - 1], now)
  }

  function Tripped(s: State, instance: string, r: Reason, env: Env): State {
    match env.fault
    case AtFlush(k) => TripEvents(s, instance, r, if k < 3 then k else 3, env.now)
    case AtCommit => TripEvents(s, instance, r, 3, env.now)
    case NoFault =>
      var s' := TripEvents(s, instance, r, 3, env.now);
      s'.(persisted := s'.persisted + Triple(instance, r), registry := s'.registry - {instance})
  }

  predicate Raises(f: Fault) {
    f == AtCommit || (f.AtFlush? && f.k < 3)
  }

  /** The registry entry after the checkpoint's own update. */
  function Stamped(s: State, instance: string, env: Env): Metrics {
    var m := if instance in s.registry then s.registry[instance] else Fresh;
    match env.token
    case Num(v) => m.(count := m.count + 1, tokens := m.tokens + v, lastCheckpoint := Some(env.stamp))
    case Bad => m.(count := m.count + 1)
  }

  function Reached(s: State, instance: string, env: Env): Option<Reason> {
    if env.token.Bad? || instance !in s.rows then None
    else FirstReason(Stamped(s, instance, env), s.rows[instance].limits, env.now)
  }

  function Checked(s: State, instance: string, env: Env): State {
    var s' := s.(registry := s.registry[instance := Stamped(s, instance, env)]);
    match Reached(s, instance, env)
    case None => s'
    case Some(r) => Tripped(s', instance, r, Effective(env))
  }

  /** A fault past the third event is no fault. */
  function Effective(env: Env): Env {
    if Raises(env.fault) then env else env.(fault := NoFault)
  }

  function Emitted(s: State, e: Event, env: Env): State {
    if e.kind == Checkpoint then Checked(s.(dispatched := s.dispatched + [e]), e.instance, env) else Plain(s, e, env.now)
  }

  function WithStatus(s: State, instance: string, status: LoopStatus): State {
    if instance in s.rows then s.(rows := s.rows[instance := s.rows[instance].(status := status)]) else s
  }

  function Interrupt(s: State, instance: string): State {
    if instance !in s.rows then s
    else
      var s1 := Plain(WithStatus(s, instance, InterruptedLoop), Event(Interrupted, instance, None), 0);
      var s2 := Plain(s1, Event(ControlSent, instance, None), 0);
      s2.(registry := s2.registry - {instance})
  }

  function Rehydrated(s: State): State {
    s.(registry := s.registry + Saved(s.rows, s.rows.Keys))
  }

  /** The saved metrics of the running loops among some of the rows. */
  function Saved(rows: map<string, Row>, keys: set<string>): map<string, Metrics> {
    map i | i in rows && i in keys && rows[i].status == Running :: rows[i].saved
  }

  datatype Action =
    | Emit(event: Event, env: Env)
    | DoInterrupt(instance: string)
    | DoPause(instance: string)
    | DoResume(instance: string)
    | Rehydrate
    | SetRow(instance: string, row: Option<Row>)

  function Step(s: State, a: Action): State {
    match a
    case Emit(event, env) => Emitted(s, event, env)
    case DoInterrupt(i) => Interrupt(s, i)
    case DoPause(i) => if i in s.rows then Plain(WithStatus(s, i, PausedLoop), Event(Paused, i, None), 0) else s
    case DoResume(i) => if i in s.rows then Plain(WithStatus(s, i, Running), Event(Resumed, i, None), 0) else s
    case Rehydrate => Rehydrated(s)
    case SetRow(i, row) => s.(rows := if row.Some? then s.rows[i := row.value] else s.rows - {i})
  }

  function Run(s: State, actions: seq<Action>): State {
    if actions == [] then s else Step(Run(s, actions[..|actions| - 1]), actions[|actions| - 1])
  }

  // ---------------------------------------------------------------------------
  // The supervisor, with its re-entrant dispatch
  // ---------------------------------------------------------------------------

  class HarnessSupervisor {
    var registry: map<string, Metrics>
    var rows: map<string, Row>
    var dispatched: seq<Event>
    var persisted: seq<Event>

    constructor (rows: map<string, Row>)
      ensures Now() == State(map[], rows, [], [])
    {
      this.rows, registry, dispatched, persisted := rows, map[], [], [];
    }

    ghost function Now(): State
      reads this
    {
      State(registry, rows, dispatched, persisted)
    }

    /** Dispatches one event.  A handler's exception ends here. */
    method EmitEvent(e: Event, env: Env)
      modifies this
      ensures Now() == Emitted(old(Now()), e, env)
      decreases e.kind == Checkpoint, 3
    {
      dispatched := dispatched + [e];
      OnHarnessEvent(e, env);
    }

    method OnHarnessEvent(e: Event, env: Env)
      modifies this
      ensures e.kind == Checkpoint ==> Now() == Checked(old(Now()), e.instance, env)
      ensures e.kind != Checkpoint ==> Now() == Plain(old(Now()).(dispatched := []), e, env.now).(dispatched := old(dispatched))
      ensures e.kind != Checkpoint ==>
        registry == match e.kind
          case LoopStarted => old(registry)[e.instance := Metrics(0, 0, Some(env.now), None)]
          case LoopStopped => old(registry) - {e.instance}
          case ContinuationInjected =>
            if e.instance in old(registry)
            then old(registry)[e.instance := old(registry)[e.instance].(lastCheckpoint := Some(env.now))] else old(registry)
          case _ => old(registry)
      decreases e.kind == Checkpoint, 2
    {
      match e.kind {
        case LoopStarted => registry := registry[e.instance := Fresh.(wallStarted := Some(env.now))];
        case Checkpoint => HandleCheckpoint(e.instance, env);
        case ContinuationInjected =>
          if e.instance in registry {
            registry := registry[e.instance := registry[e.instance].(lastCheckpoint := Some(env.now))];
          }
        case LoopStopped => registry := registry - {e.instance};
        case _ =>
      }
    }

    method HandleCheckpoint(instance: string, env: Env)
      modifies this
      ensures Now() == Checked(old(Now()), instance, env)
      decreases true, 1
    {
      var metrics := if instance in registry then registry[instance] else Fresh;
      metrics := metrics.(count := metrics.count + 1);
      registry := registry[instance := metrics];
      if env.token.Bad? {
        return;
      }
      metrics := metrics.(tokens := metrics.tokens + env.token.value);
      metrics := metrics.(lastCheckpoint := Some(env.stamp));
      registry := registry[instance := metrics];
      assert registry == old(registry)[instance := Stamped(old(Now()), instance, env)];
      CheckBreakers(instance, env);
    }

    method CheckBreakers(instance: string, env: Env)
      requires instance in registry
      modifies this
      ensures Now() == if instance !in old(rows) then old(Now())
                       else match FirstReason(old(registry)[instance], old(rows)[instance].limits, env.now)
                            case None => old(Now())
                            case Some(r) => Tripped(old(Now()), instance, r, Effective(env))
      decreases true, 0
    {
      hide TripEvents;
      var metrics := registry[instance];
      if instance !in rows {
        return;
      }
      var reason := FirstReason(metrics, rows[instance].limits, env.now);
      if reason.None? {
        return;
      }
      var raised := TripBreaker(instance, reason.value, env);
      if raised {
        return;
      }
      registry := registry - {instance};
    }

    method TripBreaker(instance: string, reason: Reason, env: Env) returns (raised: bool)
      modifies this
      ensures raised <==> Raises(env.fault)
      ensures raised ==> Now() == Tripped(old(Now()), instance, reason, env)
      ensures !raised ==> Now().(registry := registry - {instance}) == Tripped(old(Now()), instance, reason, env.(fault := NoFault))
      decreases false, 4
    {
      hide Plain;
      var events := Triple(instance, reason);
      for n := 0 to 3
        invariant !(env.fault.AtFlush? && env.fault.k < n)
        invariant Now() == TripEvents(old(Now()), instance, reason, n, env.now)
      {
        if env.fault == AtFlush(n) {
          return true;
        }
        EmitEvent(events[n], env);
      }
      if env.fault == AtCommit {
        return true;
      }
      persisted := persisted + events;
      return false;
    }

    method SetLoopStatus(instance: string, status: LoopStatus, kind: Kind) returns (found: bool)
      requires kind == Interrupted || kind == Paused || kind == Resumed
      modifies this
      ensures found == (instance in old(rows))
      ensures Now() == if found then Plain(WithStatus(old(Now()), instance, status), Event(kind, instance, None), 0) else old(Now())
      ensures registry == old(registry) && persisted == old(persisted)
      ensures rows == if found then old(rows)[instance := Row(status, old(rows)[instance].limits, old(rows)[instance].saved)] else old(rows)
      ensures dispatched == old(dispatched) + if found then [Event(kind, instance, None)] else []
    {
      if instance !in rows {
        return false;
      }
      rows := rows[instance := rows[instance].(status := status)];
      EmitEvent(Event(kind, instance, None), Env(Num(0), 0, 0, NoFault));
      return true;
    }

    method HandleInterrupt(instance: string) returns (found: bool)
      modifies this
      ensures Now() == Step(old(Now()), DoInterrupt(instance)) && found == (instance in old(rows))
      ensures registry == if found then old(registry) - {instance} else old(registry)
      ensures found ==> rows == old(rows)[instance := old(rows)[instance].(status := InterruptedLoop)]
      ensures found ==> dispatched == old(dispatched) + [Event(Interrupted, instance, None), Event(ControlSent, instance, None)]
    {
      found := SetLoopStatus(instance, InterruptedLoop, Interrupted);
      if !found {
        return;
      }
      EmitEvent(Event(ControlSent, instance, None), Env(Num(0), 0, 0, NoFault));
      registry := registry - {instance};
    }

    method HandlePause(instance: string) returns (found: bool)
      modifies this
      ensures Now() == Step(old(Now()), DoPause(instance)) && found == (instance in old(rows))
      ensures found ==> rows == old(rows)[instance := old(rows)[instance].(status := PausedLoop)] && registry == old(registry)
    {
      found := SetLoopStatus(instance, PausedLoop, Paused);
    }

    method HandleResume(instance: string) returns (found: bool)
      modifies this
      ensures Now() == Step(old(Now()), DoResume(instance)) && found == (instance in old(rows))
      ensures found ==> rows == old(rows)[instance := old(rows)[instance].(status := Running)] && registry == old(registry)
    {
      found := SetLoopStatus(instance, Running, Resumed);
    }

    method DoRehydrate()
      modifies this`registry
      ensures Now() == Step(old(Now()), Rehydrate)
      ensures forall i :: i in registry <==> i in old(registry) || (i in rows && rows[i].status == Running)
      ensures forall i :: i in rows && rows[i].status == Running ==> registry[i] == rows[i].saved
      ensures forall i :: i in old(registry) && !(i in rows && rows[i].status == Running) ==> registry[i] == old(registry)[i]
    {
      LoadRows();
    }

    method LoadRows()
      modifies this`registry
      ensures registry == old(registry) + Saved(rows, rows.Keys)
    {
      hide Saved;
      var todo := rows.Keys;
      ghost var done: set<string> := {};
      ghost var before := registry;
      SavedNone(rows, before);
      while todo != {}
        invariant done + todo == rows.Keys
        invariant registry == before + Saved(rows, done)
        decreases |todo|
      {
        var i :| i in todo;
        todo := todo - {i};
        LoadRow(i, before, done);
        done := done + {i};
      }
      assert done == rows.Keys;
    }

    method LoadRow(i: string, ghost before: map<string, Metrics>, ghost done: set<string>)
      requires i in rows && registry == before + Saved(rows, done)
      modifies this`registry
      ensures registry == before + Saved(rows, done + {i})
    {
      hide Saved;
      SavedOne(rows, done, i, before);
      if rows[i].status == Running {
        registry := registry[i := rows[i].saved];
      }
    }
  }

  lemma SavedNone(rows: map<string, Row>, m: map<string, Metrics>)
    ensures m + Saved(rows, {}) == m
  {
    assert Saved(rows, {}) == map[];
  }

  lemma SavedOne(rows: map<string, Row>, keys: set<string>, i: string, m: map<string, Metrics>)
    requires i in rows
    ensures m + Saved(rows, keys + {i}) == if rows[i].status == Running then (m + Saved(rows, keys))[i := rows[i].saved] else m + Saved(rows, keys)
  {
    assert Saved(rows, keys + {i}) == if rows[i].status == Running then Saved(rows, keys)[i := rows[i].saved] else Saved(rows, keys);
  }

  // ---------------------------------------------------------------------------
  // One checkpoint
  // ---------------------------------------------------------------------------

  predicate Reaches(m: Metrics, l: Limits, now: int, r: Reason) {
    match r
    case MaxContinuations => m.count >= l.maxContinuations
    case TokenBudget => m.tokens >= l.maxTokens
    case WallClock => m.wallStarted.Some? && now - m.wallStarted.value >= l.maxWallClock
    case IdleTimeout => m.lastCheckpoint.Some? && now - m.lastCheckpoint.value >= l.idleTimeout
  }

  function Order(r: Reason): nat {
    match r case MaxContinuations => 0 case TokenBudget => 1 case WallClock => 2 case IdleTimeout => 3
  }

  /** Strictly below all four limits. */
  predicate Below(m: Metrics, l: Limits, now: int) {
    forall r :: !Reaches(m, l, now, r)
  }

  /** The first three breakers, which come before the idle one. */
  predicate ReachesOther(m: Metrics, l: Limits, now: int) {
    Reaches(m, l, now, MaxContinuations) || Reaches(m, l, now, TokenBudget) || Reaches(m, l, now, WallClock)
  }

  /** The reported reason is the first in order whose limit is reached, and there is one
      exactly when some limit is. */
  lemma ReasonIsFirst(m: Metrics, l: Limits, now: int)
    ensures FirstReason(m, l, now).None? <==> Below(m, l, now)
    ensures forall r :: FirstReason(m, l, now) == Some(r) <==>
              Reaches(m, l, now, r) && forall q :: Order(q) < Order(r) ==> !Reaches(m, l, now, q)
  {
    assert Order(MaxContinuations) == 0 && Order(TokenBudget) == 1 && Order(WallClock) == 2 && Order(IdleTimeout) == 3;
    forall r | Reaches(m, l, now, r) && forall q :: Order(q) < Order(r) ==> !Reaches(m, l, now, q)
      ensures FirstReason(m, l, now) == Some(r)
    {
      assert Order(MaxContinuations) < Order(r) ==> !Reaches(m, l, now, MaxContinuations);
      assert Order(TokenBudget) < Order(r) ==> !Reaches(m, l, now, TokenBudget);
      assert Order(WallClock) < Order(r) ==> !Reaches(m, l, now, WallClock);
    }
  }

  lemma WholeTrip(s: State, instance: string, r: Reason, now: int)
    ensures TripEvents(s, instance, r, 3, now)
            == s.(dispatched := s.dispatched + Triple(instance, r), registry := s.registry - {instance})
    ensures TripEvents(s, instance, r, 2, now).registry == s.registry - {instance}
    ensures TripEvents(s, instance, r, 1, now).registry == s.registry
    ensures TripEvents(s, instance, r, 1, now).dispatched == s.dispatched + [Triple(instance, r)[0]]
  {
    var e := Triple(instance, r);
    var s1 := TripEvents(s, instance, r, 1, now);
    assert s1 == Plain(TripEvents(s, instance, r, 0, now), e[0], now);
    var s2 := TripEvents(s, instance, r, 2, now);
    assert s2 == Plain(s1, e[1], now);
    assert TripEvents(s, instance, r, 3, now) == Plain(s2, e[2], now);
    assert s.dispatched + [e[0]] + [e[1]] + [e[2]] == s.dispatched + e;
  }

  /** A checkpoint with a good token and no fault: one whole triple with the first reason if
      a limit is reached, nothing else otherwise; and the entry is then gone, or strictly
      below all four limits. */
  lemma CheckpointExact(s: State, instance: string, env: Env)
    requires env.token.Num? && !Raises(env.fault) && instance in s.rows
    ensures var l, m := s.rows[instance].limits, Stamped(s, instance, env);
      var s', r := Emitted(s, Event(Checkpoint, instance, None), env), FirstReason(m, l, env.now);
      && s'.dispatched == s.dispatched + [Event(Checkpoint, instance, None)] + (if r.Some? then Triple(instance, r.value) else [])
      && s'.persisted == s.persisted + (if r.Some? then Triple(instance, r.value) else [])
      && s'.registry == (if r.Some? then s.registry - {instance} else s.registry[instance := m])
      && (instance in s'.registry ==> s'.registry[instance] == m && Below(m, l, env.now))
  {
    var m := Stamped(s, instance, env);
    ReasonIsFirst(m, s.rows[instance].limits, env.now);
    var r := FirstReason(m, s.rows[instance].limits, env.now);
    var s1 := s.(dispatched := s.dispatched + [Event(Checkpoint, instance, None)], registry := s.registry[instance := m]);
    assert Reached(s.(dispatched := s1.dispatched), instance, env) == r;
    if r.Some? {
      WholeTrip(s1, instance, r.value, env.now);
      assert s.registry[instance := m] - {instance} == s.registry - {instance};
    } else {
      assert s1.dispatched + [] == s1.dispatched && s.persisted + [] == s.persisted;
    }
  }

  lemma CheckpointRows(s: State, instance: string, env: Env)
    requires env.token.Num? && !Raises(env.fault) && instance in s.rows
    ensures Emitted(s, Event(Checkpoint, instance, None), env).rows == s.rows
  {
    var m := Stamped(s, instance, env);
    var r := FirstReason(m, s.rows[instance].limits, env.now);
    var s1 := s.(dispatched := s.dispatched + [Event(Checkpoint, instance, None)], registry := s.registry[instance := m]);
    assert Reached(s.(dispatched := s1.dispatched), instance, env) == r;
    if r.Some? {
      WholeTrip(s1, instance, r.value, env.now);
    }
  }

  /** When writing the trip fails the entry is kept exactly if the failure comes before the
      stop event is dispatched; a failed commit comes too late to keep it. */
  lemma FaultyTrip(s: State, instance: string, env: Env)
    requires env.token.Num? && Raises(env.fault) && instance in s.rows
    requires FirstReason(Stamped(s, instance, env), s.rows[instance].limits, env.now).Some?
    ensures var s' := Emitted(s, Event(Checkpoint, instance, None), env);
      && s'.persisted == s.persisted
      && (instance in s'.registry <==> env.fault.AtFlush? && env.fault.k < 2)
  {
    hide Plain;
    var e := Event(Checkpoint, instance, None);
    var s1 := s.(dispatched := s.dispatched + [e], registry := s.registry[instance := Stamped(s, instance, env)]);
    var r := FirstReason(Stamped(s, instance, env), s.rows[instance].limits, env.now).value;
    assert Reached(s.(dispatched := s.dispatched + [e]), instance, env) == Some(r);
    WholeTrip(s1, instance, r, env.now);
    var n := if env.fault.AtFlush? then env.fault.k else 3;
    TripKeeps(s1, instance, r, n, env.now);
    assert n == 0 ==> TripEvents(s1, instance, r, n, env.now) == s1;
  }

  lemma {:induction false} TripKeeps(s: State, instance: string, r: Reason, n: nat, now: int)
    requires n <= 3
    ensures TripEvents(s, instance, r, n, now).persisted == s.persisted && TripEvents(s, instance, r, n, now).rows == s.rows
  {
    if n > 0 {
      TripKeeps(s, instance, r, n - 1, now);
    }
  }

  // ---------------------------------------------------------------------------
  // Runs
  // ---------------------------------------------------------------------------

  predicate IsTrip(e: Event, instance: string) {
    e.kind == BreakerTripped && e.instance == instance
  }

  function Trips(events: seq<Event>, instance: string): nat {
    if events == [] then 0
    else Trips(events[..|events| - 1], instance) + if IsTrip(events[|events| - 1], instance) then 1 else 0
  }

  lemma {:induction false} TripsAppend(a: seq<Event>, b: seq<Event>, instance: string)
    ensures Trips(a + b, instance) == Trips(a, instance) + Trips(b, instance)
  {
    if b == [] {
      assert a + b == a;
    } else {
      var n := |b| - 1;
      assert (a + b)[..|a| + n] == a + b[..n];
      TripsAppend(a, b[..n], instance);
    }
  }

  /** A checkpoint of the instance whose token is a number and whose trip, if any, is written. */
  predicate Good(a: Action, instance: string) {
    a.Emit? && a.event.kind == Checkpoint && a.event.instance == instance && a.env.token.Num? && !Raises(a.env.fault)
  }

  function GoodCheckpoints(actions: seq<Action>, instance: string): nat {
    if actions == [] then 0
    else GoodCheckpoints(actions[..|actions| - 1], instance) + if Good(actions[|actions| - 1], instance) then 1 else 0
  }

  /** Nobody from outside starts, stops, interrupts or reloads the instance's loop, or
      changes its row; other instances may do anything. */
  predicate LeftAlone(a: Action, instance: string) {
    match a
    case Emit(event, _) => event.instance == instance ==> event.kind !in {LoopStarted, LoopStopped, BreakerTripped}
    case DoInterrupt(i) => i != instance
    case Rehydrate => false
    case SetRow(i, _) => i != instance
    case _ => true
  }

  function CountOf(s: State, instance: string): int {
    if instance in s.registry then s.registry[instance].count else 0
  }

  lemma PlainOther(s: State, e: Event, now: int, instance: string)
    requires e.instance != instance
    ensures var s' := Plain(s, e, now);
      && (instance in s'.registry <==> instance in s.registry)
      && (instance in s.registry ==> s'.registry[instance] == s.registry[instance])
      && Trips(s'.dispatched, instance) == Trips(s.dispatched, instance)
  {
    hide Trips;
    TripsAppend(s.dispatched, [e], instance);
    TripsOne(e, instance);
  }

  lemma {:induction false} TripOther(s: State, i: string, r: Reason, n: nat, now: int, instance: string)
    requires n <= 3 && i != instance
    ensures var s' := TripEvents(s, i, r, n, now);
      && (instance in s'.registry <==> instance in s.registry)
      && (instance in s.registry ==> s'.registry[instance] == s.registry[instance])
      && Trips(s'.dispatched, instance) == Trips(s.dispatched, instance)
  {
    hide Plain, Trips;
    if n > 0 {
      TripOther(s, i, r, n - 1, now, instance);
      PlainOther(TripEvents(s, i, r, n - 1, now), Triple(i, r)[n - 1], now, instance);
    }
  }

  lemma TripsOne(e: Event, instance: string)
    ensures Trips([e], instance) == if IsTrip(e, instance) then 1 else 0
  {
    assert [e][..0] == [];
    assert Trips([e], instance) == Trips([e][..0], instance) + if IsTrip([e][0], instance) then 1 else 0;
  }

  /** What one action may do to an instance that is left alone. */
  lemma StepAlone(s: State, a: Action, instance: string)
    requires LeftAlone(a, instance) && instance in s.rows
    ensures var s' := Step(s, a);
      && instance in s'.rows && s'.rows[instance].limits == s.rows[instance].limits
      && Trips(s'.dispatched, instance) >= Trips(s.dispatched, instance)
      && (Trips(s'.dispatched, instance) == Trips(s.dispatched, instance) ==>
            && CountOf(s', instance) >= CountOf(s, instance) + (if Good(a, instance) then 1 else 0)
            && (Good(a, instance) ==> CountOf(s', instance) < s.rows[instance].limits.maxContinuations))
  {
    match a {
      case Emit(e, env) =>
        if e.kind == Checkpoint {
          if e.instance == instance { OwnCheckpoint(s, e, env, instance); } else { OtherCheckpoint(s, e, env, instance); }
        } else {
          PlainAlone(s, e, env.now, instance);
        }
      case DoInterrupt(i) =>
        if i in s.rows {
          var s1 := Plain(WithStatus(s, i, InterruptedLoop), Event(Interrupted, i, None), 0);
          PlainAlone(WithStatus(s, i, InterruptedLoop), Event(Interrupted, i, None), 0, instance);
          PlainAlone(s1, Event(ControlSent, i, None), 0, instance);
        }
      case DoPause(i) => PlainAlone(WithStatus(s, i, PausedLoop), Event(Paused, i, None), 0, instance);
      case DoResume(i) => PlainAlone(WithStatus(s, i, Running), Event(Resumed, i, None), 0, instance);
      case SetRow(_, _) =>
    }
  }

  predicate SameEntry(s: State, s': State, instance: string) {
    && (instance in s'.registry <==> instance in s.registry)
    && (instance in s.registry ==> s'.registry[instance] == s.registry[instance])
  }

  lemma PlainAlone(s: State, e: Event, now: int, instance: string)
    requires e.instance == instance ==> e.kind !in {LoopStarted, LoopStopped, BreakerTripped}
    ensures var s' := Plain(s, e, now);
      CountOf(s', instance) == CountOf(s, instance) && s'.rows == s.rows && Trips(s'.dispatched, instance) == Trips(s.dispatched, instance)
  {
    hide Trips;
    PlainDispatches(s, e, now);
    TripsAppend(s.dispatched, [e], instance);
    TripsOne(e, instance);
  }

  lemma OtherCheckpoint(s: State, e: Event, env: Env, instance: string)
    requires e.kind == Checkpoint && e.instance != instance
    ensures var s' := Emitted(s, e, env); SameEntry(s, s', instance)
    ensures var s' := Emitted(s, e, env);
      CountOf(s', instance) == CountOf(s, instance) && s'.rows == s.rows && Trips(s'.dispatched, instance) == Trips(s.dispatched, instance)
  {
    hide TripEvents, FirstReason, Trips;
    TripsAppend(s.dispatched, [e], instance);
    TripsOne(e, instance);
    var s0 := s.(dispatched := s.dispatched + [e]);
    var r := Reached(s0, e.instance, env);
    if r.Some? {
      var s1 := s0.(registry := s0.registry[e.instance := Stamped(s0, e.instance, env)]);
      var n := if env.fault.AtFlush? && env.fault.k < 3 then env.fault.k else 3;
      TripOther(s1, e.instance, r.value, n, env.now, instance);
      TripKeeps(s1, e.instance, r.value, n, env.now);
    }
  }

  lemma OwnCheckpoint(s: State, e: Event, env: Env, instance: string)
    requires e.kind == Checkpoint && e.instance == instance && instance in s.rows
    ensures var s', good := Emitted(s, e, env), Good(Emit(e, env), instance);
      && s'.rows == s.rows && Trips(s'.dispatched, instance) >= Trips(s.dispatched, instance)
      && (Trips(s'.dispatched, instance) == Trips(s.dispatched, instance) ==>
            && CountOf(s', instance) == CountOf(s, instance) + 1
            && (good ==> CountOf(s', instance) < s.rows[instance].limits.maxContinuations))
  {
    hide TripEvents, Trips;
    TripsAppend(s.dispatched, [e], instance);
    TripsOne(e, instance);
    var s0 := s.(dispatched := s.dispatched + [e]);
    var s1 := s0.(registry := s0.registry[instance := Stamped(s0, instance, env)]);
    var r := Reached(s0, instance, env);
    if r.Some? {
      var n := if env.fault.AtFlush? && env.fault.k < 3 then env.fault.k else 3;
      TripKeeps(s1, instance, r.value, n, env.now);
      TripSeen(s1, instance, r.value, n, env.now);
    }
  }

  lemma PlainDispatches(s: State, e: Event, now: int)
    ensures Plain(s, e, now).dispatched == s.dispatched + [e] && Plain(s, e, now).rows == s.rows
  {
  }

  lemma {:induction false} TripDispatches(s: State, instance: string, r: Reason, n: nat, now: int)
    requires n <= 3
    ensures TripEvents(s, instance, r, n, now).dispatched == s.dispatched + Triple(instance, r)[..n]
  {
    hide Plain;
    if n > 0 {
      PlainDispatches(TripEvents(s, instance, r, n - 1, now), Triple(instance, r)[n - 1], now);
      TripDispatches(s, instance, r, n - 1, now);
      assert Triple(instance, r)[..n] == Triple(instance, r)[..n - 1] + [Triple(instance, r)[n - 1]];
    }
  }

  lemma TripSeen(s: State, instance: string, r: Reason, n: nat, now: int)
    requires n <= 3
    ensures var s' := TripEvents(s, instance, r, n, now);
      Trips(s'.dispatched, instance) == Trips(s.dispatched, instance) + (if n > 0 then 1 else 0) && (n == 0 ==> s' == s)
  {
    hide Trips;
    TripDispatches(s, instance, r, n, now);
    TripsAppend(s.dispatched, Triple(instance, r)[..n], instance);
    TripTrips(instance, r, n);
  }

  lemma {:induction false} TripTrips(instance: string, r: Reason, n: nat)
    requires n <= 3
    ensures Trips(Triple(instance, r)[..n], instance) == if n > 0 then 1 else 0
  {
    hide Trips;
    if n > 0 {
      TripTrips(instance, r, n - 1);
      assert Triple(instance, r)[..n] == Triple(instance, r)[..n - 1] + [Triple(instance, r)[n - 1]];
      TripsAppend(Triple(instance, r)[..n - 1], [Triple(instance, r)[n - 1]], instance);
      TripsOne(Triple(instance, r)[n - 1], instance);
    } else {
      NoTrips(instance);
      assert Triple(instance, r)[..0] == [];
    }
  }

  lemma NoTrips(instance: string)
    ensures Trips([], instance) == 0
  {
  }

  /** An instance that is left alone does not trip only as long as it has made fewer good
      checkpoints than its limit. */
  lemma {:induction false} FewWithoutTrip(s: State, actions: seq<Action>, instance: string)
    requires instance in s.rows && CountOf(s, instance) >= 0
    requires forall k :: 0 <= k < |actions| ==> LeftAlone(actions[k], instance)
    ensures var s', n := Run(s, actions), GoodCheckpoints(actions, instance);
      && instance in s'.rows && s'.rows[instance].limits == s.rows[instance].limits
      && Trips(s'.dispatched, instance) >= Trips(s.dispatched, instance)
      && (Trips(s'.dispatched, instance) == Trips(s.dispatched, instance) ==>
            CountOf(s', instance) >= n && (n > 0 ==> n < s.rows[instance].limits.maxContinuations))
  {
    hide Step, LeftAlone, Good, Trips, CountOf;
    if actions != [] {
      var before, a := actions[..|actions| - 1], actions[|actions| - 1];
      FewWithoutTrip(s, before, instance);
      StepAlone(Run(s, before), a, instance);
    }
  }

  /** Any `max_continuations` good checkpoints of an instance that is left alone contain a
      trip, whatever other instances do in between. */
  lemma CheckpointsTrip(s: State, actions: seq<Action>, instance: string)
    requires instance in s.rows && CountOf(s, instance) >= 0
    requires forall k :: 0 <= k < |actions| ==> LeftAlone(actions[k], instance)
    requires GoodCheckpoints(actions, instance) > 0
    requires GoodCheckpoints(actions, instance) >= s.rows[instance].limits.maxContinuations
    ensures Trips(Run(s, actions).dispatched, instance) > Trips(s.dispatched, instance)
  {
    FewWithoutTrip(s, actions, instance);
  }

  // ---------------------------------------------------------------------------
  // One loop, told from its actions alone
  // ---------------------------------------------------------------------------

  predicate OwnCheckpointAction(a: Action, instance: string) {
    a.Emit? && a.event.kind == Checkpoint && a.event.instance == instance
  }

  /** The checkpoints of the instance, with good or bad tokens. */
  function Checkpoints(actions: seq<Action>, instance: string): nat {
    if actions == [] then 0
    else Checkpoints(actions[..|actions| - 1], instance) + if OwnCheckpointAction(actions[|actions| - 1], instance) then 1 else 0
  }

  /** The sum of their tokens. */
  function Tokens(actions: seq<Action>, instance: string): int {
    if actions == [] then 0
    else
      var a := actions[|actions| - 1];
      Tokens(actions[..|actions| - 1], instance)
      + if OwnCheckpointAction(a, instance) && a.env.token.Num? then a.env.token.value else 0
  }

  /** The time of the last good checkpoint or continuation. */
  function LastSign(actions: seq<Action>, instance: string): Option<int> {
    if actions == [] then None
    else
      var a := actions[|actions| - 1];
      if OwnCheckpointAction(a, instance) && a.env.token.Num? then Some(a.env.stamp)
      else if a.Emit? && a.event.kind == ContinuationInjected && a.event.instance == instance then Some(a.env.now)
      else LastSign(actions[..|actions| - 1], instance)
  }

  /** What the loop has used since it was started. */
  function Used(start: int, actions: seq<Action>, instance: string): Metrics {
    Metrics(Checkpoints(actions, instance), Tokens(actions, instance), Some(start), LastSign(actions, instance))
  }

  /** What one action of a loop that is left alone adds to its entry. */
  function Adds(m: Metrics, a: Action, instance: string): Metrics {
    if OwnCheckpointAction(a, instance) then
      if a.env.token.Num? then m.(count := m.count + 1, tokens := m.tokens + a.env.token.value, lastCheckpoint := Some(a.env.stamp))
      else m.(count := m.count + 1)
    else if a.Emit? && a.event.kind == ContinuationInjected && a.event.instance == instance then m.(lastCheckpoint := Some(a.env.now))
    else m
  }

  lemma EntryCheckpoint(s: State, e: Event, env: Env, instance: string)
    requires e.kind == Checkpoint && e.instance == instance && instance in s.registry
    ensures var s' := Emitted(s, e, env);
      s'.rows == s.rows && Trips(s'.dispatched, instance) >= Trips(s.dispatched, instance)
      && (Trips(s'.dispatched, instance) == Trips(s.dispatched, instance) ==>
            instance in s'.registry && s'.registry[instance] == Adds(s.registry[instance], Emit(e, env), instance))
  {
    hide TripEvents, Trips, FirstReason;
    TripsAppend(s.dispatched, [e], instance);
    TripsOne(e, instance);
    var s0 := s.(dispatched := s.dispatched + [e]);
    var s1 := s0.(registry := s0.registry[instance := Stamped(s0, instance, env)]);
    var r := Reached(s0, instance, env);
    if r.Some? {
      var n := if env.fault.AtFlush? && env.fault.k < 3 then env.fault.k else 3;
      TripKeeps(s1, instance, r.value, n, env.now);
      TripSeen(s1, instance, r.value, n, env.now);
    }
  }

  lemma EntryPlain(s: State, e: Event, now: int, instance: string)
    requires e.kind != Checkpoint && instance in s.registry
    requires e.instance == instance ==> e.kind !in {LoopStarted, LoopStopped, BreakerTripped}
    ensures var s' := Plain(s, e, now);
      && instance in s'.registry
      && s'.registry[instance]
         == (if e.kind == ContinuationInjected && e.instance == instance then s.registry[instance].(lastCheckpoint := Some(now)) else s.registry[instance])
      && s'.rows == s.rows && Trips(s'.dispatched, instance) == Trips(s.dispatched, instance)
  {
    hide Trips;
    PlainAlone(s, e, now, instance);
  }

  lemma EntryStep(s: State, a: Action, instance: string)
    requires LeftAlone(a, instance) && instance in s.rows && instance in s.registry
    ensures var s' := Step(s, a);
      && instance in s'.rows && s'.rows[instance].limits == s.rows[instance].limits
      && Trips(s'.dispatched, instance) >= Trips(s.dispatched, instance)
      && (Trips(s'.dispatched, instance) == Trips(s.dispatched, instance) ==>
            instance in s'.registry && s'.registry[instance] == Adds(s.registry[instance], a, instance))
  {
    hide Trips, Emitted, Plain;
    match a {
      case Emit(e, env) =>
        if e.kind == Checkpoint {
          if e.instance == instance { EntryCheckpoint(s, e, env, instance); } else { OtherCheckpoint(s, e, env, instance); }
        } else {
          EmitsPlain(s, e, env);
          EntryPlain(s, e, env.now, instance);
        }
      case DoInterrupt(i) =>
        if i in s.rows {
          var s1 := Plain(WithStatus(s, i, InterruptedLoop), Event(Interrupted, i, None), 0);
          EntryPlain(WithStatus(s, i, InterruptedLoop), Event(Interrupted, i, None), 0, instance);
          EntryPlain(s1, Event(ControlSent, i, None), 0, instance);
        }
      case DoPause(i) => EntryPlain(WithStatus(s, i, PausedLoop), Event(Paused, i, None), 0, instance);
      case DoResume(i) => EntryPlain(WithStatus(s, i, Running), Event(Resumed, i, None), 0, instance);
      case SetRow(_, _) =>
    }
  }

  lemma EmitsPlain(s: State, e: Event, env: Env)
    requires e.kind != Checkpoint
    ensures Emitted(s, e, env) == Plain(s, e, env.now)
  {
  }

  /** A started loop begins at nothing, with its clock running. */
  lemma LoopStarts(s: State, instance: string, r: Option<Reason>, env: Env)
    ensures var s' := Step(s, Emit(Event(LoopStarted, instance, r), env));
      && s'.registry == s.registry[instance := Metrics(0, 0, Some(env.now), None)]
      && s'.rows == s.rows && s'.dispatched == s.dispatched + [Event(LoopStarted, instance, r)] && s'.persisted == s.persisted
  {
  }

  /** As long as it has not tripped, the entry of a loop is what its actions since the start add up
      to, whatever other instances do in between. */
  lemma {:induction false} EntryIsUsed(s: State, actions: seq<Action>, instance: string, start: int)
    requires instance in s.rows && instance in s.registry && s.registry[instance] == Metrics(0, 0, Some(start), None)
    requires forall k :: 0 <= k < |actions| ==> LeftAlone(actions[k], instance)
    ensures var s' := Run(s, actions);
      && instance in s'.rows && s'.rows[instance].limits == s.rows[instance].limits
      && Trips(s'.dispatched, instance) >= Trips(s.dispatched, instance)
      && (Trips(s'.dispatched, instance) == Trips(s.dispatched, instance) ==>
            instance in s'.registry && s'.registry[instance] == Used(start, actions, instance))
  {
    hide Step, LeftAlone, Trips;
    if actions != [] {
      var n := |actions| - 1;
      EntryIsUsed(s, actions[..n], instance, start);
      var s0 := Run(s, actions[..n]);
      if instance in s0.registry {
        EntryStep(s0, actions[n], instance);
      } else {
        TripsOnlyGrow(s0, actions[n], instance);
      }
    }
  }

  lemma TripsOnlyGrow(s: State, a: Action, instance: string)
    requires LeftAlone(a, instance) && instance in s.rows
    ensures var s' := Step(s, a);
      && instance in s'.rows && s'.rows[instance].limits == s.rows[instance].limits
      && Trips(s'.dispatched, instance) >= Trips(s.dispatched, instance)
  {
    hide Step, Trips;
    StepAlone(s, a, instance);
  }

  /** Started, left alone and not tripped so far, a loop trips at its next good checkpoint exactly
      when its actions since the start, with that checkpoint, reach one of its limits. */
  lemma LoopTripsExactly(s: State, begin: Env, actions: seq<Action>, instance: string, env: Env)
    requires instance in s.rows && forall k :: 0 <= k < |actions| ==> LeftAlone(actions[k], instance)
    requires var s1 := Step(s, Emit(Event(LoopStarted, instance, None), begin));
             Trips(Run(s1, actions).dispatched, instance) == Trips(s1.dispatched, instance)
    requires env.token.Num? && !Raises(env.fault)
    ensures var s1, check := Step(s, Emit(Event(LoopStarted, instance, None), begin)), Emit(Event(Checkpoint, instance, None), env);
      var s0, s' := Run(s1, actions), Run(s1, actions + [check]);
      var used := Used(begin.now, actions + [check], instance);
      && (instance !in s'.registry <==> exists r :: Reaches(used, s.rows[instance].limits, env.now, r))
      && (instance in s'.registry ==> s'.registry[instance] == used && s'.persisted == s0.persisted)
      && (instance !in s'.registry ==>
            exists r :: Reaches(used, s.rows[instance].limits, env.now, r) && s'.persisted == s0.persisted + Triple(instance, r))
  {
    hide Trips, LeftAlone, Emitted, Triple, Step, Reaches, Used, Stamped, FirstReason;
    var s1, start := Step(s, Emit(Event(LoopStarted, instance, None), begin)), begin.now;
    LoopStarts(s, instance, None, begin);
    EntryIsUsed(s1, actions, instance, start);
    var check, s0 := Emit(Event(Checkpoint, instance, None), env), Run(s1, actions);
    assert (actions + [check])[..|actions|] == actions;
    UsedMore(start, actions, s0, instance, env);
    NextCheckpoint(s0, instance, env);
  }

  lemma UsedMore(start: int, actions: seq<Action>, s: State, instance: string, env: Env)
    requires instance in s.registry && s.registry[instance] == Used(start, actions, instance) && env.token.Num?
    ensures Stamped(s, instance, env) == Used(start, actions + [Emit(Event(Checkpoint, instance, None), env)], instance)
  {
    var all := actions + [Emit(Event(Checkpoint, instance, None), env)];
    assert all[..|actions|] == actions;
  }

  /** A good checkpoint of an entry trips exactly when the entry it leaves reaches a limit. */
  lemma NextCheckpoint(s: State, instance: string, env: Env)
    requires env.token.Num? && !Raises(env.fault) && instance in s.rows
    ensures var s', m, l := Step(s, Emit(Event(Checkpoint, instance, None), env)), Stamped(s, instance, env), s.rows[instance].limits;
      && (instance !in s'.registry <==> exists r :: Reaches(m, l, env.now, r))
      && (instance in s'.registry ==> s'.registry[instance] == m && s'.persisted == s.persisted)
      && (instance !in s'.registry ==> exists r :: Reaches(m, l, env.now, r) && s'.persisted == s.persisted + Triple(instance, r))
  {
    hide Emitted, Triple, Step, Stamped, FirstReason, Reaches;
    CheckpointExact(s, instance, env);
    CheckpointStep(s, instance, env);
    var m, l := Stamped(s, instance, env), s.rows[instance].limits;
    ReasonIsFirst(m, l, env.now);
    assert s.persisted + [] == s.persisted;
    var r := FirstReason(m, l, env.now);
    if r.Some? {
      assert Reaches(m, l, env.now, r.value);
    }
  }

  lemma CheckpointStep(s: State, instance: string, env: Env)
    ensures Step(s, Emit(Event(Checkpoint, instance, None), env)) == Emitted(s, Event(Checkpoint, instance, None), env)
  {
  }

  // ---------------------------------------------------------------------------
  // The idle breaker
  // ---------------------------------------------------------------------------

  /** What the idle breaker measures is the time from the stamp a checkpoint has just set to
      its own evaluation. */
  predicate Slow(s: State, instance: string, env: Env) {
    && env.token.Num? && instance in s.rows
    && env.now - env.stamp >= s.rows[instance].limits.idleTimeout
    && !ReachesOther(Stamped(s, instance, env), s.rows[instance].limits, env.now)
  }

  lemma IdleExactly(s: State, instance: string, env: Env)
    ensures Reached(s, instance, env) == Some(IdleTimeout) <==> Slow(s, instance, env)
  {
    if env.token.Num? && instance in s.rows {
      var m, l := Stamped(s, instance, env), s.rows[instance].limits;
      assert m.lastCheckpoint == Some(env.stamp);
      assert Reaches(m, l, env.now, IdleTimeout) <==> env.now - env.stamp >= l.idleTimeout;
    }
  }

  /** How often an idle trip of the instance was dispatched. */
  function IdleTrips(events: seq<Event>, instance: string): nat {
    multiset(events)[Event(BreakerTripped, instance, Some(IdleTimeout))]
  }

  /** Whether an action dispatches one: a slow checkpoint whose trip does not fail at once, or
      somebody else who sends the event. */
  predicate TripsIdle(s: State, a: Action, instance: string) {
    && a.Emit? && a.event.instance == instance
    && if a.event.kind == Checkpoint then Slow(s, instance, a.env) && a.env.fault != AtFlush(0)
       else a.event == Event(BreakerTripped, instance, Some(IdleTimeout))
  }

  lemma TripCounted(i: string, r: Reason, n: nat, instance: string)
    requires n <= 3
    ensures IdleTrips(Triple(i, r)[..n], instance) == if i == instance && r == IdleTimeout && n > 0 then 1 else 0
  {
    var t := Triple(i, r);
    assert t[..n] == if n == 0 then [] else if n == 1 then [t[0]] else if n == 2 then [t[0], t[1]] else [t[0], t[1], t[2]];
  }

  lemma CheckpointIdle(s: State, e: Event, env: Env, instance: string)
    requires e.kind == Checkpoint
    ensures IdleTrips(Emitted(s, e, env).dispatched, instance)
            == IdleTrips(s.dispatched, instance) + if TripsIdle(s, Emit(e, env), instance) then 1 else 0
  {
    hide TripEvents, FirstReason, Slow;
    var s0 := s.(dispatched := s.dispatched + [e]);
    var r := Reached(s0, e.instance, env);
    assert Slow(s0, instance, env) == Slow(s, instance, env) && Stamped(s0, e.instance, env) == Stamped(s, e.instance, env) by {
      SlowIgnoresDispatch(s, s0, instance, env);
    }
    IdleExactly(s0, instance, env);
    if r.Some? {
      var s1 := s0.(registry := s0.registry[e.instance := Stamped(s0, e.instance, env)]);
      var n := if env.fault.AtFlush? && env.fault.k < 3 then env.fault.k else 3;
      TripDispatches(s1, e.instance, r.value, n, env.now);
      TripCounted(e.instance, r.value, n, instance);
    }
  }

  lemma SlowIgnoresDispatch(s: State, s': State, instance: string, env: Env)
    requires s'.registry == s.registry && s'.rows == s.rows
    ensures Slow(s', instance, env) == Slow(s, instance, env)
  {
  }

  lemma PlainIdle(s: State, e: Event, now: int, instance: string)
    ensures IdleTrips(Plain(s, e, now).dispatched, instance)
            == IdleTrips(s.dispatched, instance) + if e == Event(BreakerTripped, instance, Some(IdleTimeout)) then 1 else 0
  {
    assert Plain(s, e, now).dispatched == s.dispatched + [e];
  }

  lemma StepIdle(s: State, a: Action, instance: string)
    ensures IdleTrips(Step(s, a).dispatched, instance)
            == IdleTrips(s.dispatched, instance) + if TripsIdle(s, a, instance) then 1 else 0
  {
    hide Slow, IdleTrips, Plain;
    match a {
      case Emit(e, env) =>
        if e.kind == Checkpoint {
          CheckpointIdle(s, e, env, instance);
        } else {
          PlainIdle(s, e, env.now, instance);
        }
      case DoInterrupt(i) =>
        PlainIdle(WithStatus(s, i, InterruptedLoop), Event(Interrupted, i, None), 0, instance);
        PlainIdle(Plain(WithStatus(s, i, InterruptedLoop), Event(Interrupted, i, None), 0), Event(ControlSent, i, None), 0, instance);
      case DoPause(i) => PlainIdle(WithStatus(s, i, PausedLoop), Event(Paused, i, None), 0, instance);
      case DoResume(i) => PlainIdle(WithStatus(s, i, Running), Event(Resumed, i, None), 0, instance);
      case _ =>
    }
  }

  /** How many actions of a run dispatch an idle trip of the instance. */
  function IdleTripping(s: State, actions: seq<Action>, instance: string): nat {
    if actions == [] then 0
    else
      var n := |actions| - 1;
      IdleTripping(s, actions[..n], instance) + if TripsIdle(Run(s, actions[..n]), actions[n], instance) then 1 else 0
  }

  /** Over every run the idle trips of an instance are its slow checkpoints. */
  lemma {:induction false} IdleTripsExactly(s: State, actions: seq<Action>, instance: string)
    ensures IdleTrips(Run(s, actions).dispatched, instance)
            == IdleTrips(s.dispatched, instance) + IdleTripping(s, actions, instance)
  {
    hide Step, TripsIdle, IdleTrips;
    if actions != [] {
      var n := |actions| - 1;
      IdleTripsExactly(s, actions[..n], instance);
      StepIdle(Run(s, actions[..n]), actions[n], instance);
    }
  }

  /** Checkpoints of the instance are evaluated sooner after their stamp than a number of
      seconds, and nobody else sends its trips. */
  predicate Prompt(a: Action, instance: string, seconds: int) {
    a.Emit? && a.event.instance == instance ==>
      if a.event.kind == Checkpoint then a.env.now - a.env.stamp < seconds else a.event.kind != BreakerTripped
  }

  predicate AtLeast(rows: map<string, Row>, instance: string, seconds: int) {
    instance in rows ==> rows[instance].limits.idleTimeout >= seconds
  }

  predicate KeepsLimit(a: Action, instance: string, seconds: int) {
    a.SetRow? && a.instance == instance && a.row.Some? ==> a.row.value.limits.idleTimeout >= seconds
  }

  lemma LimitKept(s: State, a: Action, instance: string, seconds: int)
    requires AtLeast(s.rows, instance, seconds) && KeepsLimit(a, instance, seconds)
    ensures AtLeast(Step(s, a).rows, instance, seconds)
  {
    hide TripEvents, FirstReason;
    if a.Emit? && a.event.kind == Checkpoint {
      var e, env := a.event, a.env;
      var s0 := s.(dispatched := s.dispatched + [e]);
      var r := Reached(s0, e.instance, env);
      if r.Some? {
        var s1 := s0.(registry := s0.registry[e.instance := Stamped(s0, e.instance, env)]);
        TripKeeps(s1, e.instance, r.value, if env.fault.AtFlush? && env.fault.k < 3 then env.fault.k else 3, env.now);
      }
    }
  }

  /** However long an instance is silent between its checkpoints, and whatever else happens,
      it gets no idle trip as long as each checkpoint is evaluated promptly. */
  lemma {:induction false} SilenceNeverTrips(s: State, actions: seq<Action>, instance: string, seconds: int)
    requires AtLeast(s.rows, instance, seconds)
    requires forall k :: 0 <= k < |actions| ==> Prompt(actions[k], instance, seconds) && KeepsLimit(actions[k], instance, seconds)
    ensures AtLeast(Run(s, actions).rows, instance, seconds)
    ensures IdleTrips(Run(s, actions).dispatched, instance) == IdleTrips(s.dispatched, instance)
  {
    hide Step, IdleTrips, KeepsLimit, Stamped, ReachesOther;
    if actions != [] {
      var n := |actions| - 1;
      SilenceNeverTrips(s, actions[..n], instance, seconds);
      StepIdle(Run(s, actions[..n]), actions[n], instance);
      LimitKept(Run(s, actions[..n]), actions[n], instance, seconds);
    }
  }
}

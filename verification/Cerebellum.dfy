/** The migration of legacy cerebellum agents to entities and instances.

    A row is identified by its place in its table; `id` is its random identifier, the last
    resort when two agents tie. */
module Cerebellum {
  import opened Prelude
  import Slugs

  datatype Agent = Agent(
    id: int, hub: nat, heartbeat: Option<nat>, created: nat, name: string, baseSlug: string, prompt: string,
    loopStatus: string, deleted: bool)

  datatype Hub = Hub(workspace: nat, deleted: bool)

  /** An absent prompt and an empty one are both "". */
  datatype Entity = Entity(ns: string, name: string, slug: string, preset: string, prompt: string, cerebellum: bool, deleted: bool)

  datatype Instance = Instance(entity: nat, workspace: nat, status: string, deleted: bool)

  datatype MergedEvent = MergedEvent(entity: nat, agent: nat, ns: string, workspace: nat)

  datatype Db = Db(
    agents: seq<Agent>, hubs: map<nat, Hub>, namespaces: map<nat, string>,
    entities: seq<Entity>, instances: seq<Instance>, events: seq<MergedEvent>)

  datatype Report = Report(scanned: nat, entitiesCreated: nat, instancesCreated: nat, merged: nat, orphaned: nat)

  datatype Outcome = Outcome(db: Db, report: Report)

  /** A dictionary from namespaces to agents that keeps the order of insertion. */
  datatype Groups = Groups(order: seq<string>, members: map<string, seq<nat>>)

  function MapLegacyLoopStatus(loopStatus: string): (s: string)
    ensures s == "running" <==> loopStatus in ["running", "idle"]
    ensures s == "pending" <==> loopStatus in ["paused", "interrupted", "completed"]
    ensures s == "restarting" || s == "failed" <==> s == loopStatus && loopStatus in ["restarting", "failed"]
    ensures s in ["running", "pending", "restarting", "failed", "creating"]
  {
    match loopStatus
    case "running" => "running"
    case "idle" => "running"
    case "restarting" => "restarting"
    case "failed" => "failed"
    case "paused" => "pending"
    case "interrupted" => "pending"
    case "completed" => "pending"
    case _ => "creating"
  }

  // ---------------------------------------------------------------------------
  // Groups
  // ---------------------------------------------------------------------------

  /** The namespace of an agent, through its active hub and the hub's workspace. */
  function NsOf(db: Db, a: Agent): Option<string> {
    if a.hub in db.hubs && !db.hubs[a.hub].deleted && db.hubs[a.hub].workspace in db.namespaces
       && db.namespaces[db.hubs[a.hub].workspace] != ""
    then Some(db.namespaces[db.hubs[a.hub].workspace]) else None
  }

  /** An agent that the migration takes. */
  predicate Movable(db: Db, i: nat) {
    i < |db.agents| && !db.agents[i].deleted && NsOf(db, db.agents[i]).Some?
  }

  function WorkspaceOf(db: Db, i: nat): nat
    requires Movable(db, i)
  {
    db.hubs[db.agents[i].hub].workspace
  }

  /** `by_ns.setdefault(ns, []).append(i)`. */
  function AddTo(g: Groups, ns: string, i: nat): Groups {
    if ns in g.members then g.(members := g.members[ns := g.members[ns] + [i]])
    else Groups(g.order + [ns], g.members[ns := [i]])
  }

  function Grouped(db: Db, n: nat): Groups
    requires n <= |db.agents|
  {
    if n == 0 then Groups([], map[])
    else if Movable(db, n - 1) then AddTo(Grouped(db, n - 1), NsOf(db, db.agents[n - 1]).value, n - 1)
    else Grouped(db, n - 1)
  }

  /** Agents among the first n that are live, and those that are taken. */
  function Live(db: Db, n: nat): nat
    requires n <= |db.agents|
  {
    if n == 0 then 0 else Live(db, n - 1) + if db.agents[n - 1].deleted then 0 else 1
  }

  function Taken(db: Db, n: nat): nat
    requires n <= |db.agents|
  {
    if n == 0 then 0 else Taken(db, n - 1) + if Movable(db, n - 1) then 1 else 0
  }

  // ---------------------------------------------------------------------------
  // The winner
  // ---------------------------------------------------------------------------

  function Heartbeat(a: Agent): nat {
    if a.heartbeat.Some? then a.heartbeat.value else 0
  }

  /** Later heartbeat, then later creation, then higher id. */
  predicate Ahead(a: Agent, b: Agent) {
    || Heartbeat(a) > Heartbeat(b)
    || (Heartbeat(a) == Heartbeat(b) && (a.created > b.created || (a.created == b.created && a.id > b.id)))
  }

  function Place(agents: seq<Agent>, i: nat, members: seq<nat>): seq<nat>
    requires i < |agents| && forall k :: 0 <= k < |members| ==> members[k] < |agents|
  {
    if members == [] || Ahead(agents[i], agents[members[0]]) then [i] + members
    else [members[0]] + Place(agents, i, members[1..])
  }

  /** The group, the most recent agent first. */
  function Ranked(agents: seq<Agent>, members: seq<nat>): (r: seq<nat>)
    requires forall k :: 0 <= k < |members| ==> members[k] < |agents|
    ensures |r| == |members| && forall k :: 0 <= k < |r| ==> r[k] in members
  {
    if members == [] then []
    else
      PlaceSame(agents, members[0], Ranked(agents, members[1..]));
      Place(agents, members[0], Ranked(agents, members[1..]))
  }

  lemma {:induction false} PlaceSame(agents: seq<Agent>, i: nat, members: seq<nat>)
    requires i < |agents| && forall k :: 0 <= k < |members| ==> members[k] < |agents|
    ensures |Place(agents, i, members)| == |members| + 1
    ensures forall k :: 0 <= k < |Place(agents, i, members)| ==> Place(agents, i, members)[k] == i || Place(agents, i, members)[k] in members
    ensures i in Place(agents, i, members) && forall k :: 0 <= k < |members| ==> members[k] in Place(agents, i, members)
  {
    if members != [] && !Ahead(agents[i], agents[members[0]]) {
      PlaceSame(agents, i, members[1..]);
    }
  }

  // ---------------------------------------------------------------------------
  // One namespace
  // ---------------------------------------------------------------------------

  predicate IsCerebellum(e: Entity, ns: string) {
    e.ns == ns && e.cerebellum && !e.deleted
  }

  function FindEntity(entities: seq<Entity>, ns: string, n: nat): (r: Option<nat>)
    requires n <= |entities|
    ensures r.Some? ==> r.value < n && IsCerebellum(entities[r.value], ns)
    ensures r.None? ==> forall i :: 0 <= i < n ==> !IsCerebellum(entities[i], ns)
  {
    if n == 0 then None
    else
      var r := FindEntity(entities, ns, n - 1);
      if r.Some? then r else if IsCerebellum(entities[n - 1], ns) then Some(n - 1) else None
  }

  function SlugsOf(entities: seq<Entity>, ns: string): set<string> {
    set i | 0 <= i < |entities| && entities[i].ns == ns && !entities[i].deleted :: entities[i].slug
  }

  function OrElse(s: string, d: string): string {
    if s == "" then d else s
  }

  function NewEntity(db: Db, ns: string, winner: Agent): Entity {
    Entity(ns, OrElse(winner.name, "cerebellum"), Slugs.FreeSlug("cerebellum", SlugsOf(db.entities, ns)),
           OrElse(winner.baseSlug, "cerebellum-baseclass"), winner.prompt, true, false)
  }

  /** The namespace's entity is there, with a prompt if the winner has one. */
  function WithEntity(db: Db, ns: string, winner: Agent): Db {
    var found := FindEntity(db.entities, ns, |db.entities|);
    if found.None? then db.(entities := db.entities + [NewEntity(db, ns, winner)])
    else
      var e := db.entities[found.value];
      db.(entities := db.entities[found.value := e.(prompt := OrElse(e.prompt, winner.prompt))])
  }

  predicate IsInstance(i: Instance, entity: nat, workspace: nat) {
    i.entity == entity && i.workspace == workspace && !i.deleted
  }

  predicate HasInstance(instances: seq<Instance>, entity: nat, workspace: nat) {
    exists k :: 0 <= k < |instances| && IsInstance(instances[k], entity, workspace)
  }

  function WithInstance(instances: seq<Instance>, entity: nat, workspace: nat, status: string): seq<Instance> {
    if HasInstance(instances, entity, workspace) then instances else instances + [Instance(entity, workspace, status, false)]
  }

  /** The instances and events of the first n members; the first member is the winner.  The
      agents are read once, from the database the migration starts with. */
  function Seated(src: Db, db: Db, ns: string, entity: nat, members: seq<nat>, n: nat): Db
    requires n <= |members| && forall k :: 0 <= k < |members| ==> Movable(src, members[k])
  {
    if n == 0 then db
    else
      var before, i := Seated(src, db, ns, entity, members, n - 1), members[n - 1];
      var ws := WorkspaceOf(src, i);
      before.(instances := WithInstance(before.instances, entity, ws, MapLegacyLoopStatus(src.agents[i].loopStatus)),
              events := if i != members[0] then before.events + [MergedEvent(entity, i, ns, ws)] else before.events)
  }

  function Retired(agents: seq<Agent>, members: seq<nat>): (r: seq<Agent>)
    ensures |r| == |agents| && forall i :: 0 <= i < |agents| ==> r[i] == if i in members then agents[i].(deleted := true) else agents[i]
  {
    seq(|agents|, i requires 0 <= i < |agents| => if i in members then agents[i].(deleted := true) else agents[i])
  }

  /** Agents of one namespace that the migration takes, in table order. */
  predicate GroupValid(db: Db, ns: string, members: seq<nat>) {
    && members != [] && (forall j, k :: 0 <= j < k < |members| ==> members[j] < members[k])
    && forall k :: 0 <= k < |members| ==> Movable(db, members[k]) && NsOf(db, db.agents[members[k]]) == Some(ns)
  }

  predicate GroupsValid(db: Db, g: Groups) {
    && (forall k :: 0 <= k < |g.order| ==> g.order[k] in g.members && GroupValid(db, g.order[k], g.members[g.order[k]]))
    && (forall ns :: ns in g.members ==> ns in g.order)
    && (forall j, k :: 0 <= j < k < |g.order| ==> g.order[j] != g.order[k])
  }

  function EntityOf(db: Db, ns: string): nat {
    var found := FindEntity(db.entities, ns, |db.entities|);
    if found.Some? then found.value else |db.entities|
  }

  function MigratedGroup(src: Db, db: Db, ns: string, members: seq<nat>): Db
    requires GroupValid(src, ns, members)
  {
    var ranked := Ranked(src.agents, members);
    var seated := Seated(src, WithEntity(db, ns, src.agents[ranked[0]]), ns, EntityOf(db, ns), ranked, |ranked|);
    seated.(agents := Retired(seated.agents, members))
  }

  function Migrated(src: Db, g: Groups, n: nat): Db
    requires n <= |g.order| && GroupsValid(src, g)
  {
    if n == 0 then src else MigratedGroup(src, Migrated(src, g, n - 1), g.order[n - 1], g.members[g.order[n - 1]])
  }

  /** The whole migration. */
  function Migration(db: Db): Db {
    GroupedValid(db, |db.agents|);
    var g := Grouped(db, |db.agents|);
    Migrated(db, g, |g.order|)
  }

  // ---------------------------------------------------------------------------
  // Grouping
  // ---------------------------------------------------------------------------

  lemma {:induction false} TakenIsLive(db: Db, n: nat)
    requires n <= |db.agents|
    ensures Taken(db, n) <= Live(db, n)
  {
    if n > 0 {
      TakenIsLive(db, n - 1);
    }
  }

  predicate Keyed(g: Groups) {
    forall k :: 0 <= k < |g.order| ==> g.order[k] in g.members
  }

  function Total(g: Groups, n: nat): nat
    requires n <= |g.order| && Keyed(g)
  {
    if n == 0 then 0 else Total(g, n - 1) + |g.members[g.order[n - 1]]|
  }

  lemma {:induction false} TotalSame(g: Groups, h: Groups, n: nat)
    requires n <= |g.order| && n <= |h.order|
    requires Keyed(g) && Keyed(h)
    requires forall k :: 0 <= k < n ==> g.order[k] == h.order[k] && |g.members[g.order[k]]| == |h.members[g.order[k]]|
    ensures Total(g, n) == Total(h, n)
  {
    if n > 0 {
      TotalSame(g, h, n - 1);
    }
  }

  lemma {:induction false} TotalMore(g: Groups, h: Groups, p: nat, n: nat)
    requires p < n <= |g.order| && g.order == h.order
    requires Keyed(g) && Keyed(h)
    requires forall k :: 0 <= k < n ==> |h.members[g.order[k]]| == |g.members[g.order[k]]| + if k == p then 1 else 0
    ensures Total(h, n) == Total(g, n) + 1
  {
    if n - 1 == p {
      TotalSame(g, h, n - 1);
    } else {
      TotalMore(g, h, p, n - 1);
    }
  }

  /** Every taken agent among the first n is in the group of its namespace, and only there. */
  predicate Complete(db: Db, g: Groups, n: nat)
    requires n <= |db.agents|
  {
    && (forall i :: 0 <= i < n && Movable(db, i) ==>
          NsOf(db, db.agents[i]).value in g.members && i in g.members[NsOf(db, db.agents[i]).value])
    && forall ns, k :: ns in g.members && 0 <= k < |g.members[ns]| ==> g.members[ns][k] < n
  }

  lemma MemberAdded(db: Db, ns: string, members: seq<nat>, i: nat)
    requires i < |db.agents| && Movable(db, i) && NsOf(db, db.agents[i]) == Some(ns)
    requires members == [] || (GroupValid(db, ns, members) && forall k :: 0 <= k < |members| ==> members[k] < i)
    ensures GroupValid(db, ns, members + [i])
  {
    hide Movable, NsOf;
  }

  lemma AddGroups(db: Db, g: Groups, ns: string, i: nat)
    requires i < |db.agents| && Movable(db, i) && NsOf(db, db.agents[i]) == Some(ns) && GroupsValid(db, g)
    requires ns in g.members ==> forall k :: 0 <= k < |g.members[ns]| ==> g.members[ns][k] < i
    ensures GroupsValid(db, AddTo(g, ns, i))
  {
    hide GroupValid, Movable, NsOf;
    var h := AddTo(g, ns, i);
    if ns in g.members {
      var p :| 0 <= p < |g.order| && g.order[p] == ns;
      assert GroupValid(db, g.order[p], g.members[g.order[p]]);
      MemberAdded(db, ns, g.members[ns], i);
    } else {
      MemberAdded(db, ns, [], i);
      assert [] + [i] == [i];
      forall k | 0 <= k < |g.order| ensures g.order[k] != ns {
        assert g.order[k] in g.members;
      }
    }
    forall k | 0 <= k < |h.order| ensures h.order[k] in h.members && GroupValid(db, h.order[k], h.members[h.order[k]]) {
      assert k < |g.order| ==> GroupValid(db, g.order[k], g.members[g.order[k]]);
    }
  }

  lemma GrowOld(g: Groups, p: nat, i: nat)
    requires Keyed(g) && p < |g.order| && forall k :: 0 <= k < |g.order| && k != p ==> g.order[k] != g.order[p]
    ensures var h := AddTo(g, g.order[p], i); Keyed(h) && Total(h, |h.order|) == Total(g, |g.order|) + 1
  {
    TotalMore(g, AddTo(g, g.order[p], i), p, |g.order|);
  }

  lemma GrowNew(g: Groups, ns: string, i: nat)
    requires Keyed(g) && ns !in g.members
    ensures var h := AddTo(g, ns, i); Keyed(h) && Total(h, |h.order|) == Total(g, |g.order|) + 1
  {
    var h := AddTo(g, ns, i);
    forall k | 0 <= k < |g.order| ensures h.order[k] == g.order[k] != ns {
    }
    TotalSame(g, h, |g.order|);
    assert h.order[|g.order|] == ns;
  }

  lemma AddTotal(db: Db, g: Groups, ns: string, i: nat)
    requires GroupsValid(db, g)
    ensures var h := AddTo(g, ns, i); Keyed(h) && Keyed(g) && Total(h, |h.order|) == Total(g, |g.order|) + 1
  {
    hide GroupValid, AddTo, Total;
    if ns in g.members {
      var p :| 0 <= p < |g.order| && g.order[p] == ns;
      GrowOld(g, p, i);
    } else {
      GrowNew(g, ns, i);
    }
  }

  lemma AddComplete(db: Db, g: Groups, ns: string, i: nat)
    requires i < |db.agents| && Movable(db, i) && NsOf(db, db.agents[i]) == Some(ns) && Complete(db, g, i)
    ensures Complete(db, AddTo(g, ns, i), i + 1)
  {
    hide Movable, NsOf;
    var h := AddTo(g, ns, i);
    forall j | 0 <= j < i + 1 && Movable(db, j)
      ensures NsOf(db, db.agents[j]).Some? && NsOf(db, db.agents[j]).value in h.members && j in h.members[NsOf(db, db.agents[j]).value]
    {
      MovableNs(db, j);
      if j == i {
        assert h.members[ns][|h.members[ns]| - 1] == i;
      } else {
        var other := NsOf(db, db.agents[j]).value;
        assert j in g.members[other];
      }
    }
  }

  lemma MovableNs(db: Db, i: nat)
    requires Movable(db, i)
    ensures NsOf(db, db.agents[i]).Some?
  {
  }

  lemma AddValid(db: Db, g: Groups, i: nat)
    requires i < |db.agents| && Movable(db, i) && GroupsValid(db, g) && Complete(db, g, i)
    ensures var h := AddTo(g, NsOf(db, db.agents[i]).value, i);
      && GroupsValid(db, h) && Complete(db, h, i + 1) && Keyed(h) && Keyed(g)
      && Total(h, |h.order|) == Total(g, |g.order|) + 1
  {
    hide GroupsValid, AddTo;
    var ns := NsOf(db, db.agents[i]).value;
    AddComplete(db, g, ns, i);
    AddGroups(db, g, ns, i);
    AddTotal(db, g, ns, i);
  }

  lemma {:induction false} GroupedValid(db: Db, n: nat)
    requires n <= |db.agents|
    ensures var g := Grouped(db, n);
      GroupsValid(db, g) && Complete(db, g, n) && Keyed(g) && Total(g, |g.order|) == Taken(db, n)
  {
    hide GroupsValid, Complete, AddTo, Keyed;
    if n == 0 {
      EmptyGroups(db);
    } else {
      GroupedValid(db, n - 1);
      if Movable(db, n - 1) {
        AddValid(db, Grouped(db, n - 1), n - 1);
      } else {
        CompleteNext(db, Grouped(db, n - 1), n - 1);
      }
    }
  }

  lemma CompleteNext(db: Db, g: Groups, n: nat)
    requires n < |db.agents| && !Movable(db, n) && Complete(db, g, n)
    ensures Complete(db, g, n + 1)
  {
  }

  lemma EmptyGroups(db: Db)
    ensures GroupsValid(db, Groups([], map[])) && Complete(db, Groups([], map[]), 0) && Keyed(Groups([], map[]))
  {
  }

  // ---------------------------------------------------------------------------
  // The winner
  // ---------------------------------------------------------------------------

  lemma {:induction false} RankedFirst(agents: seq<Agent>, members: seq<nat>, k: nat)
    requires k < |members| && forall j :: 0 <= j < |members| ==> members[j] < |agents|
    ensures Ranked(agents, members)[0] < |agents| && !Ahead(agents[members[k]], agents[Ranked(agents, members)[0]])
  {
    if |members| > 1 {
      var rest := Ranked(agents, members[1..]);
      if k > 0 {
        RankedFirst(agents, members[1..], k - 1);
      } else {
        RankedFirst(agents, members[1..], 0);
      }
      assert Ranked(agents, members)[0] == if Ahead(agents[members[0]], agents[rest[0]]) then members[0] else rest[0];
    }
  }

  predicate Distinct(s: seq<nat>) {
    forall j, k :: 0 <= j < k < |s| ==> s[j] != s[k]
  }

  lemma {:induction false} PlaceDistinct(agents: seq<Agent>, i: nat, members: seq<nat>)
    requires i < |agents| && forall k :: 0 <= k < |members| ==> members[k] < |agents|
    requires Distinct(members) && i !in members
    ensures Distinct(Place(agents, i, members))
  {
    if members != [] && !Ahead(agents[i], agents[members[0]]) {
      var rest := members[1..];
      PlaceDistinct(agents, i, rest);
      PlaceSame(agents, i, rest);
      var placed := Place(agents, i, rest);
      forall k | 0 <= k < |placed| ensures placed[k] != members[0] {
        if placed[k] != i {
          assert placed[k] in rest;
        }
      }
    }
  }

  lemma {:induction false} RankedDistinct(agents: seq<Agent>, members: seq<nat>)
    requires Distinct(members) && forall k :: 0 <= k < |members| ==> members[k] < |agents|
    ensures Distinct(Ranked(agents, members)) && forall k :: 0 <= k < |members| ==> members[k] in Ranked(agents, members)
  {
    if members != [] {
      var rest := Ranked(agents, members[1..]);
      RankedDistinct(agents, members[1..]);
      PlaceSame(agents, members[0], rest);
      forall k | 0 <= k < |rest| ensures rest[k] != members[0] {
        assert rest[k] in members[1..];
      }
      PlaceDistinct(agents, members[0], rest);
    }
  }

  // ---------------------------------------------------------------------------
  // One namespace
  // ---------------------------------------------------------------------------

  /** No namespace has two active cerebellum entities. */
  predicate OneEntity(entities: seq<Entity>) {
    forall i, j :: 0 <= i < j < |entities| ==> !(IsCerebellum(entities[i], entities[i].ns) && IsCerebellum(entities[j], entities[i].ns))
  }

  /** No workspace has two active instances of one entity. */
  predicate OneInstance(instances: seq<Instance>) {
    forall i, j :: 0 <= i < j < |instances| ==>
      !(!instances[i].deleted && IsInstance(instances[j], instances[i].entity, instances[i].workspace))
  }

  lemma {:induction false} FindSame(a: seq<Entity>, b: seq<Entity>, ns: string, n: nat)
    requires n <= |a| && n <= |b| && forall i :: 0 <= i < n ==> (IsCerebellum(a[i], ns) <==> IsCerebellum(b[i], ns))
    ensures FindEntity(a, ns, n) == FindEntity(b, ns, n)
  {
    if n > 0 {
      FindSame(a, b, ns, n - 1);
    }
  }

  /** The namespace gets its entity if it had none, with a slug that no active entity of it
      has; other namespaces keep theirs. */
  lemma EntityThere(db: Db, ns: string, winner: Agent)
    ensures var r := WithEntity(db, ns, winner);
      && r == db.(entities := r.entities) && |db.entities| <= |r.entities| <= |db.entities| + 1
      && (|r.entities| == |db.entities| <==> FindEntity(db.entities, ns, |db.entities|).Some?)
      && FindEntity(r.entities, ns, |r.entities|) == Some(EntityOf(db, ns))
      && (forall other :: other != ns ==> FindEntity(r.entities, other, |r.entities|) == FindEntity(db.entities, other, |db.entities|))
      && (OneEntity(db.entities) ==> OneEntity(r.entities))
      && (|r.entities| > |db.entities| ==> r.entities[|db.entities|].slug !in SlugsOf(db.entities, ns))
  {
    hide OneEntity;
    var found := FindEntity(db.entities, ns, |db.entities|);
    if found.None? {
      EntityAppended(db.entities, NewEntity(db, ns, winner), ns);
    } else {
      var e := db.entities[found.value];
      EntityPrompted(db.entities, found.value, e.(prompt := OrElse(e.prompt, winner.prompt)));
    }
  }

  lemma EntityAppended(entities: seq<Entity>, e: Entity, ns: string)
    requires IsCerebellum(e, ns) && FindEntity(entities, ns, |entities|).None?
    ensures var r := entities + [e];
      && FindEntity(r, ns, |r|) == Some(|entities|)
      && (forall other :: other != ns ==> FindEntity(r, other, |r|) == FindEntity(entities, other, |entities|))
      && (OneEntity(entities) ==> OneEntity(r))
  {
    var r := entities + [e];
    forall other ensures FindEntity(r, other, |entities|) == FindEntity(entities, other, |entities|) {
      FindSame(r, entities, other, |entities|);
    }
  }

  lemma EntityPrompted(entities: seq<Entity>, i: nat, e: Entity)
    requires i < |entities| && e == entities[i].(prompt := e.prompt)
    ensures var r := entities[i := e];
      && (forall ns :: FindEntity(r, ns, |r|) == FindEntity(entities, ns, |entities|))
      && (OneEntity(entities) ==> OneEntity(r))
  {
    var r := entities[i := e];
    forall ns ensures FindEntity(r, ns, |r|) == FindEntity(entities, ns, |entities|) {
      FindSame(r, entities, ns, |entities|);
    }
  }

  lemma HasAppend(instances: seq<Instance>, i: Instance, entity: nat, workspace: nat)
    ensures HasInstance(instances, entity, workspace) ==> HasInstance(instances + [i], entity, workspace)
    ensures IsInstance(i, entity, workspace) ==> HasInstance(instances + [i], entity, workspace)
  {
    if HasInstance(instances, entity, workspace) {
      var k :| 0 <= k < |instances| && IsInstance(instances[k], entity, workspace);
      assert (instances + [i])[k] == instances[k];
    }
    assert (instances + [i])[|instances|] == i;
  }

  lemma InstanceThere(instances: seq<Instance>, entity: nat, workspace: nat, status: string)
    ensures var r := WithInstance(instances, entity, workspace, status);
      && HasInstance(r, entity, workspace) && |instances| <= |r|
      && (OneInstance(instances) ==> OneInstance(r))
      && (forall e, w :: HasInstance(instances, e, w) ==> HasInstance(r, e, w))
  {
    var i := Instance(entity, workspace, status, false);
    HasAppend(instances, i, entity, workspace);
    forall e, w ensures HasInstance(instances, e, w) ==> HasInstance(instances + [i], e, w) {
      HasAppend(instances, i, e, w);
    }
    if !HasInstance(instances, entity, workspace) && OneInstance(instances) {
      AppendOne(instances, i);
    }
  }

  lemma AppendOne(instances: seq<Instance>, i: Instance)
    requires OneInstance(instances) && !HasInstance(instances, i.entity, i.workspace)
    ensures OneInstance(instances + [i])
  {
    var r := instances + [i];
    forall j, k | 0 <= j < k < |r| ensures !(!r[j].deleted && IsInstance(r[k], r[j].entity, r[j].workspace)) {
      if k == |instances| {
        assert !IsInstance(instances[j], i.entity, i.workspace);
      }
    }
  }

  lemma {:induction false} SeatedThere(src: Db, db: Db, ns: string, entity: nat, members: seq<nat>, n: nat)
    requires n <= |members| && Distinct(members) && forall k :: 0 <= k < |members| ==> Movable(src, members[k])
    ensures var r := Seated(src, db, ns, entity, members, n);
      && r == db.(instances := r.instances, events := r.events) && |db.instances| <= |r.instances|
      && |r.events| == |db.events| + (if n == 0 then 0 else n - 1)
      && (OneInstance(db.instances) ==> OneInstance(r.instances))
      && (forall e, w :: HasInstance(db.instances, e, w) ==> HasInstance(r.instances, e, w))
      && (forall k :: 0 <= k < n ==> HasInstance(r.instances, entity, WorkspaceOf(src, members[k])))
  {
    hide HasInstance, OneInstance, WithInstance, MapLegacyLoopStatus, NsOf;
    if n > 0 {
      SeatedThere(src, db, ns, entity, members, n - 1);
      var before, i := Seated(src, db, ns, entity, members, n - 1), members[n - 1];
      InstanceThere(before.instances, entity, WorkspaceOf(src, i), MapLegacyLoopStatus(src.agents[i].loopStatus));
      assert n > 1 ==> i != members[0];
    }
  }

  // ---------------------------------------------------------------------------
  // All namespaces
  // ---------------------------------------------------------------------------

  function ToSet(members: seq<nat>): set<nat> {
    set i | i in members
  }

  /** The agents of the first n groups. */
  function Moved(g: Groups, n: nat): set<nat>
    requires n <= |g.order| && Keyed(g)
  {
    if n == 0 then {} else Moved(g, n - 1) + ToSet(g.members[g.order[n - 1]])
  }

  /** A namespace is done: it has its entity, and each of its agents an instance of it. */
  predicate NsDone(src: Db, db: Db, ns: string, members: seq<nat>)
    requires GroupValid(src, ns, members)
  {
    && FindEntity(db.entities, ns, |db.entities|).Some?
    && forall k :: 0 <= k < |members| ==> HasInstance(db.instances, EntityOf(db, ns), WorkspaceOf(src, members[k]))
  }

  /** What one group changes. */
  lemma GroupStep(src: Db, db: Db, ns: string, members: seq<nat>)
    requires GroupValid(src, ns, members)
    ensures var r := MigratedGroup(src, db, ns, members);
      && NsDone(src, r, ns, members)
      && r.hubs == db.hubs && r.namespaces == db.namespaces && r.agents == Retired(db.agents, members)
      && |db.entities| <= |r.entities| && |db.instances| <= |r.instances| && |r.events| == |db.events| + |members| - 1
      && (OneEntity(db.entities) ==> OneEntity(r.entities)) && (OneInstance(db.instances) ==> OneInstance(r.instances))
      && (forall e, w :: HasInstance(db.instances, e, w) ==> HasInstance(r.instances, e, w))
      && (forall other :: other != ns ==> FindEntity(r.entities, other, |r.entities|) == FindEntity(db.entities, other, |db.entities|))
  {
    hide HasInstance, OneInstance, OneEntity, Retired, WithEntity, FindEntity, Movable, WorkspaceOf, Seated, Ranked;
    InTable(src, ns, members);
    var ranked := Ranked(src.agents, members);
    RankedDistinct(src.agents, members);
    EntityThere(db, ns, src.agents[ranked[0]]);
    var db' := WithEntity(db, ns, src.agents[ranked[0]]);
    RankedMovable(src, ns, members);
    SeatedThere(src, db', ns, EntityOf(db, ns), ranked, |ranked|);
    var r := MigratedGroup(src, db, ns, members);
    forall k | 0 <= k < |members| ensures HasInstance(r.instances, EntityOf(r, ns), WorkspaceOf(src, members[k])) {
      var j :| 0 <= j < |ranked| && ranked[j] == members[k];
    }
  }

  lemma InTable(src: Db, ns: string, members: seq<nat>)
    requires GroupValid(src, ns, members)
    ensures members != [] && Distinct(members) && forall k :: 0 <= k < |members| ==> members[k] < |src.agents|
  {
  }

  lemma RankedMovable(src: Db, ns: string, members: seq<nat>)
    requires GroupValid(src, ns, members)
    ensures forall k :: 0 <= k < |members| ==> members[k] < |src.agents|
    ensures forall k :: 0 <= k < |Ranked(src.agents, members)| ==> Movable(src, Ranked(src.agents, members)[k])
  {
    var ranked := Ranked(src.agents, members);
    forall k | 0 <= k < |ranked| ensures Movable(src, ranked[k]) {
      assert ranked[k] in members;
    }
  }

  lemma NsDoneStays(src: Db, db: Db, r: Db, ns: string, members: seq<nat>)
    requires GroupValid(src, ns, members) && NsDone(src, db, ns, members)
    requires FindEntity(r.entities, ns, |r.entities|) == FindEntity(db.entities, ns, |db.entities|)
    requires forall e, w :: HasInstance(db.instances, e, w) ==> HasInstance(r.instances, e, w)
    ensures NsDone(src, r, ns, members)
  {
    hide HasInstance;
  }

  lemma RetiredMore(src: seq<Agent>, agents: seq<Agent>, moved: set<nat>, members: seq<nat>, more: set<nat>)
    requires |agents| == |src| && (forall k :: k in more <==> k in members)
    requires forall i :: 0 <= i < |src| ==> agents[i] == if i in moved then src[i].(deleted := true) else src[i]
    ensures forall i :: 0 <= i < |src| ==>
              Retired(agents, members)[i] == if i in moved + more then src[i].(deleted := true) else src[i]
  {
  }

  /** After the first n namespaces. */
  lemma {:induction false} MigratedSoFar(src: Db, g: Groups, n: nat)
    requires n <= |g.order| && GroupsValid(src, g) && Keyed(g)
    ensures var db := Migrated(src, g, n);
      && db.hubs == src.hubs && db.namespaces == src.namespaces && |db.agents| == |src.agents|
      && (forall i :: 0 <= i < |src.agents| ==> db.agents[i] == if i in Moved(g, n) then src.agents[i].(deleted := true) else src.agents[i])
      && |src.entities| <= |db.entities| && |src.instances| <= |db.instances| && |db.events| == |src.events| + Total(g, n) - n
      && (OneEntity(src.entities) ==> OneEntity(db.entities)) && (OneInstance(src.instances) ==> OneInstance(db.instances))
      && forall k :: 0 <= k < n ==> GroupValid(src, g.order[k], g.members[g.order[k]]) && NsDone(src, db, g.order[k], g.members[g.order[k]])
  {
    hide MigratedGroup, OneEntity, OneInstance, HasInstance, FindEntity, NsDone, GroupValid;
    if n > 0 {
      MigratedSoFar(src, g, n - 1);
      var db, ns := Migrated(src, g, n - 1), g.order[n - 1];
      var members := g.members[ns];
      GroupStep(src, db, ns, members);
      var r := Migrated(src, g, n);
      forall k | 0 <= k < n - 1 ensures NsDone(src, r, g.order[k], g.members[g.order[k]]) {
        NsDoneStays(src, db, r, g.order[k], g.members[g.order[k]]);
      }
      RetiredMore(src.agents, db.agents, Moved(g, n - 1), members, ToSet(members));
    }
  }

  lemma {:induction false} MovedHas(g: Groups, n: nat, p: nat, k: nat)
    requires p < n <= |g.order| && Keyed(g) && k < |g.members[g.order[p]]|
    ensures g.members[g.order[p]][k] in Moved(g, n)
  {
    if p < n - 1 {
      MovedHas(g, n - 1, p, k);
    }
  }

  /** The agent's namespace has its entity, and the agent's workspace an instance of it. */
  predicate Settled(db: Db, r: Db, i: nat)
    requires Movable(db, i)
  {
    var ns := NsOf(db, db.agents[i]).value;
    FindEntity(r.entities, ns, |r.entities|).Some? && HasInstance(r.instances, EntityOf(r, ns), WorkspaceOf(db, i))
  }

  lemma AgentSettled(db: Db, r: Db, g: Groups, i: nat)
    requires GroupsValid(db, g) && Complete(db, g, |db.agents|) && Movable(db, i)
    requires forall k :: 0 <= k < |g.order| ==>
      g.order[k] in g.members && GroupValid(db, g.order[k], g.members[g.order[k]]) && NsDone(db, r, g.order[k], g.members[g.order[k]])
    ensures Settled(db, r, i)
  {
    hide FindEntity, HasInstance, WorkspaceOf, NsOf, EntityOf, GroupValid;
    MovableNs(db, i);
    var ns := NsOf(db, db.agents[i]).value;
    var p :| 0 <= p < |g.order| && g.order[p] == ns;
    var k :| 0 <= k < |g.members[ns]| && g.members[ns][k] == i;
    assert NsDone(db, r, g.order[p], g.members[g.order[p]]);
  }

  /** Every agent that can be migrated is, into the one entity of its namespace and an
      instance of it in its own workspace; no entity or instance is doubled; and each agent
      but the winner of its namespace leaves a merge event. */
  lemma MigrationComplete(db: Db)
    ensures var r, g := Migration(db), Grouped(db, |db.agents|);
      && |r.agents| == |db.agents| && r.hubs == db.hubs && r.namespaces == db.namespaces
      && |db.entities| <= |r.entities| && |db.instances| <= |r.instances| && |r.events| >= |db.events|
      && (forall i :: 0 <= i < |db.agents| ==> r.agents[i] == if Movable(db, i) then db.agents[i].(deleted := true) else db.agents[i])
      && (forall i :: 0 <= i < |db.agents| && Movable(db, i) ==> Settled(db, r, i))
      && (OneEntity(db.entities) ==> OneEntity(r.entities)) && (OneInstance(db.instances) ==> OneInstance(r.instances))
      && |r.events| - |db.events| == Taken(db, |db.agents|) - |g.order|
  {
    hide OneEntity, OneInstance, HasInstance, FindEntity, NsOf, Grouped, Movable, GroupsValid, Complete, Keyed, Settled, Moved, Migrated, NsDone, GroupValid;
    var g := Grouped(db, |db.agents|);
    GroupedValid(db, |db.agents|);
    OrderKnown(g);
    MigratedSoFar(db, g, |g.order|);
    TotalAtLeast(db, g, |g.order|);
    forall i | 0 <= i < |db.agents| ensures i in Moved(g, |g.order|) <==> Movable(db, i) {
      MovedExactly(db, g, i);
    }
    forall i | 0 <= i < |db.agents| && Movable(db, i) ensures Settled(db, Migration(db), i) {
      AgentSettled(db, Migration(db), g, i);
    }
  }

  lemma OrderKnown(g: Groups)
    requires Keyed(g)
    ensures forall k :: 0 <= k < |g.order| ==> g.order[k] in g.members
  {
  }

  lemma {:induction false} TotalAtLeast(db: Db, g: Groups, n: nat)
    requires n <= |g.order| && GroupsValid(db, g) && Keyed(g)
    ensures Total(g, n) >= n
  {
    if n > 0 {
      TotalAtLeast(db, g, n - 1);
      assert GroupValid(db, g.order[n - 1], g.members[g.order[n - 1]]);
    }
  }

  lemma MovedExactly(db: Db, g: Groups, i: nat)
    requires GroupsValid(db, g) && Keyed(g) && Complete(db, g, |db.agents|) && i < |db.agents|
    ensures i in Moved(g, |g.order|) <==> Movable(db, i)
  {
    hide NsOf;
    if Movable(db, i) {
      MovableNs(db, i);
      var ns := NsOf(db, db.agents[i]).value;
      var p :| 0 <= p < |g.order| && g.order[p] == ns;
      var k :| 0 <= k < |g.members[ns]| && g.members[ns][k] == i;
      MovedHas(g, |g.order|, p, k);
    }
    MovedMovable(db, g, |g.order|, i);
  }

  lemma {:induction false} MovedMovable(db: Db, g: Groups, n: nat, i: nat)
    requires n <= |g.order| && GroupsValid(db, g) && Keyed(g)
    ensures i in Moved(g, n) ==> Movable(db, i)
  {
    hide Movable, NsOf;
    if n > 0 {
      MovedMovable(db, g, n - 1, i);
      assert GroupValid(db, g.order[n - 1], g.members[g.order[n - 1]]);
    }
  }

  lemma {:induction false} NothingToGroup(db: Db, n: nat)
    requires n <= |db.agents| && forall i :: 0 <= i < |db.agents| ==> !Movable(db, i)
    ensures Grouped(db, n) == Groups([], map[])
  {
    if n > 0 {
      NothingToGroup(db, n - 1);
    }
  }

  /** A second run writes nothing. */
  lemma MigrationIdempotent(db: Db)
    ensures Migration(Migration(db)) == Migration(db)
  {
    hide Migrated, Grouped, Settled, OneEntity, OneInstance, Movable, GroupsValid, Taken;
    var r := Migration(db);
    MigrationComplete(db);
    forall i | 0 <= i < |r.agents| ensures !Movable(r, i) {
      NoneLeft(db, r, i);
    }
    NothingToGroup(r, |r.agents|);
    EmptyGroups(r);
    assert Migration(r) == Migrated(r, Groups([], map[]), 0);
    NothingMigrated(r);
  }

  lemma NothingMigrated(db: Db)
    ensures GroupsValid(db, Groups([], map[])) && Migrated(db, Groups([], map[]), 0) == db
  {
  }

  lemma NoneLeft(db: Db, r: Db, i: nat)
    requires i < |db.agents| == |r.agents| && r.hubs == db.hubs && r.namespaces == db.namespaces
    requires r.agents[i] == if Movable(db, i) then db.agents[i].(deleted := true) else db.agents[i]
    ensures !Movable(r, i)
  {
  }

  // ---------------------------------------------------------------------------
  // The migration itself
  // ---------------------------------------------------------------------------

  /** What the report of a run must say. */
  predicate Reports(before: Db, after: Db, r: Report) {
    && r.scanned == Live(before, |before.agents|) && r.orphaned + Taken(before, |before.agents|) == r.scanned
    && |before.entities| + r.entitiesCreated == |after.entities|
    && |before.instances| + r.instancesCreated == |after.instances|
    && |before.events| + r.merged == |after.events|
  }

  class CerebellumStore {
    var db: Db

    constructor (db: Db)
      ensures this.db == db
    {
      this.db := db;
    }

    method Scan() returns (g: Groups, scanned: nat, orphaned: nat)
      ensures g == Grouped(db, |db.agents|) && scanned == Live(db, |db.agents|) && orphaned + Taken(db, |db.agents|) == scanned
    {
      hide NsOf;
      g, scanned, orphaned := Groups([], map[]), 0, 0;
      for i := 0 to |db.agents|
        invariant g == Grouped(db, i) && scanned == Live(db, i) && orphaned + Taken(db, i) == scanned
      {
        if db.agents[i].deleted {
          continue;
        }
        scanned := scanned + 1;
        var ns := NsOf(db, db.agents[i]);
        if ns.None? {
          orphaned := orphaned + 1;
          continue;
        }
        g := AddTo(g, ns.value, i);
      }
    }

    method MigrateCerebellum() returns (report: Report)
      modifies this
      ensures db == Migration(old(db)) && Reports(old(db), db, report)
    {
      hide GroupsValid, Grouped, Live, Taken, GroupValid, MigratedGroup, Keyed, Complete;
      ghost var src := db;
      var g, scanned, orphaned := Scan();
      GroupedValid(src, |src.agents|);
      report := Report(scanned, 0, 0, 0, orphaned);
      var fetched := db;
      for k := 0 to |g.order|
        invariant db == Migrated(src, g, k) && Reports(src, db, report)
      {
        GroupAt(src, g, k);
        var created, seats, merged := MigrateGroup(fetched, g.order[k], g.members[g.order[k]]);
        report := report.(entitiesCreated := report.entitiesCreated + created,
                          instancesCreated := report.instancesCreated + seats, merged := report.merged + merged);
      }
    }

    method MigrateGroup(src: Db, ns: string, members: seq<nat>) returns (created: nat, seats: nat, merged: nat)
      requires GroupValid(src, ns, members)
      modifies this
      ensures db == MigratedGroup(src, old(db), ns, members)
      ensures |old(db).entities| + created == |db.entities| && |old(db).instances| + seats == |db.instances|
      ensures |old(db).events| + merged == |db.events|
    {
      hide Movable, Ranked, FindEntity, Seated, WithEntity, EntityOf, Retired, GroupValid;
      InTable(src, ns, members);
      RankedMovable(src, ns, members);
      var ranked := Ranked(src.agents, members);
      var entityId: nat;
      entityId, created := EnsureEntity(ns, src.agents[ranked[0]]);
      seats, merged := SeatAll(src, ns, entityId, ranked);
      db := db.(agents := Retired(db.agents, members));
    }

    method EnsureEntity(ns: string, winner: Agent) returns (entity: nat, created: nat)
      modifies this
      ensures db == WithEntity(old(db), ns, winner) && entity == EntityOf(old(db), ns)
      ensures |old(db).entities| + created == |db.entities| && db == old(db).(entities := db.entities)
    {
      var found := FindEntity(db.entities, ns, |db.entities|);
      if found.Some? {
        var e := db.entities[found.value];
        if e.prompt == "" && winner.prompt != "" {
          db := db.(entities := db.entities[found.value := e.(prompt := winner.prompt)]);
        }
        assert db.entities == old(db).entities[found.value := e.(prompt := OrElse(e.prompt, winner.prompt))];
        return found.value, 0;
      }
      var slug := Slugs.UniqueSlug(SlugsOf(db.entities, ns), "cerebellum");
      entity, created := |db.entities|, 1;
      db := db.(entities := db.entities + [Entity(ns, OrElse(winner.name, "cerebellum"), slug,
                                                  OrElse(winner.baseSlug, "cerebellum-baseclass"), winner.prompt, true, false)]);
    }

    method SeatAll(src: Db, ns: string, entity: nat, members: seq<nat>) returns (seats: nat, merged: nat)
      requires members != [] && forall k :: 0 <= k < |members| ==> Movable(src, members[k])
      modifies this
      ensures db == Seated(src, old(db), ns, entity, members, |members|)
      ensures |old(db).instances| + seats == |db.instances| && |old(db).events| + merged == |db.events|
      ensures db == old(db).(instances := db.instances, events := db.events)
    {
      hide NsOf, MapLegacyLoopStatus;
      seats, merged := 0, 0;
      for k := 0 to |members|
        invariant db == Seated(src, old(db), ns, entity, members, k)
        invariant |old(db).instances| + seats == |db.instances| && |old(db).events| + merged == |db.events|
        invariant db == old(db).(instances := db.instances, events := db.events)
      {
        var i := members[k];
        var ws := WorkspaceOf(src, i);
        if !HasInstance(db.instances, entity, ws) {
          db := db.(instances := db.instances + [Instance(entity, ws, MapLegacyLoopStatus(src.agents[i].loopStatus), false)]);
          seats := seats + 1;
        }
        if i != members[0] {
          db := db.(events := db.events + [MergedEvent(entity, i, ns, ws)]);
          merged := merged + 1;
        }
      }
    }
  }

  lemma GroupAt(db: Db, g: Groups, k: nat)
    requires GroupsValid(db, g) && k < |g.order|
    ensures g.order[k] in g.members && GroupValid(db, g.order[k], g.members[g.order[k]])
  {
  }
}

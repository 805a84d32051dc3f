/** What the migration of legacy cerebellum agents writes, told by rows. */
module CerebellumRows {
  import opened Prelude
  import opened Cerebellum
  import Slugs

  /** A taken agent of a namespace. */
  predicate Of(src: Db, ns: string, i: nat) {
    Movable(src, i) && NsOf(src, src.agents[i]) == Some(ns)
  }

  /** No taken agent of the namespace is more recent. */
  ghost predicate Winner(src: Db, ns: string, w: nat) {
    Of(src, ns, w) && forall i: nat :: Of(src, ns, i) ==> !Ahead(src.agents[i], src.agents[w])
  }

  /** No taken agent of the namespace in that workspace is more recent. */
  ghost predicate Foremost(src: Db, ns: string, ws: nat, w: nat) {
    && Of(src, ns, w) && WorkspaceOf(src, w) == ws
    && forall i: nat :: Of(src, ns, i) && WorkspaceOf(src, i) == ws ==> !Ahead(src.agents[i], src.agents[w])
  }

  /** A new entity is made from the winner of its namespace. */
  ghost predicate Made(src: Db, e: Entity) {
    exists w: nat :: Winner(src, e.ns, w) && FromAgent(e, src.agents[w])
  }

  predicate FromAgent(e: Entity, a: Agent) {
    && e.name == (if a.name == "" then "cerebellum" else a.name) && e.prompt == a.prompt
    && e.preset == (if a.baseSlug == "" then "cerebellum-baseclass" else a.baseSlug) && e.cerebellum && !e.deleted
  }

  /** An entity that was there keeps everything, but that the one of a migrated namespace gets the
      winner's prompt where it had none. */
  ghost predicate Kept(src: Db, before: Entity, after: Entity) {
    after == before
    || (before.prompt == "" && before.cerebellum && !before.deleted
        && exists w: nat :: Winner(src, before.ns, w) && after == before.(prompt := src.agents[w].prompt))
  }

  ghost predicate Touched(src: Db, ns: string, before: Entity, after: Entity) {
    after == before || (before.ns == ns && Kept(src, before, after))
  }

  /** A new instance is one of the entity, in the workspace of a taken agent of the namespace, with
      the status of the most recent one there. */
  ghost predicate Seat(src: Db, inst: Instance, ns: string, entity: nat) {
    && inst.entity == entity && !inst.deleted
    && exists i: nat :: Foremost(src, ns, inst.workspace, i) && inst.status == MapLegacyLoopStatus(src.agents[i].loopStatus)
  }

  /** A new event is about a taken agent of the namespace that did not win. */
  ghost predicate Merge(src: Db, ev: MergedEvent, ns: string, entity: nat) {
    && ev.ns == ns && ev.entity == entity && Of(src, ns, ev.agent) && ev.workspace == WorkspaceOf(src, ev.agent)
    && exists w: nat :: w != ev.agent && Winner(src, ns, w)
  }

  // ---------------------------------------------------------------------------
  // The ranking
  // ---------------------------------------------------------------------------

  predicate InOrder(agents: seq<Agent>, r: seq<nat>) {
    && (forall k :: 0 <= k < |r| ==> r[k] < |agents|)
    && forall j, k :: 0 <= j < k < |r| ==> !Ahead(agents[r[k]], agents[r[j]])
  }

  lemma AheadOrder(a: Agent, b: Agent, c: Agent)
    ensures Ahead(a, b) ==> !Ahead(b, a)
    ensures !Ahead(b, a) && !Ahead(c, b) ==> !Ahead(c, a)
    ensures !Ahead(a, a)
  {
  }

  lemma {:induction false} PlaceInOrder(agents: seq<Agent>, i: nat, members: seq<nat>)
    requires i < |agents| && InOrder(agents, members)
    ensures InOrder(agents, Place(agents, i, members))
  {
    hide Ahead;
    if members == [] || Ahead(agents[i], agents[members[0]]) {
      forall k | 0 <= k < |members| ensures !Ahead(agents[members[k]], agents[i]) {
        AheadOrder(agents[i], agents[members[0]], agents[members[k]]);
        AheadOrder(agents[members[0]], agents[i], agents[members[k]]);
      }
      ConsInOrder(agents, i, members);
    } else {
      var rest := Place(agents, i, members[1..]);
      TailInOrder(agents, members);
      PlaceInOrder(agents, i, members[1..]);
      PlaceSame(agents, i, members[1..]);
      forall k | 0 <= k < |rest| ensures !Ahead(agents[rest[k]], agents[members[0]]) {
        assert rest[k] == i || rest[k] in members[1..];
      }
      ConsInOrder(agents, members[0], rest);
    }
  }

  lemma TailInOrder(agents: seq<Agent>, r: seq<nat>)
    requires InOrder(agents, r) && r != []
    ensures InOrder(agents, r[1..]) && forall x :: x in r[1..] ==> x < |agents| && !Ahead(agents[x], agents[r[0]])
  {
    hide Ahead;
  }

  lemma ConsInOrder(agents: seq<Agent>, i: nat, r: seq<nat>)
    requires i < |agents| && InOrder(agents, r) && forall k :: 0 <= k < |r| ==> !Ahead(agents[r[k]], agents[i])
    ensures InOrder(agents, [i] + r)
  {
    hide Ahead;
  }

  lemma {:induction false} RankedInOrder(agents: seq<Agent>, members: seq<nat>)
    requires forall k :: 0 <= k < |members| ==> members[k] < |agents|
    ensures InOrder(agents, Ranked(agents, members))
  {
    if members != [] {
      RankedInOrder(agents, members[1..]);
      PlaceInOrder(agents, members[0], Ranked(agents, members[1..]));
    }
  }

  // ---------------------------------------------------------------------------
  // One namespace
  // ---------------------------------------------------------------------------

  /** All the taken agents of the namespace. */
  ghost predicate Whole(src: Db, ns: string, members: seq<nat>) {
    forall i :: i in members <==> Of(src, ns, i)
  }

  lemma RankedWhole(src: Db, ns: string, members: seq<nat>)
    requires GroupValid(src, ns, members) && Whole(src, ns, members)
    ensures forall k :: 0 <= k < |members| ==> members[k] < |src.agents|
    ensures var r := Ranked(src.agents, members); InOrder(src.agents, r) && Whole(src, ns, r) && r != [] && Distinct(r)
  {
    hide Of;
    InTable(src, ns, members);
    RankedInOrder(src.agents, members);
    RankedDistinct(src.agents, members);
    var r := Ranked(src.agents, members);
    forall i | i in members ensures i in r {
      var k :| 0 <= k < |members| && members[k] == i;
    }
  }

  lemma FirstWins(src: Db, ns: string, r: seq<nat>)
    requires InOrder(src.agents, r) && Whole(src, ns, r) && r != []
    ensures Winner(src, ns, r[0])
  {
    hide Ahead, Movable, NsOf;
    assert r[0] in r;
    forall i: nat | Of(src, ns, i) ensures !Ahead(src.agents[i], src.agents[r[0]]) {
      var k :| 0 <= k < |r| && r[k] == i;
      NotAheadOfSelf(src.agents[i]);
    }
  }

  lemma NotAheadOfSelf(a: Agent)
    ensures !Ahead(a, a)
  {
  }

  lemma EntityRows(src: Db, db: Db, ns: string, w: nat)
    requires w < |src.agents| && Winner(src, ns, w)
    ensures var r := WithEntity(db, ns, src.agents[w]);
      && |db.entities| <= |r.entities|
      && (forall i :: 0 <= i < |db.entities| ==> Touched(src, ns, db.entities[i], r.entities[i]))
      && (forall i :: |db.entities| <= i < |r.entities| ==> Made(src, r.entities[i]) && r.entities[i].ns == ns)
  {
    hide Winner;
    var r := WithEntity(db, ns, src.agents[w]);
    if |r.entities| > |db.entities| {
      assert FromAgent(r.entities[|db.entities|], src.agents[w]);
    }
  }

  /** The member placed here is the most recent of its workspace, if the workspace has no seat yet. */
  lemma FirstInWorkspace(src: Db, ns: string, r: seq<nat>, k: nat)
    requires InOrder(src.agents, r) && Whole(src, ns, r) && k < |r| && Movable(src, r[k])
    requires forall j :: 0 <= j < k ==> Movable(src, r[j]) && WorkspaceOf(src, r[j]) != WorkspaceOf(src, r[k])
    ensures Foremost(src, ns, WorkspaceOf(src, r[k]), r[k])
  {
    hide Ahead, Movable, NsOf, WorkspaceOf;
    var ws := WorkspaceOf(src, r[k]);
    assert r[k] in r;
    forall i: nat | Of(src, ns, i) && WorkspaceOf(src, i) == ws ensures !Ahead(src.agents[i], src.agents[r[k]]) {
      var j :| 0 <= j < |r| && r[j] == i;
      NotAheadOfSelf(src.agents[i]);
    }
  }

  lemma {:induction false} SeatedRows(src: Db, db: Db, ns: string, entity: nat, r: seq<nat>, n: nat)
    requires n <= |r| && InOrder(src.agents, r) && Whole(src, ns, r) && Distinct(r)
    requires forall k :: 0 <= k < |r| ==> r[k] < |src.agents| && Movable(src, r[k])
    ensures var s := Seated(src, db, ns, entity, r, n);
      && db.instances <= s.instances && db.events <= s.events && s.entities == db.entities
      && (forall k :: |db.instances| <= k < |s.instances| ==> Seat(src, s.instances[k], ns, entity))
      && (forall k :: |db.events| <= k < |s.events| ==> Merge(src, s.events[k], ns, entity))
      && (forall k :: 0 <= k < n ==> HasInstance(s.instances, entity, WorkspaceOf(src, r[k])))
  {
    hide MapLegacyLoopStatus, WithInstance, Movable, WorkspaceOf, HasInstance, Seat, Merge, Of, Winner, Foremost, Whole, InOrder, OneInstance, Ahead;
    if n > 0 {
      SeatedRows(src, db, ns, entity, r, n - 1);
      SeatedThere(src, db, ns, entity, r, n);
      var before, i := Seated(src, db, ns, entity, r, n - 1), r[n - 1];
      var ws, status := WorkspaceOf(src, i), MapLegacyLoopStatus(src.agents[i].loopStatus);
      var after := WithInstance(before.instances, entity, ws, status);
      WithInstanceIs(before.instances, entity, ws, status);
      if after != before.instances {
        forall j | 0 <= j < n - 1 ensures WorkspaceOf(src, r[j]) != ws {
          assert HasInstance(before.instances, entity, WorkspaceOf(src, r[j]));
        }
        FirstInWorkspace(src, ns, r, n - 1);
        SeatMade(src, ns, entity, i);
      }
      if i != r[0] {
        FirstWins(src, ns, r);
        MergeMade(src, ns, entity, r, n - 1);
      }
    }
  }

  lemma WithInstanceIs(instances: seq<Instance>, entity: nat, ws: nat, status: string)
    ensures WithInstance(instances, entity, ws, status)
            == if HasInstance(instances, entity, ws) then instances else instances + [Instance(entity, ws, status, false)]
  {
  }

  lemma SeatMade(src: Db, ns: string, entity: nat, i: nat)
    requires Movable(src, i) && Foremost(src, ns, WorkspaceOf(src, i), i)
    ensures Seat(src, Instance(entity, WorkspaceOf(src, i), MapLegacyLoopStatus(src.agents[i].loopStatus), false), ns, entity)
  {
    hide Foremost, Movable, WorkspaceOf, MapLegacyLoopStatus;
  }

  lemma MergeMade(src: Db, ns: string, entity: nat, r: seq<nat>, k: nat)
    requires Whole(src, ns, r) && k < |r| && Movable(src, r[k]) && r[k] != r[0] && Winner(src, ns, r[0])
    ensures Merge(src, MergedEvent(entity, r[k], ns, WorkspaceOf(src, r[k])), ns, entity)
  {
    hide Winner, Movable, WorkspaceOf, Of;
    assert r[k] in r;
  }

  /** What one namespace's migration writes. */
  lemma GroupRows(src: Db, db: Db, ns: string, members: seq<nat>)
    requires GroupValid(src, ns, members) && Whole(src, ns, members)
    ensures var r := MigratedGroup(src, db, ns, members);
      && |db.entities| <= |r.entities| && db.instances <= r.instances && db.events <= r.events
      && (forall i :: 0 <= i < |db.entities| ==> Touched(src, ns, db.entities[i], r.entities[i]))
      && (forall i :: |db.entities| <= i < |r.entities| ==> Made(src, r.entities[i]) && r.entities[i].ns == ns)
      && (forall k :: |db.instances| <= k < |r.instances| ==> Seat(src, r.instances[k], ns, EntityOf(db, ns)))
      && (forall k :: |db.events| <= k < |r.events| ==> Merge(src, r.events[k], ns, EntityOf(db, ns)))
      && EntityOf(r, ns) == EntityOf(db, ns)
  {
    hide Whole, Winner, Touched, Made, Seat, Merge, Retired, WithEntity, Seated, Ranked, Movable, FindEntity, InOrder, HasInstance;
    InTable(src, ns, members);
    var ranked := Ranked(src.agents, members);
    RankedWhole(src, ns, members);
    RankedMovable(src, ns, members);
    FirstWins(src, ns, ranked);
    EntityRows(src, db, ns, ranked[0]);
    var db' := WithEntity(db, ns, src.agents[ranked[0]]);
    EntityThere(db, ns, src.agents[ranked[0]]);
    SeatedRows(src, db', ns, EntityOf(db, ns), ranked, |ranked|);
  }

  // ---------------------------------------------------------------------------
  // The whole migration
  // ---------------------------------------------------------------------------

  /** Entities between the first database and the one after these namespaces. */
  ghost predicate EntitiesFrom(src: Db, db: Db, order: seq<string>) {
    && |src.entities| <= |db.entities|
    && (forall i :: 0 <= i < |src.entities| ==>
          Kept(src, src.entities[i], db.entities[i]) && (db.entities[i] != src.entities[i] ==> src.entities[i].ns in order))
    && (forall i :: |src.entities| <= i < |db.entities| ==> Made(src, db.entities[i]) && db.entities[i].ns in order)
  }

  ghost predicate SeatAmong(src: Db, db: Db, inst: Instance, order: seq<string>) {
    exists ns :: ns in order && Seat(src, inst, ns, EntityOf(db, ns))
  }

  ghost predicate MergeAmong(src: Db, db: Db, ev: MergedEvent, order: seq<string>) {
    exists ns :: ns in order && Merge(src, ev, ns, EntityOf(db, ns))
  }

  /** New instances and events, each of one of these namespaces and of its entity. */
  ghost predicate RowsFrom(src: Db, db: Db, order: seq<string>) {
    && src.instances <= db.instances && src.events <= db.events
    && (forall k :: |src.instances| <= k < |db.instances| ==> SeatAmong(src, db, db.instances[k], order))
    && (forall k :: |src.events| <= k < |db.events| ==> MergeAmong(src, db, db.events[k], order))
  }

  lemma EntitiesStep(src: Db, db: Db, r: Db, order: seq<string>, ns: string)
    requires EntitiesFrom(src, db, order) && ns !in order && |db.entities| <= |r.entities|
    requires forall i :: 0 <= i < |db.entities| ==> Touched(src, ns, db.entities[i], r.entities[i])
    requires forall i :: |db.entities| <= i < |r.entities| ==> Made(src, r.entities[i]) && r.entities[i].ns == ns
    ensures EntitiesFrom(src, r, order + [ns])
  {
    hide Made, Winner;
  }

  lemma RowsStep(src: Db, db: Db, r: Db, order: seq<string>, ns: string)
    requires RowsFrom(src, db, order) && ns !in order && db.instances <= r.instances && db.events <= r.events
    requires forall k :: |db.instances| <= k < |r.instances| ==> Seat(src, r.instances[k], ns, EntityOf(r, ns))
    requires forall k :: |db.events| <= k < |r.events| ==> Merge(src, r.events[k], ns, EntityOf(r, ns))
    requires forall other :: other != ns && other in order ==> EntityOf(r, other) == EntityOf(db, other)
    ensures RowsFrom(src, r, order + [ns])
  {
    hide Seat, Merge, EntityOf;
    var all := order + [ns];
    assert ns in all;
    forall k | |src.instances| <= k < |r.instances| ensures SeatAmong(src, r, r.instances[k], all) {
      if k < |db.instances| {
        assert SeatAmong(src, db, db.instances[k], order);
        var o :| o in order && Seat(src, db.instances[k], o, EntityOf(db, o));
        assert o in all;
      }
    }
    forall k | |src.events| <= k < |r.events| ensures MergeAmong(src, r, r.events[k], all) {
      if k < |db.events| {
        assert MergeAmong(src, db, db.events[k], order);
        var o :| o in order && Merge(src, db.events[k], o, EntityOf(db, o));
        assert o in all;
      }
    }
  }

  lemma EntityOfKept(db: Db, r: Db, ns: string, known: string)
    requires FindEntity(db.entities, known, |db.entities|).Some?
    requires FindEntity(r.entities, known, |r.entities|) == FindEntity(db.entities, known, |db.entities|)
    ensures EntityOf(r, known) == EntityOf(db, known)
  {
    hide FindEntity;
  }

  /** The groups hold all the taken agents of their namespaces. */
  lemma GroupsWhole(db: Db, g: Groups, k: nat)
    requires GroupsValid(db, g) && Complete(db, g, |db.agents|) && k < |g.order|
    ensures g.order[k] in g.members && GroupValid(db, g.order[k], g.members[g.order[k]]) && Whole(db, g.order[k], g.members[g.order[k]])
  {
    hide NsOf;
    var ns := g.order[k];
    var members := g.members[ns];
    forall i | i in members ensures Of(db, ns, i) {
      var j :| 0 <= j < |members| && members[j] == i;
    }
  }

  /** One more namespace. */
  lemma NextRows(src: Db, db: Db, ns: string, members: seq<nat>, order: seq<string>)
    requires GroupValid(src, ns, members) && Whole(src, ns, members) && ns !in order
    requires EntitiesFrom(src, db, order) && RowsFrom(src, db, order)
    requires forall other :: other in order ==> FindEntity(db.entities, other, |db.entities|).Some?
    ensures var r := MigratedGroup(src, db, ns, members); EntitiesFrom(src, r, order + [ns]) && RowsFrom(src, r, order + [ns])
  {
    hide MigratedGroup, EntitiesFrom, RowsFrom, FindEntity, GroupValid, Whole, HasInstance, OneEntity, OneInstance,
      Seat, Merge, Made, Touched, Retired, EntityOf, NsDone;
    GroupRows(src, db, ns, members);
    GroupStep(src, db, ns, members);
    var r := MigratedGroup(src, db, ns, members);
    EntitiesStep(src, db, r, order, ns);
    forall other | other != ns && other in order ensures EntityOf(r, other) == EntityOf(db, other) {
      EntityOfKept(db, r, ns, other);
    }
    RowsStep(src, db, r, order, ns);
  }

  /** The first n namespaces have their entities. */
  lemma KnownSoFar(src: Db, g: Groups, n: nat)
    requires n <= |g.order| && GroupsValid(src, g) && Keyed(g)
    ensures var db := Migrated(src, g, n);
            forall other :: other in g.order[..n] ==> FindEntity(db.entities, other, |db.entities|).Some?
  {
    hide Migrated, FindEntity, NsDone, GroupValid, OneEntity, OneInstance, HasInstance, GroupsValid;
    MigratedSoFar(src, g, n);
    var db, order := Migrated(src, g, n), g.order[..n];
    forall other | other in order ensures FindEntity(db.entities, other, |db.entities|).Some? {
      var k :| 0 <= k < n && order[k] == other;
      assert NsDone(src, db, g.order[k], g.members[g.order[k]]);
      HasEntity(src, db, other, g.members[other]);
    }
  }

  lemma NewName(src: Db, g: Groups, k: nat)
    requires GroupsValid(src, g) && k < |g.order|
    ensures g.order[k] !in g.order[..k] && g.order[..k + 1] == g.order[..k] + [g.order[k]]
  {
  }

  /** The first n namespaces, in order. */
  lemma {:induction false} MigratedRows(src: Db, g: Groups, n: nat)
    requires n <= |g.order| && GroupsValid(src, g) && Keyed(g) && Complete(src, g, |src.agents|)
    ensures EntitiesFrom(src, Migrated(src, g, n), g.order[..n]) && RowsFrom(src, Migrated(src, g, n), g.order[..n])
  {
    hide MigratedGroup, EntitiesFrom, RowsFrom, FindEntity, GroupValid, Whole, Complete, GroupsValid, Keyed;
    if n == 0 {
      NothingYet(src, g.order[..0]);
    } else {
      MigratedRows(src, g, n - 1);
      KnownSoFar(src, g, n - 1);
      GroupsWhole(src, g, n - 1);
      NewName(src, g, n - 1);
      NextRows(src, Migrated(src, g, n - 1), g.order[n - 1], g.members[g.order[n - 1]], g.order[..n - 1]);
    }
  }

  lemma HasEntity(src: Db, db: Db, ns: string, members: seq<nat>)
    requires GroupValid(src, ns, members) && NsDone(src, db, ns, members)
    ensures FindEntity(db.entities, ns, |db.entities|).Some?
  {
  }

  lemma NothingYet(src: Db, order: seq<string>)
    requires order == []
    ensures EntitiesFrom(src, src, order) && RowsFrom(src, src, order)
  {
  }

  /** The whole migration, by rows: an entity that was there keeps everything but an empty prompt,
      a new one is made from the most recent agent of its namespace; no instance or event that
      was there changes; a new instance belongs to the entity of a migrated namespace, in a
      workspace of its agents, with the status of the most recent agent there; and a new event
      is about an agent that was not the most recent. */
  lemma MigrationRows(db: Db)
    ensures var r, order := Migration(db), Grouped(db, |db.agents|).order;
            EntitiesFrom(db, r, order) && RowsFrom(db, r, order)
  {
    hide EntitiesFrom, RowsFrom, Migrated, Complete, GroupsValid, Keyed;
    GroupedValid(db, |db.agents|);
    var g := Grouped(db, |db.agents|);
    MigratedRows(db, g, |g.order|);
    assert g.order[..|g.order|] == g.order;
  }

  function LiveSet(db: Db, n: nat): set<nat>
    requires n <= |db.agents|
  {
    set i | 0 <= i < n && !db.agents[i].deleted
  }

  function TakenSet(db: Db, n: nat): set<nat>
    requires n <= |db.agents|
  {
    set i | 0 <= i < n && Movable(db, i)
  }

  lemma OneMoreAgent(db: Db, n: nat)
    requires n < |db.agents|
    ensures LiveSet(db, n + 1) == LiveSet(db, n) + (if db.agents[n].deleted then {} else {n}) && n !in LiveSet(db, n)
    ensures TakenSet(db, n + 1) == TakenSet(db, n) + (if Movable(db, n) then {n} else {}) && n !in TakenSet(db, n)
  {
    hide Movable;
  }

  /** What the report counts: the agents that are not deleted, and those that are taken. */
  lemma {:induction false} Counted(db: Db, n: nat)
    requires n <= |db.agents|
    ensures Live(db, n) == |LiveSet(db, n)| && Taken(db, n) == |TakenSet(db, n)|
  {
    hide Movable, LiveSet, TakenSet;
    if n == 0 {
      NoAgents(db);
    } else {
      Counted(db, n - 1);
      OneMoreAgent(db, n - 1);
    }
  }

  lemma NoAgents(db: Db)
    ensures LiveSet(db, 0) == {} == TakenSet(db, 0)
  {
  }
}

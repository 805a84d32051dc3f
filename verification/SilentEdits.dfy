/** Routes that change what a surface or a prompt is made of and recompute no hash, beside those
    that do. */
module SilentEdits {
  import opened Prelude
  import opened MigrationHash
  import opened Capabilities

  /** Accepted requests; one that is refused changes nothing. */
  datatype Edit =
    | EditEntity(entity: nat, preset: Option<string>, prompt: Option<string>)
    | DeleteEntity(entity: nat)
    | EditMarket(item: nat, entry: MarketEntry)
    | DeleteMarket(item: nat)
    | DeleteGene(gene: nat)
    | DeleteBase(base: nat)

  datatype Request = Bumping(op: Op) | Silent(edit: Edit)

  predicate ActiveMarket(db: Db, i: nat) {
    i < |db.market| && !db.market[i].deleted
  }

  function Edited(db: Db, edit: Edit): Db {
    match edit
    case EditEntity(e, preset, prompt) =>
      if ActiveEntity(db, e) then db.(entities := db.entities[e := db.entities[e].(preset := preset, prompt := prompt)]) else db
    case DeleteEntity(e) =>
      if ActiveEntity(db, e) then db.(entities := db.entities[e := db.entities[e].(deleted := true)]) else db
    case EditMarket(i, entry) =>
      if ActiveMarket(db, i) then db.(market := db.market[i := entry.(deleted := false)]) else db
    case DeleteMarket(i) =>
      if ActiveMarket(db, i) then db.(market := db.market[i := db.market[i].(deleted := true)]) else db
    case DeleteGene(g) => GeneDeleted(db, g)
    case DeleteBase(b) =>
      if ActiveBase(db, b) then db.(bases := db.bases[b := db.bases[b].(deleted := true)]) else db
  }

  function Next(db: Db, r: Request, c: Codec<Capability>): Db {
    match r
    case Bumping(op) => Step(db, op, c)
    case Silent(edit) => Edited(db, edit)
  }

  /** The prompt as it is hashed. */
  function PromptText(db: Db, e: nat): string
    requires e < |db.entities|
  {
    if db.entities[e].prompt.Some? then db.entities[e].prompt.value else ""
  }

  /** Neither the surface nor the prompt of an entity differs. */
  predicate SameInput(db: Db, db': Db, e: nat)
    requires e < |db.entities| && e < |db'.entities|
  {
    Surface(db', e) == Surface(db, e) && PromptText(db', e) == PromptText(db, e)
  }

  /** Every entity that is there after the edit has the surface and the prompt it had. */
  predicate Harmless(db: Db, edit: Edit) {
    var db' := Edited(db, edit);
    SameRows(db, edit);
    forall e :: 0 <= e < |db.entities| && !db'.entities[e].deleted ==> SameInput(db, db', e)
  }

  lemma SameRows(db: Db, edit: Edit)
    ensures var db' := Edited(db, edit);
      && |db'.entities| == |db.entities|
      && forall e :: 0 <= e < |db.entities| ==>
           db'.entities[e].hash == db.entities[e].hash && (!db'.entities[e].deleted ==> !db.entities[e].deleted)
  {
  }

  /** The digest tells two inputs of an entity apart, if they differ. */
  ghost predicate TellsInput(db: Db, db': Db, e: nat, c: Codec<Capability>)
    requires e < |db.entities| && e < |db'.entities|
  {
    Fresh(db, e, c) == Fresh(db', e, c) ==> SameInput(db, db', e)
  }

  ghost predicate TellsEdit(db: Db, edit: Edit, c: Codec<Capability>) {
    var db' := Edited(db, edit);
    SameRows(db, edit);
    forall e :: 0 <= e < |db.entities| && !db'.entities[e].deleted ==> TellsInput(db, db', e, c)
  }

  lemma SameFresh(db: Db, db': Db, e: nat, c: Codec<Capability>)
    requires e < |db.entities| && e < |db'.entities| && SameInput(db, db', e)
    ensures Fresh(db', e, c) == Fresh(db, e, c)
  {
    hide Surface;
  }

  /** An edit leaves the stored hashes right exactly when it leaves the surface and the prompt of
      every remaining entity as they were. */
  lemma EditExactly(db: Db, edit: Edit, c: Codec<Capability>)
    requires Coherent(db, c)
    ensures Harmless(db, edit) ==> Coherent(Edited(db, edit), c)
    ensures TellsEdit(db, edit, c) && Coherent(Edited(db, edit), c) ==> Harmless(db, edit)
  {
    hide Surface, Fresh, Edited, SameInput;
    var db' := Edited(db, edit);
    SameRows(db, edit);
    if Harmless(db, edit) {
      forall e | 0 <= e < |db'.entities| && !db'.entities[e].deleted ensures db'.entities[e].hash == Fresh(db', e, c) {
        SameFresh(db, db', e, c);
      }
    }
    if TellsEdit(db, edit, c) && Coherent(db', c) {
      forall e | 0 <= e < |db.entities| && !db'.entities[e].deleted ensures SameInput(db, db', e) {
        assert TellsInput(db, db', e, c);
        assert db'.entities[e].hash == Fresh(db', e, c) && db.entities[e].hash == Fresh(db, e, c);
      }
    }
  }

  // ---------------------------------------------------------------------------
  // Runs of both kinds of requests
  // ---------------------------------------------------------------------------

  ghost predicate CoherentThroughout(db: Db, rs: seq<Request>, c: Codec<Capability>)
    decreases |rs|
  {
    Coherent(db, c) && (rs != [] ==> CoherentThroughout(Next(db, rs[0], c), rs[1..], c))
  }

  predicate HarmlessThroughout(db: Db, rs: seq<Request>, c: Codec<Capability>)
    decreases |rs|
  {
    rs != [] ==> (rs[0].Silent? ==> Harmless(db, rs[0].edit)) && HarmlessThroughout(Next(db, rs[0], c), rs[1..], c)
  }

  ghost predicate TellsThroughout(db: Db, rs: seq<Request>, c: Codec<Capability>)
    decreases |rs|
  {
    rs != [] ==> (rs[0].Silent? ==> TellsEdit(db, rs[0].edit, c)) && TellsThroughout(Next(db, rs[0], c), rs[1..], c)
  }

  /** Over every run of gene updates, attachments, detachments, edits and deletions: the stored
      hashes are right after every request exactly when no request that recomputes none changes
      the surface or the prompt of an entity. */
  lemma {:induction false} RunExactly(db: Db, rs: seq<Request>, c: Codec<Capability>)
    requires Coherent(db, c) && TellsThroughout(db, rs, c)
    ensures CoherentThroughout(db, rs, c) <==> HarmlessThroughout(db, rs, c)
    decreases |rs|
  {
    hide Coherent, Harmless, TellsEdit, Step, Edited;
    if rs != [] {
      match rs[0] {
        case Bumping(op) => StepCoherent(db, op, c);
        case Silent(edit) => EditExactly(db, edit, c);
      }
      if Coherent(Next(db, rs[0], c), c) {
        RunExactly(Next(db, rs[0], c), rs[1..], c);
      }
    }
  }

  // ---------------------------------------------------------------------------
  // What makes an edit harmless
  // ---------------------------------------------------------------------------

  /** The surface of an entity looks at its row for the preset alone. */
  lemma OtherRows(db: Db, entities: seq<Entity>, e: nat)
    requires |entities| == |db.entities| && e < |entities| && entities[e].preset == db.entities[e].preset
    ensures Surface(db.(entities := entities), e) == Surface(db, e)
  {
    hide Linked, BaseOf;
    SurfaceSame(db, db.(entities := entities), e);
  }

  /** Editing an entity touches nobody else: all is well exactly when its own surface and prompt
      stay, and with the same preset when its prompt does, none being as good as an empty one. */
  lemma EntityHarmless(db: Db, e: nat, preset: Option<string>, prompt: Option<string>)
    requires ActiveEntity(db, e)
    ensures var db' := Edited(db, EditEntity(e, preset, prompt));
      && (Harmless(db, EditEntity(e, preset, prompt)) <==> SameInput(db, db', e))
      && (preset == db.entities[e].preset ==>
            (Harmless(db, EditEntity(e, preset, prompt)) <==> (if prompt.Some? then prompt.value else "") == PromptText(db, e)))
  {
    hide Surface;
    var db' := Edited(db, EditEntity(e, preset, prompt));
    forall x | 0 <= x < |db.entities| && x != e ensures SameInput(db, db', x) {
      OtherRows(db, db'.entities, x);
    }
    if preset == db.entities[e].preset {
      OtherRows(db, db'.entities, e);
    }
  }

  /** Deleting an entity is always harmless. */
  lemma EntityGone(db: Db, e: nat)
    ensures Harmless(db, DeleteEntity(e))
  {
    hide Surface;
    var db' := Edited(db, DeleteEntity(e));
    forall x | 0 <= x < |db.entities| ensures SameInput(db, db', x) {
      OtherRows(db, db'.entities, x);
    }
  }

  /** Deleting a gene is harmless exactly when no entity that uses it loses anything. */
  lemma GeneHarmless(db: Db, g: nat)
    requires ActiveGene(db, g) && UniqueSlugs(db.genes)
    ensures Harmless(db, DeleteGene(g)) <==> forall e :: e in Affected(db, g) ==> Dispensable(db, e, g)
  {
    hide Surface, Dispensable, UniqueSlugs, Linked;
    var db' := GeneDeleted(db, g);
    forall e | 0 <= e < |db.entities| && !db.entities[e].deleted
      ensures SameInput(db, db', e) <==> e !in Affected(db, g) || Dispensable(db, e, g)
    {
      if e in Affected(db, g) {
        SurfaceSurvives(db, e, g);
      } else {
        PassedOverUnchanged(db, g, db'.genes[g], e);
      }
    }
    forall e | e in Affected(db, g) ensures e < |db.entities| && !db.entities[e].deleted {
      AffectedActive(db, g, e);
    }
  }

  /** Without the entry, no attached capability has its name, and the entity's genes give just
      what the entry gave. */
  predicate Replaceable(db: Db, e: nat, i: nat)
    requires e < |db.entities| && i < |db.market|
  {
    var name, items := db.market[i].name, Linked(db.entityCaps, e);
    && !HasName(MarketCaps(db.market[i := db.market[i].(deleted := true)], items), name)
    && Having(MarketCaps(db.market, items), NameOf, name) == Listed(FirstNamed(GeneCaps(GenesOf(db, e)), name))
  }

  lemma MarketCapsLast(market: seq<MarketEntry>, items: seq<nat>, i: nat)
    ensures MarketCaps(market, items + [i]) == MarketCaps(market, items) + if i < |market| && !market[i].deleted then [OfMarket(market[i])] else []
  {
    assert (items + [i])[..|items|] == items;
  }

  /** Under another name nothing changes; under the entry's own name there is one fewer for each
      time it is attached. */
  lemma {:induction false} MarketWithout(market: seq<MarketEntry>, items: seq<nat>, i: nat, name: string)
    requires i < |market| && !market[i].deleted
    ensures var less := MarketCaps(market[i := market[i].(deleted := true)], items);
      && (name != market[i].name || i !in items ==> Having(less, NameOf, name) == Having(MarketCaps(market, items), NameOf, name))
      && |Having(less, NameOf, name)| <= |Having(MarketCaps(market, items), NameOf, name)|
      && (name == market[i].name && i in items ==> |Having(less, NameOf, name)| < |Having(MarketCaps(market, items), NameOf, name)|)
  {
    hide Having, MarketCaps;
    var market' := market[i := market[i].(deleted := true)];
    if items == [] {
      NoMarketCaps(market);
      NoMarketCaps(market');
    } else {
      var n := |items| - 1;
      var before, last := items[..n], items[n];
      assert items == before + [last];
      MarketWithout(market, before, i, name);
      MarketCapsLast(market, before, last);
      MarketCapsLast(market', before, last);
      var more := if last < |market| && !market[last].deleted then [OfMarket(market[last])] else [];
      var more' := if last < |market'| && !market'[last].deleted then [OfMarket(market'[last])] else [];
      HavingJoined(MarketCaps(market, before), more, NameOf, name);
      HavingJoined(MarketCaps(market', before), more', NameOf, name);
      if last == i {
        HavingFirst(OfMarket(market[i]), [], NameOf, name);
        HavingNone(name);
        assert [OfMarket(market[i])] + [] == [OfMarket(market[i])];
        var had := Having(MarketCaps(market', before), NameOf, name);
        assert had + [] == had;
      } else {
        assert more == more';
      }
    }
  }

  lemma NoMarketCaps(market: seq<MarketEntry>)
    ensures MarketCaps(market, []) == []
  {
  }

  /** Taking a market entry away leaves an entity's surface alone exactly when the entity does
      not attach it or its genes replace it. */
  lemma MarketSurface(db: Db, e: nat, i: nat)
    requires e < |db.entities| && ActiveMarket(db, i)
    ensures Surface(Edited(db, DeleteMarket(i)), e) == Surface(db, e)
            <==> i !in Linked(db.entityCaps, e) || Replaceable(db, e, i)
  {
    hide Surface, MarketCaps, Linked, GenesOf, GeneCaps, FirstNamed, Having, HasName, Ordered;
    var db', items, name := Edited(db, DeleteMarket(i)), Linked(db.entityCaps, e), db.market[i].name;
    GenesStay(db, db', e);
    forall n ensures Having(Surface(db', e), NameOf, n) == Having(Surface(db, e), NameOf, n)
                     <==> n != name || i !in items || Replaceable(db, e, i)
    {
      SurfaceHolds(db, e, n);
      SurfaceHolds(db', e, n);
      MarketWithout(db.market, items, i, n);
      HavingHasName(MarketCaps(db.market, items), n);
      HavingHasName(MarketCaps(db'.market, items), n);
    }
    SurfacesAgree(db, db', e);
    if i !in items || Replaceable(db, e, i) {
      assert SameGroups(Surface(db, e), Surface(db', e), NameOf);
    } else {
      assert Having(Surface(db', e), NameOf, name) != Having(Surface(db, e), NameOf, name);
    }
  }

  lemma GenesStay(db: Db, db': Db, e: nat)
    requires e < |db.entities| && db' == db.(market := db'.market)
    ensures GenesOf(db', e) == GenesOf(db, e)
  {
  }

  /** Deleting a market entry is harmless exactly when each active entity that attaches it has
      genes that replace it. */
  lemma MarketHarmless(db: Db, i: nat)
    requires ActiveMarket(db, i)
    ensures Harmless(db, DeleteMarket(i))
            <==> forall e :: 0 <= e < |db.entities| && !db.entities[e].deleted && i in Linked(db.entityCaps, e) ==> Replaceable(db, e, i)
  {
    hide Surface, Linked, Replaceable;
    var db' := Edited(db, DeleteMarket(i));
    forall e | 0 <= e < |db.entities| && !db.entities[e].deleted
      ensures SameInput(db, db', e) <==> i !in Linked(db.entityCaps, e) || Replaceable(db, e, i)
    {
      MarketSurface(db, e, i);
    }
  }
}

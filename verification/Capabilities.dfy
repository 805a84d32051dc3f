/** The effective capability surface of entities, and the hashes stored with it.

    A row is identified by its place in its table. */
module Capabilities {
  import opened Prelude
  import opened MigrationHash

  /** An element of a gene's inline `capabilities` array. */
  datatype Inline = NotDict | Item(name: Option<string>, kind: Option<string>, description: Option<string>)

  /** `inline` is None when the manifest has no such array; `other` is the rest of the row. */
  datatype Gene = Gene(slug: string, inline: Option<seq<Inline>>, other: string, deleted: bool)

  datatype MarketEntry = MarketEntry(name: string, kind: string, description: Option<string>, config: Option<string>, deleted: bool)

  datatype BaseClass = BaseClass(slug: string, deleted: bool)

  datatype Entity = Entity(preset: Option<string>, prompt: Option<string>, hash: string, deleted: bool)

  datatype Link = Link(owner: nat, item: nat, deleted: bool)

  datatype Db = Db(
    genes: seq<Gene>, market: seq<MarketEntry>, bases: seq<BaseClass>, entities: seq<Entity>,
    entityCaps: seq<Link>, entityGenes: seq<Link>, baseGenes: seq<Link>)

  /** A capability as the surface lists it. */
  datatype Capability = Capability(name: string, kind: string, description: Option<string>, config: Option<string>)

  function NonEmpty(s: Option<string>): Option<string> {
    if s == Some("") then None else s
  }

  function OfMarket(m: MarketEntry): Capability {
    Capability(m.name, m.kind, NonEmpty(m.description), NonEmpty(m.config))
  }

  predicate Usable(i: Inline) {
    i.Item? && NonEmpty(i.name).Some?
  }

  function OfInline(i: Inline): Capability
    requires Usable(i)
  {
    Capability(i.name.value, if NonEmpty(i.kind).Some? then i.kind.value else "skill", NonEmpty(i.description), None)
  }

  // ---------------------------------------------------------------------------
  // The surface as a function
  // ---------------------------------------------------------------------------

  /** What an owner is actively linked to, in table order. */
  function Linked(links: seq<Link>, owner: nat): seq<nat> {
    if links == [] then []
    else
      var l := links[|links| - 1];
      Linked(links[..|links| - 1], owner) + if l.owner == owner && !l.deleted then [l.item] else []
  }

  function MarketCaps(market: seq<MarketEntry>, items: seq<nat>): seq<Capability> {
    if items == [] then []
    else
      var i := items[|items| - 1];
      MarketCaps(market, items[..|items| - 1]) + if i < |market| && !market[i].deleted then [OfMarket(market[i])] else []
  }

  datatype Named = Named(slug: string, inline: Option<seq<Inline>>)

  function Find(genes: seq<Named>, slug: string, n: nat): (k: nat)
    requires n <= |genes|
    ensures k <= n && (k < n ==> genes[k].slug == slug) && forall j :: 0 <= j < k ==> genes[j].slug != slug
  {
    if n == 0 then 0
    else
      var k := Find(genes, slug, n - 1);
      if k < n - 1 then k else if genes[n - 1].slug == slug then n - 1 else n
  }

  /** Assignment and `setdefault` on a dictionary that keeps the order of insertion. */
  function Put(genes: seq<Named>, g: Named, overwrite: bool): seq<Named> {
    var k := Find(genes, g.slug, |genes|);
    if k == |genes| then genes + [g] else if overwrite then genes[k := g] else genes
  }

  function Collected(start: seq<Named>, genes: seq<Gene>, items: seq<nat>, overwrite: bool): seq<Named> {
    if items == [] then start
    else
      var i, before := items[|items| - 1], Collected(start, genes, items[..|items| - 1], overwrite);
      if i < |genes| && !genes[i].deleted then Put(before, Named(genes[i].slug, genes[i].inline), overwrite) else before
  }

  /** The active base class with the preset's slug; an empty preset names none. */
  function BaseOf(bases: seq<BaseClass>, preset: Option<string>): (r: Option<nat>)
    ensures r.Some? ==> r.value < |bases| && preset.Some? && bases[r.value].slug == preset.value && !bases[r.value].deleted
  {
    if bases == [] || NonEmpty(preset).None? then None
    else
      var n, found := |bases| - 1, BaseOf(bases[..|bases| - 1], preset);
      if found.Some? then found else if bases[n].slug == preset.value && !bases[n].deleted then Some(n) else None
  }

  function Expanded(inline: seq<Inline>): seq<Capability> {
    if inline == [] then []
    else Expanded(inline[..|inline| - 1]) + if Usable(inline[|inline| - 1]) then [OfInline(inline[|inline| - 1])] else []
  }

  function GeneCaps(genes: seq<Named>): seq<Capability> {
    if genes == [] then []
    else
      var g := genes[|genes| - 1];
      GeneCaps(genes[..|genes| - 1]) + if g.inline.Some? then Expanded(g.inline.value) else []
  }

  predicate HasName(caps: seq<Capability>, name: string) {
    exists i :: 0 <= i < |caps| && caps[i].name == name
  }

  /** Gene capabilities are added where no capability of that name is there yet. */
  function Merged(start: seq<Capability>, more: seq<Capability>): seq<Capability> {
    if more == [] then start
    else
      var before, c := Merged(start, more[..|more| - 1]), more[|more| - 1];
      if HasName(before, c.name) then before else before + [c]
  }

  function InheritedItems(db: Db, preset: Option<string>): seq<nat> {
    var b := BaseOf(db.bases, preset);
    if b.Some? then Linked(db.baseGenes, b.value) else []
  }

  function GenesOf(db: Db, e: nat): seq<Named>
    requires e < |db.entities|
  {
    Collected(Collected([], db.genes, Linked(db.entityGenes, e), true), db.genes, InheritedItems(db, db.entities[e].preset), false)
  }

  function NameOf(c: Capability): string {
    c.name
  }

  function Surface(db: Db, e: nat): seq<Capability>
    requires e < |db.entities|
  {
    var junction := SortedBy(MarketCaps(db.market, Linked(db.entityCaps, e)), NameOf);
    SortedBy(Merged(junction, GeneCaps(GenesOf(db, e))), NameOf)
  }

  function Fresh(db: Db, e: nat, c: Codec<Capability>): string
    requires e < |db.entities|
  {
    ComputeMigrationHash(Some(Surface(db, e)), db.entities[e].prompt, c)
  }

  /** Every active entity stores the hash of its present surface. */
  ghost predicate Coherent(db: Db, c: Codec<Capability>) {
    forall e :: 0 <= e < |db.entities| && !db.entities[e].deleted ==> db.entities[e].hash == Fresh(db, e, c)
  }

  // ---------------------------------------------------------------------------
  // Changes
  // ---------------------------------------------------------------------------

  /** Some entities get the hash of their present surface. */
  function Bumped(db: Db, some: set<nat>, c: Codec<Capability>): Db {
    db.(entities := seq(|db.entities|, e requires 0 <= e < |db.entities| =>
      if e in some then db.entities[e].(hash := Fresh(db, e, c)) else db.entities[e]))
  }

  function ByPreset(db: Db, slug: string): set<nat> {
    set e | 0 <= e < |db.entities| && db.entities[e].preset == Some(slug) && !db.entities[e].deleted
  }

  function Explicitly(db: Db, g: nat): set<nat> {
    set e | 0 <= e < |db.entities| && !db.entities[e].deleted && g in Linked(db.entityGenes, e)
  }

  /** Entities that attach the gene or whose preset is a base class that attaches it. */
  function Affected(db: Db, g: nat): set<nat> {
    Explicitly(db, g) + Inheriting(db, g, |db.bases|)
  }

  function Inheriting(db: Db, g: nat, n: nat): set<nat>
    requires n <= |db.bases|
  {
    set b, e | 0 <= b < n && !db.bases[b].deleted && g in Linked(db.baseGenes, b) && e in ByPreset(db, db.bases[b].slug) :: e
  }

  function Attached(links: seq<Link>, owner: nat, item: nat): seq<Link> {
    if item in Linked(links, owner) then links else links + [Link(owner, item, false)]
  }

  predicate IsLink(l: Link, owner: nat, item: nat) {
    l.owner == owner && l.item == item && !l.deleted
  }

  /** The active link is marked deleted; None when there is none. */
  function Detached(links: seq<Link>, owner: nat, item: nat): (r: Option<seq<Link>>)
    ensures r.Some? ==> |r.value| == |links|
    ensures r.Some? ==> forall i :: 0 <= i < |links| ==> r.value[i] == links[i] || (links[i].owner == owner && r.value[i] == links[i].(deleted := true))
  {
    if links == [] then None
    else if IsLink(links[0], owner, item) then Some(links[0 := links[0].(deleted := true)])
    else
      var rest := Detached(links[1..], owner, item);
      if rest.Some? then Some([links[0]] + rest.value) else None
  }

  datatype Op =
    | UpdateGene(gene: nat, inline: Option<seq<Inline>>, other: string)
    | AttachCapability(entity: nat, item: nat)
    | DetachCapability(entity: nat, item: nat)
    | AttachGene(entity: nat, item: nat)
    | DetachGene(entity: nat, item: nat)
    | AttachBaseGene(base: nat, item: nat)
    | DetachBaseGene(base: nat, item: nat)

  predicate ActiveEntity(db: Db, e: nat) {
    e < |db.entities| && !db.entities[e].deleted
  }

  predicate ActiveGene(db: Db, g: nat) {
    g < |db.genes| && !db.genes[g].deleted
  }

  predicate ActiveBase(db: Db, b: nat) {
    b < |db.bases| && !db.bases[b].deleted
  }

  function Step(db: Db, op: Op, c: Codec<Capability>): Db {
    match op
    case UpdateGene(g, inline, other) =>
      if !ActiveGene(db, g) then db
      else
        var db' := db.(genes := db.genes[g := db.genes[g].(inline := inline, other := other)]);
        if inline == db.genes[g].inline then db' else Bumped(db', Affected(db', g), c)
    case AttachCapability(e, i) =>
      if ActiveEntity(db, e) && i < |db.market| && !db.market[i].deleted
      then Bumped(db.(entityCaps := Attached(db.entityCaps, e, i)), {e}, c) else db
    case DetachCapability(e, i) =>
      var links := Detached(db.entityCaps, e, i);
      if ActiveEntity(db, e) && links.Some? then Bumped(db.(entityCaps := links.value), {e}, c) else db
    case AttachGene(e, i) =>
      if ActiveEntity(db, e) && ActiveGene(db, i) then Bumped(db.(entityGenes := Attached(db.entityGenes, e, i)), {e}, c) else db
    case DetachGene(e, i) =>
      var links := Detached(db.entityGenes, e, i);
      if ActiveEntity(db, e) && links.Some? then Bumped(db.(entityGenes := links.value), {e}, c) else db
    case AttachBaseGene(b, i) =>
      if ActiveBase(db, b) && ActiveGene(db, i) && i !in Linked(db.baseGenes, b)
      then Bumped(db.(baseGenes := db.baseGenes + [Link(b, i, false)]), ByPreset(db, db.bases[b].slug), c) else db
    case DetachBaseGene(b, i) =>
      var links := Detached(db.baseGenes, b, i);
      if ActiveBase(db, b) && links.Some? then Bumped(db.(baseGenes := links.value), ByPreset(db, db.bases[b].slug), c) else db
  }

  function Run(db: Db, ops: seq<Op>, c: Codec<Capability>): Db {
    if ops == [] then db else Step(Run(db, ops[..|ops| - 1], c), ops[|ops| - 1], c)
  }

  // ---------------------------------------------------------------------------
  // What the surface holds
  // ---------------------------------------------------------------------------

  /** The first capability of a name. */
  function FirstNamed(caps: seq<Capability>, name: string): (r: Option<Capability>)
    ensures r.Some? <==> HasName(caps, name)
    ensures r.Some? ==> r.value in caps && r.value.name == name
  {
    if caps == [] then None
    else
      var n, before := |caps| - 1, FirstNamed(caps[..|caps| - 1], name);
      HasNameLast(caps, name);
      if before.Some? then before else if caps[n].name == name then Some(caps[n]) else None
  }

  lemma HasNameLast(caps: seq<Capability>, name: string)
    requires caps != []
    ensures HasName(caps, name) <==> HasName(caps[..|caps| - 1], name) || caps[|caps| - 1].name == name
  {
    if HasName(caps[..|caps| - 1], name) {
      var i :| 0 <= i < |caps| - 1 && caps[..|caps| - 1][i].name == name;
      assert caps[i].name == name;
    }
    if HasName(caps, name) {
      var i :| 0 <= i < |caps| && caps[i].name == name;
      assert i < |caps| - 1 ==> caps[..|caps| - 1][i].name == name;
    }
  }

  lemma HavingHasName(caps: seq<Capability>, name: string)
    ensures HasName(caps, name) <==> Having(caps, NameOf, name) != []
  {
    if HasName(caps, name) {
      var i :| 0 <= i < |caps| && caps[i].name == name;
      HavingItems(caps, NameOf, name, caps[i]);
    }
    if Having(caps, NameOf, name) != [] {
      var c := Having(caps, NameOf, name)[0];
      HavingItems(caps, NameOf, name, c);
      var i :| 0 <= i < |caps| && caps[i] == c;
      assert caps[i].name == name;
    }
  }

  function Listed(c: Option<Capability>): seq<Capability> {
    if c.Some? then [c.value] else []
  }

  /** What is there under a name: what was there, or else the first one added. */
  lemma {:induction false} MergedHaving(start: seq<Capability>, more: seq<Capability>, name: string)
    ensures Having(Merged(start, more), NameOf, name)
            == if HasName(start, name) then Having(start, NameOf, name) else Listed(FirstNamed(more, name))
  {
    hide Having, HasName;
    HavingHasName(start, name);
    if more != [] {
      var n := |more| - 1;
      var before, c := Merged(start, more[..n]), more[n];
      MergedHaving(start, more[..n], name);
      HavingHasName(before, name);
      HavingJoined(before, [c], NameOf, name);
      HavingFirst(c, [], NameOf, name);
      assert [c] + [] == [c] && Having([], NameOf, name) == [] by {
        HavingNone(name);
      }
    }
  }

  lemma HavingNone(name: string)
    ensures Having([], NameOf, name) == []
  {
  }

  lemma {:induction false} AttachedHaving(attached: seq<Capability>, name: string)
    ensures Having(SortedBy(attached, NameOf), NameOf, name) == Having(attached, NameOf, name)
    ensures HasName(SortedBy(attached, NameOf), name) <==> HasName(attached, name)
  {
    SortStable(attached, NameOf, name);
    HavingHasName(attached, name);
    HavingHasName(SortedBy(attached, NameOf), name);
  }

  /** The surface is in order of name; under each name it lists the attached market
      capabilities, and where none has the name, the first inline one alone. */
  lemma SurfaceHolds(db: Db, e: nat, name: string)
    requires e < |db.entities|
    ensures Ordered(Surface(db, e), NameOf)
    ensures var attached, inline := MarketCaps(db.market, Linked(db.entityCaps, e)), GeneCaps(GenesOf(db, e));
      Having(Surface(db, e), NameOf, name)
      == if HasName(attached, name) then Having(attached, NameOf, name) else Listed(FirstNamed(inline, name))
  {
    hide GenesOf, MarketCaps, SortedBy, GeneCaps, Linked, Merged, Having, HasName, FirstNamed, Ordered;
    var attached, inline := MarketCaps(db.market, Linked(db.entityCaps, e)), GeneCaps(GenesOf(db, e));
    var junction := SortedBy(attached, NameOf);
    AttachedHaving(attached, name);
    MergedHaving(junction, inline, name);
    SortStable(Merged(junction, inline), NameOf, name);
    SortOrdered(Merged(junction, inline), NameOf);
  }

  // ---------------------------------------------------------------------------
  // Which genes an entity has
  // ---------------------------------------------------------------------------

  predicate Carries(genes: seq<Gene>, i: nat, slug: string) {
    i < |genes| && !genes[i].deleted && genes[i].slug == slug
  }

  /** The gene attached first, and last, under a slug. */
  function FirstOf(genes: seq<Gene>, items: seq<nat>, slug: string): (r: Option<nat>)
    ensures r.Some? ==> exists k :: 0 <= k < |items| && items[k] == r.value && Carries(genes, r.value, slug)
                                    && forall j :: 0 <= j < k ==> !Carries(genes, items[j], slug)
    ensures r.None? ==> forall k :: 0 <= k < |items| ==> !Carries(genes, items[k], slug)
  {
    if items == [] then None
    else
      var n, before := |items| - 1, FirstOf(genes, items[..|items| - 1], slug);
      assert forall k :: 0 <= k < n ==> items[..n][k] == items[k];
      if before.Some? then before else if Carries(genes, items[n], slug) then Some(items[n]) else None
  }

  function LastOf(genes: seq<Gene>, items: seq<nat>, slug: string): (r: Option<nat>)
    ensures r.Some? ==> exists k :: 0 <= k < |items| && items[k] == r.value && Carries(genes, r.value, slug)
                                    && forall j :: k < j < |items| ==> !Carries(genes, items[j], slug)
    ensures r.None? ==> forall k :: 0 <= k < |items| ==> !Carries(genes, items[k], slug)
  {
    if items == [] then None
    else
      var n := |items| - 1;
      assert forall k :: 0 <= k < n ==> items[..n][k] == items[k];
      if Carries(genes, items[n], slug) then Some(items[n]) else LastOf(genes, items[..n], slug)
  }

  predicate DistinctSlugs(genes: seq<Named>) {
    forall i, j :: 0 <= i < j < |genes| ==> genes[i].slug != genes[j].slug
  }

  /** What the dictionary holds under a slug. */
  function Lookup(genes: seq<Named>, slug: string): (r: Option<Named>)
    ensures r.Some? ==> r.value in genes && r.value.slug == slug
    ensures r.None? ==> forall k :: 0 <= k < |genes| ==> genes[k].slug != slug
  {
    var k := Find(genes, slug, |genes|);
    if k == |genes| then None else Some(genes[k])
  }

  lemma PutHolds(genes: seq<Named>, g: Named, overwrite: bool)
    requires DistinctSlugs(genes)
    ensures DistinctSlugs(Put(genes, g, overwrite))
    ensures forall slug :: Lookup(Put(genes, g, overwrite), slug)
              == if slug == g.slug && (overwrite || Lookup(genes, slug).None?) then Some(g) else Lookup(genes, slug)
  {
    var r := Put(genes, g, overwrite);
    forall slug ensures Lookup(r, slug)
              == if slug == g.slug && (overwrite || Lookup(genes, slug).None?) then Some(g) else Lookup(genes, slug)
    {
      var k, k' := Find(genes, slug, |genes|), Find(r, slug, |r|);
      if k < |genes| {
        assert r[k].slug == slug;
        assert k' == k;
      } else if slug == g.slug {
        assert k' == |genes|;
      }
    }
  }

  function NamedGene(genes: seq<Gene>, i: Option<nat>): Option<Named>
    requires i.Some? ==> i.value < |genes|
  {
    if i.None? then None else Some(Named(genes[i.value].slug, genes[i.value].inline))
  }

  /** Assignments leave the last gene of a slug, `setdefault` the first. */
  lemma {:induction false} CollectedHolds(start: seq<Named>, genes: seq<Gene>, items: seq<nat>, overwrite: bool)
    requires DistinctSlugs(start)
    ensures DistinctSlugs(Collected(start, genes, items, overwrite))
    ensures forall slug :: Lookup(Collected(start, genes, items, overwrite), slug)
              == if overwrite
                 then (if LastOf(genes, items, slug).Some? then NamedGene(genes, LastOf(genes, items, slug)) else Lookup(start, slug))
                 else (if Lookup(start, slug).Some? then Lookup(start, slug) else NamedGene(genes, FirstOf(genes, items, slug)))
  {
    hide Put, Lookup, DistinctSlugs;
    if items != [] {
      var n := |items| - 1;
      var before := Collected(start, genes, items[..n], overwrite);
      CollectedHolds(start, genes, items[..n], overwrite);
      if items[n] < |genes| && !genes[items[n]].deleted {
        PutHolds(before, Named(genes[items[n]].slug, genes[items[n]].inline), overwrite);
      }
    }
  }

  /** The gene an entity has under a slug: the one attached to it last, or else the one its
      base class attached first. */
  function Chosen(db: Db, e: nat, slug: string): (r: Option<nat>)
    requires e < |db.entities|
    ensures r.Some? ==> Carries(db.genes, r.value, slug)
  {
    var explicit := LastOf(db.genes, Linked(db.entityGenes, e), slug);
    if explicit.Some? then explicit else FirstOf(db.genes, InheritedItems(db, db.entities[e].preset), slug)
  }

  /** Each slug at most once, and under it the inline array of the chosen gene. */
  lemma GenesHeld(db: Db, e: nat)
    requires e < |db.entities|
    ensures DistinctSlugs(GenesOf(db, e))
    ensures forall slug :: Lookup(GenesOf(db, e), slug) == NamedGene(db.genes, Chosen(db, e, slug))
  {
    hide Linked, InheritedItems, Collected, Lookup, LastOf, FirstOf, DistinctSlugs;
    assert DistinctSlugs([]) && forall slug :: Lookup([], slug) == None by {
      NothingHeld();
    }
    CollectedHolds([], db.genes, Linked(db.entityGenes, e), true);
    CollectedHolds(Collected([], db.genes, Linked(db.entityGenes, e), true), db.genes,
                   InheritedItems(db, db.entities[e].preset), false);
  }

  lemma NothingHeld()
    ensures DistinctSlugs([]) && forall slug :: Lookup([], slug) == None
  {
  }

  // ---------------------------------------------------------------------------
  // The surface, told by rows
  // ---------------------------------------------------------------------------

  /** An active base class with the slug of the preset is found, the first one; an empty preset
      names none. */
  lemma {:induction false} BaseFound(bases: seq<BaseClass>, preset: Option<string>)
    ensures var r := BaseOf(bases, preset);
      && (r.None? <==> preset.None? || preset == Some("") || forall b :: 0 <= b < |bases| ==> bases[b].deleted || bases[b].slug != preset.value)
      && (r.Some? ==> forall b :: 0 <= b < r.value ==> bases[b].deleted || bases[b].slug != preset.value)
  {
    if bases != [] && NonEmpty(preset).Some? {
      var n := |bases| - 1;
      BaseFound(bases[..n], preset);
      assert forall b :: 0 <= b < n ==> bases[..n][b] == bases[b];
      assert bases == bases[..n] + [bases[n]];
    }
  }

  ghost predicate SomeLink(links: seq<Link>, owner: nat, item: nat) {
    exists k :: 0 <= k < |links| && IsLink(links[k], owner, item)
  }

  lemma {:induction false} LinkedItems(links: seq<Link>, owner: nat, item: nat)
    ensures item in Linked(links, owner) <==> SomeLink(links, owner, item)
  {
    hide SomeLink, IsLink;
    if links == [] {
      NoLinkAtAll(owner, item);
    } else {
      var n := |links| - 1;
      LinkedItems(links[..n], owner, item);
      LastLink(links[..n], links[n], owner, item);
      assert links == links[..n] + [links[n]];
      LinkedAppend(links[..n], links[n], owner);
      assert IsLink(links[n], owner, item) <==> links[n].owner == owner && links[n].item == item && !links[n].deleted by {
        LinkMeans(links[n], owner, item);
      }
    }
  }

  lemma LinkMeans(l: Link, owner: nat, item: nat)
    ensures IsLink(l, owner, item) <==> l.owner == owner && l.item == item && !l.deleted
  {
  }

  lemma NoLinkAtAll(owner: nat, item: nat)
    ensures !SomeLink([], owner, item) && item !in Linked([], owner)
  {
  }

  lemma LastLink(links: seq<Link>, l: Link, owner: nat, item: nat)
    ensures SomeLink(links + [l], owner, item) <==> SomeLink(links, owner, item) || IsLink(l, owner, item)
  {
    hide IsLink;
    var all := links + [l];
    assert all[|links|] == l;
    if SomeLink(links, owner, item) {
      var k :| 0 <= k < |links| && IsLink(links[k], owner, item);
      assert IsLink(all[k], owner, item);
    }
  }

  /** A capability as the surface lists a market entry: empty texts count as absent. */
  predicate Shows(c: Capability, m: MarketEntry) {
    && c.name == m.name && c.kind == m.kind
    && c.description == (if m.description == Some("") then None else m.description)
    && c.config == (if m.config == Some("") then None else m.config)
  }

  lemma {:induction false} MarketItems(market: seq<MarketEntry>, items: seq<nat>, c: Capability)
    ensures c in MarketCaps(market, items) <==> exists i :: i in items && i < |market| && !market[i].deleted && Shows(c, market[i])
  {
    if items != [] {
      var n := |items| - 1;
      MarketItems(market, items[..n], c);
      assert items == items[..n] + [items[n]];
      assert items[n] < |market| ==> (Shows(c, market[items[n]]) <==> c == OfMarket(market[items[n]]));
    }
  }

  /** A capability as the surface lists an inline item: a name that is not empty, and "skill" where
      no kind is given. */
  predicate Spells(c: Capability, i: Inline) {
    && i.Item? && i.name == Some(c.name) && c.name != "" && c.config.None?
    && c.kind == (if i.kind.Some? && i.kind.value != "" then i.kind.value else "skill")
    && c.description == (if i.description == Some("") then None else i.description)
  }

  lemma {:induction false} ExpandedItems(inline: seq<Inline>, c: Capability)
    ensures c in Expanded(inline) <==> exists i :: i in inline && Spells(c, i)
  {
    if inline != [] {
      var n := |inline| - 1;
      ExpandedItems(inline[..n], c);
      assert inline == inline[..n] + [inline[n]];
      assert Usable(inline[n]) ==> (Spells(c, inline[n]) <==> c == OfInline(inline[n]));
    }
  }

  lemma {:induction false} GeneItems(genes: seq<Named>, c: Capability)
    ensures c in GeneCaps(genes) <==> exists g :: g in genes && g.inline.Some? && c in Expanded(g.inline.value)
  {
    hide Expanded;
    if genes != [] {
      var n := |genes| - 1;
      GeneItems(genes[..n], c);
      assert genes == genes[..n] + [genes[n]];
    }
  }

  /** An attached, undeleted market entry shows as c. */
  ghost predicate FromMarket(db: Db, e: nat, c: Capability) {
    exists k :: 0 <= k < |db.entityCaps| && db.entityCaps[k].owner == e && !db.entityCaps[k].deleted
                && db.entityCaps[k].item < |db.market| && !db.market[db.entityCaps[k].item].deleted
                && Shows(c, db.market[db.entityCaps[k].item])
  }

  /** An inline item of a gene that the entity has spells c. */
  ghost predicate FromGene(db: Db, e: nat, c: Capability)
    requires e < |db.entities|
  {
    exists slug, i :: Chosen(db, e, slug).Some? && db.genes[Chosen(db, e, slug).value].inline.Some?
                      && i in db.genes[Chosen(db, e, slug).value].inline.value && Spells(c, i)
  }

  lemma MarketSource(db: Db, e: nat, c: Capability)
    ensures c in MarketCaps(db.market, Linked(db.entityCaps, e)) <==> FromMarket(db, e, c)
  {
    hide MarketCaps, Linked, Shows;
    MarketItems(db.market, Linked(db.entityCaps, e), c);
    if c in MarketCaps(db.market, Linked(db.entityCaps, e)) {
      var i :| i in Linked(db.entityCaps, e) && i < |db.market| && !db.market[i].deleted && Shows(c, db.market[i]);
      LinkedItems(db.entityCaps, e, i);
      var k :| 0 <= k < |db.entityCaps| && IsLink(db.entityCaps[k], e, i);
      assert db.entityCaps[k].item == i;
    }
    if FromMarket(db, e, c) {
      var k :| 0 <= k < |db.entityCaps| && db.entityCaps[k].owner == e && !db.entityCaps[k].deleted
               && db.entityCaps[k].item < |db.market| && !db.market[db.entityCaps[k].item].deleted
               && Shows(c, db.market[db.entityCaps[k].item]);
      LinkedItems(db.entityCaps, e, db.entityCaps[k].item);
      assert IsLink(db.entityCaps[k], e, db.entityCaps[k].item);
    }
  }

  lemma GeneSource(db: Db, e: nat, c: Capability)
    requires e < |db.entities|
    ensures c in GeneCaps(GenesOf(db, e)) <==> FromGene(db, e, c)
  {
    hide GenesOf, GeneCaps, Expanded, Spells, Lookup, Chosen, DistinctSlugs;
    var genes := GenesOf(db, e);
    GenesHeld(db, e);
    GeneItems(genes, c);
    if c in GeneCaps(genes) {
      var g :| g in genes && g.inline.Some? && c in Expanded(g.inline.value);
      HeldUnder(genes, g);
      ExpandedItems(g.inline.value, c);
      var i :| i in g.inline.value && Spells(c, i);
      assert Lookup(genes, g.slug) == NamedGene(db.genes, Chosen(db, e, g.slug));
    }
    if FromGene(db, e, c) {
      var slug, i :| Chosen(db, e, slug).Some? && db.genes[Chosen(db, e, slug).value].inline.Some?
                     && i in db.genes[Chosen(db, e, slug).value].inline.value && Spells(c, i);
      var g := Lookup(genes, slug).value;
      ExpandedItems(g.inline.value, c);
    }
  }

  lemma HeldUnder(genes: seq<Named>, g: Named)
    requires DistinctSlugs(genes) && g in genes
    ensures Lookup(genes, g.slug) == Some(g)
  {
  }

  lemma ListedName(caps: seq<Capability>, c: Capability)
    ensures c in caps ==> HasName(caps, c.name)
    ensures forall name :: FirstNamed(caps, name).Some? ==> FirstNamed(caps, name).value in caps
  {
  }

  /** Whatever is in the surface shows an attached market entry or spells an inline item of a gene
      that the entity has; every attached entry is there; and every inline item is there at
      least by name. */
  lemma SurfaceSources(db: Db, e: nat, c: Capability)
    requires e < |db.entities|
    ensures c in Surface(db, e) ==> FromMarket(db, e, c) || FromGene(db, e, c)
    ensures FromMarket(db, e, c) ==> c in Surface(db, e)
    ensures FromGene(db, e, c) ==> HasName(Surface(db, e), c.name)
  {
    hide Surface, GenesOf, MarketCaps, GeneCaps, Linked, Having, HasName, FirstNamed, FromMarket, FromGene, Ordered;
    var attached, inline := MarketCaps(db.market, Linked(db.entityCaps, e)), GeneCaps(GenesOf(db, e));
    SurfaceHolds(db, e, c.name);
    MarketSource(db, e, c);
    GeneSource(db, e, c);
    HavingItems(Surface(db, e), NameOf, c.name, c);
    HavingItems(attached, NameOf, c.name, c);
    ListedName(attached, c);
    ListedName(inline, c);
    HavingHasName(Surface(db, e), c.name);
    HavingHasName(attached, c.name);
  }

  // ---------------------------------------------------------------------------
  // What the surface depends on
  // ---------------------------------------------------------------------------

  predicate SameGenes(a: seq<Gene>, b: seq<Gene>, items: seq<nat>) {
    && |a| == |b|
    && forall k :: 0 <= k < |items| && items[k] < |a| ==>
         var x, y := a[items[k]], b[items[k]]; x.slug == y.slug && x.inline == y.inline && x.deleted == y.deleted
  }

  lemma {:induction false} CollectedSame(start: seq<Named>, a: seq<Gene>, b: seq<Gene>, items: seq<nat>, overwrite: bool)
    requires SameGenes(a, b, items)
    ensures Collected(start, a, items, overwrite) == Collected(start, b, items, overwrite)
  {
    hide Put;
    if items != [] {
      CollectedSame(start, a, b, items[..|items| - 1], overwrite);
      assert items[|items| - 1] < |a| ==> a[items[|items| - 1]].slug == b[items[|items| - 1]].slug;
    }
  }

  /** The surface depends on the entity's links, on its base class and that class's links, and
      on the genes they name; the stored hashes play no part. */
  lemma SurfaceSame(db: Db, db': Db, e: nat)
    requires e < |db.entities| == |db'.entities| && db'.entities[e].preset == db.entities[e].preset
    requires db'.market == db.market && db'.bases == db.bases
    requires Linked(db'.entityCaps, e) == Linked(db.entityCaps, e) && Linked(db'.entityGenes, e) == Linked(db.entityGenes, e)
    requires InheritedItems(db', db.entities[e].preset) == InheritedItems(db, db.entities[e].preset)
    requires SameGenes(db.genes, db'.genes, Linked(db.entityGenes, e))
    requires SameGenes(db.genes, db'.genes, InheritedItems(db, db.entities[e].preset))
    ensures Surface(db', e) == Surface(db, e)
  {
    hide Linked, InheritedItems, SortedBy, Merged, GeneCaps, MarketCaps, Collected, SameGenes;
    CollectedSame([], db.genes, db'.genes, Linked(db.entityGenes, e), true);
    CollectedSame(Collected([], db.genes, Linked(db.entityGenes, e), true), db.genes, db'.genes,
                  InheritedItems(db, db.entities[e].preset), false);
  }

  lemma LinkedAppend(links: seq<Link>, l: Link, owner: nat)
    ensures Linked(links + [l], owner) == Linked(links, owner) + if l.owner == owner && !l.deleted then [l.item] else []
  {
    assert (links + [l])[..|links|] == links;
  }

  lemma {:induction false} LinkedSame(a: seq<Link>, b: seq<Link>, owner: nat)
    requires |a| == |b| && forall i :: 0 <= i < |a| ==> a[i].owner == owner || b[i].owner == owner ==> a[i] == b[i]
    ensures Linked(a, owner) == Linked(b, owner)
  {
    if a != [] {
      LinkedSame(a[..|a| - 1], b[..|a| - 1], owner);
      assert a[|a| - 1].owner == owner || b[|a| - 1].owner == owner ==> a[|a| - 1] == b[|a| - 1];
    }
  }

  lemma DetachedOther(links: seq<Link>, owner: nat, item: nat, other: nat)
    requires owner != other && Detached(links, owner, item).Some?
    ensures Linked(Detached(links, owner, item).value, other) == Linked(links, other)
  {
    LinkedSame(links, Detached(links, owner, item).value, other);
  }

  /** Fresh hashes can be stored one after another: none changes another. */
  lemma FreshIgnoresHashes(db: Db, entities: seq<Entity>, e: nat, c: Codec<Capability>)
    requires |entities| == |db.entities| && e < |entities|
    requires entities[e].preset == db.entities[e].preset && entities[e].prompt == db.entities[e].prompt
    ensures Fresh(db.(entities := entities), e, c) == Fresh(db, e, c)
  {
    SurfaceSame(db, db.(entities := entities), e);
  }

  lemma BumpCoherent(db: Db, db': Db, some: set<nat>, c: Codec<Capability>)
    requires Coherent(db, c) && db'.entities == db.entities
    requires forall e :: 0 <= e < |db.entities| && !db.entities[e].deleted && e !in some ==> Surface(db', e) == Surface(db, e)
    ensures Coherent(Bumped(db', some, c), c)
  {
    hide Surface, ComputeMigrationHash;
    var r := Bumped(db', some, c);
    forall e | 0 <= e < |r.entities| && !r.entities[e].deleted ensures r.entities[e].hash == Fresh(r, e, c) {
      FreshIgnoresHashes(db', r.entities, e, c);
      assert e !in some ==> Surface(db', e) == Surface(db, e);
    }
  }

  /** An entity that the bump for a gene passes over has the same surface after the gene's
      manifest changed: it uses the gene neither directly nor through its base class. */
  lemma PassedOverUnchanged(db: Db, g: nat, gene: Gene, e: nat)
    requires g < |db.genes| && e < |db.entities| && !db.entities[e].deleted
    requires e !in Affected(db, g)
    ensures Surface(db.(genes := db.genes[g := gene]), e) == Surface(db, e)
  {
    hide Linked, Surface;
    var db' := db.(genes := db.genes[g := gene]);
    var b := BaseOf(db.bases, db.entities[e].preset);
    assert b.Some? ==> e in ByPreset(db, db.bases[b.value].slug);
    SurfaceSame(db, db', e);
  }

  lemma AffectedSame(db: Db, genes: seq<Gene>, g: nat)
    ensures Affected(db.(genes := genes), g) == Affected(db, g)
  {
    hide Linked;
    var db' := db.(genes := genes);
    assert forall slug :: ByPreset(db', slug) == ByPreset(db, slug);
    assert Explicitly(db', g) == Explicitly(db, g);
  }

  lemma UpdateCoherent(db: Db, g: nat, inline: Option<seq<Inline>>, other: string, c: Codec<Capability>)
    requires Coherent(db, c)
    ensures Coherent(Step(db, UpdateGene(g, inline, other), c), c)
  {
    hide Surface, ComputeMigrationHash, Affected, Bumped, Coherent;
    if ActiveGene(db, g) {
      var gene := db.genes[g].(inline := inline, other := other);
      var db' := db.(genes := db.genes[g := gene]);
      AffectedSame(db, db'.genes, g);
      if inline == db.genes[g].inline {
        forall e | 0 <= e < |db.entities| ensures Surface(db', e) == Surface(db, e) {
          SurfaceSame(db, db', e);
        }
        UntouchedCoherent(db, db', c);
      } else {
        forall e | 0 <= e < |db.entities| && !db.entities[e].deleted && e !in Affected(db', g) ensures Surface(db', e) == Surface(db, e) {
          PassedOverUnchanged(db, g, gene, e);
        }
        BumpCoherent(db, db', Affected(db', g), c);
      }
    }
  }

  lemma UntouchedCoherent(db: Db, db': Db, c: Codec<Capability>)
    requires Coherent(db, c) && db'.entities == db.entities
    requires forall e :: 0 <= e < |db.entities| ==> Surface(db', e) == Surface(db, e)
    ensures Coherent(db', c)
  {
    hide Surface, ComputeMigrationHash;
    forall e | 0 <= e < |db.entities| && !db.entities[e].deleted ensures db'.entities[e].hash == Fresh(db', e, c) {
      assert Surface(db', e) == Surface(db, e);
    }
  }

  /** Links of one entity change: nobody else's surface does. */
  lemma EntityLinksCoherent(db: Db, e: nat, caps: seq<Link>, genes: seq<Link>, c: Codec<Capability>)
    requires Coherent(db, c)
    requires forall x :: x != e ==> Linked(caps, x) == Linked(db.entityCaps, x) && Linked(genes, x) == Linked(db.entityGenes, x)
    ensures Coherent(Bumped(db.(entityCaps := caps, entityGenes := genes), {e}, c), c)
  {
    hide Linked, Surface, ComputeMigrationHash, Bumped, Coherent;
    var db' := db.(entityCaps := caps, entityGenes := genes);
    forall x | 0 <= x < |db.entities| && !db.entities[x].deleted && x !in {e} ensures Surface(db', x) == Surface(db, x) {
      SurfaceSame(db, db', x);
    }
    BumpCoherent(db, db', {e}, c);
  }

  /** Links of one base class change: only entities of its preset can see it. */
  lemma BaseLinksCoherent(db: Db, b: nat, links: seq<Link>, c: Codec<Capability>)
    requires Coherent(db, c) && ActiveBase(db, b)
    requires forall x :: x != b ==> Linked(links, x) == Linked(db.baseGenes, x)
    ensures Coherent(Bumped(db.(baseGenes := links), ByPreset(db, db.bases[b].slug), c), c)
  {
    hide Linked, Surface, ComputeMigrationHash, Bumped, Coherent;
    var db', some := db.(baseGenes := links), ByPreset(db, db.bases[b].slug);
    forall x | 0 <= x < |db.entities| && !db.entities[x].deleted && x !in some ensures Surface(db', x) == Surface(db, x) {
      SurfaceSame(db, db', x);
    }
    BumpCoherent(db, db', some, c);
  }

  lemma AttachedOther(links: seq<Link>, owner: nat, item: nat)
    ensures forall x :: x != owner ==> Linked(Attached(links, owner, item), x) == Linked(links, x)
    ensures forall x :: x != owner ==> Linked(links + [Link(owner, item, false)], x) == Linked(links, x)
  {
    forall x | x != owner ensures Linked(links + [Link(owner, item, false)], x) == Linked(links, x) {
      LinkedAppend(links, Link(owner, item, false), x);
    }
  }

  lemma DetachedOthers(links: seq<Link>, owner: nat, item: nat)
    requires Detached(links, owner, item).Some?
    ensures forall x :: x != owner ==> Linked(Detached(links, owner, item).value, x) == Linked(links, x)
  {
    forall x | x != owner ensures Linked(Detached(links, owner, item).value, x) == Linked(links, x) {
      DetachedOther(links, owner, item, x);
    }
  }

  lemma {:induction false} LinkedFirst(l: Link, rest: seq<Link>, owner: nat)
    ensures Linked([l] + rest, owner) == (if l.owner == owner && !l.deleted then [l.item] else []) + Linked(rest, owner)
  {
    var all, n := [l] + rest, |rest| - 1;
    if rest == [] {
      assert all[..0] == [] && all[0] == l;
    } else {
      assert all[..|all| - 1] == [l] + rest[..n] && all[|all| - 1] == rest[n];
      LinkedFirst(l, rest[..n], owner);
    }
  }

  /** The owner has the item linked where it had not, and nobody else's links change. */
  ghost predicate Gains(before: seq<Link>, after: seq<Link>, owner: nat, item: nat) {
    && Linked(after, owner) == Linked(before, owner) + (if item in Linked(before, owner) then [] else [item])
    && forall x :: x != owner ==> Linked(after, x) == Linked(before, x)
  }

  /** The owner has the item linked once less, and nobody else's links change. */
  ghost predicate Loses(before: seq<Link>, after: seq<Link>, owner: nat, item: nat) {
    && item in Linked(before, owner) && multiset(Linked(after, owner)) == multiset(Linked(before, owner)) - multiset{item}
    && forall x :: x != owner ==> Linked(after, x) == Linked(before, x)
  }

  lemma AttachGains(links: seq<Link>, owner: nat, item: nat)
    ensures Gains(links, Attached(links, owner, item), owner, item)
  {
    hide Linked;
    AttachedOther(links, owner, item);
    LinkedAppend(links, Link(owner, item, false), owner);
    assert Linked(links, owner) + [] == Linked(links, owner);
  }

  lemma OneLess(p: seq<nat>, x: seq<nat>, y: seq<nat>, item: nat)
    requires item in x && multiset(y) == multiset(x) - multiset{item}
    ensures item in p + x && multiset(p + y) == multiset(p + x) - multiset{item}
  {
    assert item in multiset(x);
  }

  lemma FirstLess(x: seq<nat>, item: nat)
    ensures item in [item] + x && multiset([] + x) == multiset([item] + x) - multiset{item}
  {
    assert [] + x == x && multiset([item] + x) == multiset{item} + multiset(x);
  }

  lemma {:induction false} DetachOwn(links: seq<Link>, owner: nat, item: nat)
    ensures Detached(links, owner, item).Some? <==> item in Linked(links, owner)
    ensures Detached(links, owner, item).Some? ==>
      multiset(Linked(Detached(links, owner, item).value, owner)) == multiset(Linked(links, owner)) - multiset{item}
  {
    hide Linked;
    if links == [] {
      NoLinks(owner);
    } else {
      var l, rest := links[0], links[1..];
      assert links == [l] + rest;
      LinkedFirst(l, rest, owner);
      if IsLink(l, owner, item) {
        var gone := l.(deleted := true);
        LinkedFirst(gone, rest, owner);
        assert links[0 := gone] == [gone] + rest;
        FirstLess(Linked(rest, owner), item);
      } else {
        DetachOwn(rest, owner, item);
        if Detached(rest, owner, item).Some? {
          var rest' := Detached(rest, owner, item).value;
          LinkedFirst(l, rest', owner);
          OneLess(if l.owner == owner && !l.deleted then [l.item] else [], Linked(rest, owner), Linked(rest', owner), item);
        }
      }
    }
  }

  lemma DetachLoses(links: seq<Link>, owner: nat, item: nat)
    ensures Detached(links, owner, item).Some? <==> item in Linked(links, owner)
    ensures Detached(links, owner, item).Some? ==> Loses(links, Detached(links, owner, item).value, owner, item)
  {
    hide Linked, Detached;
    DetachOwn(links, owner, item);
    if Detached(links, owner, item).Some? {
      DetachedOthers(links, owner, item);
    }
  }

  lemma NoLinks(owner: nat)
    ensures Linked([], owner) == []
  {
  }

  /** What an attachment or a detachment does, by tables: it gains or loses the one link it names,
      or changes nothing; nothing else changes but hashes. */
  lemma LinksChange(db: Db, op: Op, c: Codec<Capability>)
    requires !op.UpdateGene?
    ensures var db' := Step(db, op, c);
      && db'.genes == db.genes && db'.market == db.market && db'.bases == db.bases
      && (db' == db || match op
          case AttachCapability(e, i) => Gains(db.entityCaps, db'.entityCaps, e, i)
          case DetachCapability(e, i) => Loses(db.entityCaps, db'.entityCaps, e, i)
          case AttachGene(e, i) => Gains(db.entityGenes, db'.entityGenes, e, i)
          case DetachGene(e, i) => Loses(db.entityGenes, db'.entityGenes, e, i)
          case AttachBaseGene(b, i) => Gains(db.baseGenes, db'.baseGenes, b, i)
          case DetachBaseGene(b, i) => Loses(db.baseGenes, db'.baseGenes, b, i))
    ensures match op
      case AttachCapability(e, i) =>
        ActiveEntity(db, e) && i < |db.market| && !db.market[i].deleted ==> i in Linked(Step(db, op, c).entityCaps, e)
      case DetachCapability(e, i) =>
        ActiveEntity(db, e) && i in Linked(db.entityCaps, e) ==> Loses(db.entityCaps, Step(db, op, c).entityCaps, e, i)
      case AttachGene(e, i) => ActiveEntity(db, e) && ActiveGene(db, i) ==> i in Linked(Step(db, op, c).entityGenes, e)
      case DetachGene(e, i) =>
        ActiveEntity(db, e) && i in Linked(db.entityGenes, e) ==> Loses(db.entityGenes, Step(db, op, c).entityGenes, e, i)
      case AttachBaseGene(b, i) => ActiveBase(db, b) && ActiveGene(db, i) ==> i in Linked(Step(db, op, c).baseGenes, b)
      case DetachBaseGene(b, i) =>
        ActiveBase(db, b) && i in Linked(db.baseGenes, b) ==> Loses(db.baseGenes, Step(db, op, c).baseGenes, b, i)
  {
    hide Linked, Fresh, Gains, Loses, Attached, Detached, ByPreset;
    match op {
      case AttachCapability(e, i) => AttachGains(db.entityCaps, e, i); GainsItem(db.entityCaps, Attached(db.entityCaps, e, i), e, i);
      case DetachCapability(e, i) => DetachLoses(db.entityCaps, e, i);
      case AttachGene(e, i) => AttachGains(db.entityGenes, e, i); GainsItem(db.entityGenes, Attached(db.entityGenes, e, i), e, i);
      case DetachGene(e, i) => DetachLoses(db.entityGenes, e, i);
      case AttachBaseGene(b, i) =>
        AttachGains(db.baseGenes, b, i);
        GainsItem(db.baseGenes, Attached(db.baseGenes, b, i), b, i);
        AttachedNew(db.baseGenes, b, i);
      case DetachBaseGene(b, i) => DetachLoses(db.baseGenes, b, i);
    }
  }

  lemma AttachedNew(links: seq<Link>, owner: nat, item: nat)
    ensures item !in Linked(links, owner) ==> Attached(links, owner, item) == links + [Link(owner, item, false)]
  {
  }

  lemma GainsItem(before: seq<Link>, after: seq<Link>, owner: nat, item: nat)
    requires Gains(before, after, owner, item)
    ensures item in Linked(after, owner)
  {
  }

  lemma StepCoherent(db: Db, op: Op, c: Codec<Capability>)
    requires Coherent(db, c)
    ensures Coherent(Step(db, op, c), c)
  {
    hide Coherent, Bumped, Linked, Detached, Attached, Affected, ByPreset;
    match op {
      case UpdateGene(g, inline, other) => UpdateCoherent(db, g, inline, other, c);
      case AttachCapability(e, i) =>
        AttachedOther(db.entityCaps, e, i);
        EntityLinksCoherent(db, e, Attached(db.entityCaps, e, i), db.entityGenes, c);
      case DetachCapability(e, i) =>
        if Detached(db.entityCaps, e, i).Some? {
          DetachedOthers(db.entityCaps, e, i);
          EntityLinksCoherent(db, e, Detached(db.entityCaps, e, i).value, db.entityGenes, c);
        }
      case AttachGene(e, i) =>
        AttachedOther(db.entityGenes, e, i);
        EntityLinksCoherent(db, e, db.entityCaps, Attached(db.entityGenes, e, i), c);
      case DetachGene(e, i) =>
        if Detached(db.entityGenes, e, i).Some? {
          DetachedOthers(db.entityGenes, e, i);
          EntityLinksCoherent(db, e, db.entityCaps, Detached(db.entityGenes, e, i).value, c);
        }
      case AttachBaseGene(b, i) =>
        AttachedOther(db.baseGenes, b, i);
        if ActiveBase(db, b) {
          BaseLinksCoherent(db, b, db.baseGenes + [Link(b, i, false)], c);
        }
      case DetachBaseGene(b, i) =>
        if Detached(db.baseGenes, b, i).Some? && ActiveBase(db, b) {
          DetachedOthers(db.baseGenes, b, i);
          BaseLinksCoherent(db, b, Detached(db.baseGenes, b, i).value, c);
        }
    }
  }

  /** Over every run of manifest updates, attachments and detachments, with the bumps that go
      with them, every active entity keeps the hash of its surface. */
  lemma {:induction false} RunCoherent(db: Db, ops: seq<Op>, c: Codec<Capability>)
    requires Coherent(db, c)
    ensures Coherent(Run(db, ops, c), c)
  {
    hide Coherent, Step;
    if ops != [] {
      RunCoherent(db, ops[..|ops| - 1], c);
      StepCoherent(Run(db, ops[..|ops| - 1], c), ops[|ops| - 1], c);
    }
  }

  // ---------------------------------------------------------------------------
  // The loaders and the bumps
  // ---------------------------------------------------------------------------

  class CapabilityStore {
    var db: Db
    const codec: Codec<Capability>

    constructor (db: Db, codec: Codec<Capability>)
      ensures this.db == db && this.codec == codec
    {
      this.db, this.codec := db, codec;
    }

    method CollectGenes(start: seq<Named>, items: seq<nat>, overwrite: bool) returns (genes: seq<Named>)
      ensures genes == Collected(start, db.genes, items, overwrite)
    {
      genes := start;
      for k := 0 to |items|
        invariant genes == Collected(start, db.genes, items[..k], overwrite)
      {
        assert items[..k + 1][..k] == items[..k];
        var i := items[k];
        if i < |db.genes| && !db.genes[i].deleted {
          genes := Put(genes, Named(db.genes[i].slug, db.genes[i].inline), overwrite);
        }
      }
      assert items[..|items|] == items;
    }

    method LoadEntityGeneInlineCapabilityDicts(entity: nat) returns (out: seq<Capability>)
      requires entity < |db.entities|
      ensures out == GeneCaps(GenesOf(db, entity))
    {
      hide Collected, Linked, Expanded;
      var genes := CollectGenes([], Linked(db.entityGenes, entity), true);
      var preset := db.entities[entity].preset;
      var base := BaseOf(db.bases, preset);
      if base.Some? {
        genes := CollectGenes(genes, Linked(db.baseGenes, base.value), false);
      } else {
        genes := CollectGenes(genes, [], false);
      }
      out := [];
      for k := 0 to |genes|
        invariant out == GeneCaps(genes[..k])
      {
        assert genes[..k + 1][..k] == genes[..k];
        if genes[k].inline.Some? {
          out := out + Expanded(genes[k].inline.value);
        }
      }
      assert genes[..|genes|] == genes;
    }

    method LoadEntityCapabilityDicts(entity: nat) returns (merged: seq<Capability>)
      requires entity < |db.entities|
      ensures merged == Surface(db, entity)
    {
      hide GenesOf, MarketCaps, SortedBy, GeneCaps;
      var junction := SortedBy(MarketCaps(db.market, Linked(db.entityCaps, entity)), NameOf);
      var geneCaps := LoadEntityGeneInlineCapabilityDicts(entity);
      var names := set i | 0 <= i < |junction| :: junction[i].name;
      merged := junction;
      for k := 0 to |geneCaps|
        invariant merged == Merged(junction, geneCaps[..k])
        invariant forall name :: name in names <==> HasName(merged, name)
      {
        assert geneCaps[..k + 1][..k] == geneCaps[..k];
        if geneCaps[k].name !in names {
          HasNameAppend(merged, geneCaps[k]);
          names := names + {geneCaps[k].name};
          merged := merged + [geneCaps[k]];
        }
      }
      assert geneCaps[..|geneCaps|] == geneCaps;
      merged := SortedBy(merged, NameOf);
    }

    method BumpEntityMigrationHash(entity: nat)
      requires entity < |db.entities|
      modifies this
      ensures db == Bumped(old(db), {entity}, codec)
    {
      hide Surface;
      var caps := LoadEntityCapabilityDicts(entity);
      var hash := ComputeMigrationHash(Some(caps), db.entities[entity].prompt, codec);
      db := db.(entities := db.entities[entity := db.entities[entity].(hash := hash)]);
    }

    method BumpEntitiesForBaseClass(slug: string)
      modifies this
      ensures db == Bumped(old(db), ByPreset(old(db), slug), codec)
    {
      hide Bumped;
      ghost var done: set<nat> := {};
      BumpNone(db, codec);
      for e := 0 to |db.entities|
        invariant |db.entities| == |old(db).entities| && db == Bumped(old(db), done, codec)
        invariant done == set x | x in ByPreset(old(db), slug) && x < e
      {
        BumpedRows(old(db), done, codec);
        if db.entities[e].preset == Some(slug) && !db.entities[e].deleted {
          BumpEntityMigrationHash(e);
          BumpMore(old(db), done, {e}, codec);
          BumpedRows(old(db), done + {e}, codec);
          done := done + {e};
        }
      }
      assert done == ByPreset(old(db), slug);
    }

    method BumpEntitiesForGene(gene: nat)
      modifies this
      ensures db == Bumped(old(db), Affected(old(db), gene), codec)
    {
      hide Bumped, Linked, ByPreset, Inheriting;
      BumpExplicit(gene);
      ghost var done := Explicitly(old(db), gene);
      InheritingNone(old(db), gene);
      BumpedRows(old(db), done, codec);
      for b := 0 to |db.bases|
        invariant db.bases == old(db).bases && db.baseGenes == old(db).baseGenes
        invariant done == Explicitly(old(db), gene) + Inheriting(old(db), gene, b) && db == Bumped(old(db), done, codec)
      {
        InheritingNext(old(db), gene, b);
        if gene in Linked(db.baseGenes, b) && !db.bases[b].deleted {
          ghost var some := ByPreset(db, db.bases[b].slug);
          BumpedPresets(old(db), done, codec, db.bases[b].slug);
          BumpEntitiesForBaseClass(db.bases[b].slug);
          BumpMore(old(db), done, some, codec);
          done := done + some;
          BumpedRows(old(db), done, codec);
        }
      }
    }

    method BumpExplicit(gene: nat)
      modifies this
      ensures db == Bumped(old(db), Explicitly(old(db), gene), codec)
    {
      hide Bumped, Linked;
      ghost var done: set<nat> := {};
      BumpNone(db, codec);
      for e := 0 to |db.entities|
        invariant |db.entities| == |old(db).entities| && db == Bumped(old(db), done, codec)
        invariant done == set x | x in Explicitly(old(db), gene) && x < e
      {
        BumpedRows(old(db), done, codec);
        if gene in Linked(db.entityGenes, e) && !db.entities[e].deleted {
          BumpEntityMigrationHash(e);
          BumpMore(old(db), done, {e}, codec);
          BumpedRows(old(db), done + {e}, codec);
          done := done + {e};
        }
      }
      assert done == Explicitly(old(db), gene);
    }

    /** The part of the update route that touches the surface. */
    method UpdateAiGene(gene: nat, inline: Option<seq<Inline>>, other: string)
      modifies this
      ensures db == Step(old(db), UpdateGene(gene, inline, other), codec)
      ensures db == old(db).(genes := db.genes, entities := db.entities) && |db.entities| == |old(db).entities|
      ensures db.genes == if gene < |old(db).genes| && !old(db).genes[gene].deleted
                          then old(db).genes[gene := Gene(old(db).genes[gene].slug, inline, other, false)] else old(db).genes
    {
      hide Bumped, Affected;
      UpdateChanges(db, gene, inline, other, codec);
      if gene >= |db.genes| || db.genes[gene].deleted {
        return;
      }
      var before := db.genes[gene].inline;
      db := db.(genes := db.genes[gene := db.genes[gene].(inline := inline, other := other)]);
      if inline != before {
        BumpEntitiesForGene(gene);
      }
    }
  }

  lemma UpdateChanges(db: Db, g: nat, inline: Option<seq<Inline>>, other: string, c: Codec<Capability>)
    ensures var db' := Step(db, UpdateGene(g, inline, other), c);
      && db' == db.(genes := db'.genes, entities := db'.entities) && |db'.entities| == |db.entities|
      && db'.genes == if ActiveGene(db, g) then db.genes[g := Gene(db.genes[g].slug, inline, other, false)] else db.genes
  {
    hide Affected, Fresh;
  }

  lemma HasNameAppend(caps: seq<Capability>, c: Capability)
    ensures forall name :: HasName(caps + [c], name) <==> HasName(caps, name) || name == c.name
  {
    forall name | HasName(caps, name) || name == c.name ensures HasName(caps + [c], name) {
      assert (caps + [c])[|caps|] == c;
      assert forall i :: 0 <= i < |caps| ==> (caps + [c])[i] == caps[i];
    }
  }

  lemma BumpNone(db: Db, c: Codec<Capability>)
    ensures Bumped(db, {}, c) == db
  {
    assert Bumped(db, {}, c).entities == db.entities;
  }

  lemma BumpedRows(db: Db, some: set<nat>, c: Codec<Capability>)
    ensures var r := Bumped(db, some, c);
      && r == db.(entities := r.entities) && |r.entities| == |db.entities|
      && forall e :: 0 <= e < |db.entities| ==>
           r.entities[e].preset == db.entities[e].preset && r.entities[e].prompt == db.entities[e].prompt
           && r.entities[e].deleted == db.entities[e].deleted
  {
  }

  lemma BumpedPresets(db: Db, some: set<nat>, c: Codec<Capability>, slug: string)
    ensures ByPreset(Bumped(db, some, c), slug) == ByPreset(db, slug)
  {
    hide Bumped;
    BumpedRows(db, some, c);
  }

  /** Bumping twice is bumping both at once. */
  lemma BumpMore(db: Db, some: set<nat>, more: set<nat>, c: Codec<Capability>)
    ensures Bumped(Bumped(db, some, c), more, c) == Bumped(db, some + more, c)
  {
    hide Fresh;
    var once := Bumped(db, some, c);
    forall e | 0 <= e < |db.entities| ensures Bumped(once, more, c).entities[e] == Bumped(db, some + more, c).entities[e] {
      FreshIgnoresHashes(db, once.entities, e, c);
      assert once == db.(entities := once.entities);
    }
    assert Bumped(once, more, c).entities == Bumped(db, some + more, c).entities;
  }

  lemma InheritingNone(db: Db, g: nat)
    ensures Inheriting(db, g, 0) == {}
  {
  }

  lemma InheritingNext(db: Db, g: nat, b: nat)
    requires b < |db.bases|
    ensures Inheriting(db, g, b + 1) == Inheriting(db, g, b)
            + if !db.bases[b].deleted && g in Linked(db.baseGenes, b) then ByPreset(db, db.bases[b].slug) else {}
  {
    hide Linked, ByPreset;
  }

  // ---------------------------------------------------------------------------
  // Deleting a gene
  // ---------------------------------------------------------------------------

  /** The gene is marked deleted, and no hash is computed again. */
  function GeneDeleted(db: Db, g: nat): Db {
    if ActiveGene(db, g) then db.(genes := db.genes[g := db.genes[g].(deleted := true)]) else db
  }

  /** An entity's genes but for one slug. */
  function Without(genes: seq<Named>, slug: string): seq<Named> {
    if genes == [] then []
    else
      var g := genes[|genes| - 1];
      Without(genes[..|genes| - 1], slug) + if g.slug == slug then [] else [g]
  }

  predicate HasSlug(genes: seq<Named>, slug: string) {
    exists k :: 0 <= k < |genes| && genes[k].slug == slug
  }

  lemma PutLast(genes: seq<Named>, last: Named, g: Named, overwrite: bool)
    ensures Put(genes + [last], g, overwrite)
            == if HasSlug(genes, g.slug) then Put(genes, g, overwrite) + [last]
               else if last.slug == g.slug then genes + [if overwrite then g else last]
               else genes + [last] + [g]
  {
    var all := genes + [last];
    var k, k' := Find(genes, g.slug, |genes|), Find(all, g.slug, |all|);
    if HasSlug(genes, g.slug) {
      assert all[k].slug == g.slug;
      assert k' == k;
    } else if last.slug == g.slug {
      assert all[|genes|] == last;
      assert k' == |genes|;
    }
  }

  lemma {:induction false} WithoutKeeps(genes: seq<Named>, slug: string, other: string)
    requires other != slug
    ensures HasSlug(Without(genes, slug), other) <==> HasSlug(genes, other)
  {
    if genes != [] {
      var n := |genes| - 1;
      WithoutKeeps(genes[..n], slug, other);
      assert genes == genes[..n] + [genes[n]];
      HasSlugLast(genes[..n], genes[n], other);
      HasSlugLast(Without(genes[..n], slug), genes[n], other);
      assert Without(genes[..n], slug) + [] == Without(genes[..n], slug);
    }
  }

  lemma HasSlugLast(genes: seq<Named>, last: Named, slug: string)
    ensures HasSlug(genes + [last], slug) <==> HasSlug(genes, slug) || last.slug == slug
  {
    var all := genes + [last];
    if HasSlug(genes, slug) {
      var k :| 0 <= k < |genes| && genes[k].slug == slug;
      assert all[k].slug == slug;
    }
    if last.slug == slug {
      assert all[|genes|].slug == slug;
    }
  }

  lemma WithoutLast(genes: seq<Named>, last: Named, slug: string)
    ensures Without(genes + [last], slug) == Without(genes, slug) + if last.slug == slug then [] else [last]
  {
    assert (genes + [last])[..|genes|] == genes;
  }

  /** Leaving out a slug commutes with putting in another, and undoes putting in the slug. */
  lemma {:induction false} WithoutPut(genes: seq<Named>, g: Named, overwrite: bool, slug: string)
    ensures Without(Put(genes, g, overwrite), slug)
            == if g.slug == slug then Without(genes, slug) else Put(Without(genes, slug), g, overwrite)
  {
    hide Put, HasSlug, Without;
    if genes == [] {
      PutInEmpty(g, overwrite);
      WithoutLast([], g, slug);
      WithoutEmpty(slug);
      assert [] + [g] == [g];
    } else {
      var n := |genes| - 1;
      var init, last := genes[..n], genes[n];
      assert genes == init + [last];
      WithoutPut(init, g, overwrite, slug);
      PutLast(init, last, g, overwrite);
      WithoutLast(init, last, slug);
      WithoutLast(Put(init, g, overwrite), last, slug);
      WithoutLast(init, if overwrite then g else last, slug);
      WithoutLast(init + [last], g, slug);
      PutLast(Without(init, slug), last, g, overwrite);
      if g.slug != slug {
        WithoutKeeps(init, slug, g.slug);
        if !HasSlug(init, g.slug) {
          PutAbsent(Without(init, slug), g, overwrite);
          if last.slug == slug {
            assert Without(genes, slug) == Without(init, slug);
          }
        } else if last.slug == slug {
          assert Without(genes, slug) == Without(init, slug);
        }
      }
    }
  }

  lemma PutAbsent(genes: seq<Named>, g: Named, overwrite: bool)
    requires !HasSlug(genes, g.slug)
    ensures Put(genes, g, overwrite) == genes + [g]
  {
  }

  lemma PutInEmpty(g: Named, overwrite: bool)
    ensures Put([], g, overwrite) == [g]
  {
  }

  lemma WithoutEmpty(slug: string)
    ensures Without([], slug) == []
  {
  }

  /** Slugs of undeleted genes are unique. */
  predicate UniqueSlugs(genes: seq<Gene>) {
    forall i, j :: 0 <= i < |genes| && 0 <= j < |genes| && !genes[i].deleted && !genes[j].deleted && genes[i].slug == genes[j].slug ==> i == j
  }

  lemma {:induction false} CollectedWithout(start: seq<Named>, db: Db, g: nat, items: seq<nat>, overwrite: bool)
    requires ActiveGene(db, g) && UniqueSlugs(db.genes)
    ensures var slug := db.genes[g].slug;
            Collected(Without(start, slug), GeneDeleted(db, g).genes, items, overwrite)
            == Without(Collected(start, db.genes, items, overwrite), slug)
  {
    hide Put, Without;
    if items != [] {
      var n, slug := |items| - 1, db.genes[g].slug;
      CollectedWithout(start, db, g, items[..n], overwrite);
      if items[n] < |db.genes| && !db.genes[items[n]].deleted {
        WithoutPut(Collected(start, db.genes, items[..n], overwrite), Named(db.genes[items[n]].slug, db.genes[items[n]].inline),
                   overwrite, slug);
      }
    }
  }

  /** Deleting a gene takes its slug out of everybody's genes and changes nothing else. */
  lemma GenesWithout(db: Db, e: nat, g: nat)
    requires e < |db.entities| && ActiveGene(db, g) && UniqueSlugs(db.genes)
    ensures GenesOf(GeneDeleted(db, g), e) == Without(GenesOf(db, e), db.genes[g].slug)
  {
    hide Collected, Linked, UniqueSlugs;
    var explicit := Linked(db.entityGenes, e);
    WithoutEmpty(db.genes[g].slug);
    CollectedWithout([], db, g, explicit, true);
    CollectedWithout(Collected([], db.genes, explicit, true), db, g, InheritedItems(db, db.entities[e].preset), false);
  }

  lemma {:induction false} FirstNamedJoined(a: seq<Capability>, b: seq<Capability>, name: string)
    ensures FirstNamed(a + b, name) == if FirstNamed(a, name).Some? then FirstNamed(a, name) else FirstNamed(b, name)
    decreases |b|
  {
    hide HasName;
    if b == [] {
      assert a + b == a;
    } else {
      FirstNamedJoined(a, b[..|b| - 1], name);
      assert (a + b)[..|a + b| - 1] == a + b[..|b| - 1];
    }
  }

  /** What a gene adds by itself. */
  function Own(inline: Option<seq<Inline>>): seq<Capability> {
    if inline.Some? then Expanded(inline.value) else []
  }

  lemma {:induction false} OthersUnchanged(genes: seq<Named>, slug: string, name: string)
    requires forall k :: 0 <= k < |genes| && genes[k].slug == slug ==> !HasName(Own(genes[k].inline), name)
    ensures FirstNamed(GeneCaps(genes), name) == FirstNamed(GeneCaps(Without(genes, slug)), name)
  {
    hide HasName, Own, GeneCaps, Without, FirstNamed;
    if genes == [] {
      WithoutEmpty(slug);
    } else {
      var n := |genes| - 1;
      var init, last := genes[..n], genes[n];
      assert genes == init + [last];
      OthersUnchanged(init, slug, name);
      WithoutLast(init, last, slug);
      GeneCapsLast(init, last);
      FirstNamedJoined(GeneCaps(init), Own(last.inline), name);
      if last.slug != slug {
        GeneCapsLast(Without(init, slug), last);
        FirstNamedJoined(GeneCaps(Without(init, slug)), Own(last.inline), name);
      } else {
        assert Without(init, slug) + [] == Without(init, slug);
      }
    }
  }

  lemma GeneCapsLast(genes: seq<Named>, last: Named)
    ensures GeneCaps(genes + [last]) == GeneCaps(genes) + Own(last.inline)
  {
    assert (genes + [last])[..|genes|] == genes;
  }

  /** An entity loses nothing with a gene: each name the gene gives is the name of an attached
      market capability, or the entity's other genes give the same capability under it. */
  predicate Dispensable(db: Db, e: nat, g: nat)
    requires e < |db.entities| && g < |db.genes|
  {
    var attached, genes, own := MarketCaps(db.market, Linked(db.entityCaps, e)), GenesOf(db, e), Own(db.genes[g].inline);
    forall k :: 0 <= k < |own| ==>
      || HasName(attached, own[k].name)
      || FirstNamed(GeneCaps(Without(genes, db.genes[g].slug)), own[k].name) == FirstNamed(GeneCaps(genes), own[k].name)
  }

  /** Under each name: attached, or unchanged because the gene does not give it, or the
      condition says so. */
  lemma DispensableNames(db: Db, e: nat, g: nat, name: string)
    requires e < |db.entities| && ActiveGene(db, g) && UniqueSlugs(db.genes) && Dispensable(db, e, g)
    requires !HasName(MarketCaps(db.market, Linked(db.entityCaps, e)), name)
    ensures FirstNamed(GeneCaps(GenesOf(GeneDeleted(db, g), e)), name) == FirstNamed(GeneCaps(GenesOf(db, e)), name)
  {
    hide MarketCaps, Linked, GenesOf, GeneCaps, FirstNamed, Without, Expanded;
    var genes, slug, own := GenesOf(db, e), db.genes[g].slug, Own(db.genes[g].inline);
    GenesWithout(db, e, g);
    if HasName(own, name) {
      var k :| 0 <= k < |own| && own[k].name == name;
    } else {
      forall k | 0 <= k < |genes| && genes[k].slug == slug ensures genes[k].inline == db.genes[g].inline {
        SlugsGene(db, e, g, k);
      }
      OthersUnchanged(genes, slug, name);
    }
  }

  lemma SlugsGene(db: Db, e: nat, g: nat, k: nat)
    requires e < |db.entities| && ActiveGene(db, g) && UniqueSlugs(db.genes)
    requires k < |GenesOf(db, e)| && GenesOf(db, e)[k].slug == db.genes[g].slug
    ensures GenesOf(db, e)[k].inline == db.genes[g].inline
  {
    hide GenesOf, Chosen;
    GenesHeld(db, e);
    assert Lookup(GenesOf(db, e), db.genes[g].slug) == Some(GenesOf(db, e)[k]);
    assert Chosen(db, e, db.genes[g].slug) == Some(g);
  }

  /** The gene's name the condition fails on shows the difference. */
  lemma IndispensableName(db: Db, e: nat, g: nat) returns (name: string)
    requires e < |db.entities| && ActiveGene(db, g) && UniqueSlugs(db.genes) && !Dispensable(db, e, g)
    ensures !HasName(MarketCaps(db.market, Linked(db.entityCaps, e)), name)
    ensures FirstNamed(GeneCaps(GenesOf(GeneDeleted(db, g), e)), name) != FirstNamed(GeneCaps(GenesOf(db, e)), name)
  {
    hide MarketCaps, Linked, GenesOf, GeneCaps, FirstNamed, Without, Expanded, HasName;
    var attached, genes, own := MarketCaps(db.market, Linked(db.entityCaps, e)), GenesOf(db, e), Own(db.genes[g].inline);
    GenesWithout(db, e, g);
    var k :| 0 <= k < |own| && !HasName(attached, own[k].name)
             && FirstNamed(GeneCaps(Without(genes, db.genes[g].slug)), own[k].name) != FirstNamed(GeneCaps(genes), own[k].name);
    name := own[k].name;
  }

  /** Surfaces are the same when they agree under every name. */
  lemma SurfacesAgree(db: Db, db': Db, e: nat)
    requires e < |db.entities| && e < |db'.entities|
    ensures Surface(db, e) == Surface(db', e) <==> SameGroups(Surface(db, e), Surface(db', e), NameOf)
  {
    hide Surface, Having, Ordered;
    SurfaceHolds(db, e, "");
    SurfaceHolds(db', e, "");
    if SameGroups(Surface(db, e), Surface(db', e), NameOf) {
      OrderedSame(Surface(db, e), Surface(db', e), NameOf);
    }
  }

  /** Deleting a gene leaves the surface of an entity alone exactly when the entity loses
      nothing with it. */
  lemma SurfaceSurvives(db: Db, e: nat, g: nat)
    requires e < |db.entities| && ActiveGene(db, g) && UniqueSlugs(db.genes)
    ensures Surface(GeneDeleted(db, g), e) == Surface(db, e) <==> Dispensable(db, e, g)
  {
    hide Surface, MarketCaps, Linked, GenesOf, GeneCaps, FirstNamed, Having, HasName, Dispensable, UniqueSlugs;
    var db' := GeneDeleted(db, g);
    if Dispensable(db, e, g) {
      forall name ensures Having(Surface(db, e), NameOf, name) == Having(Surface(db', e), NameOf, name) {
        SurfaceHolds(db, e, name);
        SurfaceHolds(db', e, name);
        if !HasName(MarketCaps(db.market, Linked(db.entityCaps, e)), name) {
          DispensableNames(db, e, g, name);
        }
      }
      SurfacesAgree(db, db', e);
    } else {
      var name := IndispensableName(db, e, g);
      SurfaceHolds(db, e, name);
      SurfaceHolds(db', e, name);
    }
  }

  /** The digest tells an entity's two surfaces apart, if they differ. */
  ghost predicate Tells(db: Db, db': Db, e: nat, c: Codec<Capability>)
    requires e < |db.entities| && e < |db'.entities|
  {
    Fresh(db, e, c) == Fresh(db', e, c) ==> Surface(db, e) == Surface(db', e)
  }

  /** No hash is computed again when a gene is deleted.  The stored hashes stay right exactly
      when every active entity that uses the gene, directly or through its base class, loses
      nothing with it. */
  lemma DeletionExact(db: Db, g: nat, c: Codec<Capability>)
    requires Coherent(db, c) && ActiveGene(db, g) && UniqueSlugs(db.genes)
    requires forall e :: e in Affected(db, g) ==> Tells(db, GeneDeleted(db, g), e, c)
    ensures Coherent(GeneDeleted(db, g), c) <==> forall e :: e in Affected(db, g) ==> Dispensable(db, e, g)
  {
    hide Surface, ComputeMigrationHash, Dispensable, UniqueSlugs, Linked;
    var db' := GeneDeleted(db, g);
    forall e | 0 <= e < |db.entities| && !db.entities[e].deleted
      ensures db'.entities[e].hash == Fresh(db', e, c) <==> e !in Affected(db, g) || Dispensable(db, e, g)
    {
      if e in Affected(db, g) {
        SurfaceSurvives(db, e, g);
        assert Tells(db, db', e, c);
      } else {
        PassedOverUnchanged(db, g, db'.genes[g], e);
      }
    }
    forall e | e in Affected(db, g) ensures e < |db.entities| && !db.entities[e].deleted {
      AffectedActive(db, g, e);
    }
  }

  lemma AffectedActive(db: Db, g: nat, e: nat)
    requires e in Affected(db, g)
    ensures e < |db.entities| && !db.entities[e].deleted
  {
    hide Linked;
  }

  /** One entity with one gene that has one inline capability: deleting the gene leaves the
      entity with a hash that is not the hash of its surface, if the digest tells the two
      surfaces apart. */
  lemma GeneDeletionBreaks(db: Db, c: Codec<Capability>, name: string)
    requires name != "" && Coherent(db, c)
    requires db.genes == [Gene("g", Some([Item(Some(name), None, None)]), "", false)] && db.entityGenes == [Link(0, 0, false)]
    requires |db.entities| == 1 && db.entities[0].preset == None && !db.entities[0].deleted && db.entityCaps == []
    requires ComputeMigrationHash(Some([Capability(name, "skill", None, None)]), db.entities[0].prompt, c)
             != ComputeMigrationHash(Some([]), db.entities[0].prompt, c)
    ensures !Coherent(GeneDeleted(db, 0), c)
  {
    hide ComputeMigrationHash;
    var db' := GeneDeleted(db, 0);
    var links := db.entityGenes;
    assert Linked(links, 0) == Linked(links[..0], 0) + [0] == [0];
    OneGeneSurface(db, name);
    assert Linked(db.entityCaps, 0) == [];
    NoGeneSurface(db');
    assert Fresh(db, 0, c) != Fresh(db', 0, c);
  }

  lemma OneGeneSurface(db: Db, name: string)
    requires name != "" && db.genes == [Gene("g", Some([Item(Some(name), None, None)]), "", false)]
    requires |db.entities| == 1 && db.entities[0].preset == None
    requires Linked(db.entityGenes, 0) == [0] && Linked(db.entityCaps, 0) == []
    ensures Surface(db, 0) == [Capability(name, "skill", None, None)]
  {
    hide Linked;
    var inline, cap := [Item(Some(name), None, None)], Capability(name, "skill", None, None);
    var named := Named("g", Some(inline));
    assert [0][..0] == [] && Put([], named, true) == [named];
    assert Collected([], db.genes, [0], true) == Put(Collected([], db.genes, [0][..0], true), named, true);
    assert GenesOf(db, 0) == [named];
    assert inline[..0] == [] && Expanded(inline) == Expanded(inline[..0]) + [cap];
    assert [named][..0] == [] && GeneCaps([named]) == GeneCaps([named][..0]) + Expanded(inline);
    assert [cap][..0] == [] && Merged([], [cap][..0]) == [];
    assert Merged([], [cap]) == [cap];
    assert [cap][1..] == [] && SortedBy([cap], NameOf) == Insert(cap, SortedBy([cap][1..], NameOf), NameOf);
  }

  lemma NoGeneSurface(db: Db)
    requires |db.genes| == 1 && db.genes[0].deleted && |db.entities| == 1 && db.entities[0].preset == None
    requires Linked(db.entityGenes, 0) == [0] && Linked(db.entityCaps, 0) == []
    ensures Surface(db, 0) == []
  {
    hide Linked;
    assert [0][..0] == [];
    assert Collected([], db.genes, [0], true) == Collected([], db.genes, [0][..0], true);
    assert GenesOf(db, 0) == [];
  }
}

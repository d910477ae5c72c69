/**
 What the refusals of the outbound and endpoint managers buy (core/managers.go): a component
 resolves the tags it depends on once, at its start, and goes on using the instances it found.

 The two tables of a running box change one operation at a time.  `resolved` remembers what each
 component found when it started; the box is faithful while a lookup still finds the same instance.
 */
module Instances {
  import opened ComponentTable

  datatype Kind = Out | End

  datatype Ref = Ref(kind: Kind, it: Component)

  datatype Box = Box(outbounds: Table, endpoints: Table, final: Tag, resolved: map<Ref, map<Tag, Ref>>)

  function TableOf(b: Box, kind: Kind): Table {
    if kind.Out? then b.outbounds else b.endpoints
  }

  /** outboundManager.Outbound: the outbound table first, then the endpoints. */
  function Lookup(b: Box, tag: Tag): Option<Ref> {
    if tag in b.outbounds.byTag then Some(Ref(Out, b.outbounds.byTag[tag]))
    else if tag in b.endpoints.byTag then Some(Ref(End, b.endpoints.byTag[tag]))
    else None
  }

  predicate Holds(b: Box, ref: Ref) {
    var t := TableOf(b, ref.kind);
    ref.it.tag in t.byTag && t.byTag[ref.it.tag] == ref.it
  }

  /** `dependents(tag)` is not empty. */
  ghost predicate Named(b: Box, tag: Tag) {
    exists ref :: Holds(b, ref) && tag in ref.it.dependencies
  }

  /** The refuse hooks of the two managers. */
  ghost predicate Refuses(b: Box, tag: Tag, removing: bool) {
    Named(b, tag) || (removing && tag == b.final)
  }

  ghost predicate Running(b: Box) {
    && Valid(b.outbounds) && Valid(b.endpoints)
    && b.outbounds.started && b.endpoints.started
    && b.outbounds.hooks == OutboundHooks(b.final) && b.endpoints.hooks == NoHooks
  }

  predicate Needs(ref: Ref, d: Tag) {
    ref.it.lifecycle && d in ref.it.dependencies
  }

  predicate StillFinds(b: Box, ref: Ref, d: Tag) {
    ref in b.resolved && d in b.resolved[ref] && Lookup(b, d) == Some(b.resolved[ref][d])
  }

  /** Every started component's dependencies still resolve to the very instances it started with. */
  ghost predicate Faithful(b: Box) {
    forall ref, d :: Holds(b, ref) && Needs(ref, d) ==> StillFinds(b, ref, d)
  }

  predicate Present(b: Box, dependencies: seq<Tag>) {
    forall d :: d in dependencies ==> Lookup(b, d).Some?
  }

  function Resolve(b: Box, dependencies: seq<Tag>): map<Tag, Ref> {
    map d | d in dependencies && Lookup(b, d).Some? :: Lookup(b, d).value
  }

  function Refs(b: Box): set<Ref> {
    (set tag | tag in b.outbounds.byTag :: Ref(Out, b.outbounds.byTag[tag])) +
    (set tag | tag in b.endpoints.byTag :: Ref(End, b.endpoints.byTag[tag]))
  }

  /** Puts a changed table in place; newcomers resolved against the box as it was when they started. */
  function Installed(b: Box, kind: Kind, t: Table): Box {
    var b' := if kind.Out? then b.(outbounds := t) else b.(endpoints := t);
    b'.(resolved := map ref | ref in Refs(b') ::
      if Holds(b, ref) && ref in b.resolved then b.resolved[ref] else Resolve(b, ref.it.dependencies))
  }

  // ---------- the changes ----------

  datatype Change =
    | Create(kind: Kind, r: Recipe, a: Attempt, again: Attempt)
    | Remove(kind: Kind, tag: Tag, a: Attempt)
    | RenameEndpoint(oldTag: Tag, r: Recipe, a: Attempt, again: Attempt)

  /** A component starts only when everything it depends on is there. */
  function Given(b: Box, a: Attempt, dependencies: seq<Tag>): Attempt {
    a.(starts := a.starts && Present(b, dependencies))
  }

  function GivenAgain(b: Box, t: Table, tag: Tag, again: Attempt): Attempt {
    if tag in t.recipes then Given(b, again, t.recipes[tag].dependencies) else again
  }

  ghost function Apply(b: Box, ch: Change): (Box, Result) {
    var refuse := (tag, removing) => Refuses(b, tag, removing);
    match ch
    case Create(kind, r, a, again) =>
      var t := TableOf(b, kind);
      var (t', result) := CreateSpec(t, r, refuse, Given(b, a, r.dependencies), GivenAgain(b, t, r.tag, again));
      (Installed(b, kind, t'), result)
    case Remove(kind, tag, a) =>
      var (t', result) := RemoveSpec(TableOf(b, kind), tag, refuse, a);
      (Installed(b, kind, t'), result)
    case RenameEndpoint(oldTag, r, a, again) =>
      var (t', result) := RenameSpec(b.endpoints, oldTag, r, refuse, Given(b, a, r.dependencies), GivenAgain(b, b.endpoints, if oldTag in b.endpoints.byTag then oldTag else r.tag, again));
      (Installed(b, End, t'), result)
  }

  // ---------- when an exchange of one component is safe ----------

  /** At most one component goes and at most one comes, in one of the two tables. */
  datatype Exchange = Exchange(kind: Kind, gone: Option<Component>, come: Option<Component>)

  function Exchanged(byTag: map<Tag, Component>, x: Exchange): map<Tag, Component> {
    var rest := if x.gone.Some? then byTag - {x.gone.value.tag} else byTag;
    if x.come.Some? then rest[x.come.value.tag := x.come.value] else rest
  }

  predicate SameTag(x: Exchange) {
    x.gone.Some? && x.come.Some? && x.gone.value.tag == x.come.value.tag
  }

  /** What the managers make sure of: nobody names the one that goes; the newcomer's tag is free and
      its dependencies are there. */
  ghost predicate Legal(b: Box, x: Exchange) {
    && (x.gone.Some? ==> Holds(b, Ref(x.kind, x.gone.value)) && !Named(b, x.gone.value.tag))
    && (x.come.Some? ==>
          && !Holds(b, Ref(x.kind, x.come.value))
          && (SameTag(x) || x.come.value.tag !in TableOf(b, x.kind).byTag)
          && (x.come.value.lifecycle ==> Present(b, x.come.value.dependencies)))
  }

  /** The newcomer names the tag it takes over, so at its start it finds the instance being closed. */
  predicate FindsTheClosedOne(b: Box, x: Exchange) {
    && x.gone.Some? && x.come.Some? && x.come.value.lifecycle
    && x.gone.value.tag in x.come.value.dependencies
    && Lookup(b, x.gone.value.tag) == Some(Ref(x.kind, x.gone.value))
  }

  ghost predicate StaysOrComes(b: Box, x: Exchange, ref: Ref) {
    || (Holds(b, ref) && !(x.gone.Some? && ref == Ref(x.kind, x.gone.value)))
    || (x.come.Some? && ref == Ref(x.kind, x.come.value))
  }

  /** An outbound enters under a new tag that a running component names: it hides the endpoint that
      component resolved. */
  ghost predicate Shadows(b: Box, x: Exchange) {
    && x.kind.Out? && x.come.Some? && !SameTag(x)
    && exists ref :: StaysOrComes(b, x, ref) && Needs(ref, x.come.value.tag)
  }

  ghost predicate Undisturbed(b: Box, b': Box) {
    forall ref, d :: Holds(b', ref) && Needs(ref, d) ==> Lookup(b', d) == Lookup(b, d)
  }

  lemma HeldAreRefs(b: Box, ref: Ref)
    requires Holds(b, ref)
    ensures ref in Refs(b)
  {
    if ref.kind.Out? {
      assert ref == Ref(Out, b.outbounds.byTag[ref.it.tag]);
    } else {
      assert ref == Ref(End, b.endpoints.byTag[ref.it.tag]);
    }
  }

  lemma ResolvedThen(b: Box, kind: Kind, t: Table, ref: Ref, d: Tag)
    requires Faithful(b) && Holds(Installed(b, kind, t), ref) && Needs(ref, d)
    requires Holds(b, ref) || Present(b, ref.it.dependencies)
    ensures StillFinds(Installed(b, kind, t), ref, d) <==> Lookup(Installed(b, kind, t), d) == Lookup(b, d)
  {
    HeldAreRefs(Installed(b, kind, t), ref);
    if Holds(b, ref) {
      assert StillFinds(b, ref, d);
    }
  }

  lemma FaithfulMeansUndisturbed(b: Box, kind: Kind, t: Table)
    requires Faithful(b)
    requires forall ref, d :: Holds(Installed(b, kind, t), ref) && Needs(ref, d) ==> Holds(b, ref) || Present(b, ref.it.dependencies)
    ensures Faithful(Installed(b, kind, t)) <==> Undisturbed(b, Installed(b, kind, t))
  {
    var b' := Installed(b, kind, t);
    forall ref, d | Holds(b', ref) && Needs(ref, d)
      ensures StillFinds(b', ref, d) <==> Lookup(b', d) == Lookup(b, d)
    {
      ResolvedThen(b, kind, t, ref, d);
    }
  }

  lemma ExchangedHolds(b: Box, x: Exchange, t: Table, ref: Ref)
    requires Legal(b, x) && t.byTag == Exchanged(TableOf(b, x.kind).byTag, x)
    ensures Holds(Installed(b, x.kind, t), ref) <==> StaysOrComes(b, x, ref)
  {
  }

  lemma ExchangedLookup(b: Box, x: Exchange, t: Table, d: Tag)
    requires Legal(b, x) && t.byTag == Exchanged(TableOf(b, x.kind).byTag, x)
    ensures Lookup(Installed(b, x.kind, t), d) == Lookup(b, d) ||
              (x.gone.Some? && d == x.gone.value.tag && Lookup(b, d) == Some(Ref(x.kind, x.gone.value))) ||
              (x.come.Some? && d == x.come.value.tag && !SameTag(x) && (x.kind.Out? || Lookup(b, d).None?))
  {
  }

  lemma SafeNeed(b: Box, x: Exchange, t: Table, ref: Ref, d: Tag)
    requires Faithful(b) && Legal(b, x) && t.byTag == Exchanged(TableOf(b, x.kind).byTag, x)
    requires !FindsTheClosedOne(b, x) && !Shadows(b, x)
    requires StaysOrComes(b, x, ref) && Needs(ref, d)
    ensures Lookup(Installed(b, x.kind, t), d) == Lookup(b, d)
  {
    ExchangedLookup(b, x, t, d);
    if Holds(b, ref) {
      assert StillFinds(b, ref, d);
      assert x.gone.Some? && d == x.gone.value.tag ==> Named(b, d);
    }
  }

  /** The exact condition: an exchange the managers allow keeps every resolution, unless the newcomer
      found the closed instance or hides an endpoint somebody resolved. */
  lemma ExchangeIsFaithful(b: Box, x: Exchange, t: Table)
    requires Faithful(b) && Legal(b, x) && t.byTag == Exchanged(TableOf(b, x.kind).byTag, x)
    ensures Faithful(Installed(b, x.kind, t)) <==> !FindsTheClosedOne(b, x) && !Shadows(b, x)
  {
    var b' := Installed(b, x.kind, t);
    forall ref
      ensures Holds(b', ref) <==> StaysOrComes(b, x, ref)
    {
      ExchangedHolds(b, x, t, ref);
    }
    FaithfulMeansUndisturbed(b, x.kind, t);
    if FindsTheClosedOne(b, x) {
      ClosedOneIsLost(b, x, t);
    } else if Shadows(b, x) {
      ShadowIsSeen(b, x, t);
    } else {
      forall ref, d | Holds(b', ref) && Needs(ref, d)
        ensures Lookup(b', d) == Lookup(b, d)
      {
        SafeNeed(b, x, t, ref, d);
      }
    }
  }

  lemma ClosedOneIsLost(b: Box, x: Exchange, t: Table)
    requires Legal(b, x) && t.byTag == Exchanged(TableOf(b, x.kind).byTag, x) && FindsTheClosedOne(b, x)
    ensures !Undisturbed(b, Installed(b, x.kind, t))
  {
    var b', newcomer := Installed(b, x.kind, t), Ref(x.kind, x.come.value);
    ExchangedHolds(b, x, t, newcomer);
    assert Holds(b', newcomer) && Needs(newcomer, x.gone.value.tag);
    assert !Holds(b', Ref(x.kind, x.gone.value)) by { ExchangedHolds(b, x, t, Ref(x.kind, x.gone.value)); }
  }

  lemma ShadowIsSeen(b: Box, x: Exchange, t: Table)
    requires Legal(b, x) && t.byTag == Exchanged(TableOf(b, x.kind).byTag, x) && Shadows(b, x)
    ensures !Undisturbed(b, Installed(b, x.kind, t))
  {
    var b' := Installed(b, x.kind, t);
    var ref :| StaysOrComes(b, x, ref) && Needs(ref, x.come.value.tag);
    ExchangedHolds(b, x, t, ref);
    assert Lookup(b', x.come.value.tag) == Some(Ref(Out, x.come.value));
  }

  // ---------- every change is such an exchange ----------

  /** What replacing `prev` does to the index, by outcome. */
  function ReplaceExchange(t: Table, kind: Kind, prev: Component, r: Recipe, result: Result): Exchange {
    match result
    case Done => Exchange(kind, Some(prev), Some(Instance(t, r)))
    case StartFailed(true) =>
      Exchange(kind, Some(prev),
        if prev.tag in t.recipes then Some(Instance(t.(nextId := t.nextId + 1), t.recipes[prev.tag])) else None)
    case StartFailed(false) => Exchange(kind, Some(prev), None)
    case _ => Exchange(kind, None, None)
  }

  lemma ReplaceIsExchange(t: Table, kind: Kind, prev: Component, r: Recipe, a: Attempt, again: Attempt)
    requires Valid(t) && t.started && prev in t.list
    ensures var (t', result) := ReplaceSpec(t, prev, r, a, again);
            && t'.byTag == Exchanged(t.byTag, ReplaceExchange(t, kind, prev, r, result))
            && (result.Done? && r.lifecycle ==> a.starts)
            && (result == StartFailed(true) ==> prev.tag in t.recipes && (t.recipes[prev.tag].lifecycle ==> again.starts))
  {
    hide Valid, Coherent, Swapped, Opened;
    var (t', result) := ReplaceSpec(t, prev, r, a, again);
    ShutKeeps(t, prev, r);
    if result.Done? {
      ReplacementKeepsPlace(t, prev, r, a, again);
    } else if result == StartFailed(true) {
      var shut := Shut(t.(nextId := t.nextId + 1), prev);
      RestoredShape(shut, prev, t.recipes[prev.tag], again);
    }
  }

  lemma InstanceIsNew(b: Box, kind: Kind, t: Table, r: Recipe)
    requires Running(b) && t.nextId >= TableOf(b, kind).nextId
    ensures !Holds(b, Ref(kind, Instance(t, r)))
  {
    var own := TableOf(b, kind);
    assert forall tag :: tag in own.byTag ==> own.byTag[tag] in Elements(own.list);
  }

  lemma ReplaceIsLegal(b: Box, kind: Kind, victim: Tag, r: Recipe, a: Attempt, again: Attempt)
    requires Running(b) && victim in TableOf(b, kind).byTag && !Named(b, victim)
    requires r.tag == victim || r.tag !in TableOf(b, kind).byTag
    ensures var t := TableOf(b, kind);
            var (t', result) := ReplaceSpec(t, t.byTag[victim], r, Given(b, a, r.dependencies), GivenAgain(b, t, victim, again));
            var x := ReplaceExchange(t, kind, t.byTag[victim], r, result);
            Legal(b, x) && t'.byTag == Exchanged(t.byTag, x)
  {
    var t := TableOf(b, kind);
    HeldIsListed(t, victim);
    var prev := t.byTag[victim];
    ReplaceIsExchange(t, kind, prev, r, Given(b, a, r.dependencies), GivenAgain(b, t, victim, again));
    InstanceIsNew(b, kind, t, r);
    if victim in t.recipes {
      RecordedDescribes(t, prev);
      InstanceIsNew(b, kind, t.(nextId := t.nextId + 1), t.recipes[victim]);
    }
  }

  /** A restored component asks for what its predecessor asked for, and nobody names that one's tag:
      a failed replacement never disturbs anything. */
  lemma FailedReplaceIsSafe(b: Box, kind: Kind, victim: Tag, r: Recipe, result: Result)
    requires Running(b) && victim in TableOf(b, kind).byTag && !Named(b, victim) && !result.Done?
    ensures var t := TableOf(b, kind);
            var x := ReplaceExchange(t, kind, t.byTag[victim], r, result);
            !FindsTheClosedOne(b, x) && !Shadows(b, x)
  {
    var t := TableOf(b, kind);
    HeldIsListed(t, victim);
    var prev := t.byTag[victim];
    RecordedDescribes(t, prev);
    assert Holds(b, Ref(kind, prev));
  }

  // ---------- the whole change ----------

  /** What a caller can see beforehand: the replacement names the very tag it replaces, or an outbound
      is about to enter under a tag a running component resolved to an endpoint. */
  ghost predicate Risky(b: Box, ch: Change) {
    match ch
    case Create(kind, r, _, _) => RiskyCreate(b, kind, r)
    case RenameEndpoint(oldTag, r, _, _) =>
      if oldTag == r.tag || oldTag !in b.endpoints.byTag then RiskyCreate(b, End, r)
      else FindsTheClosedOne(b, ReplaceExchange(b.endpoints, End, b.endpoints.byTag[oldTag], r, Done))
    case Remove(kind, tag, _) =>
      && kind.Out? && tag in b.outbounds.byTag && NeedsStandIn(b.outbounds, b.outbounds.byTag[tag])
      && Shadows(b, StandInExchange(b, tag))
  }

  ghost predicate RiskyCreate(b: Box, kind: Kind, r: Recipe) {
    var t := TableOf(b, kind);
    if r.tag in t.byTag then FindsTheClosedOne(b, ReplaceExchange(t, kind, t.byTag[r.tag], r, Done))
    else Shadows(b, Exchange(kind, None, Some(Instance(t, r))))
  }

  function StandInExchange(b: Box, tag: Tag): Exchange
    requires tag in b.outbounds.byTag
  {
    Exchange(Out, Some(b.outbounds.byTag[tag]), Some(Instance(b.outbounds, DIRECT)))
  }

  lemma UnchangedIsFaithful(b: Box, kind: Kind, t: Table)
    requires Faithful(b) && t.byTag == TableOf(b, kind).byTag
    ensures Faithful(Installed(b, kind, t))
  {
    ExchangeIsFaithful(b, Exchange(kind, None, None), t);
  }

  lemma ReplaceFaithful(b: Box, kind: Kind, victim: Tag, r: Recipe, a: Attempt, again: Attempt)
    requires Running(b) && Faithful(b) && victim in TableOf(b, kind).byTag && !Named(b, victim)
    requires r.tag == victim || (kind.End? && r.tag !in TableOf(b, kind).byTag)
    ensures var t := TableOf(b, kind);
            var (t', result) := ReplaceSpec(t, t.byTag[victim], r, Given(b, a, r.dependencies), GivenAgain(b, t, victim, again));
            Faithful(Installed(b, kind, t')) <==>
              !(result.Done? && FindsTheClosedOne(b, ReplaceExchange(t, kind, t.byTag[victim], r, Done)))
  {
    var t := TableOf(b, kind);
    var (t', result) := ReplaceSpec(t, t.byTag[victim], r, Given(b, a, r.dependencies), GivenAgain(b, t, victim, again));
    var x := ReplaceExchange(t, kind, t.byTag[victim], r, result);
    ReplaceIsLegal(b, kind, victim, r, a, again);
    ExchangeIsFaithful(b, x, t');
    if !result.Done? {
      FailedReplaceIsSafe(b, kind, victim, r, result);
    } else {
      HeldIsListed(t, victim);
      assert !Shadows(b, x);
    }
  }

  lemma CreateFaithful(b: Box, kind: Kind, r: Recipe, a: Attempt, again: Attempt)
    requires Running(b) && Faithful(b)
    ensures var (b', result) := Apply(b, Create(kind, r, a, again));
            Faithful(b') <==> !(result.Done? && RiskyCreate(b, kind, r))
  {
    var t := TableOf(b, kind);
    var (b', result) := Apply(b, Create(kind, r, a, again));
    if r.tag in t.byTag {
      UnchangedIsFaithful(b, kind, t);
      if !Named(b, r.tag) {
        ReplaceFaithful(b, kind, r.tag, r, a, again);
      }
    } else {
      NewcomerFaithful(b, kind, r, a, again);
    }
  }

  lemma NewcomerFaithful(b: Box, kind: Kind, r: Recipe, a: Attempt, again: Attempt)
    requires Running(b) && Faithful(b) && r.tag !in TableOf(b, kind).byTag
    ensures var (b', result) := Apply(b, Create(kind, r, a, again));
            Faithful(b') <==> !(result.Done? && RiskyCreate(b, kind, r))
  {
    hide Valid, Faithful, Shadows, Holds, Named, Installed;
    var t := TableOf(b, kind);
    var it := Instance(t, r);
    var next := t.(nextId := t.nextId + 1);
    UnchangedIsFaithful(b, kind, t);
    UnchangedIsFaithful(b, kind, next);
    if r.lifecycle ==> a.starts && Present(b, r.dependencies) {
      NewcomerExchange(b, kind, r, Added(Opened(next, it), it, Some(r)));
    }
  }

  lemma NewcomerExchange(b: Box, kind: Kind, r: Recipe, t': Table)
    requires Running(b) && Faithful(b) && r.tag !in TableOf(b, kind).byTag
    requires r.lifecycle ==> Present(b, r.dependencies)
    requires t'.byTag == TableOf(b, kind).byTag[r.tag := Instance(TableOf(b, kind), r)]
    ensures Faithful(Installed(b, kind, t')) <==> !RiskyCreate(b, kind, r)
  {
    InstanceIsNew(b, kind, TableOf(b, kind), r);
    hide Valid, Faithful, Shadows, Installed;
    ExchangeIsFaithful(b, Exchange(kind, None, Some(Instance(TableOf(b, kind), r))), t');
  }

  lemma RemoveFaithful(b: Box, kind: Kind, tag: Tag, a: Attempt)
    requires Running(b) && Faithful(b)
    ensures var (b', result) := Apply(b, Remove(kind, tag, a));
            Faithful(b') <==> !(result.Done? && Risky(b, Remove(kind, tag, a)))
  {
    hide Valid, Faithful, Installed, Shadows, Named, Swapped, Dropped;
    var t := TableOf(b, kind);
    UnchangedIsFaithful(b, kind, t);
    if tag in t.byTag && !Refuses(b, tag, true) {
      HeldTag(t, tag);
      if NeedsStandIn(t, t.byTag[tag]) {
        StandInFaithful(b, tag, a);
      } else {
        DropFaithful(b, kind, tag);
      }
    }
  }

  lemma DropFaithful(b: Box, kind: Kind, tag: Tag)
    requires Running(b) && Faithful(b) && tag in TableOf(b, kind).byTag && !Named(b, tag)
    ensures var t := TableOf(b, kind);
            Faithful(Installed(b, kind, Shut(Dropped(t, t.byTag[tag]), t.byTag[tag])))
  {
    hide Valid, Faithful, Installed, Named, Shadows;
    var t := TableOf(b, kind);
    var it := t.byTag[tag];
    HeldTag(t, tag);
    var x := Exchange(kind, Some(it), None);
    NothingShadows(b, x);
    ExchangeIsFaithful(b, x, Shut(Dropped(t, it), it));
  }

  lemma NothingShadows(b: Box, x: Exchange)
    requires x.come.None?
    ensures !Shadows(b, x)
  {
  }

  lemma StandInIsLegal(b: Box, tag: Tag)
    requires Running(b) && tag in b.outbounds.byTag && !Named(b, tag)
    requires NeedsStandIn(b.outbounds, b.outbounds.byTag[tag])
    ensures Legal(b, StandInExchange(b, tag)) && !FindsTheClosedOne(b, StandInExchange(b, tag))
  {
    var t := b.outbounds;
    HeldIsListed(t, tag);
    InstanceIsNew(b, Out, t, DIRECT);
    if DIRECT.tag in t.byTag {
      HeldIsListed(t, DIRECT.tag);
    }
  }

  lemma StandInFaithful(b: Box, tag: Tag, a: Attempt)
    requires Running(b) && Faithful(b) && tag in b.outbounds.byTag && !Refuses(b, tag, true)
    requires NeedsStandIn(b.outbounds, b.outbounds.byTag[tag])
    ensures var (b', result) := Apply(b, Remove(Out, tag, a));
            Faithful(b') <==> !(result.Done? && Shadows(b, StandInExchange(b, tag)))
  {
    hide Valid, Faithful, Installed, Shadows, Holds, Named, Legal, FindsTheClosedOne;
    var t := b.outbounds;
    var it, standIn := t.byTag[tag], Instance(t, DIRECT);
    var next := t.(nextId := t.nextId + 1);
    HeldTag(t, tag);
    UnchangedIsFaithful(b, Out, t);
    UnchangedIsFaithful(b, Out, next);
    StandInIsLegal(b, tag);
    var t' := Shut(Swapped(Opened(next, standIn), it, standIn, None), it);
    assert t'.byTag == Exchanged(t.byTag, StandInExchange(b, tag));
    ExchangeIsFaithful(b, StandInExchange(b, tag), t');
  }

  lemma HeldTag(t: Table, tag: Tag)
    requires Valid(t) && tag in t.byTag
    ensures t.byTag[tag].tag == tag
  {
    HeldIsListed(t, tag);
  }

  /** The theorem for one change: a change that does not go through disturbs nothing; one that does
      keeps every resolution exactly when it is not risky. */
  lemma ChangeIsFaithful(b: Box, ch: Change)
    requires Running(b) && Faithful(b)
    ensures Faithful(Apply(b, ch).0) <==> !(Apply(b, ch).1.Done? && Risky(b, ch))
  {
    match ch
    case Create(kind, r, a, again) => CreateFaithful(b, kind, r, a, again);
    case Remove(kind, tag, a) => RemoveFaithful(b, kind, tag, a);
    case RenameEndpoint(oldTag, r, a, again) =>
      var t := b.endpoints;
      UnchangedIsFaithful(b, End, t);
      if oldTag == r.tag || oldTag !in t.byTag {
        CreateFaithful(b, End, r, a, again);
        assert Apply(b, ch) == Apply(b, Create(End, r, a, again));
      } else if r.tag !in t.byTag && !Refuses(b, oldTag, true) {
        ReplaceFaithful(b, End, oldTag, r, a, again);
      }
  }

  lemma CreateKeepsStarted(t: Table, r: Recipe, refuse: (Tag, bool) -> bool, a: Attempt, again: Attempt)
    ensures var t' := CreateSpec(t, r, refuse, a, again).0; t'.started == t.started && t'.hooks == t.hooks
  {
  }

  lemma ChangeKeepsRunning(b: Box, ch: Change)
    requires Running(b)
    ensures Running(Apply(b, ch).0)
  {
    hide Valid, CreateSpec, ReplaceSpec;
    var refuse := (tag, removing) => Refuses(b, tag, removing);
    match ch
    case Create(kind, r, a, again) =>
      var t := TableOf(b, kind);
      CreateKeeps(t, r, refuse, Given(b, a, r.dependencies), GivenAgain(b, t, r.tag, again));
      CreateKeepsStarted(t, r, refuse, Given(b, a, r.dependencies), GivenAgain(b, t, r.tag, again));
    case Remove(kind, tag, a) => RemoveKeepsRunning(b, kind, tag, a);
    case RenameEndpoint(oldTag, r, a, again) => RenameKeepsRunning(b, oldTag, r, a, again);
  }

  lemma RemoveKeepsRunning(b: Box, kind: Kind, tag: Tag, a: Attempt)
    requires Running(b)
    ensures Running(Apply(b, Remove(kind, tag, a)).0)
  {
    hide Valid;
    RemoveKeeps(TableOf(b, kind), tag, (tag, removing) => Refuses(b, tag, removing), a);
  }

  lemma RenameKeepsRunning(b: Box, oldTag: Tag, r: Recipe, a: Attempt, again: Attempt)
    requires Running(b)
    ensures Running(Apply(b, RenameEndpoint(oldTag, r, a, again)).0)
  {
    hide Valid;
    RenameKeeps(b.endpoints, oldTag, r, (tag, removing) => Refuses(b, tag, removing), Given(b, a, r.dependencies),
                GivenAgain(b, b.endpoints, if oldTag in b.endpoints.byTag then oldTag else r.tag, again));
  }

  ghost function After(b: Box, changes: seq<Change>): Box
    decreases |changes|
  {
    if changes == [] then b else Apply(After(b, changes[..|changes| - 1]), changes[|changes| - 1]).0
  }

  ghost predicate NeverRisky(b: Box, changes: seq<Change>) {
    forall i :: 0 <= i < |changes| ==> !Risky(After(b, changes[..i]), changes[i])
  }

  /** Over any sequence of changes, none of them risky, every component's dependencies still resolve to
      the instances that were there when it started. */
  lemma {:induction false} NothingDependedOnMoves(b: Box, changes: seq<Change>)
    requires Running(b) && Faithful(b) && NeverRisky(b, changes)
    ensures Running(After(b, changes)) && Faithful(After(b, changes))
    decreases |changes|
  {
    hide Risky, Running, Faithful, Apply;
    if changes != [] {
      var n := |changes| - 1;
      var front := changes[..n];
      assert forall i :: 0 <= i < |front| ==> front[..i] == changes[..i];
      NothingDependedOnMoves(b, front);
      assert !Risky(After(b, front), changes[n]);
      ChangeKeepsRunning(After(b, front), changes[n]);
      ChangeIsFaithful(After(b, front), changes[n]);
    }
  }

  // ---------- the ways it goes wrong, at an input each ----------

  function Solo(hooks: Hooks, it: Component): Table {
    Table(hooks, true, [it], map[it.tag := it], map[], {it}, if hooks.NoHooks? then None else Some(it), it.id + 1)
  }

  function Bare(hooks: Hooks): Table {
    Table(hooks, true, [], map[], map[], {}, None, 0)
  }

  lemma SoloIsValid(hooks: Hooks, it: Component)
    requires it.lifecycle
    ensures Valid(Solo(hooks, it)) && Valid(Bare(hooks))
  {
    var t := Solo(hooks, it);
    assert Elements(t.list) == {it};
    assert t.open == ComponentTable.Running(t);
  }

  /** A box with one component, alone in its table. */
  function Lone(kind: Kind, it: Component): Box {
    if kind.Out? then Box(Solo(OutboundHooks(""), it), Bare(NoHooks), "", map[])
    else Box(Bare(OutboundHooks("")), Solo(NoHooks, it), "", map[])
  }

  lemma LoneIsFaithful(kind: Kind, it: Component)
    requires it.lifecycle && it.dependencies == []
    ensures Running(Lone(kind, it)) && Faithful(Lone(kind, it)) && !Named(Lone(kind, it), it.tag)
    ensures Holds(Lone(kind, it), Ref(kind, it)) && Lookup(Lone(kind, it), it.tag) == Some(Ref(kind, it))
  {
    SoloIsValid(if kind.Out? then OutboundHooks("") else NoHooks, it);
    SoloIsValid(if kind.Out? then NoHooks else OutboundHooks(""), it);
    assert forall ref :: Holds(Lone(kind, it), ref) ==> ref == Ref(kind, it);
  }

  const PLAIN := Component(0, "group", [], true)

  /** A component saved with itself as a member, in either table, replaces the plain one of that name: it
      starts, and holds on to the instance it just closed. */
  lemma SelfMemberGoesStale(kind: Kind, a: Attempt)
    requires a.builds && a.starts
    ensures Running(Lone(kind, PLAIN)) && Faithful(Lone(kind, PLAIN))
    ensures var (b', result) := Apply(Lone(kind, PLAIN), Create(kind, Recipe("group", ["group"], true, 0), a, a));
            result.Done? && !Faithful(b')
  {
    hide Valid, Faithful, Running, Swapped, Opened, Installed, Dropped, Shut;
    var b, r := Lone(kind, PLAIN), Recipe("group", ["group"], true, 0);
    var ch := Create(kind, r, a, a);
    LoneIsFaithful(kind, PLAIN);
    assert r.dependencies[0] == "group" && forall d :: d in r.dependencies ==> d == "group";
    assert Present(b, r.dependencies);
    assert "group" in TableOf(b, kind).byTag && TableOf(b, kind).started;
    assert Apply(b, ch).1.Done?;
    assert Risky(b, ch);
    ChangeIsFaithful(b, ch);
  }

  /** An endpoint renamed to one that dials through its own old name does the same. */
  lemma RenamedOntoItselfGoesStale(a: Attempt)
    requires a.builds && a.starts
    ensures Running(Lone(End, PLAIN)) && Faithful(Lone(End, PLAIN))
    ensures var (b', result) := Apply(Lone(End, PLAIN), RenameEndpoint("group", Recipe("next", ["group"], true, 0), a, a));
            result.Done? && !Faithful(b')
  {
    hide Valid, Faithful, Running, Swapped, Opened, Installed, Dropped, Shut;
    var b, r := Lone(End, PLAIN), Recipe("next", ["group"], true, 0);
    var ch := RenameEndpoint("group", r, a, a);
    LoneIsFaithful(End, PLAIN);
    assert r.dependencies[0] == "group" && forall d :: d in r.dependencies ==> d == "group";
    assert Present(b, r.dependencies);
    assert "group" != "next" && "next" != "" && "group" != "";
    assert "group" in b.endpoints.byTag && "next" !in b.endpoints.byTag;
    assert !Refuses(b, "group", true);
    assert Apply(b, ch).1.Done?;
    assert Risky(b, ch);
    ChangeIsFaithful(b, ch);
  }

  const BASE := Component(0, DIRECT.tag, [], true)
  const USER := Component(1, "tunnel", [DIRECT.tag], true)
  const LAST := Component(0, "last", [], true)

  /** Two endpoints, one dialing through the other, which is called "direct"; and one outbound. */
  const SHADOWED := Box(
    Solo(OutboundHooks(""), LAST),
    Table(NoHooks, true, [BASE, USER], map[BASE.tag := BASE, USER.tag := USER], map[], {BASE, USER}, None, 2),
    "",
    map[Ref(End, USER) := map[BASE.tag := Ref(End, BASE)]])

  lemma ShadowedIsRunning()
    ensures Running(SHADOWED)
  {
    var ends := SHADOWED.endpoints;
    SoloIsValid(OutboundHooks(""), LAST);
    assert Elements(ends.list) == {BASE, USER};
    assert ends.open == ComponentTable.Running(ends);
  }

  lemma ShadowedHolds(ref: Ref)
    ensures Holds(SHADOWED, ref) <==> ref in {Ref(End, BASE), Ref(End, USER), Ref(Out, LAST)}
  {
  }

  lemma ShadowedIsFaithful()
    ensures Faithful(SHADOWED) && !Named(SHADOWED, LAST.tag) && Needs(Ref(End, USER), DIRECT.tag)
  {
    hide Holds;
    forall ref
      ensures Holds(SHADOWED, ref) <==> ref in {Ref(End, BASE), Ref(End, USER), Ref(Out, LAST)}
    {
      ShadowedHolds(ref);
    }
    assert DIRECT.tag != LAST.tag && USER.dependencies[0] == DIRECT.tag;
  }

  /** The stand-in for the last outbound is called "direct": with an endpoint of that name that another
      endpoint dials through, removing the last outbound changes whom the lookup finds. */
  lemma StandInShadowsEndpoint(a: Attempt)
    requires a.builds && a.starts
    ensures Running(SHADOWED) && Faithful(SHADOWED)
    ensures var (b', result) := Apply(SHADOWED, Remove(Out, LAST.tag, a));
            result.Done? && !Faithful(b')
  {
    hide Valid, Faithful, Running, Named, Holds, Needs, Swapped, Opened, Installed, Dropped, Shut;
    var b, ch := SHADOWED, Remove(Out, LAST.tag, a);
    ShadowedIsRunning();
    ShadowedIsFaithful();
    ShadowedHolds(Ref(End, USER));
    assert NeedsStandIn(b.outbounds, LAST);
    var x := StandInExchange(b, LAST.tag);
    assert StaysOrComes(b, x, Ref(End, USER));
    assert x.come.value.tag == DIRECT.tag && Shadows(b, x);
    assert Risky(b, ch);
    assert LAST.tag != "";
    assert Apply(b, ch).1.Done?;
    ChangeIsFaithful(b, ch);
  }

  /** So does creating an outbound under the tag of an endpoint somebody depends on, which the managers do
      not refuse. */
  lemma OutboundShadowsEndpoint(r: Recipe, a: Attempt)
    requires a.builds && a.starts && r.tag == BASE.tag && r.dependencies == []
    ensures Running(SHADOWED) && Faithful(SHADOWED)
    ensures var (b', result) := Apply(SHADOWED, Create(Out, r, a, a));
            result.Done? && !Faithful(b')
  {
    hide Valid, Faithful, Running, Named, Holds, Needs, Swapped, Opened, Installed, Dropped, Shut, Added;
    var b, ch := SHADOWED, Create(Out, r, a, a);
    ShadowedIsRunning();
    ShadowedIsFaithful();
    ShadowedHolds(Ref(End, USER));
    assert r.tag != LAST.tag && r.tag != "";
    assert r.tag !in b.outbounds.byTag;
    var x := Exchange(Out, None, Some(Instance(b.outbounds, r)));
    assert StaysOrComes(b, x, Ref(End, USER)) && Shadows(b, x);
    assert Risky(b, ch);
    assert Apply(b, ch).1.Done?;
    ChangeIsFaithful(b, ch);
  }
}

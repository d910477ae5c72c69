/**
 Hot changes and the next restart (core/managers.go): a box that was changed while it ran is started
 again from what it holds.  Hot creation never vets dependencies, so this is where it shows.
 */
module HotRestart {
  import opened ComponentTable
  import opened Instances
  import D = Dependencies

  // ---------- what a restart is given ----------

  function Entry(c: Component): D.Outbound {
    D.Outbound(c.tag, c.dependencies)
  }

  function Entries(list: seq<Component>): (r: seq<D.Outbound>)
    ensures |r| == |list| && forall i :: 0 <= i < |list| ==> r[i] == Entry(list[i])
  {
    seq(|list|, i requires 0 <= i < |list| => Entry(list[i]))
  }

  /** Outbounds first, then endpoints, as the start loop gets them. */
  function StartList(b: Box): seq<D.Outbound> {
    Entries(b.outbounds.list) + Entries(b.endpoints.list)
  }

  /** A restart from what the box holds gets through, as far as dependencies go. */
  ghost predicate Restartable(b: Box) {
    D.DistinctTags(StartList(b)) && D.Startable(D.GraphOf(StartList(b)))
  }

  method Restart(b: Box, starts: D.Outbound -> bool) returns (r: D.Outcome, order: seq<D.Outbound>)
    requires forall o :: o in StartList(b) ==> starts(o)
    ensures r.Started? <==> Restartable(b)
    ensures r.Started? ==> D.DependenciesFirst(order) && |order| == |StartList(b)|
  {
    r, order := D.StartOutbounds(StartList(b), starts);
  }

  // ---------- the same through the two indexes ----------

  function Held(b: Box): set<Tag> {
    b.outbounds.byTag.Keys + b.endpoints.byTag.Keys
  }

  predicate Apart(b: Box) {
    b.outbounds.byTag.Keys !! b.endpoints.byTag.Keys
  }

  function Holder(b: Box, t: Tag): Component
    requires t in Held(b)
  {
    if t in b.outbounds.byTag then b.outbounds.byTag[t] else b.endpoints.byTag[t]
  }

  function Net(b: Box): D.Graph {
    map t | t in Held(b) :: D.TagSet(Holder(b, t).dependencies)
  }

  lemma ListMatchesIndex(t: Table, tag: Tag)
    requires Valid(t)
    ensures tag in t.byTag <==> exists i :: 0 <= i < |t.list| && t.list[i].tag == tag
    ensures tag in t.byTag ==> t.byTag[tag] in t.list && t.byTag[tag].tag == tag
    ensures forall c :: c in t.list && c.tag == tag ==> tag in t.byTag && t.byTag[tag] == c
  {
    if tag in t.byTag {
      assert t.byTag[tag] in Elements(t.list);
      var i :| 0 <= i < |t.list| && t.list[i] == t.byTag[tag];
    }
    forall c | c in t.list && c.tag == tag
      ensures tag in t.byTag && t.byTag[tag] == c
    {
      assert c in Elements(t.list);
    }
    assert forall i :: 0 <= i < |t.list| ==> t.list[i] in t.list;
  }

  lemma InEntries(t: Table, o: D.Outbound)
    requires Valid(t)
    ensures o in Entries(t.list) <==> o.tag in t.byTag && Entry(t.byTag[o.tag]) == o
  {
    ListMatchesIndex(t, o.tag);
    if o in Entries(t.list) {
      var i :| 0 <= i < |t.list| && Entries(t.list)[i] == o;
      assert t.list[i] in t.list && t.list[i].tag == o.tag;
    }
    if o.tag in t.byTag && Entry(t.byTag[o.tag]) == o {
      var i :| 0 <= i < |t.list| && t.list[i] == t.byTag[o.tag];
      assert Entries(t.list)[i] == o;
    }
  }

  lemma InStartList(b: Box, o: D.Outbound)
    requires Instances.Running(b) && Apart(b)
    ensures o in StartList(b) <==> o.tag in Held(b) && Entry(Holder(b, o.tag)) == o
  {
    hide Valid, Entries;
    InEntries(b.outbounds, o);
    InEntries(b.endpoints, o);
    assert o in StartList(b) <==> o in Entries(b.outbounds.list) || o in Entries(b.endpoints.list);
  }

  lemma ApartIsDistinct(b: Box)
    requires Instances.Running(b)
    ensures D.DistinctTags(StartList(b)) <==> Apart(b)
  {
    hide Valid;
    var outs, ends, obs := b.outbounds, b.endpoints, StartList(b);
    var n := |outs.list|;
    ValidIsDistinct(outs);
    ValidIsDistinct(ends);
    if Apart(b) {
      assert forall i :: 0 <= i < |obs| ==> if i < n then obs[i].tag == outs.list[i].tag else obs[i].tag == ends.list[i - n].tag;
    } else {
      var t :| t in outs.byTag && t in ends.byTag;
      ListMatchesIndex(outs, t);
      ListMatchesIndex(ends, t);
      var i :| 0 <= i < n && outs.list[i].tag == t;
      var j :| 0 <= j < |ends.list| && ends.list[j].tag == t;
      assert obs[i].tag == t && obs[n + j].tag == t;
    }
  }

  lemma ValidIsDistinct(t: Table)
    requires Valid(t)
    ensures ComponentTable.DistinctTags(t.list) && forall i :: 0 <= i < |t.list| ==> t.list[i].tag in t.byTag
  {
    forall i | 0 <= i < |t.list|
      ensures t.list[i].tag in t.byTag
    {
      assert t.list[i] in Elements(t.list);
    }
  }

  lemma GraphIsNet(b: Box)
    requires Instances.Running(b) && Apart(b)
    ensures D.GraphOf(StartList(b)) == Net(b)
  {
    hide Valid;
    var obs := StartList(b);
    ApartIsDistinct(b);
    forall t
      ensures t in D.Tags(obs) <==> t in Held(b)
      ensures t in Held(b) ==> D.Named(obs, t) == D.TagSet(Holder(b, t).dependencies)
    {
      NetAt(b, t);
    }
    assert D.GraphOf(obs).Keys == D.Tags(obs);
  }

  lemma NetAt(b: Box, t: Tag)
    requires Instances.Running(b) && Apart(b) && D.DistinctTags(StartList(b))
    ensures t in D.Tags(StartList(b)) <==> t in Held(b)
    ensures t in Held(b) ==> D.Named(StartList(b), t) == D.TagSet(Holder(b, t).dependencies)
  {
    var obs := StartList(b);
    ListMatchesIndex(b.outbounds, t);
    ListMatchesIndex(b.endpoints, t);
    D.TagsMeans(obs, t);
    if t in D.Tags(obs) {
      var o :| o in obs && o.tag == t;
      InStartList(b, o);
    }
    if t in Held(b) {
      var it := Holder(b, t);
      InStartList(b, Entry(it));
      NamedAlone(obs, Entry(it));
    }
  }

  lemma NamedAlone(obs: seq<D.Outbound>, o: D.Outbound)
    requires D.DistinctTags(obs) && o in obs
    ensures D.Named(obs, o.tag) == D.TagSet(o.dependencies)
  {
    var i :| 0 <= i < |obs| && obs[i] == o;
    assert forall j :: 0 <= j < |obs| && obs[j].tag == o.tag ==> j == i;
  }

  lemma RestartableMeans(b: Box)
    requires Instances.Running(b)
    ensures Restartable(b) <==> Apart(b) && D.Startable(Net(b))
  {
    hide D.Startable;
    ApartIsDistinct(b);
    if Apart(b) {
      GraphIsNet(b);
    }
  }

  // ---------- one component out, one in ----------

  function Without(g: D.Graph, t: Tag): D.Graph {
    map x | x in g && x != t :: g[x]
  }

  lemma WithoutIsStartable(g: D.Graph, t: Tag)
    requires D.Startable(g) && forall x :: x in g && x != t ==> t !in g[x]
    ensures D.Startable(Without(g, t))
  {
    var w := Without(g, t);
    forall a, b | D.Edge(w, a, b)
      ensures b in w
    {
      assert D.Edge(g, a, b);
    }
    if p :| D.IsCycle(w, p) {
      forall i | 0 <= i < |p| - 1
        ensures D.Edge(g, p[i], p[i + 1])
      {
        assert D.Edge(w, p[i], p[i + 1]);
      }
      assert D.IsCycle(g, p);
    }
  }

  /** A new tag may name exactly what is there. */
  lemma NewcomerIsStartable(g: D.Graph, t: Tag, deps: set<Tag>)
    requires D.Startable(g) && t !in g
    ensures D.Startable(g[t := deps]) <==> deps <= g.Keys
  {
    var e := g[t := deps];
    if D.Startable(e) {
      forall d | d in deps
        ensures d in g
      {
        assert D.Edge(e, t, d);
        if d == t {
          assert D.IsCycle(e, [t, t]);
        }
      }
    }
    if deps <= g.Keys {
      forall x | x in g.Keys
        ensures x in e && e[x] <= g.Keys
      {
        forall y | y in g[x]
          ensures y in g
        {
          assert D.Edge(g, x, y);
        }
      }
      forall p | D.Walk(e, p) && |p| >= 2 && p[0] == t
        ensures p[|p| - 1] in e && p[|p| - 1] != t
      {
        assert D.Edge(e, p[0], p[0 + 1]);
        D.TrappedWalk(e, g.Keys, p, 1);
      }
      D.VettingIsExact(g, t, deps);
    }
  }

  /** What is left when the one that goes is gone. */
  function Stay(b: Box, x: Exchange): set<Tag> {
    if x.gone.Some? then Held(b) - {x.gone.value.tag} else Held(b)
  }

  /** The newcomer's tag is free in both tables, and it names only what stays. */
  predicate Clean(b: Box, x: Exchange) {
    x.come.Some? ==> x.come.value.tag !in Stay(b, x) && D.TagSet(x.come.value.dependencies) <= Stay(b, x)
  }

  lemma ExchangedParts(b: Box, x: Exchange, t: Table)
    requires Apart(b) && Legal(b, x) && t.byTag == Exchanged(TableOf(b, x.kind).byTag, x)
    ensures var b' := Installed(b, x.kind, t);
            && Held(b') == Stay(b, x) + (if x.come.Some? then {x.come.value.tag} else {})
            && (Apart(b') <==> x.come.Some? ==> x.come.value.tag !in Stay(b, x))
  {
  }

  lemma ExchangedNet(b: Box, x: Exchange, t: Table)
    requires Apart(b) && Legal(b, x) && t.byTag == Exchanged(TableOf(b, x.kind).byTag, x)
    requires x.come.Some? ==> x.come.value.tag !in Stay(b, x)
    ensures var b', g := Installed(b, x.kind, t), if x.gone.Some? then Without(Net(b), x.gone.value.tag) else Net(b);
            Net(b') == if x.come.Some? then g[x.come.value.tag := D.TagSet(x.come.value.dependencies)] else g
  {
    hide D.TagSet, Legal, Exchanged, Held, Installed, Net;
    ExchangedParts(b, x, t);
    NetKeys(b);
    NetKeys(Installed(b, x.kind, t));
    var b', g := Installed(b, x.kind, t), if x.gone.Some? then Without(Net(b), x.gone.value.tag) else Net(b);
    var e := if x.come.Some? then g[x.come.value.tag := D.TagSet(x.come.value.dependencies)] else g;
    forall tag | tag in Net(b')
      ensures tag in e && Net(b')[tag] == e[tag]
    {
      ExchangedHolder(b, x, t, tag);
    }
    assert Net(b').Keys == e.Keys;
  }

  lemma NetKeys(b: Box)
    ensures Net(b).Keys == Held(b)
    ensures forall t :: t in Held(b) ==> Net(b)[t] == D.TagSet(Holder(b, t).dependencies)
  {
    hide D.TagSet;
  }

  lemma ExchangedHolder(b: Box, x: Exchange, t: Table, tag: Tag)
    requires Apart(b) && Legal(b, x) && t.byTag == Exchanged(TableOf(b, x.kind).byTag, x)
    requires x.come.Some? ==> x.come.value.tag !in Stay(b, x)
    requires tag in Held(Installed(b, x.kind, t))
    ensures var it := Holder(Installed(b, x.kind, t), tag);
            if x.come.Some? && tag == x.come.value.tag then it == x.come.value else tag in Stay(b, x) && it == Holder(b, tag)
  {
  }

  /** Nobody names what goes: the dependencies that remain are still among what remains. */
  lemma NobodyNames(b: Box, tag: Tag)
    requires Instances.Running(b) && !Named(b, tag)
    ensures forall x :: x in Net(b) ==> tag !in Net(b)[x]
  {
    hide Valid;
    forall x | x in Net(b)
      ensures tag !in Net(b)[x]
    {
      var kind := if x in b.outbounds.byTag then Out else End;
      HeldTag(TableOf(b, kind), x);
      assert Holds(b, Ref(kind, Holder(b, x)));
      assert tag !in Holder(b, x).dependencies;
    }
  }

  /** The exact condition for one exchange. */
  lemma ExchangeIsRestartable(b: Box, x: Exchange, t: Table)
    requires Instances.Running(b) && Apart(b) && D.Startable(Net(b)) && Legal(b, x)
    requires t.byTag == Exchanged(TableOf(b, x.kind).byTag, x)
    ensures var b' := Installed(b, x.kind, t);
            Apart(b') && D.Startable(Net(b')) <==> Clean(b, x)
  {
    ExchangedParts(b, x, t);
    if x.come.Some? ==> x.come.value.tag !in Stay(b, x) {
      ExchangedNet(b, x, t);
      var g := if x.gone.Some? then Without(Net(b), x.gone.value.tag) else Net(b);
      if x.gone.Some? {
        NobodyNames(b, x.gone.value.tag);
        WithoutIsStartable(Net(b), x.gone.value.tag);
      }
      hide D.Startable, Legal, Net, Installed, Instances.Running, Exchanged;
      NetKeys(b);
      if x.come.Some? {
        NewcomerIsStartable(g, x.come.value.tag, D.TagSet(x.come.value.dependencies));
      }
    }
  }

  // ---------- every change ----------

  /** What a caller can see beforehand: the newcomer's tag is taken in the other table, or it names itself, a tag
      that goes with this change, or one that is not there. */
  ghost predicate Breaks(b: Box, ch: Change) {
    match ch
    case Create(kind, r, _, _) => BreaksCreate(b, kind, r)
    case RenameEndpoint(oldTag, r, _, _) =>
      if oldTag == r.tag || oldTag !in b.endpoints.byTag then BreaksCreate(b, End, r)
      else !Clean(b, ReplaceExchange(b.endpoints, End, b.endpoints.byTag[oldTag], r, Done))
    case Remove(kind, tag, _) =>
      && kind.Out? && tag in b.outbounds.byTag && NeedsStandIn(b.outbounds, b.outbounds.byTag[tag])
      && !Clean(b, StandInExchange(b, tag))
  }

  ghost predicate BreaksCreate(b: Box, kind: Kind, r: Recipe) {
    var t := TableOf(b, kind);
    if r.tag in t.byTag then !Clean(b, ReplaceExchange(t, kind, t.byTag[r.tag], r, Done))
    else !Clean(b, Exchange(kind, None, Some(Instance(t, r))))
  }

  /** Both tables apart and the graph sound: Restartable, as the exchanges see it. */
  ghost predicate Fit(b: Box) {
    Apart(b) && D.Startable(Net(b))
  }

  lemma UnchangedIsFit(b: Box, kind: Kind, t: Table)
    requires Instances.Running(b) && Fit(b) && t.byTag == TableOf(b, kind).byTag
    ensures Fit(Installed(b, kind, t))
  {
    ExchangeIsRestartable(b, Exchange(kind, None, None), t);
  }

  /** A failed replacement puts back what asks for the same, or nothing. */
  lemma FailedReplaceIsClean(b: Box, kind: Kind, victim: Tag, r: Recipe, result: Result)
    requires Instances.Running(b) && Fit(b) && victim in TableOf(b, kind).byTag && !Named(b, victim) && !result.Done?
    ensures var t := TableOf(b, kind);
            Clean(b, ReplaceExchange(t, kind, t.byTag[victim], r, result))
  {
    var t := TableOf(b, kind);
    HeldIsListed(t, victim);
    var prev := t.byTag[victim];
    RecordedDescribes(t, prev);
    assert Holds(b, Ref(kind, prev));
    assert victim !in prev.dependencies;
    HolderNamesHeld(b, kind, victim);
  }

  lemma HolderNamesHeld(b: Box, kind: Kind, tag: Tag)
    requires Fit(b) && tag in TableOf(b, kind).byTag
    ensures D.TagSet(TableOf(b, kind).byTag[tag].dependencies) <= Held(b)
  {
    NetKeys(b);
    var it := Holder(b, tag);
    assert it == TableOf(b, kind).byTag[tag];
    forall d | d in D.TagSet(it.dependencies)
      ensures d in Held(b)
    {
      assert D.Edge(Net(b), tag, d);
    }
  }

  lemma ReplaceFits(b: Box, kind: Kind, victim: Tag, r: Recipe, a: Attempt, again: Attempt)
    requires Instances.Running(b) && Fit(b) && victim in TableOf(b, kind).byTag && !Named(b, victim)
    requires r.tag == victim || r.tag !in TableOf(b, kind).byTag
    ensures var t := TableOf(b, kind);
            var (t', result) := ReplaceSpec(t, t.byTag[victim], r, Given(b, a, r.dependencies), GivenAgain(b, t, victim, again));
            Fit(Installed(b, kind, t')) <==> !(result.Done? && !Clean(b, ReplaceExchange(t, kind, t.byTag[victim], r, Done)))
  {
    hide Valid, Legal, Installed, Apart, D.Startable, Clean, ReplaceSpec;
    var t := TableOf(b, kind);
    var (t', result) := ReplaceSpec(t, t.byTag[victim], r, Given(b, a, r.dependencies), GivenAgain(b, t, victim, again));
    var x := ReplaceExchange(t, kind, t.byTag[victim], r, result);
    ReplaceIsLegal(b, kind, victim, r, a, again);
    ExchangeIsRestartable(b, x, t');
    if !result.Done? {
      FailedReplaceIsClean(b, kind, victim, r, result);
    }
  }

  lemma NewcomerFits(b: Box, kind: Kind, r: Recipe, a: Attempt, again: Attempt)
    requires Instances.Running(b) && Fit(b) && r.tag !in TableOf(b, kind).byTag
    ensures var (b', result) := Apply(b, Create(kind, r, a, again));
            Fit(b') <==> !(result.Done? && BreaksCreate(b, kind, r))
  {
    hide Valid, Fit, Holds, Named, Installed, Clean;
    var t := TableOf(b, kind);
    var it := Instance(t, r);
    var next := t.(nextId := t.nextId + 1);
    UnchangedIsFit(b, kind, t);
    UnchangedIsFit(b, kind, next);
    if r.lifecycle ==> a.starts && Present(b, r.dependencies) {
      NewcomerExchangeFits(b, kind, r, Added(Opened(next, it), it, Some(r)));
    }
  }

  lemma NewcomerExchangeFits(b: Box, kind: Kind, r: Recipe, t': Table)
    requires Instances.Running(b) && Fit(b) && r.tag !in TableOf(b, kind).byTag
    requires r.lifecycle ==> Present(b, r.dependencies)
    requires t'.byTag == TableOf(b, kind).byTag[r.tag := Instance(TableOf(b, kind), r)]
    ensures Fit(Installed(b, kind, t')) <==> !BreaksCreate(b, kind, r)
  {
    InstanceIsNew(b, kind, TableOf(b, kind), r);
    hide Valid, Installed, Apart, D.Startable, Clean;
    ExchangeIsRestartable(b, Exchange(kind, None, Some(Instance(TableOf(b, kind), r))), t');
  }

  lemma CreateFits(b: Box, kind: Kind, r: Recipe, a: Attempt, again: Attempt)
    requires Instances.Running(b) && Fit(b)
    ensures var (b', result) := Apply(b, Create(kind, r, a, again));
            Fit(b') <==> !(result.Done? && BreaksCreate(b, kind, r))
  {
    hide Fit, Installed, Clean, ReplaceSpec, Valid;
    var t := TableOf(b, kind);
    if r.tag in t.byTag {
      UnchangedIsFit(b, kind, t);
      if !Named(b, r.tag) {
        ReplaceFits2(b, kind, r.tag, r, a, again);
      }
    } else {
      NewcomerFits(b, kind, r, a, again);
    }
  }

  /** ReplaceFits with its condition named. */
  lemma ReplaceFits2(b: Box, kind: Kind, victim: Tag, r: Recipe, a: Attempt, again: Attempt)
    requires Instances.Running(b) && Fit(b) && victim in TableOf(b, kind).byTag && !Named(b, victim) && r.tag == victim
    ensures var t := TableOf(b, kind);
            var (t', result) := ReplaceSpec(t, t.byTag[victim], r, Given(b, a, r.dependencies), GivenAgain(b, t, victim, again));
            Fit(Installed(b, kind, t')) <==> !(result.Done? && BreaksCreate(b, kind, r))
  {
    hide Fit, Installed, Clean, ReplaceSpec, Valid, Named;
    ReplaceFits(b, kind, victim, r, a, again);
  }

  lemma DropFits(b: Box, kind: Kind, tag: Tag)
    requires Instances.Running(b) && Fit(b) && tag in TableOf(b, kind).byTag && !Named(b, tag)
    ensures var t := TableOf(b, kind);
            Fit(Installed(b, kind, Shut(Dropped(t, t.byTag[tag]), t.byTag[tag])))
  {
    hide Valid, Apart, D.Startable, Installed, Named;
    var t := TableOf(b, kind);
    var it := t.byTag[tag];
    HeldTag(t, tag);
    ExchangeIsRestartable(b, Exchange(kind, Some(it), None), Shut(Dropped(t, it), it));
  }

  lemma StandInFits(b: Box, tag: Tag, a: Attempt)
    requires Instances.Running(b) && Fit(b) && tag in b.outbounds.byTag && !Refuses(b, tag, true)
    requires NeedsStandIn(b.outbounds, b.outbounds.byTag[tag])
    ensures var (b', result) := Apply(b, Remove(Out, tag, a));
            Fit(b') <==> !(result.Done? && !Clean(b, StandInExchange(b, tag)))
  {
    hide Valid, Apart, D.Startable, Installed, Holds, Named, Legal, Clean;
    var t := b.outbounds;
    var it, standIn := t.byTag[tag], Instance(t, DIRECT);
    var next := t.(nextId := t.nextId + 1);
    HeldTag(t, tag);
    UnchangedIsFit(b, Out, t);
    UnchangedIsFit(b, Out, next);
    StandInIsLegal(b, tag);
    var t' := Shut(Swapped(Opened(next, standIn), it, standIn, None), it);
    assert t'.byTag == Exchanged(t.byTag, StandInExchange(b, tag));
    ExchangeIsRestartable(b, StandInExchange(b, tag), t');
  }

  lemma RemoveFits(b: Box, kind: Kind, tag: Tag, a: Attempt)
    requires Instances.Running(b) && Fit(b)
    ensures var (b', result) := Apply(b, Remove(kind, tag, a));
            Fit(b') <==> !(result.Done? && Breaks(b, Remove(kind, tag, a)))
  {
    hide Valid, Fit, Installed, Named, Swapped, Dropped, Clean;
    var t := TableOf(b, kind);
    UnchangedIsFit(b, kind, t);
    if tag in t.byTag && !Refuses(b, tag, true) {
      HeldTag(t, tag);
      if NeedsStandIn(t, t.byTag[tag]) {
        StandInFits(b, tag, a);
      } else {
        DropFits(b, kind, tag);
      }
    }
  }

  lemma RenameFits(b: Box, oldTag: Tag, r: Recipe, a: Attempt, again: Attempt)
    requires Instances.Running(b) && Fit(b)
    ensures var ch := RenameEndpoint(oldTag, r, a, again);
            Fit(Apply(b, ch).0) <==> !(Apply(b, ch).1.Done? && Breaks(b, ch))
  {
    hide Valid, Fit, Installed, Named, ReplaceSpec, Clean;
    var ch, t := RenameEndpoint(oldTag, r, a, again), b.endpoints;
    UnchangedIsFit(b, End, t);
    if oldTag == r.tag || oldTag !in t.byTag {
      CreateFits(b, End, r, a, again);
      assert Apply(b, ch) == Apply(b, Create(End, r, a, again));
    } else if r.tag !in t.byTag && !Refuses(b, oldTag, true) {
      ReplaceFits(b, End, oldTag, r, a, again);
    }
  }

  /** One change of a running box that could be restarted: it still can be, exactly unless the change goes
      through and breaks it. */
  lemma ChangeIsRestartable(b: Box, ch: Change)
    requires Instances.Running(b) && Restartable(b)
    ensures Restartable(Apply(b, ch).0) <==> !(Apply(b, ch).1.Done? && Breaks(b, ch))
  {
    hide Valid, Restartable, Apart, D.Startable, Apply, Breaks, Instances.Running;
    RestartableMeans(b);
    ChangeKeepsRunning(b, ch);
    RestartableMeans(Apply(b, ch).0);
    match ch
    case Create(kind, r, a, again) =>
      CreateFits(b, kind, r, a, again);
      BreaksIs(b, kind, r, a, again);
    case Remove(kind, tag, a) => RemoveFits(b, kind, tag, a);
    case RenameEndpoint(oldTag, r, a, again) => RenameFits(b, oldTag, r, a, again);
  }

  lemma BreaksIs(b: Box, kind: Kind, r: Recipe, a: Attempt, again: Attempt)
    ensures Breaks(b, Create(kind, r, a, again)) <==> BreaksCreate(b, kind, r)
  {
  }

  ghost predicate BrokenBy(b: Box, changes: seq<Change>, i: nat)
    requires i < |changes|
  {
    var now := Instances.After(b, changes[..i]);
    Apply(now, changes[i]).1.Done? && Breaks(now, changes[i])
  }

  lemma {:induction false} AfterKeepsRunning(b: Box, changes: seq<Change>)
    requires Instances.Running(b)
    ensures Instances.Running(Instances.After(b, changes))
    decreases |changes|
  {
    hide Instances.Running, Apply;
    if changes != [] {
      AfterKeepsRunning(b, changes[..|changes| - 1]);
      ChangeKeepsRunning(Instances.After(b, changes[..|changes| - 1]), changes[|changes| - 1]);
    }
  }

  lemma OneStep(b: Box, changes: seq<Change>, i: nat)
    requires Instances.Running(b) && i < |changes| && Restartable(Instances.After(b, changes[..i]))
    ensures Restartable(Instances.After(b, changes[..i + 1])) <==> !BrokenBy(b, changes, i)
  {
    hide Restartable, Instances.Running, Apply, Breaks;
    var front := changes[..i + 1];
    assert front[..|front| - 1] == changes[..i] && front[|front| - 1] == changes[i];
    AfterKeepsRunning(b, changes[..i]);
    ChangeIsRestartable(Instances.After(b, changes[..i]), changes[i]);
  }

  /** Over any sequence of hot changes: at every moment a restart from what the box holds would get through, if
      and only if no change that went through was a breaking one when it was made. */
  lemma AlwaysRestartable(b: Box, changes: seq<Change>)
    requires Instances.Running(b) && Restartable(b)
    ensures (forall n :: 0 <= n <= |changes| ==> Restartable(Instances.After(b, changes[..n])))
              <==> (forall i :: 0 <= i < |changes| ==> !BrokenBy(b, changes, i))
  {
    hide Restartable, Instances.Running, BrokenBy;
    if forall i :: 0 <= i < |changes| ==> !BrokenBy(b, changes, i) {
      forall n | 0 <= n <= |changes|
        ensures Restartable(Instances.After(b, changes[..n]))
      {
        UnbrokenPrefix(b, changes, n);
      }
    }
    if forall n :: 0 <= n <= |changes| ==> Restartable(Instances.After(b, changes[..n])) {
      forall i | 0 <= i < |changes|
        ensures !BrokenBy(b, changes, i)
      {
        assert Restartable(Instances.After(b, changes[..i])) && Restartable(Instances.After(b, changes[..i + 1]));
        OneStep(b, changes, i);
      }
    }
  }

  lemma {:induction false} UnbrokenPrefix(b: Box, changes: seq<Change>, n: nat)
    requires Instances.Running(b) && Restartable(b) && n <= |changes|
    requires forall i :: 0 <= i < n ==> !BrokenBy(b, changes, i)
    ensures Restartable(Instances.After(b, changes[..n]))
    decreases n
  {
    hide Restartable, Instances.Running, BrokenBy;
    if n > 0 {
      UnbrokenPrefix(b, changes, n - 1);
      OneStep(b, changes, n - 1);
    }
  }

  // ---------- when a create is safe, and when not ----------

  /** A newcomer that has to start cannot name what is missing: it is safe unless it names itself or its tag is
      taken in the other table. */
  lemma StartedNewcomerIsSafe(b: Box, kind: Kind, r: Recipe, a: Attempt, again: Attempt)
    requires Instances.Running(b) && Restartable(b) && r.lifecycle
    requires Apply(b, Create(kind, r, a, again)).1.Done?
    ensures Restartable(Apply(b, Create(kind, r, a, again)).0) <==>
            r.tag !in r.dependencies && r.tag !in TableOf(b, if kind.Out? then End else Out).byTag
  {
    hide Restartable, D.Startable, Apply, Present, BreaksCreate, Valid, Apart;
    ChangeIsRestartable(b, Create(kind, r, a, again));
    RestartableMeans(b);
    BreaksIs(b, kind, r, a, again);
    DoneIsPresent(b, kind, r, a, again);
    PresentIsHeld(b, r.dependencies);
    BreaksWhenPresent(b, kind, r);
  }

  lemma DoneIsPresent(b: Box, kind: Kind, r: Recipe, a: Attempt, again: Attempt)
    requires Instances.Running(b) && r.lifecycle && Apply(b, Create(kind, r, a, again)).1.Done?
    ensures Present(b, r.dependencies)
  {
    hide Valid, Present, Swapped, Dropped, Opened, Added;
  }

  lemma BreaksWhenPresent(b: Box, kind: Kind, r: Recipe)
    requires Instances.Running(b) && Apart(b) && D.TagSet(r.dependencies) <= Held(b)
    ensures BreaksCreate(b, kind, r) <==>
            r.tag in r.dependencies || r.tag in TableOf(b, if kind.Out? then End else Out).byTag
  {
    hide Valid;
    var t := TableOf(b, kind);
    if r.tag in t.byTag {
      HeldTag(t, r.tag);
    }
    assert r.tag in r.dependencies <==> r.tag in D.TagSet(r.dependencies);
  }

  lemma PresentIsHeld(b: Box, dependencies: seq<Tag>)
    requires Present(b, dependencies)
    ensures D.TagSet(dependencies) <= Held(b)
  {
    forall d | d in D.TagSet(dependencies)
      ensures d in Held(b)
    {
      var k :| 0 <= k < |dependencies| && dependencies[k] == d;
      assert d in dependencies && Lookup(b, d).Some?;
    }
  }

  lemma LoneIsRestartable(kind: Kind)
    ensures Instances.Running(Lone(kind, PLAIN)) && Restartable(Lone(kind, PLAIN))
  {
    var b := Lone(kind, PLAIN);
    LoneIsFaithful(kind, PLAIN);
    RestartableMeans(b);
    NetKeys(b);
    assert Held(b) == {"group"} && Holder(b, "group") == PLAIN;
    EdgelessIsStartable(Net(b));
  }

  lemma EdgelessIsStartable(g: D.Graph)
    requires forall t :: t in g ==> g[t] == {}
    ensures D.Startable(g)
  {
    forall p
      ensures !D.IsCycle(g, p)
    {
      if |p| >= 2 && D.Walk(g, p) {
        FirstEdge(g, p);
      }
    }
  }

  lemma FirstEdge(g: D.Graph, p: seq<Tag>)
    requires |p| >= 2 && D.Walk(g, p)
    ensures p[0] in g && g[p[0]] != {}
  {
    assert D.Edge(g, p[0], p[0 + 1]);
  }

  /** Without a lifecycle nothing has to start: an outbound or endpoint that names a tag that is not there goes
      in, and the next restart fails on it. */
  lemma MissingTagGoesUnnoticed(kind: Kind, a: Attempt)
    requires a.builds
    ensures Instances.Running(Lone(kind, PLAIN)) && Restartable(Lone(kind, PLAIN))
    ensures var (b', result) := Apply(Lone(kind, PLAIN), Create(kind, Recipe("plain", ["missing"], false, 0), a, a));
            result.Done? && !Restartable(b')
  {
    hide Restartable, Installed;
    var b, r := Lone(kind, PLAIN), Recipe("plain", ["missing"], false, 0);
    LoneIsRestartable(kind);
    ChangeIsRestartable(b, Create(kind, r, a, a));
    assert "plain" != "group" && "missing" != "group" && "plain" != "";
    assert Held(b) == {"group"};
    assert r.dependencies[0] == "missing" && "missing" in D.TagSet(r.dependencies);
  }

  /** A component saved with itself as a member starts now and not after the next restart. */
  lemma SelfMemberFailsRestart(kind: Kind, a: Attempt)
    requires a.builds && a.starts
    ensures var (b', result) := Apply(Lone(kind, PLAIN), Create(kind, Recipe("group", ["group"], true, 0), a, a));
            result.Done? && !Restartable(b')
  {
    hide Restartable, Installed, Faithful;
    SelfMemberGoesStale(kind, a);
    LoneIsRestartable(kind);
    var b, r := Lone(kind, PLAIN), Recipe("group", ["group"], true, 0);
    StartedNewcomerIsSafe(b, kind, r, a, a);
    assert r.dependencies[0] == "group";
  }
}

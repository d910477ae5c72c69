/**
 The dependency order of outbounds and endpoints (core/managers.go).

 A restart starts everything in dependency order (`StartOutbounds`); an edit that cannot be
 applied in place is vetted beforehand by a depth-first search (`CheckDependencies`).  Both
 are measured here against the same graph.
 */
module Dependencies {
  type Tag = string

  /** What either manager holds: a tag and the tags it names. */
  datatype Outbound = Outbound(tag: Tag, dependencies: seq<Tag>)

  type Graph = map<Tag, set<Tag>>

  // ---------- graphs ----------

  predicate Edge(g: Graph, a: Tag, b: Tag) {
    a in g && b in g[a]
  }

  predicate Walk(g: Graph, p: seq<Tag>) {
    p != [] && forall i :: 0 <= i < |p| - 1 ==> Edge(g, p[i], p[i + 1])
  }

  ghost predicate Closed(g: Graph) {
    forall a, b :: Edge(g, a, b) ==> b in g
  }

  predicate IsCycle(g: Graph, p: seq<Tag>) {
    |p| >= 2 && Walk(g, p) && p[0] == p[|p| - 1]
  }

  ghost predicate Cyclic(g: Graph) {
    exists p :: IsCycle(g, p)
  }

  /** The graphs a start loop can get through. */
  ghost predicate Startable(g: Graph) {
    Closed(g) && !Cyclic(g)
  }

  lemma WalkSuffix(g: Graph, p: seq<Tag>, i: nat)
    requires Walk(g, p) && i < |p|
    ensures Walk(g, p[i..])
  {
    forall j | 0 <= j < |p[i..]| - 1
      ensures Edge(g, p[i..][j], p[i..][j + 1])
    {
      assert Edge(g, p[i + j], p[i + j + 1]);
    }
  }

  // ---------- lists of outbounds ----------

  predicate DistinctTags(obs: seq<Outbound>) {
    forall i, j :: 0 <= i < j < |obs| ==> obs[i].tag != obs[j].tag
  }

  function Tags(obs: seq<Outbound>): set<Tag> {
    set i | 0 <= i < |obs| :: obs[i].tag
  }

  function Named(obs: seq<Outbound>, t: Tag): set<Tag> {
    set i, k | 0 <= i < |obs| && obs[i].tag == t && 0 <= k < |obs[i].dependencies| :: obs[i].dependencies[k]
  }

  function GraphOf(obs: seq<Outbound>): Graph {
    map t | t in Tags(obs) :: Named(obs, t)
  }

  /** `order` starts each tag once, and everything a component names before it. */
  predicate DependenciesFirst(order: seq<Outbound>) {
    && DistinctTags(order)
    && forall i, k :: 0 <= i < |order| && 0 <= k < |order[i].dependencies| ==>
         order[i].dependencies[k] in Tags(order[..i])
  }

  lemma {:induction false} TagCount(obs: seq<Outbound>)
    ensures |Tags(obs)| <= |obs|
    ensures |Tags(obs)| == |obs| <==> DistinctTags(obs)
  {
    if obs == [] {
      assert Tags(obs) == {};
    } else {
      var front, last := obs[..|obs| - 1], obs[|obs| - 1];
      TagCount(front);
      assert Tags(obs) == Tags(front) + {last.tag};
      if last.tag in Tags(front) {
        assert Tags(obs) == Tags(front);
      } else {
        assert |Tags(obs)| == |Tags(front)| + 1;
        if DistinctTags(front) {
          forall i, j | 0 <= i < j < |obs|
            ensures obs[i].tag != obs[j].tag
          {
            assert obs[i] == front[i] && front[i].tag in Tags(front);
          }
        }
      }
      assert DistinctTags(obs) ==> DistinctTags(front);
    }
  }

  /** Along any walk the start positions fall, so a list in dependency order has no cycle. */
  lemma {:induction false} PositionsFall(order: seq<Outbound>, p: seq<Tag>, a: nat, b: nat)
    requires DependenciesFirst(order) && Walk(GraphOf(order), p)
    requires a < |order| && b < |order| && order[a].tag == p[0] && order[b].tag == p[|p| - 1]
    ensures |p| >= 2 ==> b < a
  {
    if |p| >= 2 {
      var g := GraphOf(order);
      assert Edge(g, p[0], p[1]);
      var i, k :| 0 <= i < |order| && order[i].tag == p[0] && 0 <= k < |order[i].dependencies| && order[i].dependencies[k] == p[1];
      assert i == a;
      assert p[1] in Tags(order[..a]);
      var c :| 0 <= c < a && order[..a][c].tag == p[1];
      var rest := p[1..];
      WalkSuffix(g, p, 1);
      PositionsFall(order, rest, c, b);
    }
  }

  lemma OrderedIsStartable(order: seq<Outbound>)
    requires DependenciesFirst(order)
    ensures Startable(GraphOf(order))
  {
    var g := GraphOf(order);
    forall a, b | Edge(g, a, b)
      ensures b in g
    {
      var i, k :| 0 <= i < |order| && order[i].tag == a && 0 <= k < |order[i].dependencies| && order[i].dependencies[k] == b;
      assert b in Tags(order[..i]);
      var j :| 0 <= j < i && order[..i][j].tag == b;
      assert order[j].tag in Tags(order);
    }
    if p :| IsCycle(g, p) {
      assert Edge(g, p[0], p[1]);
      var a :| 0 <= a < |order| && order[a].tag == p[0];
      PositionsFall(order, p, a, a);
    }
  }

  /** The graph of a list without duplicate tags depends on its elements alone, not on their order. */
  lemma SameElementsSameGraph(a: seq<Outbound>, b: seq<Outbound>)
    requires forall o :: o in a <==> o in b
    ensures GraphOf(a) == GraphOf(b)
  {
    GraphIncluded(a, b);
    GraphIncluded(b, a);
    assert forall t :: Named(a, t) == Named(b, t);
    assert Tags(a) == Tags(b);
    assert GraphOf(a).Keys == Tags(a) && GraphOf(b).Keys == Tags(b);
  }

  lemma GraphIncluded(a: seq<Outbound>, b: seq<Outbound>)
    requires forall o :: o in a ==> o in b
    ensures Tags(a) <= Tags(b)
    ensures forall t :: Named(a, t) <= Named(b, t)
  {
    forall i | 0 <= i < |a|
      ensures a[i].tag in Tags(b)
      ensures forall k :: 0 <= k < |a[i].dependencies| ==> a[i].dependencies[k] in Named(b, a[i].tag)
    {
      assert a[i] in b;
      var j :| 0 <= j < |b| && b[j] == a[i];
    }
  }

  // ---------- startOutbounds ----------

  datatype Outcome =
    | Started
    | StartFailed(tag: Tag)
    | Circular(path: seq<Tag>, back: Tag)
    | Missing(dependency: Tag, of: Tag)
    /** The list holds one tag twice: no unstarted outbound is left to blame, and the code dereferences nil. */
    | NoCulprit

  /** What an error is worth: the cycle is a cycle of the graph, the missing tag is missing and named. */
  predicate Justified(g: Graph, r: Outcome) {
    match r
    case Circular(path, back) => path != [] && back in path && Walk(g, path + [back])
    case Missing(dependency, of) => dependency !in g && Edge(g, of, dependency)
    case _ => true
  }

  lemma JustifiedRefutes(g: Graph, r: Outcome)
    requires Justified(g, r) && (r.Circular? || r.Missing?)
    ensures !Startable(g)
  {
    match r
    case Missing(_, _) =>
    case Circular(path, back) =>
      var i :| 0 <= i < |path| && path[i] == back;
      var p := path + [back];
      var loop := p[i..];
      WalkSuffix(g, p, i);
      assert IsCycle(g, loop);
  }

  predicate Stuck(o: Outbound, started: set<Tag>) {
    exists k :: 0 <= k < |o.dependencies| && o.dependencies[k] !in started
  }

  /** One component of every tag can be picked so that the picks start in some order. */
  ghost predicate Coverable(obs: seq<Outbound>) {
    exists picks: seq<Outbound> :: Covers(obs, picks)
  }

  ghost predicate Covers(obs: seq<Outbound>, picks: seq<Outbound>) {
    DependenciesFirst(picks) && (forall i :: 0 <= i < |picks| ==> picks[i] in obs) && Tags(picks) == Tags(obs)
  }

  /** With such picks the loop cannot come to rest early: the first pick not yet started is not stuck. */
  lemma PicksMove(obs: seq<Outbound>, picks: seq<Outbound>, started: set<Tag>) returns (j: nat)
    requires Covers(obs, picks) && Tags(obs) - started != {}
    ensures j < |obs| && obs[j].tag !in started && !Stuck(obs[j], started)
  {
    var t :| t in Tags(obs) - started;
    assert t in Tags(picks);
    var i := 0;
    while picks[i].tag in started
      invariant 0 <= i < |picks| && Tags(picks[..i]) <= started
      invariant exists k :: i <= k < |picks| && picks[k].tag == t
      decreases |picks| - i
    {
      assert Tags(picks[..i + 1]) == Tags(picks[..i]) + {picks[i].tag};
      i := i + 1;
    }
    assert picks[i] in obs;
    j :| 0 <= j < |obs| && obs[j] == picks[i];
  }

  method StartOutbounds(obs: seq<Outbound>, starts: Outbound -> bool) returns (r: Outcome, order: seq<Outbound>)
    ensures DependenciesFirst(order)
    ensures forall i :: 0 <= i < |order| ==> order[i] in obs && starts(order[i])
    ensures r.Started? ==> |order| == |obs|
    ensures Justified(GraphOf(obs), r)
    ensures r.StartFailed? ==> exists o :: o in obs && o.tag == r.tag && !starts(o)
    ensures (forall o :: o in obs ==> starts(o)) ==>
              (r.Started? <==> DistinctTags(obs) && Startable(GraphOf(obs)))
    ensures r.NoCulprit? ==> !DistinctTags(obs) && Coverable(obs)
    ensures (forall o :: o in obs ==> starts(o)) ==> (r.NoCulprit? <==> !DistinctTags(obs) && Coverable(obs))
  {
    hide Coverable, Covers;
    order := [];
    var started: set<Tag> := {};
    while true
      invariant started == Tags(order) && DependenciesFirst(order)
      invariant forall i :: 0 <= i < |order| ==> order[i] in obs && starts(order[i])
      invariant started <= Tags(obs)
      decreases Tags(obs) - started
    {
      var canContinue := false;
      ghost var before := started;
      for i := 0 to |obs|
        invariant started == Tags(order) && DependenciesFirst(order)
        invariant forall j :: 0 <= j < |order| ==> order[j] in obs && starts(order[j])
        invariant before <= started <= Tags(obs)
        invariant canContinue ==> before < started
        invariant !canContinue ==> started == before
        invariant !canContinue ==> forall j :: 0 <= j < i && obs[j].tag !in started ==> Stuck(obs[j], started)
      {
        var it := obs[i];
        if it.tag !in started && !Stuck(it, started) {
          if !starts(it) {
            return StartFailed(it.tag), order;
          }
          OrderExtends(order, it);
          order := order + [it];
          started := started + {it.tag};
          canContinue := true;
        }
      }
      TagCount(order);
      if |started| == |obs| {
        AllStarted(obs, order);
        return Started, order;
      }
      if !canContinue {
        var i := 0;
        while i < |obs| && obs[i].tag in started
          invariant 0 <= i <= |obs|
          invariant forall j :: 0 <= j < i ==> obs[j].tag in started
        {
          i := i + 1;
        }
        if i == |obs| {
          assert started == Tags(obs);
          TagCount(obs);
          OrderCovers(obs, order);
          return NoCulprit, order;
        }
        NotCoverable(obs, started, i);
        r := Lint(obs, started, [obs[i].tag], i);
        JustifiedRefutes(GraphOf(obs), r);
        return;
      }
    }
  }

  lemma OrderCovers(obs: seq<Outbound>, order: seq<Outbound>)
    requires DependenciesFirst(order) && (forall i :: 0 <= i < |order| ==> order[i] in obs) && Tags(order) == Tags(obs)
    ensures Coverable(obs)
  {
    assert Covers(obs, order);
  }

  lemma NotCoverable(obs: seq<Outbound>, started: set<Tag>, i: nat)
    requires i < |obs| && obs[i].tag !in started
    requires forall j :: 0 <= j < |obs| && obs[j].tag !in started ==> Stuck(obs[j], started)
    ensures !Coverable(obs)
  {
    assert obs[i].tag in Tags(obs) - started;
    if picks :| Covers(obs, picks) {
      var j := PicksMove(obs, picks, started);
    }
  }

  /** What outboundManager.Start hands to the loop in a box without route.final: with no outbound configured
      it adds the fallback, whose tag is "direct", and the endpoints follow. */
  function StartList(outbounds: seq<Outbound>, endpoints: seq<Outbound>): seq<Outbound> {
    (if outbounds == [] then [Outbound("direct", [])] else outbounds) + endpoints
  }

  /** Everything but an endpoint that carries the fallback's tag. */
  function Unlike(endpoints: seq<Outbound>, tag: Tag): (rest: seq<Outbound>)
    ensures forall o :: o in rest <==> o in endpoints && o.tag != tag
  {
    if endpoints == [] then []
    else
      var more := Unlike(endpoints[1..], tag);
      if endpoints[0].tag == tag then more else [endpoints[0]] + more
  }

  lemma {:induction false} UnlikeIsDistinct(endpoints: seq<Outbound>, tag: Tag)
    requires DistinctTags(endpoints)
    ensures DistinctTags(Unlike(endpoints, tag))
  {
    if endpoints != [] {
      var rest := Unlike(endpoints[1..], tag);
      UnlikeIsDistinct(endpoints[1..], tag);
      forall i | 0 <= i < |rest|
        ensures rest[i].tag != endpoints[0].tag
      {
        assert rest[i] in endpoints[1..];
      }
    }
  }

  lemma {:induction false} UnlikeIsAll(endpoints: seq<Outbound>, tag: Tag)
    requires forall i :: 0 <= i < |endpoints| ==> endpoints[i].tag != tag
    ensures Unlike(endpoints, tag) == endpoints
  {
    if endpoints != [] {
      UnlikeIsAll(endpoints[1..], tag);
    }
  }

  lemma TagsMeans(obs: seq<Outbound>, tag: Tag)
    ensures tag in Tags(obs) <==> exists i :: 0 <= i < |obs| && obs[i].tag == tag
    ensures tag in Tags(obs) <==> exists o :: o in obs && o.tag == tag
  {
    if i :| 0 <= i < |obs| && obs[i].tag == tag {
      assert obs[i] in obs;
    }
  }

  /** With no outbound and endpoints of distinct tags, the fallback and the endpoints of other tags decide
      whether everything could start; if so the nil dereference is met exactly when an endpoint is called
      "direct" as well. */
  method StartWithoutOutbounds(endpoints: seq<Outbound>, starts: Outbound -> bool) returns (r: Outcome)
    requires DistinctTags(endpoints)
    requires forall o :: o in StartList([], endpoints) ==> starts(o)
    ensures var sound := Startable(GraphOf(StartList([], Unlike(endpoints, "direct"))));
            && (r.NoCulprit? <==> sound && "direct" in Tags(endpoints))
            && (r.Started? <==> sound && "direct" !in Tags(endpoints))
  {
    hide Startable, DistinctTags, Coverable, Covers;
    var obs, rest := StartList([], endpoints), StartList([], Unlike(endpoints, "direct"));
    var order, own, q;
    r, order := StartOutbounds(obs, starts);
    q, own := StartOutbounds(rest, starts);
    FallbackDoubles(endpoints);
    RestIsDistinct(endpoints);
    if Startable(GraphOf(rest)) {
      RestCovers(endpoints, own);
    }
    if Coverable(obs) {
      CoverMeansSound(endpoints);
    }
  }

  lemma FallbackDoubles(endpoints: seq<Outbound>)
    requires DistinctTags(endpoints)
    ensures DistinctTags(StartList([], endpoints)) <==> "direct" !in Tags(endpoints)
    ensures "direct" !in Tags(endpoints) ==> StartList([], Unlike(endpoints, "direct")) == StartList([], endpoints)
  {
    hide Tags, DistinctTags, Unlike;
    FallbackTags(endpoints);
    TagsMeans(endpoints, "direct");
    TagCount(StartList([], endpoints));
    TagCount(endpoints);
    if "direct" in Tags(endpoints) {
      assert Tags(StartList([], endpoints)) == Tags(endpoints);
    } else {
      UnlikeIsAll(endpoints, "direct");
    }
  }

  lemma RestIsDistinct(endpoints: seq<Outbound>)
    requires DistinctTags(endpoints)
    ensures var rest := StartList([], Unlike(endpoints, "direct"));
            DistinctTags(rest) && Tags(rest) == Tags(StartList([], endpoints)) && forall o :: o in rest ==> o in StartList([], endpoints)
  {
    hide Tags, DistinctTags;
    var others := Unlike(endpoints, "direct");
    UnlikeIsDistinct(endpoints, "direct");
    TagsMeans(others, "direct");
    FallbackDoubles(others);
    FallbackTags(others);
    FallbackTags(endpoints);
    forall t
      ensures t in Tags(others) || t == "direct" <==> t in Tags(endpoints) || t == "direct"
    {
      TagsMeans(others, t);
      TagsMeans(endpoints, t);
    }
  }

  lemma RestCovers(endpoints: seq<Outbound>, own: seq<Outbound>)
    requires DistinctTags(endpoints) && DependenciesFirst(own)
    requires var rest := StartList([], Unlike(endpoints, "direct"));
             |own| == |rest| && forall i :: 0 <= i < |own| ==> own[i] in rest
    ensures Coverable(StartList([], endpoints))
  {
    var obs, rest := StartList([], endpoints), StartList([], Unlike(endpoints, "direct"));
    RestIsDistinct(endpoints);
    AllCovered(rest, own);
    assert Covers(obs, own);
  }

  lemma AllCovered(obs: seq<Outbound>, order: seq<Outbound>)
    requires DependenciesFirst(order) && DistinctTags(obs) && |order| == |obs|
    requires forall i :: 0 <= i < |order| ==> order[i] in obs
    ensures Tags(order) == Tags(obs)
  {
    TagCount(order);
    TagCount(obs);
    forall i | 0 <= i < |order|
      ensures order[i].tag in Tags(obs)
    {
      assert order[i] in obs;
      var j :| 0 <= j < |obs| && obs[j] == order[i];
    }
    SubsetOfSameSize(Tags(order), Tags(obs));
  }

  /** If one component of every tag can be started, so can the fallback with the endpoints of other tags. */
  lemma CoverMeansSound(endpoints: seq<Outbound>)
    requires DistinctTags(endpoints) && Coverable(StartList([], endpoints))
    ensures Startable(GraphOf(StartList([], Unlike(endpoints, "direct"))))
  {
    hide DependenciesFirst, Startable, Tags;
    var obs, rest := StartList([], endpoints), StartList([], Unlike(endpoints, "direct"));
    var own :| Covers(obs, own);
    var picks := FallbackFirst(own);
    RestIsDistinct(endpoints);
    FallbackTags(endpoints);
    forall i | 0 <= i < |picks|
      ensures picks[i] in rest
    {
      assert picks[i] in own ==> picks[i] in obs;
      assert rest[0] == Outbound("direct", []);
      assert obs[0] == Outbound("direct", []);
    }
    DependenciesAreDistinct(picks);
    TagCount(picks);
    TagCount(rest);
    AllStarted(rest, picks);
  }

  lemma DependenciesAreDistinct(order: seq<Outbound>)
    requires DependenciesFirst(order)
    ensures DistinctTags(order)
  {
  }

  lemma FallbackTags(endpoints: seq<Outbound>)
    ensures Tags(StartList([], endpoints)) == Tags(endpoints) + {"direct"}
  {
    var obs := StartList([], endpoints);
    assert obs[0].tag == "direct";
    assert forall i :: 0 <= i < |endpoints| ==> obs[i + 1] == endpoints[i];
    forall t
      ensures t in Tags(obs) <==> t in Tags(endpoints) || t == "direct"
    {
      if t in Tags(obs) {
        var i :| 0 <= i < |obs| && obs[i].tag == t;
        assert i > 0 ==> endpoints[i - 1].tag == t;
      }
      if t in Tags(endpoints) {
        var i :| 0 <= i < |endpoints| && endpoints[i].tag == t;
        assert obs[i + 1].tag == t;
      }
    }
  }

  lemma {:induction false} FallbackFirst(own: seq<Outbound>) returns (picks: seq<Outbound>)
    requires DependenciesFirst(own)
    ensures DependenciesFirst(picks) && Tags(picks) == Tags(own) + {"direct"}
    ensures forall i :: 0 <= i < |picks| ==> (picks[i] in own && picks[i].tag != "direct") || picks[i] == Outbound("direct", [])
    decreases |own|
  {
    if own == [] {
      picks := [Outbound("direct", [])];
      assert picks[0].tag == "direct" && Tags(picks) == {"direct"};
    } else {
      var n := |own| - 1;
      var front, last := own[..n], own[n];
      assert forall i :: 0 <= i < n ==> front[..i] == own[..i];
      picks := FallbackFirst(front);
      assert Tags(own) == Tags(front) + {last.tag};
      assert last.tag !in Tags(front);
      if last.tag != "direct" {
        OrderExtends(picks, last);
        picks := picks + [last];
      }
    }
  }

  lemma OrderExtends(order: seq<Outbound>, it: Outbound)
    requires DependenciesFirst(order) && it.tag !in Tags(order) && !Stuck(it, Tags(order))
    ensures DependenciesFirst(order + [it]) && Tags(order + [it]) == Tags(order) + {it.tag}
  {
    var longer := order + [it];
    assert forall i :: 0 <= i < |order| ==> longer[..i] == order[..i] && longer[i] == order[i] && order[i].tag in Tags(order);
    assert longer[..|order|] == order && longer[|order|] == it;
  }

  /** As many tags started as there are outbounds: the order is a permutation of the list. */
  lemma AllStarted(obs: seq<Outbound>, order: seq<Outbound>)
    requires DependenciesFirst(order) && |Tags(order)| == |obs| == |order|
    requires forall i :: 0 <= i < |order| ==> order[i] in obs
    ensures DistinctTags(obs) && Startable(GraphOf(obs))
  {
    TagCount(obs);
    assert Tags(order) <= Tags(obs) by {
      forall i | 0 <= i < |order|
        ensures order[i].tag in Tags(obs)
      {
        var j :| 0 <= j < |obs| && obs[j] == order[i];
      }
    }
    SubsetOfSameSize(Tags(order), Tags(obs));
    forall o | o in obs
      ensures o in order
    {
      var i :| 0 <= i < |obs| && obs[i] == o;
      assert o.tag in Tags(order);
      var j :| 0 <= j < |order| && order[j].tag == o.tag;
      assert order[j] in obs;
      var k :| 0 <= k < |obs| && obs[k] == order[j];
    }
    SameElementsSameGraph(obs, order);
    OrderedIsStartable(order);
  }

  lemma SubsetOfSameSize(a: set<Tag>, b: set<Tag>)
    requires a <= b && |b| <= |a|
    ensures a == b
  {
    assert |b - a| == |b| - |a|;
  }

  /** Follows one unstarted dependency after another from `obs[at]` until it repeats or is missing. */
  method Lint(obs: seq<Outbound>, started: set<Tag>, path: seq<Tag>, at: nat) returns (r: Outcome)
    requires at < |obs| && path != [] && path[|path| - 1] == obs[at].tag && obs[at].tag !in started
    requires forall j :: 0 <= j < |obs| && obs[j].tag !in started ==> Stuck(obs[j], started)
    requires Walk(GraphOf(obs), path) && forall i :: 0 <= i < |path| ==> path[i] in Tags(obs)
    ensures r.Circular? || r.Missing?
    ensures Justified(GraphOf(obs), r)
    decreases Tags(obs) - TagSet(path)
  {
    var deps := obs[at].dependencies;
    var k := 0;
    while deps[k] in started
      invariant 0 <= k < |deps|
      invariant exists m :: k <= m < |deps| && deps[m] !in started
      decreases |deps| - k
    {
      k := k + 1;
    }
    var problem := deps[k];
    assert problem in Named(obs, obs[at].tag);
    assert Walk(GraphOf(obs), path + [problem]);
    if problem in path {
      return Circular(path, problem);
    }
    var i := 0;
    while i < |obs| && obs[i].tag != problem
      invariant 0 <= i <= |obs|
      invariant forall j :: 0 <= j < i ==> obs[j].tag != problem
    {
      i := i + 1;
    }
    if i == |obs| {
      return Missing(problem, obs[at].tag);
    }
    var longer := path + [problem];
    assert forall k :: 0 <= k < |path| ==> longer[k] == path[k];
    assert longer[|path|] == problem;
    assert TagSet(longer) >= TagSet(path) + {problem};
    assert problem in Tags(obs) - TagSet(path);
    r := Lint(obs, started, path + [problem], i);
  }

  // ---------- checkDependencies ----------

  datatype Verdict = Accepted | Rejected(why: Outcome)

  /** outboundManager.Outbound: the outbounds come first in the list, so they shadow an endpoint of the same tag. */
  function Lookup(box: seq<Outbound>, t: Tag): (o: Outbound)
    requires t in Tags(box)
    ensures o in box && o.tag == t
  {
    if box[0].tag == t then box[0] else
      var i :| 0 <= i < |box| && box[i].tag == t;
      assert box[1..][i - 1] == box[i];
      Lookup(box[1..], t)
  }

  function TagSet(ts: seq<Tag>): set<Tag> {
    set k | 0 <= k < |ts| :: ts[k]
  }

  /** The graph the running box's lookups span. */
  function LookupGraph(box: seq<Outbound>): Graph {
    map t | t in Tags(box) :: TagSet(Lookup(box, t).dependencies)
  }

  lemma DistinctLookups(box: seq<Outbound>)
    requires DistinctTags(box)
    ensures LookupGraph(box) == GraphOf(box)
  {
    forall t | t in Tags(box)
      ensures TagSet(Lookup(box, t).dependencies) == Named(box, t)
    {
      var o := Lookup(box, t);
      var i :| 0 <= i < |box| && box[i] == o;
    }
  }

  /** Nothing reachable from `tag` is missing, and nothing leads back to it. */
  ghost predicate SoundFrom(g: Graph, tag: Tag) {
    forall p :: Walk(g, p) && |p| >= 2 && p[0] == tag ==> p[|p| - 1] in g && p[|p| - 1] != tag
  }

  /** The depth-first walk of checkDependencies: `seen` is shared by the whole search. */
  method WalkDependencies(box: seq<Outbound>, tag: Tag, path: seq<Tag>, dependencies: seq<Tag>, seen: set<Tag>,
                          ghost edited: Graph)
    returns (v: Verdict, seen': set<Tag>)
    requires seen <= Tags(box) - {tag}
    requires path != [] && path[0] == tag && Walk(edited, path)
    requires forall k :: 0 <= k < |dependencies| ==> Edge(edited, path[|path| - 1], dependencies[k])
    requires edited.Keys == Tags(box) + {tag}
    requires forall t :: t in Tags(box) && t != tag ==> edited[t] == TagSet(Lookup(box, t).dependencies)
    ensures seen <= seen' <= Tags(box) - {tag}
    ensures v.Accepted? ==> TagSet(dependencies) <= seen' && forall t :: t in seen' - seen ==> edited[t] <= seen'
    ensures v.Rejected? ==> (v.why.Circular? || v.why.Missing?) && Justified(edited, v.why) && !SoundFrom(edited, tag)
    decreases Tags(box) - seen
  {
    seen' := seen;
    for k := 0 to |dependencies|
      invariant seen <= seen' <= Tags(box) - {tag}
      invariant forall j :: 0 <= j < k ==> dependencies[j] in seen'
      invariant forall t :: t in seen' - seen ==> edited[t] <= seen'
    {
      var d := dependencies[k];
      assert Walk(edited, path + [d]);
      if d == tag {
        return Rejected(Circular(path, d)), seen';
      }
      if d !in seen' {
        if d !in Tags(box) {
          return Rejected(Missing(d, path[|path| - 1])), seen';
        }
        var outer := seen';
        v, seen' := WalkDependencies(box, tag, path + [d], Lookup(box, d).dependencies, seen' + {d}, edited);
        if v.Rejected? {
          return;
        }
        assert edited[d] <= seen';
      }
    }
    v := Accepted;
  }

  method CheckDependencies(box: seq<Outbound>, tag: Tag, dependencies: seq<Tag>) returns (v: Verdict)
    ensures v.Accepted? <==> SoundFrom(LookupGraph(box)[tag := TagSet(dependencies)], tag)
    ensures v.Rejected? ==> Justified(LookupGraph(box)[tag := TagSet(dependencies)], v.why)
  {
    ghost var edited := LookupGraph(box)[tag := TagSet(dependencies)];
    var seen;
    v, seen := WalkDependencies(box, tag, [tag], dependencies, {}, edited);
    if v.Accepted? {
      forall p | Walk(edited, p) && |p| >= 2 && p[0] == tag
        ensures p[|p| - 1] in edited && p[|p| - 1] != tag
      {
        assert Edge(edited, p[0], p[1]);
        TrappedWalk(edited, seen, p, 1);
      }
    }
  }

  /** A walk that enters a set closed under dependencies never leaves it. */
  lemma {:induction false} TrappedWalk(g: Graph, s: set<Tag>, p: seq<Tag>, i: nat)
    requires Walk(g, p) && i < |p| && p[i] in s
    requires forall t :: t in s ==> t in g && g[t] <= s
    ensures p[|p| - 1] in s
    decreases |p| - i
  {
    if i < |p| - 1 {
      assert Edge(g, p[i], p[i + 1]);
      TrappedWalk(g, s, p, i + 1);
    }
  }

  /** What acceptance buys: one vetted edit of a startable box leaves it startable, and only
      an edit that would break it is turned down. */
  lemma VettingIsExact(g: Graph, tag: Tag, deps: set<Tag>)
    requires Startable(g)
    ensures SoundFrom(g[tag := deps], tag) <==> Startable(g[tag := deps])
  {
    var e := g[tag := deps];
    if SoundFrom(e, tag) {
      forall a, b | Edge(e, a, b)
        ensures b in e
      {
        if a == tag {
          assert Walk(e, [a, b]);
        } else {
          assert Edge(g, a, b);
        }
      }
      if p :| IsCycle(e, p) {
        CycleAvoids(g, tag, deps, p);
      }
    }
    if Startable(e) {
      forall p | Walk(e, p) && |p| >= 2 && p[0] == tag
        ensures p[|p| - 1] in e && p[|p| - 1] != tag
      {
        assert Edge(e, p[|p| - 2], p[|p| - 2 + 1]);
        assert p[|p| - 1] == tag ==> IsCycle(e, p);
      }
    }
  }

  /** A cycle can be entered anywhere. */
  lemma Rotated(g: Graph, p: seq<Tag>, i: nat) returns (round: seq<Tag>)
    requires IsCycle(g, p) && i < |p|
    ensures Walk(g, round) && |round| == |p| && round[0] == p[i] && round[|round| - 1] == p[i]
  {
    round := p[i..] + p[1..i + 1];
    var n := |p| - 1 - i;
    assert forall j :: 0 <= j <= n ==> round[j] == p[i + j];
    assert forall j :: n < j < |round| ==> round[j] == p[j - n];
    assert round[n] == p[|p| - 1] == p[0];
    forall j | 0 <= j < |round| - 1
      ensures Edge(g, round[j], round[j + 1])
    {
      if j < n {
        assert Edge(g, p[i + j], p[i + j + 1]);
      } else {
        assert Edge(g, p[j - n], p[j - n + 1]);
      }
    }
  }

  /** A cycle of the edited graph either runs through `tag`, and leads back to it, or was there before. */
  lemma CycleAvoids(g: Graph, tag: Tag, deps: set<Tag>, p: seq<Tag>)
    requires !Cyclic(g) && IsCycle(g[tag := deps], p)
    ensures !SoundFrom(g[tag := deps], tag)
  {
    var e := g[tag := deps];
    if tag in p {
      var i :| 0 <= i < |p| && p[i] == tag;
      var round := Rotated(e, p, i);
      assert Walk(e, round) && round[0] == tag;
    } else {
      forall j | 0 <= j < |p| - 1
        ensures Edge(g, p[j], p[j + 1])
      {
        assert Edge(e, p[j], p[j + 1]);
        assert p[j] in p;
      }
      assert IsCycle(g, p);
    }
  }

  /** The list a restart builds after the edit: the vetted component in, everything else as it was. */
  ghost predicate Edited(box: seq<Outbound>, it: Outbound, next: seq<Outbound>) {
    DistinctTags(next) && forall o :: o in next <==> o == it || (o in box && o.tag != it.tag)
  }

  lemma EditedGraph(box: seq<Outbound>, it: Outbound, next: seq<Outbound>)
    requires DistinctTags(box) && Edited(box, it, next)
    ensures GraphOf(next) == GraphOf(box)[it.tag := TagSet(it.dependencies)]
  {
    forall t
      ensures t in Tags(next) <==> t in Tags(box) || t == it.tag
      ensures t in Tags(next) ==> Named(next, t) == if t == it.tag then TagSet(it.dependencies) else Named(box, t)
    {
      EditedTag(box, it, next, t);
    }
    assert GraphOf(next).Keys == Tags(next);
    assert GraphOf(box).Keys == Tags(box);
  }

  lemma EditedTag(box: seq<Outbound>, it: Outbound, next: seq<Outbound>, t: Tag)
    requires DistinctTags(box) && Edited(box, it, next)
    ensures t in Tags(next) <==> t in Tags(box) || t == it.tag
    ensures t in Tags(next) ==> Named(next, t) == if t == it.tag then TagSet(it.dependencies) else Named(box, t)
  {
    assert it in next;
    if t in Tags(box) && t != it.tag {
      var i :| 0 <= i < |box| && box[i].tag == t;
      assert box[i] in next;
    }
    if t in Tags(next) {
      var i :| 0 <= i < |next| && next[i].tag == t;
      assert next[i] in next;
      assert Named(next, t) == TagSet(next[i].dependencies);
      if t != it.tag {
        var j :| 0 <= j < |box| && box[j] == next[i];
        assert Named(box, t) == TagSet(box[j].dependencies);
      } else {
        var k :| 0 <= k < |next| && next[k] == it;
      }
    }
  }

  /** ValidateOutbound, the commit, and the restart that follows: an accepted edit of a box that
      started leads to a box that starts, whatever place the edited component takes in the list. */
  method VetThenRestart(box: seq<Outbound>, it: Outbound, next: seq<Outbound>, starts: Outbound -> bool)
    returns (v: Verdict, r: Outcome, order: seq<Outbound>)
    requires DistinctTags(box) && Startable(GraphOf(box)) && Edited(box, it, next)
    ensures v.Accepted? <==> Startable(GraphOf(next))
    ensures v.Accepted? ==> !r.Circular? && !r.Missing? && !r.NoCulprit?
    ensures v.Accepted? && (forall o :: o in next ==> starts(o)) ==> r.Started? && |order| == |next|
    ensures v.Rejected? && (forall o :: o in next ==> starts(o)) ==> r.Circular? || r.Missing?
  {
    v := CheckDependencies(box, it.tag, it.dependencies);
    DistinctLookups(box);
    VettingIsExact(GraphOf(box), it.tag, TagSet(it.dependencies));
    EditedGraph(box, it, next);
    r, order := StartOutbounds(next, starts);
    if r.Circular? || r.Missing? {
      JustifiedRefutes(GraphOf(next), r);
    }
  }
}

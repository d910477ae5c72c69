/**
 The table behind every hot-reload manager (core/managers.go): an ordered list, an index by
 tag, a rebuild recipe per tag and the scopes of what is running.

 Building and starting a component are outside the table's control, so each operation is
 told how they turn out.  `Table` and the functions on it are the specification; the class
 is the object the managers embed.
 */
module ComponentTable {
  type Tag = string

  /** An instance.  Two components built from one recipe differ in their identity. */
  datatype Component = Component(id: nat, tag: Tag, dependencies: seq<Tag>, lifecycle: bool)

  /** What a component is built from; `options` stands for everything the table never looks at. */
  datatype Recipe = Recipe(tag: Tag, dependencies: seq<Tag>, lifecycle: bool, options: nat)

  datatype Option<T> = None | Some(value: T)

  /** How building and starting go when the table tries them. */
  datatype Attempt = Attempt(builds: bool, starts: bool)

  /** The outbound manager keeps a default in step with the table; `final` is route.final, or empty. */
  datatype Hooks = NoHooks | OutboundHooks(final: Tag)

  datatype Table = Table(
    hooks: Hooks,
    started: bool,
    list: seq<Component>,
    byTag: map<Tag, Component>,
    recipes: map<Tag, Recipe>,
    open: set<Component>,
    default: Option<Component>,
    nextId: nat)

  datatype Result =
    | Done
    /** An outbound without a tag: the outbound manager does not take it. */
    | Invalid
    | Unknown
    | Duplicate
    | Refused
    | BuildFailed
    /** The new component did not start; `restored` says whether the old one was put back. */
    | StartFailed(restored: bool)

  // ---------- what a table keeps ----------

  predicate DistinctTags(list: seq<Component>) {
    forall i, j :: 0 <= i < j < |list| ==> list[i].tag != list[j].tag
  }

  predicate Describes(r: Recipe, c: Component) {
    r.tag == c.tag && r.dependencies == c.dependencies && r.lifecycle == c.lifecycle
  }

  function FirstOf(list: seq<Component>): Option<Component> {
    if list == [] then None else Some(list[0])
  }

  function Elements(list: seq<Component>): set<Component> {
    set c | c in list
  }

  /** The index holds exactly the listed components, each under its own tag. */
  predicate Indexes(byTag: map<Tag, Component>, held: set<Component>) {
    && (forall c :: c in held ==> c.tag in byTag && byTag[c.tag] == c)
    && (forall tag :: tag in byTag ==> byTag[tag] in held && byTag[tag].tag == tag)
  }

  predicate Describe(recipes: map<Tag, Recipe>, byTag: map<Tag, Component>) {
    forall tag :: tag in recipes ==> tag in byTag && Describes(recipes[tag], byTag[tag])
  }

  predicate Known(held: set<Component>, nextId: nat) {
    forall c :: c in held ==> c.id < nextId
  }

  /** The list, the index and the recipes agree. */
  predicate Coherent(t: Table) {
    && DistinctTags(t.list)
    && Indexes(t.byTag, Elements(t.list))
    && Describe(t.recipes, t.byTag)
    && Known(Elements(t.list), t.nextId)
  }

  /** Without route.final the default outbound is the first one listed. */
  predicate DefaultIsFirst(t: Table) {
    t.hooks == OutboundHooks("") ==> t.default == FirstOf(t.list)
  }

  /** Coherent, and the open scopes are exactly those of the listed components that have a lifecycle. */
  predicate Valid(t: Table) {
    Coherent(t) && t.open == Running(t)
  }

  function Running(t: Table): set<Component> {
    set c | c in Elements(t.list) && c.lifecycle && t.started
  }

  function Tags(list: seq<Component>): (tags: seq<Tag>)
    ensures |tags| == |list|
    ensures forall i :: 0 <= i < |list| ==> tags[i] == list[i].tag
  {
    seq(|list|, i requires 0 <= i < |list| => list[i].tag)
  }

  // ---------- add, swap, drop ----------

  function IndexOf(list: seq<Component>, c: Component): (i: nat)
    requires c in list
    ensures i < |list| && list[i] == c
  {
    if list[0] == c then 0 else 1 + IndexOf(list[1..], c)
  }

  function Without(list: seq<Component>, c: Component): (r: seq<Component>)
    ensures forall x :: x in r <==> x in list && x != c
    ensures DistinctTags(list) ==> DistinctTags(r)
    ensures list != [] && list[0] != c ==> r != [] && r[0] == list[0]
  {
    if list == [] then [] else
      var rest := Without(list[1..], c);
      if list[0] == c then rest else
        assert forall i :: 0 <= i < |rest| ==> rest[i] in rest;
        [list[0]] + rest
  }

  function Noted(recipes: map<Tag, Recipe>, r: Option<Recipe>): map<Tag, Recipe> {
    if r.Some? then recipes[r.value.tag := r.value] else recipes
  }

  function Added(t: Table, it: Component, r: Option<Recipe>): Table {
    var t' := t.(list := t.list + [it], byTag := t.byTag[it.tag := it], recipes := Noted(t.recipes, r));
    if t.hooks.OutboundHooks? && (it.tag == t.hooks.final || (t.hooks.final == "" && t.default.None?))
    then t'.(default := Some(it)) else t'
  }

  function Swapped(t: Table, prev: Component, next: Component, r: Option<Recipe>): Table {
    var held := prev.tag in t.byTag && t.byTag[prev.tag] == prev;
    var byTag := if held then t.byTag - {prev.tag} else t.byTag;
    var recipes := if held then t.recipes - {prev.tag} else t.recipes;
    t.(list := if prev in t.list then t.list[IndexOf(t.list, prev) := next] else t.list + [next],
       byTag := byTag[next.tag := next],
       recipes := Noted(recipes, r),
       default := if t.hooks.OutboundHooks? && t.default == Some(prev) then Some(next) else t.default)
  }

  function Dropped(t: Table, it: Component): Table {
    var held := it.tag in t.byTag && t.byTag[it.tag] == it;
    var list := Without(t.list, it);
    t.(list := list,
       byTag := if held then t.byTag - {it.tag} else t.byTag,
       recipes := if held then t.recipes - {it.tag} else t.recipes,
       default := if t.hooks.OutboundHooks? && t.default == Some(it) then FirstOf(list) else t.default)
  }

  // ---------- building, starting, closing ----------

  function Instance(t: Table, r: Recipe): Component {
    Component(t.nextId, r.tag, r.dependencies, r.lifecycle)
  }

  /** A component without a lifecycle, or one made before the box starts, has nothing to catch up. */
  predicate CatchesUp(t: Table, it: Component, a: Attempt) {
    it.lifecycle && t.started ==> a.starts
  }

  function Opened(t: Table, it: Component): Table {
    if it.lifecycle && t.started then t.(open := t.open + {it}) else t
  }

  function Shut(t: Table, it: Component): Table {
    t.(open := t.open - {it})
  }

  // ---------- create, restore, remove, rename ----------

  /** Rebuilds a component that was closed for a replacement that failed, or drops it for good. */
  function RestoreSpec(t: Table, prev: Component, previous: Option<Recipe>, a: Attempt): (Table, bool) {
    if previous.None? then (Dropped(t, prev), false) else
    if !a.builds then (Dropped(t, prev), false) else
      var it := Instance(t, previous.value);
      var t' := t.(nextId := t.nextId + 1);
      if !CatchesUp(t', it, a) then (Dropped(t', prev), false)
      else (Swapped(Opened(t', it), prev, it, previous), true)
  }

  function Recorded(t: Table, tag: Tag): Option<Recipe> {
    if tag in t.recipes then Some(t.recipes[tag]) else None
  }

  predicate Untagged(t: Table, r: Recipe) {
    t.hooks.OutboundHooks? && r.tag == ""
  }

  /** Puts a component built from `r` where `prev` is, closing `prev` first. */
  function ReplaceSpec(t: Table, prev: Component, r: Recipe, a: Attempt, again: Attempt): (Table, Result) {
    if !a.builds then (t, BuildFailed) else
      var it := Instance(t, r);
      var t' := Shut(t.(nextId := t.nextId + 1), prev);
      if CatchesUp(t', it, a) then (Swapped(Opened(t', it), prev, it, Some(r)), Done)
      else
        var (t'', restored) := RestoreSpec(t', prev, Recorded(t, prev.tag), again);
        (t'', StartFailed(restored))
  }

  /** A manager's Create: the outbound manager turns an empty tag away before the table sees it. */
  function CreateSpec(t: Table, r: Recipe, refuse: (Tag, bool) -> bool, a: Attempt, again: Attempt): (Table, Result) {
    if Untagged(t, r) then (t, Invalid) else
    if r.tag in t.byTag then
      if !t.started then (t, Duplicate) else
      if refuse(r.tag, false) then (t, Refused) else ReplaceSpec(t, t.byTag[r.tag], r, a, again)
    else if !a.builds then (t, BuildFailed) else
      var it := Instance(t, r);
      var t' := t.(nextId := t.nextId + 1);
      if CatchesUp(t', it, a) then (Added(Opened(t', it), it, Some(r)), Done) else (t', StartFailed(false))
  }

  /** The stand-in for the last outbound of a box without route.final: a direct one, when it can be had. */
  predicate NeedsStandIn(t: Table, it: Component) {
    t.hooks == OutboundHooks("") && t.started && |t.list| == 1 && t.list[0] == it
  }

  const DIRECT := Recipe("direct", [], true, 0)

  function RemoveSpec(t: Table, tag: Tag, refuse: (Tag, bool) -> bool, a: Attempt): (Table, Result) {
    if tag !in t.byTag then (t, Unknown) else
    if refuse(tag, true) then (t, Refused) else
      var it := t.byTag[tag];
      if NeedsStandIn(t, it) then
        if !a.builds then (t, BuildFailed) else
          var standIn := Instance(t, DIRECT);
          var t' := t.(nextId := t.nextId + 1);
          if !CatchesUp(t', standIn, a) then (t', StartFailed(false))
          else (Shut(Swapped(Opened(t', standIn), it, standIn, None), it), Done)
      else (Shut(Dropped(t, it), it), Done)
  }

  function RenameSpec(t: Table, oldTag: Tag, r: Recipe, refuse: (Tag, bool) -> bool, a: Attempt, again: Attempt): (Table, Result) {
    if oldTag == r.tag || oldTag !in t.byTag then CreateSpec(t, r, refuse, a, again) else
    if r.tag in t.byTag then (t, Duplicate) else
    if refuse(oldTag, true) then (t, Refused) else ReplaceSpec(t, t.byTag[oldTag], r, a, again)
  }

  /** What the refusal hook says at each step of an outbound's rename, and how the steps turn out. */
  datatype Hears = Hears(create: (Tag, bool) -> bool, remove: (Tag, bool) -> bool, undo: (Tag, bool) -> bool)

  datatype Tries = Tries(create: Attempt, again: Attempt, remove: Attempt, undo: Attempt)

  /** An outbound is renamed from outside (service/outbounds.go): the new one is created, the old one
      removed, and the new one removed again if that fails.  An old one the core lost is no failure. */
  function RenameOutboundSpec(t: Table, oldTag: Tag, r: Recipe, hears: Hears, tries: Tries): (Table, Result) {
    var (t1, made) := CreateSpec(t, r, hears.create, tries.create, tries.again);
    if !made.Done? then (t1, made) else
      var (t2, removed) := RemoveSpec(t1, oldTag, hears.remove, tries.remove);
      if removed.Done? || removed.Unknown? then (t2, Done)
      else (RemoveSpec(t2, r.tag, hears.undo, tries.undo).0, removed)
  }

  // ---------- the boot ----------

  /** An outbound manager without route.final and without an outbound gives itself one, which has no recipe. */
  function Provided(t: Table): Table {
    if t.hooks == OutboundHooks("") && t.default.None?
    then Added(t.(nextId := t.nextId + 1), Instance(t, DIRECT), None)
    else t
  }

  /** The box has started: everything listed that has a lifecycle runs. */
  function Booted(t: Table): Table {
    t.(started := true, open := set c | c in Elements(t.list) && c.lifecycle)
  }

  lemma ProvidedKeeps(t: Table)
    requires Valid(t) && !t.started && DefaultIsFirst(t)
    ensures Valid(Provided(t)) && DefaultIsFirst(Provided(t)) && !Provided(t).started
    ensures t.hooks == OutboundHooks("") ==> Provided(t).list != [] && Provided(t).default == Some(Provided(t).list[0])
  {
    if t.hooks == OutboundHooks("") && t.default.None? {
      var it := Instance(t, DIRECT);
      assert t.list == [] && Elements(t.list) == {};
      assert t.byTag.Keys == {};
      assert Elements([it]) == {it};
      assert Provided(t).list == [it];
    }
  }

  /** A box that comes up comes up valid: from here on every change keeps it so. */
  lemma BootKeeps(t: Table)
    requires Valid(t) && !t.started && DefaultIsFirst(t)
    ensures Valid(Booted(Provided(t))) && DefaultIsFirst(Booted(Provided(t))) && Booted(Provided(t)).started
    ensures t.hooks == OutboundHooks("") ==> Booted(Provided(t)).list != []
  {
    ProvidedKeeps(t);
    var up := Booted(Provided(t));
    assert up.open == Running(up);
  }

  // ---------- the object ----------

  class Manager {
    const hooks: Hooks
    var started: bool
    var list: seq<Component>
    var byTag: map<Tag, Component>
    var recipes: map<Tag, Recipe>
    var open: set<Component>
    var default: Option<Component>
    var nextId: nat

    function State(): Table
      reads this
    {
      Table(hooks, started, list, byTag, recipes, open, default, nextId)
    }

    constructor (hooks: Hooks)
      ensures this.hooks == hooks && Valid(State()) && DefaultIsFirst(State()) && list == [] && !started
    {
      this.hooks := hooks;
      started, list, byTag, recipes, open, default, nextId := false, [], map[], map[], {}, None, 0;
    }

    method Add(it: Component, r: Option<Recipe>)
      modifies this
      ensures State() == Added(old(State()), it, r)
    {
      list := list + [it];
      byTag := byTag[it.tag := it];
      if r.Some? {
        recipes := recipes[r.value.tag := r.value];
      }
      if hooks.OutboundHooks? && (it.tag == hooks.final || (hooks.final == "" && default.None?)) {
        default := Some(it);
      }
    }

    method Swap(prev: Component, next: Component, r: Option<Recipe>)
      modifies this
      ensures State() == Swapped(old(State()), prev, next, r)
    {
      if prev in list {
        list := list[IndexOf(list, prev) := next];
      } else {
        list := list + [next];
      }
      if prev.tag in byTag && byTag[prev.tag] == prev {
        byTag := byTag - {prev.tag};
        recipes := recipes - {prev.tag};
      }
      byTag := byTag[next.tag := next];
      if r.Some? {
        recipes := recipes[r.value.tag := r.value];
      }
      if hooks.OutboundHooks? && default == Some(prev) {
        default := Some(next);
      }
    }

    method Drop(it: Component)
      modifies this
      ensures State() == Dropped(old(State()), it)
    {
      if it.tag in byTag && byTag[it.tag] == it {
        byTag := byTag - {it.tag};
        recipes := recipes - {it.tag};
      }
      list := Without(list, it);
      if hooks.OutboundHooks? && default == Some(it) {
        default := FirstOf(list);
      }
    }

    /** The boot: the listed components with a lifecycle are started one after the other, until one fails. */
    method Start(starts: Component -> bool) returns (ok: bool)
      requires Valid(State()) && !started && DefaultIsFirst(State())
      modifies this
      ensures ok <==> forall c :: c in Provided(old(State())).list && c.lifecycle ==> starts(c)
      ensures ok ==> State() == Booted(Provided(old(State()))) && Valid(State()) && DefaultIsFirst(State())
      ensures started && list == Provided(old(State())).list && open <= Running(State())
    {
      hide Valid, DefaultIsFirst, Added;
      ghost var provided := Provided(State());
      BootKeeps(State());
      ClosedBeforeBoot(State());
      started := true;
      if hooks == OutboundHooks("") && default.None? {
        var it := Component(nextId, DIRECT.tag, DIRECT.dependencies, DIRECT.lifecycle);
        nextId := nextId + 1;
        AddedStarted(old(State()).(nextId := nextId), it);
        Add(it, None);
      }
      ok := StartAll(starts);
      OpenAfterBoot(provided, open, ok, starts);
    }

    /** The loop of start over the list. */
    method StartAll(starts: Component -> bool) returns (ok: bool)
      requires open == {}
      modifies this`open
      ensures ok <==> forall c :: c in list && c.lifecycle ==> starts(c)
      ensures ok ==> open == set c | c in Elements(list) && c.lifecycle
      ensures open <= set c | c in Elements(list) && c.lifecycle
    {
      var i := 0;
      while i < |list|
        invariant 0 <= i <= |list|
        invariant open == set j | 0 <= j < i && list[j].lifecycle :: list[j]
        invariant forall j :: 0 <= j < i && list[j].lifecycle ==> starts(list[j])
      {
        var it := list[i];
        if it.lifecycle {
          if !starts(it) {
            return false;
          }
          open := open + {it};
        }
        i := i + 1;
      }
      ok := true;
    }

    /** Runs a component through the stages the box has passed; a failure leaves nothing open. */
    method CatchUp(it: Component, a: Attempt) returns (ok: bool)
      requires it !in open
      modifies this`open
      ensures ok == CatchesUp(old(State()), it, a)
      ensures State() == if ok then Opened(old(State()), it) else old(State())
    {
      if !it.lifecycle || !started {
        return true;
      }
      open := open + {it};
      ok := a.starts;
      if !ok {
        open := open - {it};
      }
    }

    method Build(r: Recipe) returns (it: Component)
      requires Valid(State())
      modifies this`nextId
      ensures it == Instance(old(State()), r) && it !in open
      ensures State() == old(State()).(nextId := old(nextId) + 1)
    {
      it := Component(nextId, r.tag, r.dependencies, r.lifecycle);
      nextId := nextId + 1;
    }

    method Create(r: Recipe, refuse: (Tag, bool) -> bool, a: Attempt, again: Attempt) returns (result: Result)
      requires Valid(State())
      modifies this
      ensures (State(), result) == CreateSpec(old(State()), r, refuse, a, again)
      ensures Valid(State())
    {
      hide Valid, ReplaceSpec;
      CreateKeeps(State(), r, refuse, a, again);
      if hooks.OutboundHooks? && r.tag == "" {
        return Invalid;
      }
      if r.tag in byTag {
        if !started {
          return Duplicate;
        }
        if refuse(r.tag, false) {
          return Refused;
        }
        HeldIsListed(State(), r.tag);
        result := Replace(byTag[r.tag], r, a, again);
        return;
      }
      if !a.builds {
        return BuildFailed;
      }
      var it := Build(r);
      var ok := CatchUp(it, a);
      if !ok {
        return StartFailed(false);
      }
      Add(it, Some(r));
      result := Done;
    }

    /** The common tail of create and rename: close the old one, start the new, or put the old one back. */
    method Replace(prev: Component, r: Recipe, a: Attempt, again: Attempt) returns (result: Result)
      requires Valid(State()) && prev in list
      modifies this
      ensures (State(), result) == ReplaceSpec(old(State()), prev, r, a, again)
    {
      if !a.builds {
        return BuildFailed;
      }
      var previous := Recorded(State(), prev.tag);
      var it := Build(r);
      open := open - {prev};
      var ok := CatchUp(it, a);
      if ok {
        Swap(prev, it, Some(r));
        return Done;
      }
      var restored := Restore(prev, previous, again);
      result := StartFailed(restored);
    }

    method Restore(prev: Component, previous: Option<Recipe>, a: Attempt) returns (ok: bool)
      requires Coherent(State()) && open <= Running(State())
      modifies this
      ensures (State(), ok) == RestoreSpec(old(State()), prev, previous, a)
    {
      if previous.None? || !a.builds {
        Drop(prev);
        return false;
      }
      var it := Component(nextId, previous.value.tag, previous.value.dependencies, previous.value.lifecycle);
      nextId := nextId + 1;
      assert it !in open;
      ok := CatchUp(it, a);
      if ok {
        Swap(prev, it, previous);
      } else {
        Drop(prev);
      }
    }

    method Remove(tag: Tag, refuse: (Tag, bool) -> bool, a: Attempt) returns (result: Result)
      requires Valid(State())
      modifies this
      ensures (State(), result) == RemoveSpec(old(State()), tag, refuse, a)
      ensures Valid(State())
    {
      hide Valid;
      RemoveKeeps(State(), tag, refuse, a);
      if tag !in byTag {
        return Unknown;
      }
      if refuse(tag, true) {
        return Refused;
      }
      var it := byTag[tag];
      if hooks == OutboundHooks("") && started && |list| == 1 && list[0] == it {
        if !a.builds {
          return BuildFailed;
        }
        var standIn := Build(DIRECT);
        var ok := CatchUp(standIn, a);
        if !ok {
          return StartFailed(false);
        }
        Swap(it, standIn, None);
      } else {
        Drop(it);
      }
      open := open - {it};
      result := Done;
    }

    method Rename(oldTag: Tag, r: Recipe, refuse: (Tag, bool) -> bool, a: Attempt, again: Attempt)
      returns (result: Result)
      requires Valid(State())
      modifies this
      ensures (State(), result) == RenameSpec(old(State()), oldTag, r, refuse, a, again)
      ensures Valid(State())
    {
      hide Valid, ReplaceSpec, CreateSpec;
      RenameKeeps(State(), oldTag, r, refuse, a, again);
      if oldTag == r.tag || oldTag !in byTag {
        result := Create(r, refuse, a, again);
        return;
      }
      if r.tag in byTag {
        return Duplicate;
      }
      if refuse(oldTag, true) {
        return Refused;
      }
      HeldIsListed(State(), oldTag);
      result := Replace(byTag[oldTag], r, a, again);
    }

    method RenameOutbound(oldTag: Tag, r: Recipe, hears: Hears, tries: Tries) returns (result: Result)
      requires Valid(State())
      modifies this
      ensures (State(), result) == RenameOutboundSpec(old(State()), oldTag, r, hears, tries)
      ensures Valid(State())
    {
      hide Valid, CreateSpec, RemoveSpec;
      result := Create(r, hears.create, tries.create, tries.again);
      if !result.Done? {
        return;
      }
      result := Remove(oldTag, hears.remove, tries.remove);
      if result.Done? || result.Unknown? {
        return Done;
      }
      var _ := Remove(r.tag, hears.undo, tries.undo);
    }
  }

  lemma AddedStarted(t: Table, it: Component)
    ensures Added(t.(started := true), it, None) == Added(t, it, None).(started := true)
    ensures Added(t, it, None).open == t.open
  {
  }

  lemma OpenAfterBoot(t: Table, open: set<Component>, ok: bool, starts: Component -> bool)
    requires ok ==> open == set c | c in Elements(t.list) && c.lifecycle
    requires open <= set c | c in Elements(t.list) && c.lifecycle
    ensures ok ==> t.(started := true, open := open) == Booted(t)
    ensures open <= Running(t.(started := true, open := open))
  {
  }

  lemma ClosedBeforeBoot(t: Table)
    requires Valid(t) && !t.started
    ensures t.open == {}
  {
  }

  // ---------- every change keeps the table valid ----------

  lemma AddedList(list: seq<Component>, byTag: map<Tag, Component>, it: Component)
    requires DistinctTags(list) && Indexes(byTag, Elements(list)) && it.tag !in byTag
    ensures DistinctTags(list + [it]) && Elements(list + [it]) == Elements(list) + {it}
    ensures Indexes(byTag[it.tag := it], Elements(list) + {it})
  {
    forall i | 0 <= i < |list|
      ensures list[i].tag != it.tag
    {
      assert list[i] in Elements(list);
    }
  }

  lemma AddedKeeps(t: Table, it: Component, r: Recipe)
    requires Coherent(t) && it.tag !in t.byTag && it.id < t.nextId && Describes(r, it)
    ensures Coherent(Added(t, it, Some(r)))
    ensures Elements(Added(t, it, Some(r)).list) == Elements(t.list) + {it}
  {
    AddedList(t.list, t.byTag, it);
  }

  lemma ReplacedElements(list: seq<Component>, prev: Component, next: Component)
    requires DistinctTags(list) && prev in list
    requires forall c :: c in list && c != prev ==> c.tag != next.tag
    ensures DistinctTags(list[IndexOf(list, prev) := next])
    ensures Elements(list[IndexOf(list, prev) := next]) == Elements(list) - {prev} + {next}
  {
    var k := IndexOf(list, prev);
    var list' := list[k := next];
    forall i | 0 <= i < |list| && i != k
      ensures list[i] in Elements(list) - {prev} && list'[i] == list[i]
    {
      assert list[i].tag != list[k].tag;
    }
    assert list'[k] == next;
    forall c | c in Elements(list) - {prev} + {next}
      ensures c in list'
    {
      if c != next {
        var i :| 0 <= i < |list| && list[i] == c;
        assert list'[i] == c;
      }
    }
  }

  lemma SwappedKeeps(t: Table, prev: Component, next: Component, r: Option<Recipe>)
    requires Coherent(t) && prev in t.list && next.id < t.nextId && next !in t.list
    requires next.tag == prev.tag || next.tag !in t.byTag
    requires r.Some? ==> Describes(r.value, next)
    ensures Coherent(Swapped(t, prev, next, r))
    ensures Elements(Swapped(t, prev, next, r).list) == Elements(t.list) - {prev} + {next}
  {
    forall c | c in t.list && c != prev
      ensures c.tag != next.tag
    {
      assert c in Elements(t.list) && prev in Elements(t.list);
    }
    ReplacedElements(t.list, prev, next);
  }

  lemma DroppedList(list: seq<Component>, byTag: map<Tag, Component>, it: Component)
    requires DistinctTags(list) && Indexes(byTag, Elements(list)) && it in list
    ensures Elements(Without(list, it)) == Elements(list) - {it}
    ensures it.tag in byTag && byTag[it.tag] == it
    ensures Indexes(byTag - {it.tag}, Elements(list) - {it})
  {
    assert it in Elements(list);
  }

  lemma DroppedKeeps(t: Table, it: Component)
    requires Coherent(t) && it in t.list
    ensures Coherent(Dropped(t, it))
    ensures Elements(Dropped(t, it).list) == Elements(t.list) - {it}
  {
    DroppedList(t.list, t.byTag, it);
  }

  lemma FreshInstance(t: Table, r: Recipe)
    requires Coherent(t)
    ensures Instance(t, r) !in t.list
  {
    assert Instance(t, r) !in Elements(t.list);
  }

  lemma RunningSwap(held: set<Component>, prev: Component, it: Component, started: bool)
    requires prev in held && it !in held
    ensures (set c | c in held - {prev} + {it} && c.lifecycle && started)
         == (set c | c in held && c.lifecycle && started) - {prev} + (if it.lifecycle && started then {it} else {})
  {
  }

  /** Closing `prev`, starting `it` and putting it in place: the scopes follow the list. */
  lemma TakesOver(t: Table, prev: Component, it: Component, r: Option<Recipe>)
    requires Coherent(t) && prev in t.list && t.open == Running(t) - {prev}
    requires it.id < t.nextId && it !in t.list && (it.tag == prev.tag || it.tag !in t.byTag)
    requires r.Some? ==> Describes(r.value, it)
    ensures Valid(Swapped(Opened(t, it), prev, it, r))
  {
    SwappedKeeps(t, prev, it, r);
    var t' := Swapped(t, prev, it, r);
    var held := Elements(t.list);
    assert Swapped(Opened(t, it), prev, it, r) == t'.(open := Opened(t, it).open);
    RunningSwap(held, prev, it, t.started);
  }

  lemma RestoreKeeps(t: Table, prev: Component, previous: Option<Recipe>, a: Attempt)
    requires Coherent(t) && prev in t.list && t.open == Running(t) - {prev}
    requires previous.Some? ==> Describes(previous.value, prev)
    ensures Valid(RestoreSpec(t, prev, previous, a).0)
  {
    hide Coherent, Running, Swapped, Opened, Dropped, Valid;
    var t' := t.(nextId := t.nextId + 1);
    LaterId(t);
    GoneIsValid(t, prev);
    GoneIsValid(t', prev);
    if previous.Some? && a.builds {
      FreshInstance(t, previous.value);
      IndexedPrev(t, prev);
      TakesOver(t', prev, Instance(t, previous.value), previous);
    }
  }

  lemma IndexedPrev(t: Table, prev: Component)
    requires Coherent(t) && prev in t.list
    ensures prev.tag in t.byTag && t.byTag[prev.tag] == prev
  {
    assert prev in Elements(t.list);
  }

  lemma LaterId(t: Table)
    requires Coherent(t)
    ensures Coherent(t.(nextId := t.nextId + 1)) && Running(t.(nextId := t.nextId + 1)) == Running(t)
  {
  }

  /** Closed already and now dropped: nothing of it is left. */
  lemma GoneIsValid(t: Table, prev: Component)
    requires Coherent(t) && prev in t.list && t.open == Running(t) - {prev}
    ensures Valid(Dropped(t, prev))
  {
    DroppedKeeps(t, prev);
    assert Running(Dropped(t, prev)) == Running(t) - {prev};
  }

  lemma RecordedDescribes(t: Table, prev: Component)
    requires Coherent(t) && prev in t.list
    ensures Recorded(t, prev.tag).Some? ==> Describes(Recorded(t, prev.tag).value, prev)
  {
    assert prev in Elements(t.list);
  }

  /** The moment between closing `prev` and starting its replacement. */
  lemma ShutKeeps(t: Table, prev: Component, r: Recipe)
    requires Valid(t) && prev in t.list
    ensures var t' := Shut(t.(nextId := t.nextId + 1), prev);
            Coherent(t') && t'.open == Running(t') - {prev}
    ensures Instance(t, r) !in t.list
    ensures prev.tag in t.byTag && t.byTag[prev.tag] == prev
    ensures Recorded(t, prev.tag).Some? ==> Describes(Recorded(t, prev.tag).value, prev)
  {
    FreshInstance(t, r);
    RecordedDescribes(t, prev);
    assert prev in Elements(t.list);
  }

  lemma ReplaceKeeps(t: Table, prev: Component, r: Recipe, a: Attempt, again: Attempt)
    requires Valid(t) && prev in t.list && (r.tag == prev.tag || r.tag !in t.byTag)
    ensures Valid(ReplaceSpec(t, prev, r, a, again).0)
  {
    hide Valid, Coherent, Running, Swapped, Opened, Dropped, RestoreSpec;
    var it := Instance(t, r);
    var t' := Shut(t.(nextId := t.nextId + 1), prev);
    ShutKeeps(t, prev, r);
    if !a.builds {
    } else if CatchesUp(t', it, a) {
      TakesOver(t', prev, it, Some(r));
    } else {
      RestoreKeeps(t', prev, Recorded(t, prev.tag), again);
    }
  }

  lemma RunningAdd(held: set<Component>, it: Component, started: bool)
    ensures (set c | c in held + {it} && c.lifecycle && started)
         == (set c | c in held && c.lifecycle && started) + (if it.lifecycle && started then {it} else {})
  {
  }

  /** Started or not, a newcomer's scope is open exactly when it is listed. */
  lemma NewcomerKeeps(t: Table, r: Recipe)
    requires Valid(t) && r.tag !in t.byTag
    ensures var it := Instance(t, r);
            Valid(Added(Opened(t.(nextId := t.nextId + 1), it), it, Some(r)))
  {
    hide Coherent, Elements;
    var it := Instance(t, r);
    var next := t.(nextId := t.nextId + 1);
    AnotherIdKeeps(t);
    AddedKeeps(next, it, r);
    RunningAdd(Elements(t.list), it, t.started);
    var t' := Added(next, it, Some(r));
    var up := Added(Opened(next, it), it, Some(r));
    assert up == t'.(open := Opened(next, it).open);
    SameButOpen(t', up);
  }

  lemma SameButOpen(t: Table, t': Table)
    requires Coherent(t) && t' == t.(open := t'.open)
    ensures Coherent(t') && Running(t') == Running(t)
  {
  }

  lemma AnotherIdKeeps(t: Table)
    requires Valid(t)
    ensures Valid(t.(nextId := t.nextId + 1))
  {
    assert Running(t.(nextId := t.nextId + 1)) == Running(t);
  }

  lemma CreateNewKeeps(t: Table, r: Recipe, refuse: (Tag, bool) -> bool, a: Attempt, again: Attempt)
    requires Valid(t) && r.tag !in t.byTag
    ensures Valid(CreateSpec(t, r, refuse, a, again).0)
  {
    hide Valid, Added, Opened;
    NewcomerKeeps(t, r);
    AnotherIdKeeps(t);
  }

  lemma HeldIsListed(t: Table, tag: Tag)
    requires Valid(t) && tag in t.byTag
    ensures t.byTag[tag] in t.list && t.byTag[tag].tag == tag
  {
    assert t.byTag[tag] in Elements(t.list);
  }

  lemma CreateKeeps(t: Table, r: Recipe, refuse: (Tag, bool) -> bool, a: Attempt, again: Attempt)
    requires Valid(t)
    ensures Valid(CreateSpec(t, r, refuse, a, again).0)
  {
    if Untagged(t, r) {
      assert CreateSpec(t, r, refuse, a, again).0 == t;
    } else if r.tag !in t.byTag {
      CreateNewKeeps(t, r, refuse, a, again);
    } else if t.started && !refuse(r.tag, false) {
      HeldIsListed(t, r.tag);
      var t' := ReplaceSpec(t, t.byTag[r.tag], r, a, again).0;
      assert Valid(t') by { ReplaceKeeps(t, t.byTag[r.tag], r, a, again); }
      assert CreateSpec(t, r, refuse, a, again).0 == t';
    } else {
      assert CreateSpec(t, r, refuse, a, again).0 == t;
    }
  }

  lemma StandInKeeps(t: Table, it: Component)
    requires Valid(t) && it in t.list && NeedsStandIn(t, it)
    ensures var standIn := Instance(t, DIRECT);
            Valid(Shut(Swapped(Opened(t.(nextId := t.nextId + 1), standIn), it, standIn, None), it))
  {
    var standIn := Instance(t, DIRECT);
    var next := t.(nextId := t.nextId + 1);
    FreshInstance(t, DIRECT);
    assert forall tag :: tag in t.byTag ==> t.byTag[tag] in Elements(t.list);
    SwappedKeeps(next, it, standIn, None);
    RunningSwap(Elements(t.list), it, standIn, t.started);
  }

  lemma DroppedAndShut(t: Table, it: Component)
    requires Valid(t) && it in t.list
    ensures Valid(Shut(Dropped(t, it), it))
  {
    DroppedKeeps(t, it);
    assert Running(Dropped(t, it)) == Running(t) - {it};
  }

  lemma RemoveKeeps(t: Table, tag: Tag, refuse: (Tag, bool) -> bool, a: Attempt)
    requires Valid(t)
    ensures Valid(RemoveSpec(t, tag, refuse, a).0)
  {
    if tag in t.byTag {
      HeldIsListed(t, tag);
      var it := t.byTag[tag];
      if NeedsStandIn(t, it) {
        StandInKeeps(t, it);
      } else {
        DroppedAndShut(t, it);
      }
    }
  }

  lemma RenameKeeps(t: Table, oldTag: Tag, r: Recipe, refuse: (Tag, bool) -> bool, a: Attempt, again: Attempt)
    requires Valid(t)
    ensures Valid(RenameSpec(t, oldTag, r, refuse, a, again).0)
  {
    if oldTag == r.tag || oldTag !in t.byTag {
      CreateKeeps(t, r, refuse, a, again);
    } else if r.tag !in t.byTag {
      HeldIsListed(t, oldTag);
      ReplaceKeeps(t, t.byTag[oldTag], r, a, again);
    }
  }

  // ---------- what the changes promise ----------

  lemma SwappedShape(t: Table, prev: Component, next: Component, r: Recipe)
    requires Coherent(t) && prev in t.list && r.tag == next.tag
    ensures var t' := Swapped(t, prev, next, Some(r));
            && t'.list == t.list[IndexOf(t.list, prev) := next]
            && t'.byTag == (t.byTag - {prev.tag})[next.tag := next]
            && t'.recipes == (t.recipes - {prev.tag})[r.tag := r]
  {
    assert prev in Elements(t.list);
  }

  lemma PutBack<V>(m: map<Tag, V>, tag: Tag, v: V)
    requires tag in m
    ensures (m - {tag})[tag := v].Keys == m.Keys
    ensures (m - {tag})[tag := m[tag]] == m
  {
  }

  lemma RestoredShape(t: Table, prev: Component, previous: Recipe, a: Attempt)
    requires Coherent(t) && prev in t.list && Recorded(t, prev.tag) == Some(previous)
    requires RestoreSpec(t, prev, Some(previous), a).1
    ensures var t' := RestoreSpec(t, prev, Some(previous), a).0;
            && t'.list == t.list[IndexOf(t.list, prev) := Instance(t, previous)]
            && t'.recipes == t.recipes
            && t'.byTag == (t.byTag - {prev.tag})[prev.tag := Instance(t, previous)]
            && previous.tag == prev.tag && prev.tag in t.byTag
  {
    RecordedDescribes(t, prev);
    assert prev in Elements(t.list);
    var it := Instance(t, previous);
    SwappedShape(Opened(t.(nextId := t.nextId + 1), it), prev, it, previous);
    PutBack(t.recipes, prev.tag, previous);
  }

  lemma SameTags(list: seq<Component>, k: nat, it: Component)
    requires k < |list| && list[k].tag == it.tag
    ensures Tags(list[k := it]) == Tags(list)
  {
  }

  /** "A failed change leaves the core as it was": when the old component can be rebuilt, its place,
      every other instance and all recipes are as before. */
  lemma FailedReplacementRestores(t: Table, prev: Component, r: Recipe, a: Attempt, again: Attempt)
    requires Valid(t) && prev in t.list
    requires ReplaceSpec(t, prev, r, a, again).1 == StartFailed(true)
    ensures var t' := ReplaceSpec(t, prev, r, a, again).0;
            && Tags(t'.list) == Tags(t.list)
            && t'.recipes == t.recipes
            && t'.byTag.Keys == t.byTag.Keys
            && forall i :: 0 <= i < |t.list| && t.list[i] != prev ==> t'.list[i] == t.list[i]
  {
    hide Valid, Coherent, Swapped, Opened, Dropped;
    var shut := Shut(t.(nextId := t.nextId + 1), prev);
    ShutKeeps(t, prev, r);
    var previous := t.recipes[prev.tag];
    RestoredShape(shut, prev, previous, again);
    PutBack(t.byTag, prev.tag, Instance(shut, previous));
    SameTags(t.list, IndexOf(t.list, prev), Instance(shut, previous));
  }

  /** A replacement or a rename takes the old component's place; nothing else moves. */
  lemma ReplacementKeepsPlace(t: Table, prev: Component, r: Recipe, a: Attempt, again: Attempt)
    requires Valid(t) && prev in t.list
    requires ReplaceSpec(t, prev, r, a, again).1.Done?
    ensures var t' := ReplaceSpec(t, prev, r, a, again).0;
            && t'.list == t.list[IndexOf(t.list, prev) := Instance(t, r)]
            && t'.byTag == (t.byTag - {prev.tag})[r.tag := Instance(t, r)]
            && t'.recipes == (t.recipes - {prev.tag})[r.tag := r]
  {
    var it := Instance(t, r);
    SwappedShape(Opened(Shut(t.(nextId := t.nextId + 1), prev), it), prev, it, r);
  }

  // ---------- what a change that goes through does ----------

  /** When a create goes through: the tag is one, a held one is running and not refused, and the newcomer builds
      and starts. */
  lemma CreateGoesThrough(t: Table, r: Recipe, refuse: (Tag, bool) -> bool, a: Attempt, again: Attempt)
    requires Valid(t)
    ensures CreateSpec(t, r, refuse, a, again).1.Done? <==>
            && !Untagged(t, r) && (r.tag in t.byTag ==> t.started && !refuse(r.tag, false))
            && a.builds && (r.lifecycle && t.started ==> a.starts)
  {
  }

  /** ... and then the tag is held by a new instance of the recipe, listed, recorded and running; everything held
      under another tag is the instance it was. */
  lemma CreatedIsHeld(t: Table, r: Recipe, refuse: (Tag, bool) -> bool, a: Attempt, again: Attempt)
    requires Valid(t) && CreateSpec(t, r, refuse, a, again).1.Done?
    ensures var t' := CreateSpec(t, r, refuse, a, again).0;
            && r.tag in t'.byTag && Describes(r, t'.byTag[r.tag]) && t'.byTag[r.tag] !in t.list && t'.byTag[r.tag] in t'.list
            && r.tag in t'.recipes && t'.recipes[r.tag] == r
            && (t'.byTag[r.tag] in t'.open <==> r.lifecycle && t.started)
            && t'.byTag.Keys == t.byTag.Keys + {r.tag}
            && forall tag :: tag in t.byTag && tag != r.tag ==> t'.byTag[tag] == t.byTag[tag]
  {
    hide Coherent, Elements, Opened, Swapped, Added;
    var it := Instance(t, r);
    CreateKeeps(t, r, refuse, a, again);
    FreshInstance(t, r);
    if r.tag in t.byTag {
      HeldIsListed(t, r.tag);
      ReplacementKeepsPlace(t, t.byTag[r.tag], r, a, again);
    } else {
      NewcomerShape(t, r);
    }
    var t' := CreateSpec(t, r, refuse, a, again).0;
    CreateSame(t, r, refuse, a, again);
    assert t'.byTag[r.tag] == it;
    HeldIsListed(t', r.tag);
    RunningHas(t', it);
  }

  lemma CreateSame(t: Table, r: Recipe, refuse: (Tag, bool) -> bool, a: Attempt, again: Attempt)
    ensures CreateSpec(t, r, refuse, a, again).0.started == t.started
  {
  }

  lemma RunningHas(t: Table, it: Component)
    requires Valid(t) && it in t.list
    ensures it in t.open <==> it.lifecycle && t.started
  {
    assert it in Elements(t.list);
  }

  /** When a removal goes through: the tag is held and not refused, and a stand-in that is needed builds and starts. */
  lemma RemoveGoesThrough(t: Table, tag: Tag, refuse: (Tag, bool) -> bool, a: Attempt)
    requires Valid(t)
    ensures RemoveSpec(t, tag, refuse, a).1.Done? <==>
            && tag in t.byTag && !refuse(tag, true) && (NeedsStandIn(t, t.byTag[tag]) ==> a.builds && a.starts)
  {
  }

  /** ... and then the instance is in neither list, index nor recipes, and its scope is closed; everything else is
      as it was, and only a stand-in may have come. */
  lemma RemovedIsGone(t: Table, tag: Tag, refuse: (Tag, bool) -> bool, a: Attempt)
    requires Valid(t) && RemoveSpec(t, tag, refuse, a).1.Done?
    ensures var t', it := RemoveSpec(t, tag, refuse, a).0, t.byTag[tag];
            && it !in t'.list && it !in t'.open && tag !in t'.recipes
            && (forall g :: g in t'.byTag ==> t'.byTag[g] != it)
            && (if NeedsStandIn(t, it) then t'.list == [Instance(t, DIRECT)] && t'.byTag == map[DIRECT.tag := Instance(t, DIRECT)]
                else t'.list == Without(t.list, it) && t'.byTag == t.byTag - {tag} && t'.recipes == t.recipes - {tag})
  {
    HeldIsListed(t, tag);
    var it := t.byTag[tag];
    if NeedsStandIn(t, it) {
      FreshInstance(t, DIRECT);
      assert t.byTag.Keys == {tag} by {
        assert forall g :: g in t.byTag ==> t.byTag[g] in Elements(t.list);
      }
      assert t.recipes.Keys <= {tag};
    } else {
      assert forall g :: g in t.byTag ==> t.byTag[g].tag == g;
    }
  }

  /** A rename in place that goes through: the old tag is gone, and the newcomer stands where its holder stood. */
  lemma RenamedIsInPlace(t: Table, oldTag: Tag, r: Recipe, refuse: (Tag, bool) -> bool, a: Attempt, again: Attempt)
    requires Valid(t) && oldTag in t.byTag && oldTag != r.tag && RenameSpec(t, oldTag, r, refuse, a, again).1.Done?
    ensures var t', it := RenameSpec(t, oldTag, r, refuse, a, again).0, Instance(t, r);
            && t.byTag[oldTag] in t.list && t'.list == t.list[IndexOf(t.list, t.byTag[oldTag]) := it]
            && oldTag !in t'.byTag && oldTag !in t'.recipes && t'.byTag == (t.byTag - {oldTag})[r.tag := it]
            && t'.recipes == (t.recipes - {oldTag})[r.tag := r] && t.byTag[oldTag] !in t'.open
  {
    hide Coherent, Swapped, Opened;
    HeldIsListed(t, oldTag);
    ReplacementKeepsPlace(t, t.byTag[oldTag], r, a, again);
    RenameKeeps(t, oldTag, r, refuse, a, again);
    OpenAreHeld(RenameSpec(t, oldTag, r, refuse, a, again).0, t.byTag[oldTag]);
  }

  lemma OpenAreHeld(t: Table, it: Component)
    requires Valid(t)
    ensures it in t.open ==> it.tag in t.byTag && t.byTag[it.tag] == it
  {
  }

  /** An outbound's rename to a free tag that goes through: the old instance is gone from list, index, recipes and
      scopes, the new tag is held by an instance of the recipe, and every other one is untouched. */
  lemma RenamedOutboundIsMoved(t: Table, oldTag: Tag, r: Recipe, hears: Hears, tries: Tries)
    requires Valid(t) && oldTag in t.byTag && oldTag != r.tag && r.tag !in t.byTag
    requires RenameOutboundSpec(t, oldTag, r, hears, tries).1.Done?
    ensures var t', it := RenameOutboundSpec(t, oldTag, r, hears, tries).0, t.byTag[oldTag];
            && it !in t'.list && it !in t'.open && oldTag !in t'.byTag && oldTag !in t'.recipes
            && t'.byTag.Keys == t.byTag.Keys - {oldTag} + {r.tag} && r.tag in t'.byTag && r.tag in t'.recipes
            && Describes(r, t'.byTag[r.tag]) && t'.byTag[r.tag] in t'.list && t'.recipes[r.tag] == r
            && (t'.byTag[r.tag] in t'.open <==> r.lifecycle && t.started)
            && forall tag :: tag in t.byTag && tag != oldTag ==> t'.byTag[tag] == t.byTag[tag]
  {
    hide Valid, CreateSpec, RemoveSpec;
    var (t1, made) := CreateSpec(t, r, hears.create, tries.create, tries.again);
    CreatedIsHeld(t, r, hears.create, tries.create, tries.again);
    CreateKeeps(t, r, hears.create, tries.create, tries.again);
    var (t2, removed) := RemoveSpec(t1, oldTag, hears.remove, tries.remove);
    RemoveGoesThrough(t1, oldTag, hears.remove, tries.remove);
    TwoHeld(t1, oldTag, r.tag);
    KnownIfHeld(t1, oldTag, hears.remove, tries.remove);
    RemovedIsGone(t1, oldTag, hears.remove, tries.remove);
    RemoveKeeps(t1, oldTag, hears.remove, tries.remove);
    HeldIsListed(t2, r.tag);
    RunningHas(t2, t2.byTag[r.tag]);
    CreateSame(t, r, hears.create, tries.create, tries.again);
    RemoveSame(t1, oldTag, hears.remove, tries.remove);
  }

  lemma RemoveSame(t: Table, tag: Tag, refuse: (Tag, bool) -> bool, a: Attempt)
    ensures RemoveSpec(t, tag, refuse, a).0.started == t.started
  {
  }

  lemma KnownIfHeld(t: Table, tag: Tag, refuse: (Tag, bool) -> bool, a: Attempt)
    ensures tag in t.byTag ==> !RemoveSpec(t, tag, refuse, a).1.Unknown?
  {
  }

  lemma TwoHeld(t: Table, a: Tag, b: Tag)
    requires Valid(t) && a in t.byTag && b in t.byTag && a != b
    ensures |t.list| >= 2 && !NeedsStandIn(t, t.byTag[a])
  {
    HeldIsListed(t, a);
    HeldIsListed(t, b);
  }

  // ---------- route.final ----------

  /** With route.final set the default is the outbound of that tag, while there is one. */
  predicate DefaultIsFinal(t: Table) {
    t.hooks.OutboundHooks? && t.hooks.final != "" && t.hooks.final in t.byTag ==> t.default == Some(t.byTag[t.hooks.final])
  }

  lemma CreateFinal(t: Table, r: Recipe, refuse: (Tag, bool) -> bool, a: Attempt, again: Attempt)
    requires Valid(t) && DefaultIsFinal(t)
    ensures DefaultIsFinal(CreateSpec(t, r, refuse, a, again).0)
  {
    if r.tag in t.byTag {
      HeldIsListed(t, r.tag);
      ReplaceFinal(t, t.byTag[r.tag], r, a, again);
    }
  }

  lemma ReplaceFinal(t: Table, prev: Component, r: Recipe, a: Attempt, again: Attempt)
    requires Valid(t) && DefaultIsFinal(t) && prev in t.list && prev.tag == r.tag
    ensures DefaultIsFinal(ReplaceSpec(t, prev, r, a, again).0)
  {
    RecordedDescribes(t, prev);
    IndexedPrev(t, prev);
    assert forall g :: g in t.byTag ==> t.byTag[g].tag == g;
  }

  lemma RemoveFinal(t: Table, tag: Tag, refuse: (Tag, bool) -> bool, a: Attempt)
    requires Valid(t) && DefaultIsFinal(t)
    ensures DefaultIsFinal(RemoveSpec(t, tag, refuse, a).0)
  {
    if tag in t.byTag {
      HeldIsListed(t, tag);
      assert forall g :: g in t.byTag ==> t.byTag[g].tag == g;
    }
  }

  /** Through creates, removals and renames of outbounds alike. */
  lemma RenameFinal(t: Table, oldTag: Tag, r: Recipe, hears: Hears, tries: Tries)
    requires Valid(t) && DefaultIsFinal(t)
    ensures DefaultIsFinal(RenameOutboundSpec(t, oldTag, r, hears, tries).0)
  {
    hide Valid, DefaultIsFinal, CreateSpec, RemoveSpec;
    var t1 := CreateSpec(t, r, hears.create, tries.create, tries.again).0;
    var t2 := RemoveSpec(t1, oldTag, hears.remove, tries.remove).0;
    CreateKeeps(t, r, hears.create, tries.create, tries.again);
    CreateFinal(t, r, hears.create, tries.create, tries.again);
    RemoveKeeps(t1, oldTag, hears.remove, tries.remove);
    RemoveFinal(t1, oldTag, hears.remove, tries.remove);
    RemoveFinal(t2, r.tag, hears.undo, tries.undo);
  }

  /** No refusal, failed build or failed start of a newcomer touches what is there. */
  lemma RefusedChangeIsNoChange(t: Table, r: Recipe, refuse: (Tag, bool) -> bool, a: Attempt, again: Attempt)
    requires Valid(t)
    requires r.tag !in t.byTag ==> !CreateSpec(t, r, refuse, a, again).1.Done?
    requires r.tag in t.byTag ==> !a.builds || !t.started || refuse(r.tag, false)
    ensures CreateSpec(t, r, refuse, a, again).0 == t.(nextId := CreateSpec(t, r, refuse, a, again).0.nextId)
  {
  }

  /** Without route.final the default stays the first listed outbound through every create. */
  lemma CreateDefault(t: Table, r: Recipe, refuse: (Tag, bool) -> bool, a: Attempt, again: Attempt)
    requires Valid(t) && DefaultIsFirst(t)
    ensures DefaultIsFirst(CreateSpec(t, r, refuse, a, again).0)
  {
    if r.tag in t.byTag {
      assert t.byTag[r.tag] in Elements(t.list);
      ReplaceDefault(t, t.byTag[r.tag], r, a, again);
    }
  }

  lemma ReplaceDefault(t: Table, prev: Component, r: Recipe, a: Attempt, again: Attempt)
    requires Valid(t) && DefaultIsFirst(t) && prev in t.list
    ensures DefaultIsFirst(ReplaceSpec(t, prev, r, a, again).0)
  {
    assert IndexOf(t.list, prev) == 0 <==> t.list[0] == prev;
  }

  lemma RemoveDefault(t: Table, tag: Tag, refuse: (Tag, bool) -> bool, a: Attempt)
    requires Valid(t) && DefaultIsFirst(t)
    ensures DefaultIsFirst(RemoveSpec(t, tag, refuse, a).0)
  {
  }

  /** ... and so through an outbound's rename, whichever of its steps go through. */
  lemma RenameDefault(t: Table, oldTag: Tag, r: Recipe, hears: Hears, tries: Tries)
    requires Valid(t) && DefaultIsFirst(t)
    ensures DefaultIsFirst(RenameOutboundSpec(t, oldTag, r, hears, tries).0)
  {
    hide Valid, DefaultIsFirst, CreateSpec, RemoveSpec;
    var t1 := CreateSpec(t, r, hears.create, tries.create, tries.again).0;
    var t2 := RemoveSpec(t1, oldTag, hears.remove, tries.remove).0;
    CreateKeeps(t, r, hears.create, tries.create, tries.again);
    CreateDefault(t, r, hears.create, tries.create, tries.again);
    RemoveKeeps(t1, oldTag, hears.remove, tries.remove);
    RemoveDefault(t1, oldTag, hears.remove, tries.remove);
    RemoveDefault(t2, r.tag, hears.undo, tries.undo);
  }

  lemma RenameOutboundKeeps(t: Table, oldTag: Tag, r: Recipe, hears: Hears, tries: Tries)
    requires Valid(t)
    ensures Valid(RenameOutboundSpec(t, oldTag, r, hears, tries).0)
  {
    hide Valid, CreateSpec, RemoveSpec;
    var t1 := CreateSpec(t, r, hears.create, tries.create, tries.again).0;
    var t2 := RemoveSpec(t1, oldTag, hears.remove, tries.remove).0;
    CreateKeeps(t, r, hears.create, tries.create, tries.again);
    RemoveKeeps(t1, oldTag, hears.remove, tries.remove);
    RemoveKeeps(t2, r.tag, hears.undo, tries.undo);
  }

  /** "A failure on either side leaves the core as it was": a rename to a free tag that does not go through
      leaves list, index, recipes and scopes alone, unless taking the newcomer back is itself refused. */
  lemma FailedRenameIsUndone(t: Table, oldTag: Tag, r: Recipe, hears: Hears, tries: Tries)
    requires Valid(t) && oldTag != r.tag && r.tag !in t.byTag && !hears.undo(r.tag, true)
    requires !RenameOutboundSpec(t, oldTag, r, hears, tries).1.Done?
    ensures var t' := RenameOutboundSpec(t, oldTag, r, hears, tries).0;
            t'.list == t.list && t'.byTag == t.byTag && t'.recipes == t.recipes && t'.open == t.open
  {
    hide Valid, Added, Dropped, Opened;
    var (t1, made) := CreateSpec(t, r, hears.create, tries.create, tries.again);
    if made.Done? {
      NewcomerShape(t, r);
      assert oldTag in t.byTag;
      HeldIsListed(t, oldTag);
      NewcomerGoes(t, r, t1);
    }
  }

  lemma NewcomerShape(t: Table, r: Recipe)
    requires Valid(t) && r.tag !in t.byTag
    ensures var it := Instance(t, r);
            var t1 := Added(Opened(t.(nextId := t.nextId + 1), it), it, Some(r));
            HasNewcomer(t, t1, r)
  {
    FreshInstance(t, r);
  }

  predicate HasNewcomer(t: Table, t1: Table, r: Recipe) {
    var it := Instance(t, r);
    && t1.list == t.list + [it] && t1.byTag == t.byTag[r.tag := it] && t1.recipes == t.recipes[r.tag := r]
    && t1.open - {it} == t.open && it !in t.list
  }

  lemma NewcomerGoes(t: Table, r: Recipe, t1: Table)
    requires Valid(t) && r.tag !in t.byTag && HasNewcomer(t, t1, r)
    ensures var it := Instance(t, r);
            var t' := Shut(Dropped(t1, it), it);
            t'.list == t.list && t'.byTag == t.byTag && t'.recipes == t.recipes && t'.open == t.open
    ensures t.list != [] ==> |t1.list| >= 2
  {
    assert r.tag !in t.recipes;
    hide Valid, HasNewcomer;
    NewcomerParts(t, r, t1);
    WithoutLast(t.list, Instance(t, r));
    TakeBack(t.byTag, r.tag, Instance(t, r));
    TakeBack(t.recipes, r.tag, r);
  }

  lemma NewcomerParts(t: Table, r: Recipe, t1: Table)
    requires HasNewcomer(t, t1, r)
    ensures var it := Instance(t, r);
            && t1.list == t.list + [it] && t1.byTag == t.byTag[r.tag := it] && t1.recipes == t.recipes[r.tag := r]
            && t1.open - {it} == t.open && it !in t.list
  {
  }

  lemma TakeBack<V>(m: map<Tag, V>, tag: Tag, v: V)
    requires tag !in m
    ensures m[tag := v] - {tag} == m
  {
  }

  lemma {:induction false} WithoutLast(list: seq<Component>, it: Component)
    requires it !in list
    ensures Without(list + [it], it) == list
  {
    if list != [] {
      assert (list + [it])[1..] == list[1..] + [it];
      WithoutLast(list[1..], it);
    } else {
      assert [it][1..] == [];
    }
  }

  /** A running box without route.final never removes its last outbound ... */
  lemma RemoveNeverEmpties(t: Table, tag: Tag, refuse: (Tag, bool) -> bool, a: Attempt)
    requires Valid(t) && t.started && t.hooks == OutboundHooks("") && t.list != []
    ensures RemoveSpec(t, tag, refuse, a).0.list != []
  {
    if tag in t.byTag {
      var it := t.byTag[tag];
      assert it in Elements(t.list);
      ShrinksByOne(t.list, it);
    }
  }

  /** What a failing replacement needs to lose the old component too: it has no recipe, or that one does
      not build, or does not start. */
  predicate CannotRestore(t: Table, tag: Tag, again: Attempt) {
    tag !in t.recipes || !again.builds || (t.recipes[tag].lifecycle && !again.starts)
  }

  /** ... and loses it in exactly one way: the only outbound is replaced, the new one builds but does not
      start, and the old one cannot be put back.  The router is then left without a default. */
  lemma CreateEmpties(t: Table, r: Recipe, refuse: (Tag, bool) -> bool, a: Attempt, again: Attempt)
    requires Valid(t) && t.started && t.list != []
    ensures CreateSpec(t, r, refuse, a, again).0.list == [] <==>
              && |t.list| == 1 && r.tag == t.list[0].tag && !Untagged(t, r) && !refuse(r.tag, false)
              && a.builds && r.lifecycle && !a.starts && CannotRestore(t, r.tag, again)
    ensures CreateSpec(t, r, refuse, a, again).0.list == [] && t.hooks == OutboundHooks("") && DefaultIsFirst(t) ==>
              CreateSpec(t, r, refuse, a, again).0.default.None?
  {
    hide DefaultIsFirst;
    assert t.list[0] in Elements(t.list);
    if !Untagged(t, r) && r.tag in t.byTag {
      var prev := t.byTag[r.tag];
      assert prev in Elements(t.list) && prev.tag == r.tag;
      ShrinksByOne(t.list, prev);
      ReplaceEmpties(t, prev, r, a, again);
    }
    if DefaultIsFirst(t) {
      CreateDefault(t, r, refuse, a, again);
      FirstOfNone(CreateSpec(t, r, refuse, a, again).0);
    }
  }

  lemma FirstOfNone(t: Table)
    requires DefaultIsFirst(t)
    ensures t.hooks == OutboundHooks("") && t.list == [] ==> t.default.None?
  {
  }

  /** A running box whose only outbound is the stand-in a removal left: it was put there without a recipe. */
  const STAND_IN := Component(0, DIRECT.tag, [], true)
  const ONE_LEFT := Table(OutboundHooks(""), true, [STAND_IN], map[DIRECT.tag := STAND_IN], map[], {STAND_IN}, Some(STAND_IN), 1)

  /** An edit of that outbound which builds and does not start leaves no outbound and no default, although
      nothing refuses it and the old one could be built again. */
  lemma LastOutboundIsLost(r: Recipe, refuse: (Tag, bool) -> bool, again: Attempt)
    requires r.tag == DIRECT.tag && r.lifecycle && !refuse(r.tag, false)
    ensures Valid(ONE_LEFT) && DefaultIsFirst(ONE_LEFT)
    ensures var (t', result) := CreateSpec(ONE_LEFT, r, refuse, Attempt(true, false), again);
            result == StartFailed(false) && t'.list == [] && t'.default.None?
  {
    assert Elements(ONE_LEFT.list) == {STAND_IN};
    assert ONE_LEFT.open == Running(ONE_LEFT);
    hide Valid, Dropped;
    CreateEmpties(ONE_LEFT, r, refuse, Attempt(true, false), again);
  }

  lemma ShrinksByOne(list: seq<Component>, c: Component)
    requires DistinctTags(list) && c in list
    ensures Without(list, c) == [] <==> |list| == 1
    ensures |list| == 1 ==> list[0] == c
  {
    if |list| > 1 {
      assert list[0].tag != list[1].tag;
      assert list[0] in Without(list, c) || list[1] in Without(list, c);
    } else {
      assert list[0] == c;
    }
  }

  lemma ReplaceEmpties(t: Table, prev: Component, r: Recipe, a: Attempt, again: Attempt)
    requires Valid(t) && t.started && prev in t.list
    ensures ReplaceSpec(t, prev, r, a, again).0.list == [] <==>
              Without(t.list, prev) == [] && a.builds && r.lifecycle && !a.starts && CannotRestore(t, prev.tag, again)
  {
    RecordedDescribes(t, prev);
  }
}

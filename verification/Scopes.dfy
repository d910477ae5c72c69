/**
 The teardown scopes of core/scopes.go as an interleaved protocol.

 A scopeSet is a few fields under one lock.  Every public call is one or two short
 sections under that lock with unlocked work between them, so a call is modelled by
 its sections, and a run is any interleaving of the sections of any number of callers.
 `ScopeSet` is the object itself; `System` adds the callers that are part-way through.
 */
module Scopes {
  type Component = nat
  type Caller = nat
  type EntryId = nat
  type Cleanup = nat

  /** A plain cleanup handed to Add, or a started component with its scope's pending cleanups. */
  datatype Entry = Plain(cleanup: Cleanup) | Scoped(component: Component, pending: seq<Cleanup>)

  /** The set's fields, the entries it ever allocated, and what ran.
      `owner[c]` is the entry cleanup `c` was registered on. */
  datatype SetState = SetState(
    closed: bool,
    entries: seq<EntryId>,
    byComponent: map<Component, EntryId>,
    heap: seq<Entry>,
    owner: seq<EntryId>,
    ran: seq<Cleanup>)

  const EMPTY := SetState(false, [], map[], [], [], [])

  /** Where a caller is between its locked sections; an idle caller is absent. */
  datatype Control = Starting(component: Component, entry: EntryId) | Closing(todo: seq<EntryId>)

  datatype System = System(scopes: SetState, callers: map<Caller, Control>)

  // ---------- sequences ----------

  function Reverse(s: seq<nat>): (r: seq<nat>)
    ensures |r| == |s|
    ensures forall x :: x in r <==> x in s
  {
    if s == [] then [] else Reverse(s[1..]) + [s[0]]
  }

  predicate Distinct(s: seq<nat>) {
    forall i, j :: 0 <= i < j < |s| ==> s[i] != s[j]
  }

  predicate Below(s: seq<nat>, n: nat) {
    forall i :: 0 <= i < |s| ==> s[i] < n
  }

  lemma {:induction false} ReverseConcat(a: seq<nat>, b: seq<nat>)
    ensures Reverse(a + b) == Reverse(b) + Reverse(a)
  {
    if a == [] {
      assert a + b == b;
    } else {
      ReverseConcat(a[1..], b);
      assert (a + b)[1..] == a[1..] + b;
    }
  }

  lemma {:induction false} ReverseDistinct(s: seq<nat>)
    requires Distinct(s)
    ensures Distinct(Reverse(s))
  {
    if s != [] {
      ReverseDistinct(s[1..]);
      assert s[0] !in s[1..];
    }
  }

  lemma DistinctCount(s: seq<nat>, x: nat)
    requires Distinct(s) && x in s
    ensures multiset(s)[x] == 1
  {
    var i :| 0 <= i < |s| && s[i] == x;
    assert s == s[..i] + [x] + s[i + 1..];
    assert x !in s[..i] && x !in s[i + 1..];
  }

  function Without(s: seq<nat>, x: nat): (r: seq<nat>)
    ensures forall y :: y in r <==> y in s && y != x
    ensures Distinct(s) ==> Distinct(r)
  {
    if s == [] then [] else
    if s[0] == x then Without(s[1..], x) else
      var rest := Without(s[1..], x);
      assert Distinct(s) ==> s[0] !in rest;
      [s[0]] + rest
  }

  // ---------- the locked sections ----------

  /** Add: lists the cleanup, or leaves it to the caller to run when the set is closed. */
  function AddSection(s: SetState): SetState {
    var e, c := |s.heap|, |s.owner|;
    var s' := s.(heap := s.heap + [Plain(c)], owner := s.owner + [e]);
    if s.closed then s' else s'.(entries := s.entries + [e])
  }

  /** Start, first section, on an open set: the component's entry, created on its first stage. */
  function StartSection(s: SetState, c: Component): SetState {
    if c in s.byComponent then s else
      var e := |s.heap|;
      s.(heap := s.heap + [Scoped(c, [])], entries := s.entries + [e], byComponent := s.byComponent[c := e])
  }

  /** The component's own Start registers one more cleanup on the scope it was handed. */
  function RegisterOn(s: SetState, e: EntryId): SetState
    requires e < |s.heap| && s.heap[e].Scoped?
  {
    var c := |s.owner|;
    s.(heap := s.heap[e := s.heap[e].(pending := s.heap[e].pending + [c])], owner := s.owner + [e])
  }

  /** Start, second section: was the entry closed behind this Start's back? */
  predicate Detached(s: SetState, c: Component, e: EntryId) {
    s.closed || !(c in s.byComponent && s.byComponent[c] == e)
  }

  function RemoveSection(s: SetState, c: Component): SetState {
    if c !in s.byComponent then s else
      s.(byComponent := s.byComponent - {c}, entries := Without(s.entries, s.byComponent[c]))
  }

  function CloseSection(s: SetState): SetState {
    if s.closed then s else s.(closed := true, entries := [], byComponent := map[])
  }

  /** closeEntry: a scope drains what is pending, newest first; a plain cleanup simply runs. */
  function CloseEntry(s: SetState, e: EntryId): SetState
    requires e < |s.heap|
  {
    match s.heap[e]
    case Plain(c) => s.(ran := s.ran + [c])
    case Scoped(c, pending) => s.(heap := s.heap[e := Scoped(c, [])], ran := s.ran + Reverse(pending))
  }

  // ---------- the object ----------

  /** core/scopes.go's scopeSet, one method per locked section. */
  class ScopeSet {
    var closed: bool
    var entries: seq<EntryId>
    var byComponent: map<Component, EntryId>
    var heap: seq<Entry>
    var ran: seq<Cleanup>
    ghost var owner: seq<EntryId>
    var cleanups: nat

    ghost function State(): SetState
      reads this
    {
      SetState(closed, entries, byComponent, heap, owner, ran)
    }

    ghost predicate Valid()
      reads this
    {
      cleanups == |owner|
    }

    constructor ()
      ensures Valid() && State() == EMPTY
    {
      closed, entries, byComponent, heap, ran, owner, cleanups := false, [], map[], [], [], [], 0;
    }

    method Add() returns (runNow: bool)
      requires Valid()
      modifies this
      ensures Valid() && State() == AddSection(old(State())) && runNow == old(closed)
    {
      var e := |heap|;
      heap := heap + [Plain(cleanups)];
      cleanups, owner := cleanups + 1, owner + [e];
      runNow := closed;
      if !closed {
        entries := entries + [e];
      }
    }

    method BeginStart(c: Component) returns (entry: EntryId, refused: bool)
      requires Valid()
      modifies this
      ensures Valid() && refused == old(closed)
      ensures refused ==> State() == old(State())
      ensures !refused ==> State() == StartSection(old(State()), c) && c in byComponent && entry == byComponent[c]
    {
      if closed {
        return 0, true;
      }
      if c in byComponent {
        return byComponent[c], false;
      }
      entry := |heap|;
      heap := heap + [Scoped(c, [])];
      entries := entries + [entry];
      byComponent := byComponent[c := entry];
      refused := false;
    }

    method EndStart(c: Component, entry: EntryId) returns (detached: bool)
      ensures detached == Detached(State(), c, entry)
    {
      detached := closed || c !in byComponent || byComponent[c] != entry;
    }

    method Remove(c: Component) returns (todo: seq<EntryId>)
      requires Valid()
      modifies this
      ensures Valid() && State() == RemoveSection(old(State()), c)
      ensures todo == if c in old(byComponent) then [old(byComponent)[c]] else []
    {
      if c !in byComponent {
        return [];
      }
      todo := [byComponent[c]];
      entries := Without(entries, byComponent[c]);
      byComponent := byComponent - {c};
    }

    method Close() returns (todo: seq<EntryId>)
      requires Valid()
      modifies this
      ensures Valid() && State() == CloseSection(old(State()))
      ensures todo == if old(closed) then [] else old(entries)
    {
      if closed {
        return [];
      }
      todo := entries;
      closed, entries, byComponent := true, [], map[];
    }

    /** The unlocked loop after Close: every entry taken over, last registered first. */
    method CloseAll(todo: seq<EntryId>)
      requires Valid() && Distinct(todo)
      requires Below(todo, |heap|)
      modifies this
      ensures Valid() && State() == ClosedAll(old(State()), todo)
      ensures ran == old(ran) + Reverse(PendingOf(old(heap), todo))
    {
      var i := |todo|;
      assert todo[..i] == todo;
      while i > 0
        invariant 0 <= i <= |todo| && Valid() && |heap| == |old(heap)|
        invariant ClosedAll(State(), todo[..i]) == ClosedAll(old(State()), todo)
      {
        i := i - 1;
        assert todo[..i + 1][..i] == todo[..i];
        var e := todo[i];
        match heap[e] {
          case Plain(c) => ran := ran + [c];
          case Scoped(c, pending) =>
            heap := heap[e := Scoped(c, [])];
            ran := ran + Reverse(pending);
        }
      }
      ClosedAllOrder(old(State()), todo);
    }
  }

  function ClosedAll(s: SetState, todo: seq<EntryId>): (r: SetState)
    requires Below(todo, |s.heap|)
    ensures |r.heap| == |s.heap|
    decreases |todo|
  {
    if todo == [] then s else ClosedAll(CloseEntry(s, todo[|todo| - 1]), todo[..|todo| - 1])
  }

  /** Everything pending on the listed entries, in registration order of the entries. */
  function PendingOf(heap: seq<Entry>, todo: seq<EntryId>): seq<Cleanup>
    requires Below(todo, |heap|)
    decreases |todo|
  {
    if todo == [] then [] else
      var last := heap[todo[|todo| - 1]];
      PendingOf(heap, todo[..|todo| - 1]) + (if last.Plain? then [last.cleanup] else last.pending)
  }

  lemma {:induction false} PendingFrame(heap: seq<Entry>, heap': seq<Entry>, todo: seq<EntryId>)
    requires |heap| == |heap'| && Below(todo, |heap|)
    requires forall i :: 0 <= i < |todo| ==> heap[todo[i]] == heap'[todo[i]]
    ensures PendingOf(heap, todo) == PendingOf(heap', todo)
  {
    if todo != [] {
      PendingFrame(heap, heap', todo[..|todo| - 1]);
    }
  }

  /** "Cleanups still run in reverse registration order": an undisturbed close runs exactly
      the reverse of the concatenated registrations. */
  lemma {:induction false} ClosedAllOrder(s: SetState, todo: seq<EntryId>)
    requires Distinct(todo) && Below(todo, |s.heap|)
    decreases |todo|
    ensures ClosedAll(s, todo).ran == s.ran + Reverse(PendingOf(s.heap, todo))
  {
    if todo != [] {
      var e, front := todo[|todo| - 1], todo[..|todo| - 1];
      var s' := CloseEntry(s, e);
      ClosedAllOrder(s', front);
      PendingFrame(s.heap, s'.heap, front);
      var last := if s.heap[e].Plain? then [s.heap[e].cleanup] else s.heap[e].pending;
      ReverseConcat(PendingOf(s.heap, front), last);
      assert s.heap[e].Plain? ==> Reverse(last) == last;
    }
  }

  // ---------- interleavings ----------

  datatype Step =
    | AddCall(caller: Caller)
    | StartCall(caller: Caller, component: Component)
    | Register(caller: Caller)
    | StartReturn(caller: Caller)
    | RemoveCall(caller: Caller, component: Component)
    | CloseCall(caller: Caller)
    | CloseNext(caller: Caller)

  predicate Enabled(y: System, step: Step) {
    match step
    case AddCall(t) => t !in y.callers
    case StartCall(t, c) => t !in y.callers
    case Register(t) => t in y.callers && y.callers[t].Starting? && ScopedAt(y.scopes, y.callers[t].entry)
    case StartReturn(t) => t in y.callers && y.callers[t].Starting?
    case RemoveCall(t, c) => t !in y.callers
    case CloseCall(t) => t !in y.callers
    case CloseNext(t) => t in y.callers && y.callers[t].Closing? && y.callers[t].todo != [] && Last(y.callers[t].todo) < |y.scopes.heap|
  }

  predicate ScopedAt(s: SetState, e: EntryId) {
    e < |s.heap| && s.heap[e].Scoped?
  }

  function Last<T>(s: seq<T>): T
    requires s != []
  {
    s[|s| - 1]
  }

  /** A caller with nothing left to close is done. */
  function CloseLater(callers: map<Caller, Control>, t: Caller, todo: seq<EntryId>): map<Caller, Control> {
    if todo == [] then callers - {t} else callers[t := Closing(todo)]
  }

  function Next(y: System, step: Step): System
    requires Enabled(y, step)
  {
    var s := y.scopes;
    match step
    case AddCall(t) =>
      System(AddSection(s), CloseLater(y.callers, t, if s.closed then [|s.heap|] else []))
    case StartCall(t, c) =>
      if s.closed then y else
        var s' := StartSection(s, c);
        System(s', y.callers[t := Starting(c, s'.byComponent[c])])
    case Register(t) =>
      System(RegisterOn(s, y.callers[t].entry), y.callers)
    case StartReturn(t) =>
      var Starting(c, e) := y.callers[t];
      System(s, CloseLater(y.callers, t, if Detached(s, c, e) then [e] else []))
    case RemoveCall(t, c) =>
      System(RemoveSection(s, c), CloseLater(y.callers, t, if c in s.byComponent then [s.byComponent[c]] else []))
    case CloseCall(t) =>
      System(CloseSection(s), CloseLater(y.callers, t, if s.closed then [] else s.entries))
    case CloseNext(t) =>
      var todo := y.callers[t].todo;
      System(CloseEntry(s, Last(todo)), CloseLater(y.callers, t, todo[..|todo| - 1]))
  }

  ghost predicate Reachable(y: System, steps: seq<Step>)
    decreases |steps|
  {
    if steps == [] then y == System(EMPTY, map[])
    else exists x :: Reachable(x, steps[..|steps| - 1]) && Enabled(x, Last(steps)) && y == Next(x, Last(steps))
  }

  // ---------- the invariant ----------

  predicate Grips(k: Control, e: EntryId) {
    match k
    case Starting(_, entry) => e == entry
    case Closing(todo) => e in todo
  }

  /** The entry is still listed, or some caller in flight will come back to it. */
  ghost predicate Held(y: System, e: EntryId) {
    e in y.scopes.entries || exists t :: t in y.callers && Grips(y.callers[t], e)
  }

  ghost predicate WellFormed(y: System) {
    var s := y.scopes;
    && Distinct(s.entries)
    && Below(s.entries, |s.heap|)
    && (forall c :: c in s.byComponent ==>
          s.byComponent[c] in s.entries && ScopedAt(s, s.byComponent[c]) && s.heap[s.byComponent[c]].component == c)
    && (s.closed ==> s.entries == [])
    && (forall t :: t in y.callers ==> WellFormedControl(s, y.callers[t]))
  }

  predicate WellFormedControl(s: SetState, k: Control) {
    match k
    case Starting(c, e) => ScopedAt(s, e) && s.heap[e].component == c
    case Closing(todo) => todo != [] && Distinct(todo) && Below(todo, |s.heap|)
  }

  /** A plain cleanup has one holder at most: nothing can run it twice. */
  ghost predicate PlainOnce(y: System) {
    forall e :: 0 <= e < |y.scopes.heap| && y.scopes.heap[e].Plain? ==>
      && (forall t :: t in y.callers && Grips(y.callers[t], e) ==> e !in y.scopes.entries)
      && (forall t, u :: t in y.callers && u in y.callers && Grips(y.callers[t], e) && Grips(y.callers[u], e) ==> t == u)
  }

  /** Where cleanup `c` is: already run, or waiting on an entry somebody holds -- never both, never neither. */
  ghost predicate Accounted(y: System, c: Cleanup)
    requires c < |y.scopes.owner|
  {
    var s, e := y.scopes, y.scopes.owner[c];
    && e < |s.heap|
    && match s.heap[e]
       case Plain(k) => k == c && (c in s.ran <==> !Held(y, e))
       case Scoped(_, p) => (c in s.ran <==> c !in p) && (c in p ==> Held(y, e))
  }

  predicate Owns(s: SetState, e: EntryId)
    requires e < |s.heap|
  {
    match s.heap[e]
    case Plain(c) => c < |s.owner| && s.owner[c] == e
    case Scoped(_, p) => Distinct(p) && forall c :: c in p ==> c < |s.owner| && s.owner[c] == e
  }

  ghost predicate EntriesOwn(s: SetState) {
    && (forall e :: 0 <= e < |s.heap| ==> Owns(s, e))
    && Distinct(s.ran)
    && Below(s.ran, |s.owner|)
  }

  ghost predicate Inv(y: System) {
    && WellFormed(y)
    && PlainOnce(y)
    && EntriesOwn(y.scopes)
    && forall c :: 0 <= c < |y.scopes.owner| ==> Accounted(y, c)
  }

  // ---------- every step keeps it ----------

  lemma AddHolds(y: System, t: Caller, e: EntryId)
    requires Enabled(y, AddCall(t)) && e != |y.scopes.heap|
    ensures Held(y, e) == Held(Next(y, AddCall(t)), e)
  {
    var y' := Next(y, AddCall(t));
    HeldMonotone(y, y');
    if Held(y', e) && e !in y'.scopes.entries {
      var u :| u in y'.callers && Grips(y'.callers[u], e);
      assert u in y.callers && Grips(y.callers[u], e);
    }
  }

  lemma AddAccounts(y: System, t: Caller, c: Cleanup)
    requires Inv(y) && Enabled(y, AddCall(t)) && c < |Next(y, AddCall(t)).scopes.owner|
    ensures Accounted(Next(y, AddCall(t)), c)
  {
    var y' := Next(y, AddCall(t));
    if c < |y.scopes.owner| {
      assert Accounted(y, c);
      AddHolds(y, t, y.scopes.owner[c]);
    } else {
      var newest := |y.scopes.heap|;
      assert y'.scopes.closed ==> t in y'.callers && Grips(y'.callers[t], newest);
      assert Held(y', newest);
    }
  }

  lemma AddShape(y: System, t: Caller)
    requires WellFormed(y) && PlainOnce(y) && Enabled(y, AddCall(t))
    ensures WellFormed(Next(y, AddCall(t))) && PlainOnce(Next(y, AddCall(t)))
  {
    var y' := Next(y, AddCall(t));
    forall u | u in y.callers
      ensures !Grips(y.callers[u], |y.scopes.heap|)
    {
      assert WellFormedControl(y.scopes, y.callers[u]);
    }
    forall u | u in y'.callers
      ensures WellFormedControl(y'.scopes, y'.callers[u])
    {
      if u != t { assert WellFormedControl(y.scopes, y.callers[u]); }
    }
  }

  lemma AddKeeps(y: System, t: Caller)
    requires Inv(y) && Enabled(y, AddCall(t))
    ensures Inv(Next(y, AddCall(t)))
  {
    var y' := Next(y, AddCall(t));
    AddShape(y, t);
    forall e | 0 <= e < |y'.scopes.heap|
      ensures Owns(y'.scopes, e)
    {
      if e < |y.scopes.heap| { assert Owns(y.scopes, e); }
    }
    forall c | 0 <= c < |y'.scopes.owner|
      ensures Accounted(y', c)
    {
      AddAccounts(y, t, c);
    }
  }

  /** When the lists only grow and no caller lets go, whatever was held still is. */
  lemma HeldMonotone(y: System, y': System)
    requires forall e :: e in y.scopes.entries ==> e in y'.scopes.entries
    requires forall u :: u in y.callers ==> u in y'.callers && y'.callers[u] == y.callers[u]
    ensures forall e :: Held(y, e) ==> Held(y', e)
  {
    forall e | Held(y, e)
      ensures Held(y', e)
    {
      if e !in y.scopes.entries {
        var u :| u in y.callers && Grips(y.callers[u], e);
        assert u in y'.callers && Grips(y'.callers[u], e);
      }
    }
  }

  /** Allocating entries does not disturb a caller in flight. */
  lemma ControlSurvives(s: SetState, s': SetState, k: Control)
    requires WellFormedControl(s, k) && s.heap <= s'.heap
    ensures WellFormedControl(s', k)
  {
  }

  lemma StartWellFormed(y: System, t: Caller, c: Component)
    requires WellFormed(y) && Enabled(y, StartCall(t, c))
    ensures WellFormed(Next(y, StartCall(t, c)))
  {
    var y' := Next(y, StartCall(t, c));
    assert y.scopes.heap <= y'.scopes.heap;
    forall u | u in y'.callers
      ensures WellFormedControl(y'.scopes, y'.callers[u])
    {
      if u != t {
        ControlSurvives(y.scopes, y'.scopes, y.callers[u]);
      }
    }
    var newest := |y.scopes.heap|;
    if !y.scopes.closed && c !in y.scopes.byComponent {
      assert y'.scopes.entries == y.scopes.entries + [newest];
      assert forall e :: e in y.scopes.entries ==> e in y'.scopes.entries;
      assert y'.scopes.entries[|y.scopes.entries|] == newest;
    }
  }

  lemma StartPlain(y: System, t: Caller, c: Component)
    requires WellFormed(y) && PlainOnce(y) && Enabled(y, StartCall(t, c))
    ensures PlainOnce(Next(y, StartCall(t, c)))
  {
    var y' := Next(y, StartCall(t, c));
    forall e | 0 <= e < |y'.scopes.heap| && y'.scopes.heap[e].Plain?
      ensures e < |y.scopes.heap| && (e in y'.scopes.entries ==> e in y.scopes.entries)
      ensures forall u :: u in y'.callers && Grips(y'.callers[u], e) ==> u in y.callers && Grips(y.callers[u], e)
    {
    }
  }

  lemma StartAccounts(y: System, t: Caller, c: Component, k: Cleanup)
    requires Inv(y) && Enabled(y, StartCall(t, c)) && k < |y.scopes.owner|
    ensures Accounted(Next(y, StartCall(t, c)), k)
  {
    var y' := Next(y, StartCall(t, c));
    HeldMonotone(y, y');
    assert Accounted(y, k);
    var e := y.scopes.owner[k];
    if y.scopes.heap[e].Plain? && Held(y', e) && !y.scopes.closed {
      if e !in y'.scopes.entries {
        var u :| u in y'.callers && Grips(y'.callers[u], e);
        assert u in y.callers && Grips(y.callers[u], e);
      }
    }
  }

  lemma StartKeeps(y: System, t: Caller, c: Component)
    requires Inv(y) && Enabled(y, StartCall(t, c))
    ensures Inv(Next(y, StartCall(t, c)))
  {
    var y' := Next(y, StartCall(t, c));
    StartWellFormed(y, t, c);
    StartPlain(y, t, c);
    forall e | 0 <= e < |y'.scopes.heap|
      ensures Owns(y'.scopes, e)
    {
      if e < |y.scopes.heap| { assert Owns(y.scopes, e); }
    }
    forall k | 0 <= k < |y.scopes.owner|
      ensures Accounted(y', k)
    {
      StartAccounts(y, t, c, k);
    }
  }

  lemma RegisterKeeps(y: System, t: Caller)
    requires Inv(y) && Enabled(y, Register(t))
    ensures Inv(Next(y, Register(t)))
  {
    var y' := Next(y, Register(t));
    var s, entry, newest := y.scopes, y.callers[t].entry, |y.scopes.owner|;
    HeldMonotone(y, y');
    HeldMonotone(y', y);
    assert Held(y', entry);
    assert Owns(s, entry);
    assert forall k :: k in y'.scopes.heap[entry].pending <==> k in s.heap[entry].pending || k == newest;
    forall e | 0 <= e < |s.heap|
      ensures Owns(y'.scopes, e)
    {
      assert Owns(s, e);
      if e == entry {
        var p, p' := s.heap[e].pending, y'.scopes.heap[e].pending;
        forall i | 0 <= i < |p|
          ensures p'[i] != newest
        {
          assert p[i] in p;
        }
      }
    }
    forall k | 0 <= k < |y'.scopes.owner|
      ensures Accounted(y', k)
    {
      if k < newest {
        assert Accounted(y, k);
      }
    }
  }

  lemma ReturnKeeps(y: System, t: Caller)
    requires Inv(y) && Enabled(y, StartReturn(t))
    ensures Inv(Next(y, StartReturn(t)))
  {
    var y' := Next(y, StartReturn(t));
    forall e
      ensures Held(y, e) == Held(y', e)
    {
      HeldMoves(y, y', t, e);
      if Held(y', e) && e !in y.scopes.entries {
        var u :| u in y'.callers && Grips(y'.callers[u], e);
        assert u in y.callers && Grips(y.callers[u], e);
      }
    }
    SameAccounts(y, y');
  }

  lemma SameAccounts(y: System, y': System)
    requires forall e :: Held(y, e) == Held(y', e)
    requires y.scopes.heap == y'.scopes.heap && y.scopes.owner == y'.scopes.owner && y.scopes.ran == y'.scopes.ran
    ensures forall c :: 0 <= c < |y.scopes.owner| && Accounted(y, c) ==> Accounted(y', c)
    ensures EntriesOwn(y.scopes) ==> EntriesOwn(y'.scopes)
  {
    forall e | 0 <= e < |y.scopes.heap| && Owns(y.scopes, e)
      ensures Owns(y'.scopes, e)
    {
    }
  }

  /** One caller hands its grip on `e` to the list or keeps it in another form; the rest stay put. */
  lemma HeldMoves(y: System, y': System, t: Caller, e: EntryId)
    requires forall u :: u in y.callers && u != t ==> u in y'.callers && y'.callers[u] == y.callers[u]
    requires t in y.callers && Grips(y.callers[t], e) ==> e in y'.scopes.entries || (t in y'.callers && Grips(y'.callers[t], e))
    requires e in y.scopes.entries ==> e in y'.scopes.entries || (t in y'.callers && Grips(y'.callers[t], e))
    ensures Held(y, e) ==> Held(y', e)
  {
    if Held(y, e) && e !in y.scopes.entries {
      var u :| u in y.callers && Grips(y.callers[u], e);
      if u != t {
        assert u in y'.callers && Grips(y'.callers[u], e);
      }
    }
  }

  /** Remove and Close only move entries from the list into the caller's hands. */
  lemma TakeoverKeeps(y: System, t: Caller, y': System, todo: seq<EntryId>)
    requires Inv(y) && t !in y.callers
    requires y'.scopes == y.scopes.(entries := y'.scopes.entries, byComponent := y'.scopes.byComponent, closed := y'.scopes.closed)
    requires y'.callers == CloseLater(y.callers, t, todo)
    requires WellFormed(y')
    requires forall e :: e in y.scopes.entries <==> e in y'.scopes.entries || e in todo
    requires forall e :: e in todo ==> e !in y'.scopes.entries
    ensures Inv(y')
  {
    forall e
      ensures Held(y, e) == Held(y', e)
    {
      HeldMoves(y, y', t, e);
      if Held(y', e) && e !in y'.scopes.entries {
        var u :| u in y'.callers && Grips(y'.callers[u], e);
        if u != t {
          assert u in y.callers && Grips(y.callers[u], e);
        }
      }
    }
    SameAccounts(y, y');
  }

  lemma CloseEntryOwns(s: SetState, e: EntryId)
    requires EntriesOwn(s) && e < |s.heap|
    requires forall c :: c in s.ran && s.owner[c] == e ==> s.heap[e].Scoped? && c !in s.heap[e].pending
    ensures EntriesOwn(CloseEntry(s, e))
  {
    var s' := CloseEntry(s, e);
    assert Owns(s, e);
    var tail := if s.heap[e].Plain? then [s.heap[e].cleanup] else Reverse(s.heap[e].pending);
    if s.heap[e].Scoped? {
      ReverseDistinct(s.heap[e].pending);
    }
    assert s'.ran == s.ran + tail;
    forall j | 0 <= j < |tail|
      ensures tail[j] < |s.owner| && tail[j] !in s.ran
    {
      assert tail[j] in tail;
    }
    forall x | 0 <= x < |s.heap|
      ensures Owns(s', x)
    {
      assert Owns(s, x);
    }
  }

  /** After a closer's turn only the entry it closed may have lost a holder. */
  lemma NextHolds(y: System, t: Caller, x: EntryId)
    requires Enabled(y, CloseNext(t))
    requires x != Last(y.callers[t].todo)
    ensures Held(y, x) == Held(Next(y, CloseNext(t)), x)
  {
    var y' := Next(y, CloseNext(t));
    var todo := y.callers[t].todo;
    var front := todo[..|todo| - 1];
    assert x in todo <==> x in front by {
      assert todo == front + [Last(todo)];
    }
    if x !in y.scopes.entries {
      if u :| u in y.callers && Grips(y.callers[u], x) {
        assert u in y'.callers && Grips(y'.callers[u], x);
      }
      if u :| u in y'.callers && Grips(y'.callers[u], x) {
        assert u in y.callers && Grips(y.callers[u], x);
      }
    }
  }

  /** Closing an entry leaves every other entry, and who is what kind, alone. */
  lemma CloseEntryShape(s: SetState, e: EntryId)
    requires e < |s.heap|
    ensures var s' := CloseEntry(s, e);
            && s'.entries == s.entries && s'.byComponent == s.byComponent && s'.closed == s.closed
            && |s'.heap| == |s.heap|
            && forall x :: 0 <= x < |s.heap| ==>
                 s'.heap[x].Plain? == s.heap[x].Plain? && (s.heap[x].Scoped? ==> s'.heap[x].component == s.heap[x].component)
  {
  }

  lemma NextWellFormed(y: System, t: Caller)
    requires WellFormed(y) && PlainOnce(y) && Enabled(y, CloseNext(t))
    ensures WellFormed(Next(y, CloseNext(t))) && PlainOnce(Next(y, CloseNext(t)))
  {
    hide CloseEntry;
    var y' := Next(y, CloseNext(t));
    CloseEntryShape(y.scopes, Last(y.callers[t].todo));
    forall u | u in y'.callers
      ensures u in y.callers && WellFormedControl(y'.scopes, y'.callers[u])
      ensures forall e :: Grips(y'.callers[u], e) ==> Grips(y.callers[u], e)
    {
      assert WellFormedControl(y.scopes, y.callers[u]);
    }
  }

  lemma NextKeeps(y: System, t: Caller)
    requires Inv(y) && Enabled(y, CloseNext(t))
    ensures Inv(Next(y, CloseNext(t)))
  {
    var y' := Next(y, CloseNext(t));
    var s, todo := y.scopes, y.callers[t].todo;
    var e := Last(todo);
    assert Grips(y.callers[t], e) && Held(y, e);
    NextWellFormed(y, t);
    forall c | c in s.ran && s.owner[c] == e
      ensures s.heap[e].Scoped? && c !in s.heap[e].pending
    {
      assert Accounted(y, c);
    }
    CloseEntryOwns(s, e);
    forall c | 0 <= c < |s.owner|
      ensures Accounted(y', c)
    {
      NextAccounts(y, t, c);
    }
  }

  lemma NextAccounts(y: System, t: Caller, c: Cleanup)
    requires Inv(y) && Enabled(y, CloseNext(t)) && c < |y.scopes.owner|
    ensures Accounted(Next(y, CloseNext(t)), c)
  {
    var y' := Next(y, CloseNext(t));
    var s, todo := y.scopes, y.callers[t].todo;
    var e, o := Last(todo), s.owner[c];
    assert Accounted(y, c) && Owns(s, e) && Owns(s, o);
    if o != e {
      NextHolds(y, t, o);
    } else if s.heap[e].Plain? {
      assert Grips(y.callers[t], e);
      assert e !in todo[..|todo| - 1];
      assert !Held(y', e);
      assert y'.scopes.ran[|s.ran|] == c;
    }
  }

  lemma RemoveKeeps(y: System, t: Caller, c: Component)
    requires Inv(y) && Enabled(y, RemoveCall(t, c))
    ensures Inv(Next(y, RemoveCall(t, c)))
  {
    var y' := Next(y, RemoveCall(t, c));
    forall i | 0 <= i < |y'.scopes.entries|
      ensures y'.scopes.entries[i] < |y.scopes.heap|
    {
      assert y'.scopes.entries[i] in y'.scopes.entries;
    }
    TakeoverKeeps(y, t, y', if c in y.scopes.byComponent then [y.scopes.byComponent[c]] else []);
  }

  lemma StepKeeps(y: System, step: Step)
    requires Inv(y) && Enabled(y, step)
    ensures Inv(Next(y, step))
  {
    var s := y.scopes;
    match step
    case AddCall(t) => AddKeeps(y, t);
    case StartCall(t, c) => StartKeeps(y, t, c);
    case Register(t) => RegisterKeeps(y, t);
    case StartReturn(t) => ReturnKeeps(y, t);
    case RemoveCall(t, c) => RemoveKeeps(y, t, c);
    case CloseCall(t) =>
      TakeoverKeeps(y, t, Next(y, step), if s.closed then [] else s.entries);
    case CloseNext(t) => NextKeeps(y, t);
  }

  lemma {:induction false} ReachableKeeps(y: System, steps: seq<Step>)
    requires Reachable(y, steps)
    ensures Inv(y)
    decreases |steps|
  {
    if steps != [] {
      var x :| Reachable(x, steps[..|steps| - 1]) && Enabled(x, Last(steps)) && y == Next(x, Last(steps));
      ReachableKeeps(x, steps[..|steps| - 1]);
      StepKeeps(x, Last(steps));
    }
  }

  // ---------- what the protocol promises ----------

  /** In every interleaving a registered cleanup has run at most once, and one that has not run
      sits on an entry that is listed or in some caller's hands. */
  lemma NothingLeaks(y: System, steps: seq<Step>, c: Cleanup)
    requires Reachable(y, steps) && c < |y.scopes.owner|
    ensures multiset(y.scopes.ran)[c] <= 1
    ensures c !in y.scopes.ran ==> Held(y, y.scopes.owner[c])
  {
    ReachableKeeps(y, steps);
    assert Accounted(y, c);
    if c in y.scopes.ran {
      DistinctCount(y.scopes.ran, c);
    }
  }

  predicate Closes(steps: seq<Step>) {
    exists i :: 0 <= i < |steps| && steps[i].CloseCall?
  }

  predicate Removes(steps: seq<Step>, c: Component) {
    exists i :: 0 <= i < |steps| && steps[i].RemoveCall? && steps[i].component == c
  }

  lemma ClosesGrows(steps: seq<Step>)
    requires steps != []
    ensures Closes(steps) <==> Closes(steps[..|steps| - 1]) || Last(steps).CloseCall?
    ensures forall c :: Removes(steps, c) <==> Removes(steps[..|steps| - 1], c) || Last(steps) == RemoveCall(Last(steps).caller, c)
  {
    var n := |steps| - 1;
    assert forall i :: 0 <= i < n ==> steps[..n][i] == steps[i];
    assert steps[n] == Last(steps);
  }

  /** The set is closed exactly when some Close was called. */
  lemma {:induction false} ClosedByHistory(y: System, steps: seq<Step>)
    requires Reachable(y, steps)
    ensures y.scopes.closed <==> Closes(steps)
    decreases |steps|
  {
    if steps != [] {
      var x :| Reachable(x, steps[..|steps| - 1]) && Enabled(x, Last(steps)) && y == Next(x, Last(steps));
      ClosedByHistory(x, steps[..|steps| - 1]);
      ClosesGrows(steps);
      ClosedStep(x, Last(steps));
    }
  }

  lemma ClosedStep(x: System, step: Step)
    requires Enabled(x, step)
    ensures Next(x, step).scopes.closed <==> x.scopes.closed || step.CloseCall?
  {
  }

  /** Once Close was called and nobody is in flight, every cleanup ever registered -- before, during or after
      the close -- has run exactly once. */
  lemma ClosedMeansReleased(y: System, steps: seq<Step>, c: Cleanup)
    requires Reachable(y, steps) && Closes(steps) && y.callers == map[]
    requires c < |y.scopes.owner|
    ensures multiset(y.scopes.ran)[c] == 1
  {
    ReachableKeeps(y, steps);
    ClosedByHistory(y, steps);
    NothingLeaks(y, steps, c);
    assert !Held(y, y.scopes.owner[c]);
    DistinctCount(y.scopes.ran, c);
  }

  /** After a Close, a Start is refused: it starts nothing and leaves everything as it was. */
  lemma RefusedAfterClose(y: System, steps: seq<Step>, t: Caller, c: Component)
    requires Reachable(y, steps) && Closes(steps) && Enabled(y, StartCall(t, c))
    ensures Next(y, StartCall(t, c)) == y
  {
    ClosedByHistory(y, steps);
  }

  function Registrations(steps: seq<Step>): nat {
    if steps == [] then 0
    else Registrations(steps[..|steps| - 1]) + if Last(steps).AddCall? || Last(steps).Register? then 1 else 0
  }

  /** Every Add and every registration of a component is a cleanup of its own. */
  lemma {:induction false} EveryRegistrationCounts(y: System, steps: seq<Step>)
    requires Reachable(y, steps)
    ensures |y.scopes.owner| == Registrations(steps)
    decreases |steps|
  {
    if steps != [] {
      var x :| Reachable(x, steps[..|steps| - 1]) && Enabled(x, Last(steps)) && y == Next(x, Last(steps));
      EveryRegistrationCounts(x, steps[..|steps| - 1]);
      RegistrationStep(x, Last(steps));
    }
  }

  lemma RegistrationStep(x: System, step: Step)
    requires Enabled(x, step)
    ensures |Next(x, step).scopes.owner| == |x.scopes.owner| + if step.AddCall? || step.Register? then 1 else 0
  {
  }

  /** The entries listed for components are exactly the index: one scope for all stages of a component. */
  ghost predicate OneScope(s: SetState) {
    forall e :: e in s.entries && ScopedAt(s, e) ==> s.heap[e].component in s.byComponent && s.byComponent[s.heap[e].component] == e
  }

  lemma {:induction false} OneScopePerComponent(y: System, steps: seq<Step>)
    requires Reachable(y, steps)
    ensures OneScope(y.scopes)
    decreases |steps|
  {
    if steps != [] {
      var x :| Reachable(x, steps[..|steps| - 1]) && Enabled(x, Last(steps)) && y == Next(x, Last(steps));
      OneScopePerComponent(x, steps[..|steps| - 1]);
      ReachableKeeps(x, steps[..|steps| - 1]);
      OneScopeStep(x, Last(steps));
    }
  }

  lemma OneScopeStep(x: System, step: Step)
    requires WellFormed(x) && OneScope(x.scopes) && Enabled(x, step)
    ensures OneScope(Next(x, step).scopes)
  {
    var s, s' := x.scopes, Next(x, step).scopes;
    forall e | e in s'.entries && ScopedAt(s', e)
      ensures s'.heap[e].component in s'.byComponent && s'.byComponent[s'.heap[e].component] == e
    {
      if e in s.entries {
        assert e < |s.heap|;
        assert ScopedAt(s, e) && s.heap[e].component == s'.heap[e].component;
      }
    }
  }

  /** A further stage of a component that is listed runs on the scope of the first. */
  lemma StagesShareAScope(y: System, steps: seq<Step>, t: Caller, e: EntryId)
    requires Reachable(y, steps) && !Closes(steps) && e in y.scopes.entries && ScopedAt(y.scopes, e)
    requires Enabled(y, StartCall(t, y.scopes.heap[e].component))
    ensures var c := y.scopes.heap[e].component;
            Next(y, StartCall(t, c)) == y.(callers := y.callers[t := Starting(c, e)])
  {
    ClosedByHistory(y, steps);
    OneScopePerComponent(y, steps);
  }

  /** While the set is open, whatever nobody removed is listed, in no closer's hands, and has not run. */
  ghost predicate Quiet(y: System, steps: seq<Step>) {
    !y.scopes.closed && SparedListed(y, steps) && SparedUntaken(y, steps) && SparedPending(y, steps)
  }

  ghost predicate SparedListed(y: System, steps: seq<Step>) {
    forall e :: 0 <= e < |y.scopes.heap| && Spared(y.scopes, steps, e) ==> e in y.scopes.entries
  }

  ghost predicate SparedUntaken(y: System, steps: seq<Step>) {
    forall t, e :: t in y.callers && y.callers[t].Closing? && e in y.callers[t].todo && e < |y.scopes.heap| ==> !Spared(y.scopes, steps, e)
  }

  ghost predicate SparedPending(y: System, steps: seq<Step>) {
    forall c :: 0 <= c < |y.scopes.owner| && c in y.scopes.ran ==>
      y.scopes.owner[c] < |y.scopes.heap| && !Spared(y.scopes, steps, y.scopes.owner[c])
  }

  /** No Remove was called for the entry's component; a plain cleanup has none. */
  predicate Spared(s: SetState, steps: seq<Step>, e: EntryId)
    requires e < |s.heap|
  {
    s.heap[e].Plain? || !Removes(steps, s.heap[e].component)
  }

  /** Nothing runs early: as long as nobody closes the set, a cleanup handed to Add has not run, and neither has
      one of a component that nobody removed; both are still listed. */
  lemma {:induction false} NothingRunsEarly(y: System, steps: seq<Step>, c: Cleanup)
    requires Reachable(y, steps) && !Closes(steps) && c < |y.scopes.owner|
    ensures y.scopes.owner[c] < |y.scopes.heap|
    ensures Spared(y.scopes, steps, y.scopes.owner[c]) ==> c !in y.scopes.ran && y.scopes.owner[c] in y.scopes.entries
  {
    ReachableKeeps(y, steps);
    assert Accounted(y, c);
    StaysQuiet(y, steps);
  }

  lemma {:induction false} StaysQuiet(y: System, steps: seq<Step>)
    requires Reachable(y, steps) && !Closes(steps)
    ensures Quiet(y, steps)
    decreases |steps|
  {
    if steps != [] {
      hide Quiet;
      var front := steps[..|steps| - 1];
      var x :| Reachable(x, front) && Enabled(x, Last(steps)) && y == Next(x, Last(steps));
      ClosesGrows(steps);
      StaysQuiet(x, front);
      ReachableKeeps(x, front);
      OneScopePerComponent(x, front);
      QuietStep(x, front, steps);
    }
  }

  /** What an old entry is stays; a removal only takes from who is spared. */
  lemma SparedStep(x: System, front: seq<Step>, steps: seq<Step>, e: EntryId)
    requires steps != [] && front == steps[..|steps| - 1] && Enabled(x, Last(steps)) && e < |x.scopes.heap|
    ensures e < |Next(x, Last(steps)).scopes.heap|
    ensures Spared(Next(x, Last(steps)).scopes, steps, e) <==>
            Spared(x.scopes, front, e) && !(x.scopes.heap[e].Scoped? && Last(steps).RemoveCall? && Last(steps).component == x.scopes.heap[e].component)
  {
    hide Removes;
    ClosesGrows(steps);
  }

  lemma ListedStep(x: System, front: seq<Step>, steps: seq<Step>)
    requires Inv(x) && Quiet(x, front) && steps != [] && front == steps[..|steps| - 1]
    requires Enabled(x, Last(steps)) && !Last(steps).CloseCall?
    ensures SparedListed(Next(x, Last(steps)), steps)
  {
    hide Spared, Reachable, Accounted;
    var y := Next(x, Last(steps));
    forall e | 0 <= e < |y.scopes.heap| && Spared(y.scopes, steps, e)
      ensures e in y.scopes.entries
    {
      if e < |x.scopes.heap| {
        SparedStep(x, front, steps, e);
        assert e in x.scopes.entries;
      }
    }
  }

  lemma UntakenStep(x: System, front: seq<Step>, steps: seq<Step>)
    requires Inv(x) && OneScope(x.scopes) && Quiet(x, front) && steps != [] && front == steps[..|steps| - 1]
    requires Enabled(x, Last(steps)) && !Last(steps).CloseCall?
    ensures SparedUntaken(Next(x, Last(steps)), steps)
  {
    hide Spared, Accounted;
    var y := Next(x, Last(steps));
    forall t, e | t in y.callers && y.callers[t].Closing? && e in y.callers[t].todo && e < |y.scopes.heap|
      ensures !Spared(y.scopes, steps, e)
    {
      TakenBefore(x, Last(steps), t, e);
      SparedStep(x, front, steps, e);
      if Last(steps).StartReturn? && t == Last(steps).caller {
        DetachedIsRemoved(x, front, t);
      }
    }
  }

  /** Whoever holds an entry to close held it before, or takes it now: for a removal, or for a Start that finds
      itself detached. */
  lemma TakenBefore(x: System, step: Step, t: Caller, e: EntryId)
    requires WellFormed(x) && !x.scopes.closed && Enabled(x, step) && !step.CloseCall?
    requires var y := Next(x, step); t in y.callers && y.callers[t].Closing? && e in y.callers[t].todo
    ensures e < |x.scopes.heap|
    ensures || (t in x.callers && x.callers[t].Closing? && e in x.callers[t].todo)
            || (step.RemoveCall? && x.scopes.heap[e].Scoped? && step.component == x.scopes.heap[e].component)
            || (step.StartReturn? && t == step.caller && x.callers[t] == Starting(x.callers[t].component, e) && Detached(x.scopes, x.callers[t].component, e))
  {
  }

  /** On an open set a Start is detached only by a removal. */
  lemma DetachedIsRemoved(x: System, front: seq<Step>, t: Caller)
    requires Inv(x) && Quiet(x, front) && t in x.callers && x.callers[t].Starting?
    ensures var Starting(c, e) := x.callers[t];
            e < |x.scopes.heap| && (Detached(x.scopes, c, e) && OneScope(x.scopes) ==> !Spared(x.scopes, front, e))
  {
    hide Accounted, Removes;
    var Starting(c, e) := x.callers[t];
    assert WellFormedControl(x.scopes, x.callers[t]);
    if Spared(x.scopes, front, e) {
      assert e in x.scopes.entries;
    }
  }

  lemma PendingStep(x: System, front: seq<Step>, steps: seq<Step>)
    requires Inv(x) && Quiet(x, front) && steps != [] && front == steps[..|steps| - 1]
    requires Enabled(x, Last(steps)) && !Last(steps).CloseCall?
    ensures SparedPending(Next(x, Last(steps)), steps)
  {
    hide Spared, Removes;
    var y := Next(x, Last(steps));
    forall c | 0 <= c < |y.scopes.owner| && c in y.scopes.ran
      ensures y.scopes.owner[c] < |y.scopes.heap| && !Spared(y.scopes, steps, y.scopes.owner[c])
    {
      if c in x.scopes.ran {
        assert c < |x.scopes.owner|;
        SparedStep(x, front, steps, x.scopes.owner[c]);
      } else {
        var t := Last(steps).caller;
        var e := Last(x.callers[t].todo);
        assert Owns(x.scopes, e);
        assert x.scopes.owner[c] == e;
        SparedStep(x, front, steps, e);
      }
    }
  }

  lemma QuietStep(x: System, front: seq<Step>, steps: seq<Step>)
    requires Inv(x) && OneScope(x.scopes) && Quiet(x, front) && steps != [] && front == steps[..|steps| - 1]
    requires Enabled(x, Last(steps)) && !Last(steps).CloseCall?
    ensures Quiet(Next(x, Last(steps)), steps)
  {
    ListedStep(x, front, steps);
    UntakenStep(x, front, steps);
    PendingStep(x, front, steps);
    hide Inv, SparedListed, SparedUntaken, SparedPending;
    ClosedStep(x, Last(steps));
  }

  /** The component was removed and not started since. */
  predicate RemovedLast(steps: seq<Step>, c: Component) {
    exists i :: 0 <= i < |steps| && steps[i] == RemoveCall(steps[i].caller, c) &&
      forall j :: i < j < |steps| ==> steps[j] != StartCall(steps[j].caller, c)
  }

  lemma {:induction false} RemovedIsUnlisted(y: System, steps: seq<Step>, c: Component)
    requires Reachable(y, steps) && RemovedLast(steps, c)
    ensures c !in y.scopes.byComponent
    decreases |steps|
  {
    var n := |steps| - 1;
    var front := steps[..n];
    hide Next, Enabled;
    var x :| Reachable(x, front) && Enabled(x, Last(steps)) && y == Next(x, Last(steps));
    var i :| 0 <= i < |steps| && steps[i] == RemoveCall(steps[i].caller, c) &&
      forall j :: i < j < |steps| ==> steps[j] != StartCall(steps[j].caller, c);
    assert forall j :: 0 <= j < n ==> front[j] == steps[j];
    if i < n {
      RemovedIsUnlisted(x, front, c);
      assert steps[n] != StartCall(steps[n].caller, c);
    }
    UnlistedStep(x, steps[n], c);
  }

  lemma UnlistedStep(x: System, step: Step, c: Component)
    requires Enabled(x, step)
    ensures step == RemoveCall(step.caller, c) ==> c !in Next(x, step).scopes.byComponent
    ensures c !in x.scopes.byComponent && step != StartCall(step.caller, c) ==> c !in Next(x, step).scopes.byComponent
  {
  }

  /** Once a component was removed, not started again, and nobody is in flight, each of its cleanups has run
      exactly once. */
  lemma RemovedMeansReleased(y: System, steps: seq<Step>, k: Cleanup)
    requires Reachable(y, steps) && y.callers == map[] && k < |y.scopes.owner|
    requires y.scopes.owner[k] < |y.scopes.heap| && y.scopes.heap[y.scopes.owner[k]].Scoped?
    requires RemovedLast(steps, y.scopes.heap[y.scopes.owner[k]].component)
    ensures multiset(y.scopes.ran)[k] == 1
  {
    ReachableKeeps(y, steps);
    OneScopePerComponent(y, steps);
    RemovedIsUnlisted(y, steps, y.scopes.heap[y.scopes.owner[k]].component);
    assert Accounted(y, k) && !Held(y, y.scopes.owner[k]);
    DistinctCount(y.scopes.ran, k);
  }

  /** On a set nobody closed, a Start gets a listed scope of its component to run on. */
  lemma OpenStartGetsAScope(y: System, steps: seq<Step>, t: Caller, c: Component)
    requires Reachable(y, steps) && !Closes(steps) && Enabled(y, StartCall(t, c))
    ensures var y' := Next(y, StartCall(t, c));
            && t in y'.callers && y'.callers[t].Starting? && y'.callers[t].component == c
            && y'.callers[t].entry in y'.scopes.entries && ScopedAt(y'.scopes, y'.callers[t].entry)
            && y'.scopes.heap[y'.callers[t].entry].component == c
  {
    ReachableKeeps(y, steps);
    ClosedByHistory(y, steps);
  }

  /** A Start that nobody disturbs succeeds: if the set was not closed and the component not removed, its return
      closes nothing and leaves the scope it ran on listed. */
  lemma UndisturbedStartSucceeds(y: System, steps: seq<Step>, t: Caller)
    requires Reachable(y, steps) && !Closes(steps) && t in y.callers && y.callers[t].Starting?
    requires !Removes(steps, y.callers[t].component)
    ensures Next(y, StartReturn(t)) == y.(callers := y.callers - {t})
    ensures y.callers[t].entry in y.scopes.entries
  {
    ReachableKeeps(y, steps);
    StaysQuiet(y, steps);
    OneScopePerComponent(y, steps);
    assert WellFormedControl(y.scopes, y.callers[t]);
    hide Accounted, Removes;
    DetachedIsRemoved(y, steps, t);
  }

  /** A Start that reports success leaves its component listed with the very scope it ran on. */
  lemma SuccessfulStartIsListed(y: System, steps: seq<Step>, t: Caller)
    requires Reachable(y, steps) && t in y.callers && y.callers[t].Starting?
    requires !Detached(y.scopes, y.callers[t].component, y.callers[t].entry)
    ensures y.callers[t].entry in Next(y, StartReturn(t)).scopes.entries
  {
    ReachableKeeps(y, steps);
  }
}

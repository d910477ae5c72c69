/**
 The reconcile diff and push of service/nodeSync.go: making a node's @cluster clients match what
 the master expects, over a connection that may break after any push.
 */
module Reconcile {
  type Name = string
  type Tag = string

  datatype Option<T> = None | Some(value: T)

  /** The fields the master owns.  `config` is a parsed document, or none when the client was saved without one. */
  datatype Fields = Fields(enable: bool, expiry: int, config: Option<nat>, inbounds: seq<nat>, limitIp: int)

  /** A row of the node's own table; `cluster` says its group is @cluster. */
  datatype Client = Client(name: Name, cluster: bool, fields: Fields)

  type Table = map<nat, Client>

  /** What the node's version is able to report. */
  datatype Node = Node(reportsConfig: bool, reportsLimit: bool)

  datatype Report = Report(enable: bool, expiry: int, config: Option<nat>, inbounds: seq<nat>, limitIp: Option<int>)

  function Reported(node: Node, f: Fields): Report {
    Report(f.enable, f.expiry, if node.reportsConfig then f.config else None, f.inbounds,
           if node.reportsLimit then Some(f.limitIp) else None)
  }

  // ---------- expectedClients ----------

  /** A master client; `inbounds` is none when the stored list does not parse. */
  datatype Master = Master(name: Name, enable: bool, expiry: int, config: Option<nat>, inbounds: Option<seq<nat>>, limitIp: int)

  /** The node-local ids of the adopted inbounds among `ids`, in order. */
  function Locals(ids: seq<nat>, replicas: map<nat, Tag>, tagToId: map<Tag, nat>): (local: seq<nat>)
    ensures local == [] <==> forall i :: i in ids ==> !(i in replicas && replicas[i] in tagToId)
    ensures forall l :: l in local <==> exists i :: i in ids && i in replicas && replicas[i] in tagToId && tagToId[replicas[i]] == l
  {
    if ids == [] then [] else
      var rest := Locals(ids[1..], replicas, tagToId);
      assert forall i :: i in ids <==> i == ids[0] || i in ids[1..];
      if ids[0] in replicas && replicas[ids[0]] in tagToId then [tagToId[replicas[ids[0]]]] + rest else rest
  }

  /** The mapped ids stand in the order of the client's list. */
  lemma {:induction false} LocalsInOrder(a: seq<nat>, b: seq<nat>, replicas: map<nat, Tag>, tagToId: map<Tag, nat>)
    ensures Locals(a + b, replicas, tagToId) == Locals(a, replicas, tagToId) + Locals(b, replicas, tagToId)
  {
    if a == [] {
      assert a + b == b;
    } else {
      assert (a + b)[1..] == a[1..] + b;
      LocalsInOrder(a[1..], b, replicas, tagToId);
    }
  }

  /** The pushed fields are the master's own; only the inbounds are translated. */
  predicate FieldsOf(c: Master, f: Fields, replicas: map<nat, Tag>, tagToId: map<Tag, nat>) {
    && f.enable == c.enable && f.expiry == c.expiry && f.config == c.config && f.limitIp == c.limitIp
    && c.inbounds.Some? && f.inbounds != [] && f.inbounds == Locals(c.inbounds.value, replicas, tagToId)
  }

  /** The client's list names an inbound adopted from the node. */
  predicate Adopts(c: Master, id: nat, replicas: map<nat, Tag>, tagToId: map<Tag, nat>) {
    c.inbounds.Some? && id in c.inbounds.value && id in replicas && replicas[id] in tagToId
  }

  function Wanted(c: Master, replicas: map<nat, Tag>, tagToId: map<Tag, nat>): Option<Fields> {
    if c.inbounds.None? then None else
      var local := Locals(c.inbounds.value, replicas, tagToId);
      if local == [] then None else Some(Fields(c.enable, c.expiry, c.config, local, c.limitIp))
  }

  predicate WantedAs(c: Master, replicas: map<nat, Tag>, tagToId: map<Tag, nat>, name: Name, f: Fields) {
    c.name == name && Wanted(c, replicas, tagToId) == Some(f)
  }

  /** Every client that references one of the node's adopted inbounds, and no other. */
  method ExpectedClients(clients: seq<Master>, replicas: map<nat, Tag>, tagToId: map<Tag, nat>)
    returns (expected: map<Name, Fields>)
    ensures forall n :: n in expected ==> exists i :: 0 <= i < |clients| && WantedAs(clients[i], replicas, tagToId, n, expected[n])
    ensures forall n :: n in expected ==> exists i :: 0 <= i < |clients| && clients[i].name == n && FieldsOf(clients[i], expected[n], replicas, tagToId)
    ensures forall i, id :: 0 <= i < |clients| && Adopts(clients[i], id, replicas, tagToId) ==> clients[i].name in expected
    ensures forall i :: 0 <= i < |clients| && Wanted(clients[i], replicas, tagToId).Some? ==> clients[i].name in expected
    ensures (forall i, j :: 0 <= i < j < |clients| ==> clients[i].name != clients[j].name) ==>
              forall i :: 0 <= i < |clients| && Wanted(clients[i], replicas, tagToId).Some? ==>
                expected[clients[i].name] == Wanted(clients[i], replicas, tagToId).value
  {
    expected := map[];
    for k := 0 to |clients|
      invariant forall n :: n in expected ==> exists i :: 0 <= i < k && WantedAs(clients[i], replicas, tagToId, n, expected[n])
      invariant forall i :: 0 <= i < k && Wanted(clients[i], replicas, tagToId).Some? ==> clients[i].name in expected
    {
      var want := Wanted(clients[k], replicas, tagToId);
      if want.Some? {
        expected := expected[clients[k].name := want.value];
        assert WantedAs(clients[k], replicas, tagToId, clients[k].name, want.value);
      }
    }
  }

  // ---------- clientDiffers ----------

  predicate ClientDiffers(want: Fields, cur: Report) {
    || want.enable != cur.enable
    || want.expiry != cur.expiry
    || (want.config.Some? && cur.config.Some? && want.config != cur.config)
    || want.inbounds != cur.inbounds
    || (cur.limitIp.Some? && want.limitIp != cur.limitIp.value)
  }

  /** What "does not differ" is worth: full agreement on everything the node reports, except that a
      config missing on either side is not compared. */
  lemma AgreementIsFull(node: Node, want: Fields, has: Fields)
    requires !ClientDiffers(want, Reported(node, has))
    ensures want.enable == has.enable && want.expiry == has.expiry && want.inbounds == has.inbounds
    ensures node.reportsLimit ==> want.limitIp == has.limitIp
    ensures node.reportsConfig && want.config.Some? && has.config.Some? ==> want.config == has.config
    ensures node.reportsConfig && node.reportsLimit && want.config.Some? && has.config.Some? ==> want == has
  {
  }

  // ---------- the node's table ----------

  predicate IsClient(t: Table, id: nat, name: Name) {
    id in t && t[id].cluster && t[id].name == name
  }

  ghost predicate UniqueNames(t: Table) {
    forall i, j, n :: IsClient(t, i, n) && IsClient(t, j, n) ==> i == j
  }

  /** The name needs a push: missing, different, or no longer expected. */
  ghost predicate Off(t: Table, node: Node, expected: map<Name, Fields>, name: Name) {
    if name in expected then !exists id :: IsClient(t, id, name) && !ClientDiffers(expected[name], Reported(node, t[id].fields))
    else exists id :: IsClient(t, id, name)
  }

  function Names(t: Table): set<Name> {
    set id | id in t && t[id].cluster :: t[id].name
  }

  ghost function OffNames(t: Table, node: Node, expected: map<Name, Fields>): set<Name> {
    set n | n in Names(t) + expected.Keys && Off(t, node, expected, n)
  }

  /** Rows outside the group, which no run may touch. */
  function OwnRows(t: Table): Table {
    map id | id in t && !t[id].cluster :: t[id]
  }

  /** `t'` differs from `t` at most in the group's rows of one name. */
  ghost predicate OnlyName(t: Table, t': Table, name: Name) {
    && OwnRows(t') == OwnRows(t)
    && forall id, m :: m != name ==> (IsClient(t', id, m) <==> IsClient(t, id, m)) && (IsClient(t, id, m) ==> t'[id] == t[id])
  }

  /** A push that settles its name takes exactly that name off the list. */
  lemma PushSettles(t: Table, t': Table, node: Node, expected: map<Name, Fields>, name: Name)
    requires OnlyName(t, t', name)
    requires Off(t, node, expected, name) && !Off(t', node, expected, name)
    ensures OffNames(t', node, expected) == OffNames(t, node, expected) - {name}
    ensures name in OffNames(t, node, expected)
  {
    forall m | m != name
      ensures Off(t', node, expected, m) <==> Off(t, node, expected, m)
    {
      OffFrame(t, t', node, expected, m);
    }
    forall m
      ensures Off(t, node, expected, m) ==> m in Names(t) + expected.Keys
      ensures Off(t', node, expected, m) ==> m in Names(t') + expected.Keys
    {
      OffIsNamed(t, node, expected, m);
      OffIsNamed(t', node, expected, m);
    }
  }

  lemma OffIsNamed(t: Table, node: Node, expected: map<Name, Fields>, name: Name)
    ensures Off(t, node, expected, name) ==> name in Names(t) + expected.Keys
  {
  }

  lemma OffFrame(t: Table, t': Table, node: Node, expected: map<Name, Fields>, m: Name)
    requires forall id :: (IsClient(t', id, m) <==> IsClient(t, id, m)) && (IsClient(t, id, m) ==> t'[id] == t[id])
    ensures Off(t', node, expected, m) <==> Off(t, node, expected, m)
  {
    if m in expected {
      if id :| IsClient(t, id, m) && !ClientDiffers(expected[m], Reported(node, t[id].fields)) {
        assert IsClient(t', id, m);
      }
      if id :| IsClient(t', id, m) && !ClientDiffers(expected[m], Reported(node, t'[id].fields)) {
        assert IsClient(t, id, m);
      }
    } else {
      if id :| IsClient(t, id, m) {
        assert IsClient(t', id, m);
      }
      if id :| IsClient(t', id, m) {
        assert IsClient(t, id, m);
      }
    }
  }

  // ---------- the pushes ----------

  /** "new" and "edit": the node stores the pushed fields under a fresh or the given id.  It takes them even
      where it has a client of its own by that name: pushes of the group are exempt from its name check. */
  lemma SaveSettles(t: Table, id: nat, node: Node, expected: map<Name, Fields>, name: Name)
    requires UniqueNames(t) && name in expected
    requires (id !in t && forall i :: !IsClient(t, i, name)) || IsClient(t, id, name)
    ensures var t' := t[id := Client(name, true, expected[name])];
            UniqueNames(t') && OnlyName(t, t', name) && !Off(t', node, expected, name)
  {
    var t' := t[id := Client(name, true, expected[name])];
    assert IsClient(t', id, name);
    assert OwnRows(t') == OwnRows(t);
    forall i, n | IsClient(t', i, n)
      ensures (i == id && n == name) || (n != name && IsClient(t, i, n))
    {
      assert n == name && i != id ==> IsClient(t, i, n);
    }
  }

  lemma DeleteSettles(t: Table, id: nat, node: Node, expected: map<Name, Fields>, name: Name)
    requires UniqueNames(t) && name !in expected && IsClient(t, id, name)
    ensures UniqueNames(t - {id}) && OnlyName(t, t - {id}, name) && !Off(t - {id}, node, expected, name)
  {
    assert OwnRows(t - {id}) == OwnRows(t);
    forall i, n | IsClient(t - {id}, i, n)
      ensures n != name && IsClient(t, i, n)
    {
      assert IsClient(t, i, n);
    }
  }

  /** actualClusterClients: one id per name of the group. */
  method ActualClusterClients(t: Table) returns (actual: map<Name, nat>)
    ensures IsActual(t, actual)
    ensures UniqueNames(t) ==> forall id, n :: IsClient(t, id, n) ==> actual[n] == id
  {
    actual := map[];
    var ids := t.Keys;
    while ids != {}
      invariant ids <= t.Keys
      invariant forall n :: n in actual ==> IsClient(t, actual[n], n)
      invariant forall id, n :: id !in ids && IsClient(t, id, n) ==> n in actual
    {
      var id :| id in ids;
      if t[id].cluster {
        actual := actual[t[id].name := id];
      }
      ids := ids - {id};
    }
  }

  /** Where a run stands: what it settled so far, and that everything else is as it found it. */
  ghost predicate Progress(t0: Table, t: Table, node: Node, expected: map<Name, Fields>, pushed: set<Name>) {
    && UniqueNames(t)
    && OwnRows(t) == OwnRows(t0)
    && pushed <= OffNames(t0, node, expected)
    && OffNames(t, node, expected) == OffNames(t0, node, expected) - pushed
    && (forall id, m :: m !in pushed ==> (IsClient(t, id, m) <==> IsClient(t0, id, m)) && (IsClient(t0, id, m) ==> t[id] == t0[id]))
    && forall id, m :: m in pushed && m in expected ==> SavedAs(t0, t, expected[m], id, m)
  }

  /** A saved name carries what was pushed, in the row it had if it had one. */
  predicate SavedAs(t0: Table, t: Table, want: Fields, id: nat, name: Name) {
    (IsClient(t, id, name) ==> t[id].fields == want) && (IsClient(t0, id, name) ==> IsClient(t, id, name))
  }

  lemma Pushed(t0: Table, t: Table, t': Table, node: Node, expected: map<Name, Fields>, pushed: set<Name>, name: Name)
    requires Progress(t0, t, node, expected, pushed) && name !in pushed
    requires UniqueNames(t') && OnlyName(t, t', name)
    requires Off(t0, node, expected, name) && !Off(t', node, expected, name)
    requires name in expected ==> forall id :: SavedAs(t, t', expected[name], id, name)
    ensures Progress(t0, t', node, expected, pushed + {name})
  {
    OffFrame(t0, t, node, expected, name);
    PushSettles(t, t', node, expected, name);
    forall id, m | m in pushed + {name} && m in expected
      ensures SavedAs(t0, t', expected[m], id, m)
    {
      if m != name {
        assert SavedAs(t0, t, expected[m], id, m);
      } else {
        assert SavedAs(t, t', expected[m], id, m);
      }
    }
  }

  ghost predicate Settled(t: Table, node: Node, expected: map<Name, Fields>, names: set<Name>) {
    forall n :: n in names ==> !Off(t, node, expected, n)
  }

  lemma Begins(t0: Table, node: Node, expected: map<Name, Fields>)
    requires UniqueNames(t0)
    ensures Progress(t0, t0, node, expected, {}) && Settled(t0, node, expected, {})
  {
  }

  /** The name is looked at: what the first reading of the node says about it, and where it stands now. */
  lemma Judged(t0: Table, t: Table, node: Node, expected: map<Name, Fields>, pushed: set<Name>, actual: map<Name, nat>, name: Name)
    requires Progress(t0, t, node, expected, pushed) && name !in pushed && UniqueNames(t0)
    requires IsActual(t0, actual)
    ensures Off(t, node, expected, name) <==> Off(t0, node, expected, name)
    ensures name in actual ==> IsClient(t0, actual[name], name) && IsClient(t, actual[name], name)
    ensures name !in actual ==> forall id :: !IsClient(t, id, name)
    ensures Off(t0, node, expected, name) <==>
              if name in expected then name !in actual || ClientDiffers(expected[name], ReportOf(t0, actual, node, name))
              else name in actual
  {
    OffFrame(t0, t, node, expected, name);
    if name in actual {
      assert IsClient(t0, actual[name], name);
    }
  }

  lemma SaveStep(t0: Table, t: Table, node: Node, expected: map<Name, Fields>, pushed: set<Name>, names: set<Name>, name: Name, id: nat)
    requires Progress(t0, t, node, expected, pushed) && Settled(t, node, expected, names) && name !in pushed
    requires Off(t0, node, expected, name) && name in expected
    requires (id !in t && forall i :: !IsClient(t, i, name)) || IsClient(t, id, name)
    ensures var t' := t[id := Client(name, true, expected[name])];
            Progress(t0, t', node, expected, pushed + {name}) && Settled(t', node, expected, names + {name})
  {
    var t' := t[id := Client(name, true, expected[name])];
    SaveSettles(t, id, node, expected, name);
    forall i
      ensures SavedAs(t, t', expected[name], i, name)
    {
      assert IsClient(t', id, name);
    }
    Pushed(t0, t, t', node, expected, pushed, name);
    SettledStay(t, t', node, expected, names, name);
  }

  lemma DeleteStep(t0: Table, t: Table, node: Node, expected: map<Name, Fields>, pushed: set<Name>, names: set<Name>, name: Name, id: nat)
    requires Progress(t0, t, node, expected, pushed) && Settled(t, node, expected, names) && name !in pushed
    requires Off(t0, node, expected, name) && name !in expected && IsClient(t, id, name)
    ensures Progress(t0, t - {id}, node, expected, pushed + {name}) && Settled(t - {id}, node, expected, names + {name})
  {
    DeleteSettles(t, id, node, expected, name);
    Pushed(t0, t, t - {id}, node, expected, pushed, name);
    SettledStay(t, t - {id}, node, expected, names, name);
  }

  lemma Ends(t0: Table, t: Table, node: Node, expected: map<Name, Fields>, pushed: set<Name>)
    requires Progress(t0, t, node, expected, pushed)
    ensures UniqueNames(t) && OwnRows(t) == OwnRows(t0)
    ensures OffNames(t, node, expected) <= OffNames(t0, node, expected)
    ensures |OffNames(t, node, expected)| == |OffNames(t0, node, expected)| - |pushed|
  {
  }

  ghost predicate IsActual(t: Table, actual: map<Name, nat>) {
    && (forall n :: n in actual ==> IsClient(t, actual[n], n))
    && (forall id, n :: IsClient(t, id, n) ==> n in actual)
  }

  /** The first loop of runReconcile: "new" for what is missing, "edit" for what differs. */
  method PushExpected(t0: Table, node: Node, expected: map<Name, Fields>, actual: map<Name, nat>, budget: nat)
    returns (t: Table, ghost pushed: set<Name>, pushes: nat, ok: bool)
    requires UniqueNames(t0) && IsActual(t0, actual)
    ensures Progress(t0, t, node, expected, pushed) && pushes == |pushed| <= budget && pushed <= expected.Keys
    ensures ok ==> Settled(t, node, expected, expected.Keys)
    ensures !ok ==> pushes == budget && OffNames(t, node, expected) != {}
  {
    hide Progress, Settled, Off, OffNames, UniqueNames, IsClient, ClientDiffers, Reported, IsActual, OwnRows;
    t, pushed, pushes, ok := t0, {}, 0, true;
    Begins(t0, node, expected);
    var todo := expected.Keys;
    assert expected.Keys - todo == {};
    while todo != {}
      invariant todo <= expected.Keys
      invariant Progress(t0, t, node, expected, pushed) && pushes == |pushed| <= budget
      invariant pushed <= expected.Keys - todo
      invariant Settled(t, node, expected, expected.Keys - todo)
      decreases todo
    {
      var name :| name in todo;
      Judged(t0, t, node, expected, pushed, actual, name);
      ghost var names := expected.Keys - todo;
      if name !in actual || ClientDiffers(expected[name], ReportOf(t0, actual, node, name)) {
        if pushes == budget {
          StillOff(t0, t, node, expected, pushed, name);
          ok := false;
          return;
        }
        var id;
        if name in actual {
          id := actual[name];
        } else {
          id := NewId(t);
        }
        SaveStep(t0, t, node, expected, pushed, names, name, id);
        t, pushes, pushed := t[id := Client(name, true, expected[name])], pushes + 1, pushed + {name};
      } else {
        SettledToo(t, node, expected, names, name);
      }
      todo := todo - {name};
      assert expected.Keys - todo == names + {name};
    }
    assert expected.Keys - todo == expected.Keys;
  }

  /** The second loop: "del" for what is in the group but no longer expected. */
  method DeleteUnexpected(t0: Table, t1: Table, node: Node, expected: map<Name, Fields>, actual: map<Name, nat>,
                          ghost pushed1: set<Name>, pushes1: nat, budget: nat)
    returns (t: Table, ghost pushed: set<Name>, pushes: nat, ok: bool)
    requires UniqueNames(t0) && IsActual(t0, actual) && Progress(t0, t1, node, expected, pushed1)
    requires pushed1 <= expected.Keys && Settled(t1, node, expected, expected.Keys) && pushes1 == |pushed1| <= budget
    ensures Progress(t0, t, node, expected, pushed) && pushes == |pushed| <= budget
    ensures pushed <= expected.Keys + actual.Keys
    ensures ok ==> Settled(t, node, expected, expected.Keys + actual.Keys)
    ensures !ok ==> pushes == budget && OffNames(t, node, expected) != {}
  {
    hide Progress, Settled, Off, OffNames, UniqueNames, IsClient, ClientDiffers, Reported, IsActual, OwnRows;
    t, pushed, pushes, ok := t1, pushed1, pushes1, true;
    var gone := actual.Keys;
    Looked(expected.Keys, actual.Keys, gone);
    while gone != {}
      invariant gone <= actual.Keys
      invariant Progress(t0, t, node, expected, pushed) && pushes == |pushed| <= budget
      invariant pushed <= expected.Keys + (actual.Keys - gone)
      invariant Settled(t, node, expected, expected.Keys + (actual.Keys - gone))
      decreases gone
    {
      var name :| name in gone;
      ghost var names := expected.Keys + (actual.Keys - gone);
      LookedOn(expected.Keys, actual.Keys, gone, name);
      if name !in expected {
        Judged(t0, t, node, expected, pushed, actual, name);
        if pushes == budget {
          StillOff(t0, t, node, expected, pushed, name);
          ok := false;
          return;
        }
        var id := actual[name];
        DeleteStep(t0, t, node, expected, pushed, names, name, id);
        t, pushes, pushed := t - {id}, pushes + 1, pushed + {name};
      }
      gone := gone - {name};
    }
    Looked(expected.Keys, actual.Keys, gone);
  }

  /** The names dealt with: what is expected, and what has been looked at of the rest. */
  lemma Looked(expected: set<Name>, actual: set<Name>, gone: set<Name>)
    ensures gone == actual ==> expected + (actual - gone) == expected
    ensures gone == {} ==> expected + (actual - gone) == expected + actual
  {
  }

  lemma LookedOn(expected: set<Name>, actual: set<Name>, gone: set<Name>, name: Name)
    requires name in gone && gone <= actual
    ensures var names := expected + (actual - gone);
            && expected + (actual - (gone - {name})) == names + {name}
            && (name in expected ==> names + {name} == names)
            && (name !in expected ==> name !in names)
  {
  }

  /** What a completed run leaves of a client: the pushed fields if the diff saw a difference, and otherwise
      what was there. */
  function Reconciled(node: Node, want: Fields, has: Fields): Fields {
    if ClientDiffers(want, Reported(node, has)) then want else has
  }

  /** The group is exactly the expected names, each with the fields a completed run leaves. */
  ghost predicate GroupIs(t0: Table, t: Table, node: Node, expected: map<Name, Fields>) {
    && (forall id, n :: IsClient(t, id, n) ==> n in expected)
    && (forall id, n :: IsClient(t0, id, n) && n in expected ==>
          IsClient(t, id, n) && t[id].fields == Reconciled(node, expected[n], t0[id].fields))
    && (forall n :: n in expected && n !in Names(t0) ==> HasClient(t, n, expected[n]))
  }

  ghost predicate HasClient(t: Table, name: Name, f: Fields) {
    exists id :: IsClient(t, id, name) && t[id].fields == f
  }

  /** How far the group can stay from what is expected.  Enabled, expiry and inbounds always agree.  A config
      stays wrong exactly when everything else the node reports agrees and the node does not report configs,
      or one side has none -- a config cleared on the node is not repaired; a limit stays wrong exactly when
      the node does not report limits and the rest agrees. */
  lemma WhatStaysUnrepaired(node: Node, want: Fields, has: Fields)
    ensures var f := Reconciled(node, want, has);
            var rest := want.enable == has.enable && want.expiry == has.expiry && want.inbounds == has.inbounds;
            && f.enable == want.enable && f.expiry == want.expiry && f.inbounds == want.inbounds
            && (f.config != want.config <==>
                  && rest && (node.reportsLimit ==> want.limitIp == has.limitIp)
                  && has.config != want.config && (!node.reportsConfig || want.config.None? || has.config.None?))
            && (f.limitIp != want.limitIp <==>
                  && rest && !node.reportsLimit && has.limitIp != want.limitIp
                  && (node.reportsConfig && want.config.Some? && has.config.Some? ==> want.config == has.config))
  {
  }

  lemma GroupIsReconciled(t0: Table, t: Table, node: Node, expected: map<Name, Fields>, pushed: set<Name>)
    requires UniqueNames(t0) && Progress(t0, t, node, expected, pushed) && OffNames(t, node, expected) == {}
    ensures GroupIs(t0, t, node, expected)
  {
    hide Progress, Reconciled;
    forall n
      ensures !Off(t, node, expected, n)
      ensures n in expected && n !in Names(t0) ==> HasClient(t, n, expected[n])
    {
      NameIsReconciled(t0, t, node, expected, pushed, n);
    }
    forall id, n | IsClient(t0, id, n) && n in expected
      ensures IsClient(t, id, n) && t[id].fields == Reconciled(node, expected[n], t0[id].fields)
    {
      RowIsReconciled(t0, t, node, expected, pushed, id, n);
    }
  }

  lemma NameIsReconciled(t0: Table, t: Table, node: Node, expected: map<Name, Fields>, pushed: set<Name>, n: Name)
    requires UniqueNames(t0) && Progress(t0, t, node, expected, pushed) && OffNames(t, node, expected) == {}
    ensures !Off(t, node, expected, n) && (Off(t0, node, expected, n) ==> n in pushed)
    ensures n in expected && n !in Names(t0) ==> HasClient(t, n, expected[n])
  {
    OffIsNamed(t, node, expected, n);
    OffIsNamed(t0, node, expected, n);
    assert n in OffNames(t, node, expected) <==> Off(t, node, expected, n);
    assert n in OffNames(t0, node, expected) <==> Off(t0, node, expected, n);
    if n in expected && n !in Names(t0) {
      assert forall id :: !IsClient(t0, id, n);
      assert Off(t0, node, expected, n) && n in pushed;
      var id :| IsClient(t, id, n);
      assert SavedAs(t0, t, expected[n], id, n);
    }
  }

  lemma RowIsReconciled(t0: Table, t: Table, node: Node, expected: map<Name, Fields>, pushed: set<Name>, id: nat, n: Name)
    requires UniqueNames(t0) && Progress(t0, t, node, expected, pushed) && OffNames(t, node, expected) == {}
    requires IsClient(t0, id, n) && n in expected
    ensures IsClient(t, id, n) && t[id].fields == Reconciled(node, expected[n], t0[id].fields)
  {
    hide OffNames, ClientDiffers, Reported;
    NameIsReconciled(t0, t, node, expected, pushed, n);
    assert forall i :: IsClient(t0, i, n) ==> i == id;
    assert Off(t0, node, expected, n) <==> ClientDiffers(expected[n], Reported(node, t0[id].fields));
    if Off(t0, node, expected, n) {
      assert SavedAs(t0, t, expected[n], id, n);
    } else if n in pushed {
      PushedWereOff(t0, t, node, expected, pushed, n);
    }
  }

  lemma PushedWereOff(t0: Table, t: Table, node: Node, expected: map<Name, Fields>, pushed: set<Name>, n: Name)
    requires Progress(t0, t, node, expected, pushed) && n in pushed
    ensures Off(t0, node, expected, n)
  {
    assert n in OffNames(t0, node, expected);
  }

  /** One run.  `budget` is how many pushes the node takes before the connection breaks.  Each push
      settles one differing name for good; a run that completes makes the group what is expected, as far as
      the node lets it be compared, and the node's own clients are never touched. */
  method RunReconcile(t0: Table, node: Node, expected: map<Name, Fields>, budget: nat)
    returns (t: Table, pushes: nat, completed: bool)
    requires UniqueNames(t0)
    ensures UniqueNames(t) && OwnRows(t) == OwnRows(t0)
    ensures OffNames(t, node, expected) <= OffNames(t0, node, expected)
    ensures |OffNames(t, node, expected)| == |OffNames(t0, node, expected)| - pushes
    ensures completed ==> OffNames(t, node, expected) == {} && GroupIs(t0, t, node, expected)
    ensures completed <==> |OffNames(t0, node, expected)| <= budget
    ensures !completed ==> pushes == budget
  {
    hide Progress, Settled, Off, OffNames, UniqueNames, OwnRows, IsClient, GroupIs;
    var actual := ActualClusterClients(t0);
    ghost var pushed;
    t, pushed, pushes, completed := PushExpected(t0, node, expected, actual, budget);
    if completed {
      t, pushed, pushes, completed := DeleteUnexpected(t0, t, node, expected, actual, pushed, pushes, budget);
    }
    Ends(t0, t, node, expected, pushed);
    if completed {
      AllSettled(t0, t, node, expected, pushed, actual);
      GroupIsReconciled(t0, t, node, expected, pushed);
    }
  }

  function ReportOf(t0: Table, actual: map<Name, nat>, node: Node, name: Name): Report
    requires name in actual && IsClient(t0, actual[name], name)
  {
    Reported(node, t0[actual[name]].fields)
  }

  lemma SettledToo(t: Table, node: Node, expected: map<Name, Fields>, names: set<Name>, name: Name)
    requires Settled(t, node, expected, names) && !Off(t, node, expected, name)
    ensures Settled(t, node, expected, names + {name})
  {
  }

  /** The id the node's database hands out. */
  method NewId(t: Table) returns (id: nat)
    ensures id !in t
  {
    id := 0;
    var ids := t.Keys;
    while ids != {}
      invariant ids <= t.Keys
      invariant forall i :: i in t && i !in ids ==> i < id
      decreases ids
    {
      var i :| i in ids;
      if i >= id {
        id := i + 1;
      }
      ids := ids - {i};
    }
  }

  /** A completed run leaves nothing for the next one; an interrupted one leaves exactly what is left. */
  method RunTwice(t0: Table, node: Node, expected: map<Name, Fields>, first: nat, second: nat)
    returns (t1: Table, t2: Table, pushes1: nat, pushes2: nat, completed: bool)
    requires UniqueNames(t0)
    ensures pushes1 + pushes2 <= |OffNames(t0, node, expected)|
    ensures |OffNames(t0, node, expected)| <= first ==> pushes2 == 0
    ensures completed <==> |OffNames(t0, node, expected)| <= first + second
    ensures completed ==> OffNames(t2, node, expected) == {} && OwnRows(t2) == OwnRows(t0)
    ensures completed ==> pushes1 + pushes2 == |OffNames(t0, node, expected)|
  {
    hide OffNames, OwnRows, UniqueNames;
    t1, pushes1, completed := RunReconcile(t0, node, expected, first);
    t2, pushes2, completed := RunReconcile(t1, node, expected, second);
  }

  lemma SettledStay(t: Table, t': Table, node: Node, expected: map<Name, Fields>, settled: set<Name>, name: Name)
    requires OnlyName(t, t', name) && !Off(t', node, expected, name) && Settled(t, node, expected, settled)
    ensures Settled(t', node, expected, settled + {name})
  {
    forall n | n in settled && n != name
      ensures !Off(t', node, expected, n)
    {
      OffFrame(t, t', node, expected, n);
    }
  }

  /** A run that stops short has a differing name left over. */
  lemma StillOff(t0: Table, t: Table, node: Node, expected: map<Name, Fields>, pushed: set<Name>, name: Name)
    requires Progress(t0, t, node, expected, pushed) && name !in pushed && Off(t0, node, expected, name)
    ensures OffNames(t, node, expected) != {}
  {
    OffIsNamed(t0, node, expected, name);
    assert name in OffNames(t, node, expected);
  }

  lemma AllSettled(t0: Table, t: Table, node: Node, expected: map<Name, Fields>, pushed: set<Name>, actual: map<Name, nat>)
    requires Progress(t0, t, node, expected, pushed) && IsActual(t0, actual)
    requires pushed <= expected.Keys + actual.Keys && Settled(t, node, expected, expected.Keys + actual.Keys)
    ensures OffNames(t, node, expected) == {}
    ensures |OffNames(t0, node, expected)| == |pushed|
  {
    forall n | n in OffNames(t0, node, expected)
      ensures n in expected.Keys + actual.Keys
    {
      if n !in expected {
        var id :| IsClient(t0, id, n);
      }
    }
    assert OffNames(t, node, expected) == {};
    assert OffNames(t0, node, expected) == pushed;
  }
}

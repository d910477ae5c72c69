/**
 Folding a node's traffic into the master (service/nodeSync.go, collectNodeTraffic): the node
 reports cumulative counters, the master keeps the last reading per client as a baseline and
 adds the difference to its own row.
 */
module TrafficFold {
  type Name = string

  /** One client's two counters, on either side. */
  datatype Bytes = Bytes(up: nat, down: nat)

  const ZERO := Bytes(0, 0)

  /** The growth since the baseline; a reading below it means the node's counter was reset. */
  function Delta(reading: nat, base: nat): nat {
    if reading < base then reading else reading - base
  }

  function Growth(reading: Bytes, base: Bytes): Bytes {
    Bytes(Delta(reading.up, base.up), Delta(reading.down, base.down))
  }

  function Plus(a: Bytes, b: Bytes): Bytes {
    Bytes(a.up + b.up, a.down + b.down)
  }

  function BaseOf(baseline: map<Name, Bytes>, n: Name): Bytes {
    if n in baseline then baseline[n] else ZERO
  }

  /** The master's row of one client after a collection. */
  function Folded(row: Bytes, n: Name, current: map<Name, Bytes>, baseline: map<Name, Bytes>): Bytes {
    if n in current then Plus(row, Growth(current[n], BaseOf(baseline, n))) else row
  }

  /** One collection: every owned client the node reports grows by its difference, nothing else moves,
      and the new baseline is exactly what was read. */
  method CollectNodeTraffic(current: map<Name, Bytes>, baseline: map<Name, Bytes>, rows: map<Name, Bytes>, commits: bool)
    returns (baseline': map<Name, Bytes>, rows': map<Name, Bytes>)
    ensures !commits ==> baseline' == baseline && rows' == rows
    ensures commits ==> baseline' == current && rows'.Keys == rows.Keys
    ensures commits ==> forall n :: n in rows ==> rows'[n] == Folded(rows[n], n, current, baseline)
  {
    var next: map<Name, Bytes> := map[];
    var deltas: map<Name, Bytes> := map[];
    var todo := current.Keys;
    while todo != {}
      invariant todo <= current.Keys
      invariant next.Keys == current.Keys - todo && forall n :: n in next ==> next[n] == current[n]
      invariant forall n :: n in deltas ==> n in next && n in rows && deltas[n] == Growth(current[n], BaseOf(baseline, n))
      invariant forall n :: n in next && n in rows && n !in deltas ==> Growth(current[n], BaseOf(baseline, n)) == ZERO
      decreases todo
    {
      var n :| n in todo;
      todo := todo - {n};
      next := next[n := current[n]];
      if n in rows {
        var d := Growth(current[n], BaseOf(baseline, n));
        if d.up > 0 || d.down > 0 {
          deltas := deltas[n := d];
        }
      }
    }
    if !commits {
      return baseline, rows;
    }
    assert next == current;
    baseline', rows' := next, rows;
    var left := deltas.Keys;
    while left != {}
      invariant left <= deltas.Keys && rows'.Keys == rows.Keys
      invariant forall n :: n in rows ==> rows'[n] == if n in deltas && n !in left then Plus(rows[n], deltas[n]) else rows[n]
      decreases left
    {
      var n :| n in left;
      left := left - {n};
      rows' := rows'[n := Plus(rows'[n], deltas[n])];
    }
  }

  // ---------- one client's counter over time ----------

  /** `counted` is every byte the node ever counted for the client, `folded` what reached the master. */
  datatype Ledger = Ledger(listed: bool, owned: bool, reading: nat, base: nat, counted: nat, folded: nat)

  datatype Event =
    | Traffic(bytes: nat)
    /** The node's own counter goes back to zero. */
    | NodeReset
    /** The client is deleted on the node, and created again with fresh counters. */
    | Leave
    | Join
    | Own(owned: bool)
    | Collect(commits: bool)

  function After(l: Ledger, e: Event): Ledger {
    match e
    case Traffic(b) => if l.listed then l.(reading := l.reading + b, counted := l.counted + b) else l
    case NodeReset => l.(reading := 0)
    case Leave => l.(listed := false, reading := 0)
    case Join => if l.listed then l else l.(listed := true, reading := 0)
    case Own(o) => l.(owned := o)
    case Collect(commits) =>
      if !commits then l else
        l.(base := if l.listed then l.reading else 0,
           folded := if l.listed && l.owned then l.folded + Delta(l.reading, l.base) else l.folded)
  }

  function Run(l: Ledger, events: seq<Event>): Ledger
    decreases |events|
  {
    if events == [] then l else After(Run(l, events[..|events| - 1]), events[|events| - 1])
  }

  /** The ledger's Collect is the method's effect on one client, in each direction. */
  lemma LedgerIsTheMethod(up: Ledger, down: Ledger, n: Name, current: map<Name, Bytes>, baseline: map<Name, Bytes>, row: Bytes)
    requires (up.listed <==> n in current) && (down.listed <==> n in current) && up.owned && down.owned
    requires n in current ==> current[n] == Bytes(up.reading, down.reading)
    requires BaseOf(baseline, n) == Bytes(up.base, down.base) && row == Bytes(up.folded, down.folded)
    ensures Folded(row, n, current, baseline) == Bytes(After(up, Collect(true)).folded, After(down, Collect(true)).folded)
    ensures BaseOf(current, n) == Bytes(After(up, Collect(true)).base, After(down, Collect(true)).base)
  {
  }

  predicate Sound(l: Ledger) {
    l.folded + (if l.listed then Delta(l.reading, l.base) else 0) <= l.counted
  }

  /** Over any run of traffic, resets, deletions, changes of ownership and collections -- failed ones
      included -- the master never holds more than the node counted. */
  lemma {:induction false} NeverOverCounts(l: Ledger, events: seq<Event>)
    requires Sound(l)
    ensures Sound(Run(l, events)) && Run(l, events).folded <= Run(l, events).counted
    decreases |events|
  {
    if events != [] {
      NeverOverCounts(l, events[..|events| - 1]);
    }
  }

  /** The counter only grows, and the master owns the name throughout. */
  predicate Steady(events: seq<Event>) {
    forall i :: 0 <= i < |events| ==> events[i].Traffic? || events[i].Collect?
  }

  /** Then nothing is lost either: what is not folded yet is exactly the growth since the baseline ... */
  lemma {:induction false} SteadyIsExact(l: Ledger, events: seq<Event>)
    requires l.listed && l.owned && l.base <= l.reading && l.folded + l.reading - l.base == l.counted && Steady(events)
    ensures var r := Run(l, events);
            r.listed && r.owned && r.base <= r.reading && r.folded + r.reading - r.base == r.counted
    decreases |events|
  {
    if events != [] {
      assert Steady(events[..|events| - 1]);
      SteadyIsExact(l, events[..|events| - 1]);
    }
  }

  /** ... so the last successful collection brings the master level with the node. */
  lemma CollectionCatchesUp(l: Ledger, events: seq<Event>)
    requires l.listed && l.owned && l.base <= l.reading && l.folded + l.reading - l.base == l.counted && Steady(events)
    ensures var r := After(Run(l, events), Collect(true)); r.folded == r.counted
  {
    SteadyIsExact(l, events);
  }
}

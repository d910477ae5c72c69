/**
 Traffic counters (core/tracker_stats.go): GetStats empties them into rows while SampleUsers reads them in
 place, and the data path keeps adding to them throughout, without the lock.  What arrives between two
 accesses of a loop is the parameter `traffic`.
 */
module StatsTracker {
  datatype Resource = Inbound | Outbound | User

  datatype Name = Name(resource: Resource, tag: string)

  datatype Bytes = Bytes(up: int, down: int)

  type Counters = map<Name, Bytes>

  /** Direction true is up. */
  datatype StatRow = StatRow(dateTime: int, name: Name, direction: bool, traffic: int)

  datatype Arrival = Arrival(name: Name, up: nat, down: nat)

  const Zero: Bytes := Bytes(0, 0)

  function Plus(a: Bytes, b: Bytes): Bytes {
    Bytes(a.up + b.up, a.down + b.down)
  }

  function Minus(a: Bytes, b: Bytes): Bytes {
    Bytes(a.up - b.up, a.down - b.down)
  }

  predicate AtMost(a: Bytes, b: Bytes) {
    a.up <= b.up && a.down <= b.down
  }

  function Of(m: Counters, n: Name): Bytes {
    if n in m then m[n] else Zero
  }

  /** What a batch brings for one name. */
  function Sum(batch: seq<Arrival>, n: Name): (b: Bytes)
    ensures AtMost(Zero, b)
  {
    if batch == [] then Zero
    else if batch[0].name == n then Plus(Bytes(batch[0].up, batch[0].down), Sum(batch[1..], n))
    else Sum(batch[1..], n)
  }

  /** Only a name that was routed has a counter to add to. */
  function Arrived(m: Counters, batch: seq<Arrival>): Counters {
    map n | n in m :: Plus(m[n], Sum(batch, n))
  }

  function ArrivedAll(m: Counters, traffic: nat -> seq<Arrival>, k: nat): Counters {
    if k == 0 then m else Arrived(ArrivedAll(m, traffic, k - 1), traffic(k - 1))
  }

  /** What a list of rows says one name moved. */
  function RowTotal(rows: seq<StatRow>, n: Name): Bytes {
    if rows == [] then Zero
    else
      var last, rest := rows[|rows| - 1], RowTotal(rows[..|rows| - 1], n);
      if last.name != n then rest
      else if last.direction then Bytes(rest.up + last.traffic, rest.down)
      else Bytes(rest.up, rest.down + last.traffic)
  }

  lemma RowAppended(rows: seq<StatRow>, row: StatRow, n: Name)
    ensures var t := RowTotal(rows, n);
            RowTotal(rows + [row], n) ==
            if row.name != n then t else if row.direction then Bytes(t.up + row.traffic, t.down) else Bytes(t.up, t.down + row.traffic)
  {
    assert (rows + [row])[..|rows|] == rows;
  }

  // ---------- the books ----------

  /** Every byte ever counted is in a row or still in its counter. */
  predicate RowsBalance(added: Counters, emitted: Counters, counters: Counters) {
    && added.Keys == emitted.Keys == counters.Keys
    && forall n :: n in added ==> added[n] == Plus(emitted[n], counters[n]) && AtMost(Zero, counters[n])
  }

  /** Counter plus drained minus sampled is what came since the last sample; for users already sampled in
      this pass the drained part is settled. */
  predicate SamplesBalance(added: Counters, accounted: Counters, counters: Counters, drained: Counters, sampled: Counters, done: set<Name>) {
    && added.Keys == accounted.Keys == counters.Keys && drained.Keys <= counters.Keys && sampled.Keys <= counters.Keys
    && forall n :: n in added && n.resource == User ==>
         && AtMost(accounted[n], added[n])
         && Minus(Plus(counters[n], if n in done then Zero else Of(drained, n)), Of(sampled, n)) == Minus(added[n], accounted[n])
  }

  lemma ArrivalKeepsRows(added: Counters, emitted: Counters, counters: Counters, batch: seq<Arrival>)
    requires RowsBalance(added, emitted, counters)
    ensures RowsBalance(Arrived(added, batch), emitted, Arrived(counters, batch))
  {
  }

  lemma ArrivalKeepsSamples(added: Counters, accounted: Counters, counters: Counters, drained: Counters, sampled: Counters, done: set<Name>, batch: seq<Arrival>)
    requires SamplesBalance(added, accounted, counters, drained, sampled, done)
    ensures SamplesBalance(Arrived(added, batch), accounted, Arrived(counters, batch), drained, sampled, done)
  {
  }

  class StatsTracker {
    var counters: Counters
    var sampled: Counters
    var drained: Counters
    var sampledAt: int
    /** All bytes the data path counted, those put into rows, and those reported by samples. */
    ghost var added: Counters
    ghost var emitted: Counters
    ghost var accounted: Counters

    ghost predicate Valid()
      reads this
    {
      RowsBalance(added, emitted, counters) && SamplesBalance(added, accounted, counters, drained, sampled, {})
    }

    constructor (now: int)
      ensures Valid() && sampledAt == now && added == emitted == accounted == map[]
    {
      counters, sampled, drained, sampledAt := map[], map[], map[], now;
      added, emitted, accounted := map[], map[], map[];
    }

    /** Routing a connection makes sure its counters exist. */
    method LoadOrCreate(name: Name)
      requires Valid()
      modifies this
      ensures Valid() && name in counters && drained == old(drained) && sampled == old(sampled) && sampledAt == old(sampledAt)
      ensures counters == if name in old(counters) then old(counters) else old(counters)[name := Zero]
      ensures forall n :: Of(added, n) == Of(old(added), n) && Of(emitted, n) == Of(old(emitted), n) && Of(accounted, n) == Of(old(accounted), n)
    {
      hide RowsBalance, SamplesBalance;
      if name !in counters {
        CreatedKeeps(added, emitted, accounted, counters, drained, sampled, name);
        counters := counters[name := Zero];
        added, emitted, accounted := added[name := Zero], emitted[name := Zero], accounted[name := Zero];
      }
    }

    /** Bytes come in on the data path, at any point of a call. */
    method Arrive(batch: seq<Arrival>)
      modifies this`counters, this`added
      ensures counters == Arrived(old(counters), batch) && added == Arrived(old(added), batch)
    {
      counters := Arrived(counters, batch);
      added := Arrived(added, batch);
    }

    /** The data path between two calls: every book stays balanced. */
    method Count(batch: seq<Arrival>)
      requires Valid()
      modifies this`counters, this`added
      ensures Valid() && counters == Arrived(old(counters), batch) && added == Arrived(old(added), batch)
    {
      hide RowsBalance, SamplesBalance, Arrived;
      ArrivalKeepsRows(added, emitted, counters, batch);
      ArrivalKeepsSamples(added, accounted, counters, drained, sampled, {}, batch);
      Arrive(batch);
    }

    /** Empty one counter, one direction at a time, and book what came out for the next sample. */
    method Drain(name: Name, first: seq<Arrival>, second: seq<Arrival>) returns (up: nat, down: nat)
      requires Valid() && name in counters
      modifies this
      ensures name in old(emitted)
      ensures Valid() && sampled == old(sampled) && sampledAt == old(sampledAt) && accounted == old(accounted)
      ensures added == Arrived(Arrived(old(added), first), second)
      ensures emitted == old(emitted)[name := Plus(old(emitted)[name], Bytes(up, down))]
      ensures name in old(added) && AtMost(old(added)[name], emitted[name])
    {
      hide RowsBalance, SamplesBalance, Arrived, Plus, Booked;
      Known(added, emitted, counters, name);
      ArrivedMore(added, first, name);
      down := TakeDown(name, first, drained);
      ghost var half := emitted;
      up := TakeUp(name, second, Booked(drained, name, Bytes(0, down)));
      PlusUp(half[name], up);
      PlusParts(old(emitted)[name], up, down);
      BookedTwice(added, accounted, counters, drained, sampled, name, up, down);
      if name.resource == User && (down != 0 || up != 0) {
        drained := drained[name := Plus(Of(drained, name), Bytes(up, down))];
      }
    }

    /** write.Swap(0), after some more traffic; `book` is what drained will be once this is booked. */
    method TakeDown(name: Name, batch: seq<Arrival>, ghost book: Counters) returns (down: nat)
      requires RowsBalance(added, emitted, counters) && SamplesBalance(added, accounted, counters, book, sampled, {}) && name in counters
      modifies this`counters, this`added, this`emitted
      ensures RowsBalance(added, emitted, counters)
      ensures SamplesBalance(added, accounted, counters, Booked(book, name, Bytes(0, down)), sampled, {}) && name in counters
      ensures added == Arrived(old(added), batch)
      ensures name in old(emitted) && emitted == old(emitted)[name := Plus(old(emitted)[name], Bytes(0, down))]
      ensures name in old(added) && old(added)[name].down <= emitted[name].down
    {
      hide RowsBalance, SamplesBalance, Arrived;
      Known(added, emitted, counters, name);
      ArrivalKeepsRows(added, emitted, counters, batch);
      ArrivalKeepsSamples(added, accounted, counters, book, sampled, {}, batch);
      Arrive(batch);
      Known(added, emitted, counters, name);
      ArrivedAt(old(added), batch, name);
      AllThere(added, emitted, counters, name);
      down := counters[name].down;
      Taken(added, emitted, accounted, counters, book, sampled, name, Bytes(0, down));
      counters := counters[name := Bytes(counters[name].up, 0)];
      emitted := emitted[name := Plus(emitted[name], Bytes(0, down))];
    }

    method TakeUp(name: Name, batch: seq<Arrival>, ghost book: Counters) returns (up: nat)
      requires RowsBalance(added, emitted, counters) && SamplesBalance(added, accounted, counters, book, sampled, {}) && name in counters
      modifies this`counters, this`added, this`emitted
      ensures RowsBalance(added, emitted, counters)
      ensures SamplesBalance(added, accounted, counters, Booked(book, name, Bytes(up, 0)), sampled, {}) && name in counters
      ensures added == Arrived(old(added), batch)
      ensures name in old(emitted) && emitted == old(emitted)[name := Plus(old(emitted)[name], Bytes(up, 0))]
      ensures name in old(added) && old(added)[name].up <= emitted[name].up
    {
      hide RowsBalance, SamplesBalance, Arrived;
      Known(added, emitted, counters, name);
      ArrivalKeepsRows(added, emitted, counters, batch);
      ArrivalKeepsSamples(added, accounted, counters, book, sampled, {}, batch);
      Arrive(batch);
      Known(added, emitted, counters, name);
      ArrivedAt(old(added), batch, name);
      AllThere(added, emitted, counters, name);
      up := counters[name].up;
      Taken(added, emitted, accounted, counters, book, sampled, name, Bytes(up, 0));
      counters := counters[name := Bytes(0, counters[name].down)];
      emitted := emitted[name := Plus(emitted[name], Bytes(up, 0))];
    }

    /** The rows say exactly what left the counters, and say nothing that is not positive. */
    method GetStats(dt: int, traffic: nat -> seq<Arrival>) returns (rows: seq<StatRow>)
      requires Valid()
      modifies this
      ensures Valid() && counters.Keys == old(counters).Keys && sampled == old(sampled) && sampledAt == old(sampledAt) && accounted == old(accounted)
      ensures added == ArrivedAll(old(added), traffic, 2 * |old(counters)|)
      ensures RowsTell(old(emitted), emitted, rows) && AllPositive(rows, dt)
      ensures CaughtUp(old(added), emitted, old(counters).Keys)
    {
      hide DrainSoFar, CaughtUp, AtMost, RowsBalance, SamplesBalance, Arrived, ArrivedAll, RowsTell, AllPositive, Plus, WithStats;
      rows := [];
      var todo := counters.Keys;
      var k := 0;
      SameKeys(added, emitted, counters);
      ArrivedNone(added, traffic);
      assert counters.Keys - todo == {};
      DrainBegins(added, emitted, dt);
      while todo != {}
        invariant Valid() && todo <= counters.Keys == old(counters).Keys
        invariant sampled == old(sampled) && sampledAt == old(sampledAt) && accounted == old(accounted)
        invariant k + 2 * |todo| == 2 * |old(counters)|
        invariant added == ArrivedAll(old(added), traffic, k)
        invariant DrainSoFar(old(added), old(emitted), emitted, rows, dt, old(counters).Keys - todo)
        decreases todo
      {
        var name :| name in todo;
        ghost var before := emitted;
        SameKeys(added, emitted, counters);
        ghost var start := added;
        ArrivedAllGrows(old(added), traffic, k, name);
        var up, down := Drain(name, traffic(k), traffic(k + 1));
        SameKeys(added, emitted, counters);
        DrainOn(old(added), old(emitted), start, before, rows, dt, old(counters).Keys - todo, name, up, down);
        rows := WithStats(rows, dt, name, up, down);
        ArrivedTwice(old(added), traffic, k);
        OneMoreDone(old(counters).Keys, todo, name);
        OneLess(todo, name);
        todo := todo - {name};
        k := k + 2;
      }
      assert old(counters).Keys - todo == old(counters).Keys;
      DrainEnds(old(added), old(emitted), emitted, rows, dt, old(counters).Keys);
    }

    /** One user's turn in a sample: both directions read, compared, remembered. */
    method Read(name: Name, between: seq<Arrival>, ghost done: set<Name>) returns (delta: Bytes)
      requires RowsBalance(added, emitted, counters) && SamplesBalance(added, accounted, counters, drained, sampled, done)
      requires name in counters && name.resource == User && name !in done
      modifies this
      ensures RowsBalance(added, emitted, counters) && SamplesBalance(added, accounted, counters, drained, sampled, done + {name})
      ensures drained == old(drained) && sampledAt == old(sampledAt) && emitted == old(emitted) && counters.Keys == old(counters).Keys
      ensures added == Arrived(old(added), between)
      ensures accounted == old(accounted)[name := Plus(old(accounted)[name], delta)]
      ensures AtMost(Zero, delta)
      ensures name in old(added) && AtMost(old(added)[name], accounted[name])
    {
      hide Arrived, RowsBalance, SamplesBalance;
      Known(added, emitted, counters, name);
      var up := counters[name].up;
      ArrivalKeepsRows(added, emitted, counters, between);
      ReadKeeps(added, accounted, counters, drained, sampled, done, name, between);
      ArrivedAt(counters, between, name);
      ReadAll(added, accounted, counters, drained, sampled, done, name, between);
      Arrive(between);
      var cur := Bytes(up, counters[name].down);
      delta := Minus(Plus(cur, Of(drained, name)), Of(sampled, name));
      accounted := accounted[name := Plus(accounted[name], delta)];
      sampled := sampled[name := cur];
    }

    /** What each user moved since the sample before: never negative, and exactly what the accounts grow by. */
    method SampleUsers(now: int, minWindow: int, traffic: nat -> seq<Arrival>) returns (moved: Counters, window: int, ok: bool)
      requires Valid()
      modifies this
      ensures Valid() && window == now - old(sampledAt) && (ok <==> window >= minWindow)
      ensures !ok ==> moved == map[] && counters == old(counters) && sampled == old(sampled) && drained == old(drained) && sampledAt == old(sampledAt)
      ensures !ok ==> added == old(added) && emitted == old(emitted) && accounted == old(accounted)
      ensures ok ==> sampledAt == now && drained == map[] && emitted == old(emitted)
      ensures ok ==> added == ArrivedAll(old(added), traffic, |Users(old(counters).Keys)|)
      ensures ok ==> DeltasTell(old(accounted), accounted, moved)
      ensures Gains(moved)
      ensures ok ==> CaughtUp(old(added), accounted, Users(old(counters).Keys))
    {
      hide SampleSoFar, CaughtUp, ArrivedAll, RowsBalance, SamplesBalance, Arrived, DeltasTell, Plus, Gains, AtMost, Users;
      window := now - sampledAt;
      moved := map[];
      NoDeltas(accounted);
      if window < minWindow {
        return moved, window, false;
      }
      ok := true;
      var todo := Users(counters.Keys);
      var k := 0;
      ghost var users := todo;
      assert users - todo == {};
      SampleBegins(added, accounted);
      ArrivedNone(added, traffic);
      while todo != {}
        invariant RowsBalance(added, emitted, counters) && SamplesBalance(added, accounted, counters, drained, sampled, users - todo)
        invariant todo <= users == Users(counters.Keys) && counters.Keys == old(counters).Keys
        invariant drained == old(drained) && emitted == old(emitted) && sampledAt == old(sampledAt)
        invariant k + |todo| == |users| && added == ArrivedAll(old(added), traffic, k)
        invariant SampleSoFar(old(added), old(accounted), accounted, moved, users - todo)
        decreases todo
      {
        var name :| name in todo;
        UsersAre(counters.Keys, name);
        SameAccounts(added, accounted, counters, drained, sampled, users - todo);
        ghost var before, start := accounted, added;
        SameKeys(added, emitted, counters);
        ArrivedAllGrows(old(added), traffic, k, name);
        var delta := Read(name, traffic(k), users - todo);
        SampleOn(old(added), old(accounted), start, before, moved, users - todo, name, delta);
        if delta != Zero {
          moved := moved[name := delta];
        }
        OneLess(todo, name);
        OneMoreDone(users, todo, name);
        ArrivedOnce(old(added), traffic, k);
        todo := todo - {name};
        k := k + 1;
      }
      assert users - todo == users;
      SampleEnds(old(added), old(accounted), accounted, moved, users);
      Cleared(added, accounted, counters, drained, sampled);
      drained := map[];
      sampledAt := now;
    }
  }

  /** Everything counted by the first state is accounted for in the second. */
  predicate CaughtUp(base: Counters, now: Counters, names: set<Name>) {
    forall n :: n in names ==> n in base && n in now && AtMost(base[n], now[n])
  }

  lemma NobodyYet(base: Counters, now: Counters)
    ensures CaughtUp(base, now, {})
  {
  }

  lemma CatchUpOne(base: Counters, start: Counters, before: Counters, after: Counters, names: set<Name>, name: Name)
    requires CaughtUp(base, before, names) && name in base && name in start && name in after
    requires AtMost(base[name], start[name]) && AtMost(start[name], after[name])
    requires forall n :: n in before && n != name ==> n in after && after[n] == before[n]
    ensures CaughtUp(base, after, names + {name})
  {
  }

  /** A sample part way: what was reported, that it is a gain, and that it leaves nothing out. */
  predicate SampleSoFar(base: Counters, start: Counters, accounted: Counters, moved: Counters, done: set<Name>) {
    moved.Keys <= done && DeltasTell(start, accounted, moved) && Gains(moved) && CaughtUp(base, accounted, done)
  }

  lemma SampleBegins(added: Counters, accounted: Counters)
    ensures SampleSoFar(added, accounted, accounted, map[], {})
  {
  }

  lemma SampleEnds(base: Counters, start: Counters, accounted: Counters, moved: Counters, done: set<Name>)
    requires SampleSoFar(base, start, accounted, moved, done)
    ensures DeltasTell(start, accounted, moved) && Gains(moved) && CaughtUp(base, accounted, done)
  {
  }

  lemma SampleOn(base: Counters, start: Counters, added: Counters, before: Counters, moved: Counters, done: set<Name>, name: Name, delta: Bytes)
    requires SampleSoFar(base, start, before, moved, done) && name in before && name !in done && AtMost(Zero, delta)
    requires name in base && name in added && AtMost(base[name], added[name]) && AtMost(added[name], Plus(before[name], delta))
    ensures SampleSoFar(base, start, before[name := Plus(before[name], delta)], if delta != Zero then moved[name := delta] else moved, done + {name})
  {
    hide DeltasTell, Gains, CaughtUp, Plus, AtMost;
    MoreDeltas(start, before, moved, name, delta);
    CatchUpOne(base, added, before, before[name := Plus(before[name], delta)], done, name);
  }

  /** A drain part way: the rows are what was emitted, none is empty, and nothing is left out. */
  predicate DrainSoFar(base: Counters, start: Counters, emitted: Counters, rows: seq<StatRow>, dt: int, done: set<Name>) {
    RowsTell(start, emitted, rows) && AllPositive(rows, dt) && CaughtUp(base, emitted, done)
  }

  lemma DrainBegins(added: Counters, emitted: Counters, dt: int)
    ensures DrainSoFar(added, emitted, emitted, [], dt, {})
  {
  }

  lemma DrainEnds(base: Counters, start: Counters, emitted: Counters, rows: seq<StatRow>, dt: int, done: set<Name>)
    requires DrainSoFar(base, start, emitted, rows, dt, done)
    ensures RowsTell(start, emitted, rows) && AllPositive(rows, dt) && CaughtUp(base, emitted, done)
  {
  }

  lemma DrainOn(base: Counters, start: Counters, added: Counters, before: Counters, rows: seq<StatRow>, dt: int, done: set<Name>, name: Name, up: nat, down: nat)
    requires DrainSoFar(base, start, before, rows, dt, done) && name in before
    requires name in base && name in added && AtMost(base[name], added[name]) && AtMost(added[name], Plus(before[name], Bytes(up, down)))
    ensures DrainSoFar(base, start, before[name := Plus(before[name], Bytes(up, down))], WithStats(rows, dt, name, up, down), dt, done + {name})
  {
    hide RowsTell, AllPositive, CaughtUp, Plus, AtMost, WithStats;
    MoreRows(start, before, rows, dt, name, up, down);
    CatchUpOne(base, added, before, before[name := Plus(before[name], Bytes(up, down))], done, name);
  }

  lemma PlusUp(b: Bytes, up: nat)
    ensures Plus(b, Bytes(up, 0)).down == b.down
  {
  }

  /** Nothing is in the counter that was not counted: emptied, all of it is in rows. */
  lemma AllThere(added: Counters, emitted: Counters, counters: Counters, name: Name)
    requires RowsBalance(added, emitted, counters) && name in counters
    ensures name in added && name in emitted && added[name] == Plus(emitted[name], counters[name])
  {
  }

  lemma {:induction false} ArrivedAllGrows(m: Counters, traffic: nat -> seq<Arrival>, k: nat, n: Name)
    requires n in ArrivedAll(m, traffic, k)
    ensures n in m && AtMost(m[n], ArrivedAll(m, traffic, k)[n])
  {
    if k > 0 {
      ArrivedAllGrows(m, traffic, k - 1, n);
    }
  }

  lemma ArrivedOnce(m: Counters, traffic: nat -> seq<Arrival>, k: nat)
    ensures ArrivedAll(m, traffic, k + 1) == Arrived(ArrivedAll(m, traffic, k), traffic(k))
  {
    hide Arrived;
  }

  /** Read in place, a user's counters account for all that was counted before the first read. */
  lemma ReadAll(added: Counters, accounted: Counters, counters: Counters, drained: Counters, sampled: Counters, done: set<Name>, name: Name, batch: seq<Arrival>)
    requires SamplesBalance(added, accounted, counters, drained, sampled, done) && name in counters && name.resource == User && name !in done
    ensures name in added && name in accounted && name in Arrived(counters, batch)
    ensures var cur := Bytes(counters[name].up, Arrived(counters, batch)[name].down);
            AtMost(added[name], Plus(accounted[name], Minus(Plus(cur, Of(drained, name)), Of(sampled, name))))
  {
    ArrivedAt(counters, batch, name);
  }

  /** Between two states the rows are exactly what was emitted. */
  predicate RowsTell(before: Counters, after: Counters, rows: seq<StatRow>) {
    before.Keys == after.Keys && forall n :: n in after ==> after[n] == Plus(before[n], RowTotal(rows, n))
  }

  predicate AllPositive(rows: seq<StatRow>, dt: int) {
    forall i :: 0 <= i < |rows| ==> rows[i].traffic > 0 && rows[i].dateTime == dt
  }

  /** Between two states the deltas are exactly what was accounted for. */
  predicate DeltasTell(before: Counters, after: Counters, moved: Counters) {
    before.Keys == after.Keys && forall n :: n in after ==> after[n] == Plus(before[n], Of(moved, n))
  }

  /** Whoever is listed moved something, and nothing negative. */
  predicate Gains(moved: Counters) {
    forall n :: n in moved ==> AtMost(Zero, moved[n]) && moved[n] != Zero
  }

  /** Only directions that moved anything get a row. */
  function WithStats(rows: seq<StatRow>, dt: int, name: Name, up: int, down: int): seq<StatRow> {
    var one := if down > 0 then rows + [StatRow(dt, name, false, down)] else rows;
    if up > 0 then one + [StatRow(dt, name, true, up)] else one
  }

  lemma ArrivedNone(m: Counters, traffic: nat -> seq<Arrival>)
    ensures ArrivedAll(m, traffic, 0) == m
  {
  }

  lemma ArrivedTwice(m: Counters, traffic: nat -> seq<Arrival>, k: nat)
    ensures ArrivedAll(m, traffic, k + 2) == Arrived(Arrived(ArrivedAll(m, traffic, k), traffic(k)), traffic(k + 1))
  {
    hide Arrived;
    assert ArrivedAll(m, traffic, k + 1) == Arrived(ArrivedAll(m, traffic, k), traffic(k));
  }

  lemma MoreRows(start: Counters, before: Counters, rows: seq<StatRow>, dt: int, name: Name, up: nat, down: nat)
    requires RowsTell(start, before, rows) && AllPositive(rows, dt) && name in before
    ensures var more := WithStats(rows, dt, name, up, down);
            RowsTell(start, before[name := Plus(before[name], Bytes(up, down))], more) && AllPositive(more, dt)
  {
    hide RowTotal;
    forall n
      ensures RowTotal(WithStats(rows, dt, name, up, down), n) == if n == name then Plus(RowTotal(rows, n), Bytes(up, down)) else RowTotal(rows, n)
    {
      AppendedStats(rows, dt, name, up, down, n);
    }
  }

  lemma NoDeltas(accounted: Counters)
    ensures DeltasTell(accounted, accounted, map[]) && Gains(map[])
  {
  }

  lemma MoreDeltas(start: Counters, before: Counters, moved: Counters, name: Name, delta: Bytes)
    requires DeltasTell(start, before, moved) && name in before && name !in moved
    requires Gains(moved) && AtMost(Zero, delta)
    ensures var more := if delta != Zero then moved[name := delta] else moved;
            DeltasTell(start, before[name := Plus(before[name], delta)], more) && Gains(more)
  {
  }

  lemma OneMoreDone(users: set<Name>, todo: set<Name>, name: Name)
    requires name in todo && todo <= users
    ensures users - (todo - {name}) == users - todo + {name}
  {
  }

  lemma UsersAre(names: set<Name>, n: Name)
    ensures n in Users(names) <==> n in names && n.resource == User
  {
  }

  lemma OneLess(s: set<Name>, n: Name)
    requires n in s
    ensures |s - {n}| == |s| - 1
  {
  }

  /** A user's two counters, read one after the other with traffic in between: the difference is what came
      since the last sample and before each read, so it is never negative. */
  lemma ReadKeeps(added: Counters, accounted: Counters, counters: Counters, drained: Counters, sampled: Counters, done: set<Name>, name: Name, batch: seq<Arrival>)
    requires SamplesBalance(added, accounted, counters, drained, sampled, done) && name in counters && name.resource == User && name !in done
    ensures var c, a := Arrived(counters, batch), Arrived(added, batch);
            name in c && name in accounted &&
            var cur := Bytes(counters[name].up, c[name].down);
            var delta := Minus(Plus(cur, Of(drained, name)), Of(sampled, name));
            && AtMost(Zero, delta)
            && SamplesBalance(a, accounted[name := Plus(accounted[name], delta)], c, drained, sampled[name := cur], done + {name})
  {
    hide Sum;
    ArrivalKeepsSamples(added, accounted, counters, drained, sampled, done, batch);
    ArrivedAt(counters, batch, name);
    ArrivedAt(added, batch, name);
  }

  function Users(names: set<Name>): set<Name> {
    set n | n in names && n.resource == User
  }

  /** Taken out of a user's counter and booked as drained. */
  function Booked(drained: Counters, name: Name, b: Bytes): Counters {
    if name.resource == User then drained[name := Plus(Of(drained, name), b)] else drained
  }

  /** Bytes that move from a counter into a row, and for a user into the drained book, upset nothing. */
  lemma Taken(added: Counters, emitted: Counters, accounted: Counters, counters: Counters, drained: Counters, sampled: Counters, name: Name, b: Bytes)
    requires RowsBalance(added, emitted, counters) && SamplesBalance(added, accounted, counters, drained, sampled, {})
    requires name in counters && name in emitted && AtMost(b, counters[name])
    ensures var c, e := counters[name := Minus(counters[name], b)], emitted[name := Plus(emitted[name], b)];
            RowsBalance(added, e, c) && SamplesBalance(added, accounted, c, Booked(drained, name, b), sampled, {})
  {
    hide SamplesBalance, Booked;
    TakenBooked(added, accounted, counters, drained, sampled, name, b);
  }

  lemma TakenBooked(added: Counters, accounted: Counters, counters: Counters, drained: Counters, sampled: Counters, name: Name, b: Bytes)
    requires SamplesBalance(added, accounted, counters, drained, sampled, {}) && name in counters
    ensures SamplesBalance(added, accounted, counters[name := Minus(counters[name], b)], Booked(drained, name, b), sampled, {})
  {
  }

  lemma CreatedKeeps(added: Counters, emitted: Counters, accounted: Counters, counters: Counters, drained: Counters, sampled: Counters, name: Name)
    requires RowsBalance(added, emitted, counters) && SamplesBalance(added, accounted, counters, drained, sampled, {}) && name !in counters
    ensures RowsBalance(added[name := Zero], emitted[name := Zero], counters[name := Zero])
    ensures SamplesBalance(added[name := Zero], accounted[name := Zero], counters[name := Zero], drained, sampled, {})
    ensures name !in added && name !in emitted && name !in accounted
  {
  }

  lemma BookedTwice(added: Counters, accounted: Counters, counters: Counters, drained: Counters, sampled: Counters, name: Name, up: int, down: int)
    requires SamplesBalance(added, accounted, counters, Booked(Booked(drained, name, Bytes(0, down)), name, Bytes(up, 0)), sampled, {})
    ensures SamplesBalance(added, accounted, counters, BookedOnce(drained, name, up, down), sampled, {})
  {
    hide SamplesBalance, Booked, BookedOnce, Of;
    var twice := Booked(Booked(drained, name, Bytes(0, down)), name, Bytes(up, 0));
    var once := BookedOnce(drained, name, up, down);
    forall n
      ensures Of(once, n) == Of(twice, n) && (n in once ==> n in twice)
    {
      BookedAt(drained, name, up, down, n);
    }
    SameBook(added, accounted, counters, twice, once, sampled);
  }

  function BookedOnce(drained: Counters, name: Name, up: int, down: int): Counters {
    if name.resource == User && (down != 0 || up != 0) then drained[name := Plus(Of(drained, name), Bytes(up, down))] else drained
  }

  lemma BookedAt(drained: Counters, name: Name, up: int, down: int, n: Name)
    ensures var twice, once := Booked(Booked(drained, name, Bytes(0, down)), name, Bytes(up, 0)), BookedOnce(drained, name, up, down);
            Of(once, n) == Of(twice, n) && (n in once ==> n in twice)
  {
    hide Plus;
    PlusParts(Of(drained, name), up, down);
    PlusNothing(Of(drained, name));
    if name.resource == User && n == name {
      assert Of(Booked(drained, name, Bytes(0, down)), name) == Plus(Of(drained, name), Bytes(0, down));
    }
  }

  lemma PlusParts(b: Bytes, up: int, down: int)
    ensures Plus(Plus(b, Bytes(0, down)), Bytes(up, 0)) == Plus(b, Bytes(up, down))
  {
  }

  lemma PlusNothing(b: Bytes)
    ensures Plus(b, Bytes(0, 0)) == b
  {
  }

  lemma SameBook(added: Counters, accounted: Counters, counters: Counters, drained: Counters, again: Counters, sampled: Counters)
    requires SamplesBalance(added, accounted, counters, drained, sampled, {})
    requires again.Keys <= drained.Keys && forall n :: Of(again, n) == Of(drained, n)
    ensures SamplesBalance(added, accounted, counters, again, sampled, {})
  {
    hide Of;
  }

  lemma Known(added: Counters, emitted: Counters, counters: Counters, name: Name)
    requires RowsBalance(added, emitted, counters) && (name in added || name in emitted || name in counters)
    ensures name in counters && name in emitted && name in added && AtMost(Zero, counters[name])
  {
  }

  lemma SameKeys(added: Counters, emitted: Counters, counters: Counters)
    requires RowsBalance(added, emitted, counters)
    ensures added.Keys == emitted.Keys == counters.Keys && |counters| == |counters.Keys|
  {
  }

  lemma SameAccounts(added: Counters, accounted: Counters, counters: Counters, drained: Counters, sampled: Counters, done: set<Name>)
    requires SamplesBalance(added, accounted, counters, drained, sampled, done)
    ensures added.Keys == accounted.Keys == counters.Keys
  {
  }

  lemma ArrivedAt(m: Counters, batch: seq<Arrival>, n: Name)
    requires n in m
    ensures Arrived(m, batch).Keys == m.Keys && Arrived(m, batch)[n] == Plus(m[n], Sum(batch, n))
  {
  }

  lemma ArrivedMore(m: Counters, batch: seq<Arrival>, n: Name)
    requires n in m
    ensures n in Arrived(m, batch) && AtMost(m[n], Arrived(m, batch)[n])
  {
  }

  lemma AppendedStats(rows: seq<StatRow>, dt: int, name: Name, up: nat, down: nat, n: Name)
    ensures RowTotal(WithStats(rows, dt, name, up, down), n) == if n == name then Plus(RowTotal(rows, n), Bytes(up, down)) else RowTotal(rows, n)
  {
    var one := if down > 0 then rows + [StatRow(dt, name, false, down)] else rows;
    RowAppended(rows, StatRow(dt, name, false, down), n);
    RowAppended(one, StatRow(dt, name, true, up), n);
  }

  /** Once every user has been read, what was drained has been reported and can be forgotten. */
  lemma Cleared(added: Counters, accounted: Counters, counters: Counters, drained: Counters, sampled: Counters)
    requires SamplesBalance(added, accounted, counters, drained, sampled, Users(counters.Keys))
    ensures SamplesBalance(added, accounted, counters, map[], sampled, {})
  {
  }
}

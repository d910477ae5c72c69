/**
 The periodic reset of clients (service/client.go): one pass over the client table at time dt.
 Times are unix seconds; `offset` is the fixed offset of the panel's zone.
 */
module ClientReset {
  import opened ResetCalendar

  datatype Client = Client(
    name: string, enable: bool, delayStart: bool, autoReset: bool, resetDays: int, resetDayOfMonth: int, nextReset: int,
    up: int, down: int, totalUp: int, totalDown: int, inbounds: set<nat>)

  type Clients = map<nat, Client>

  // ---------- one client ----------

  function NextResetAt(c: Client, dt: int, offset: int): int {
    if c.resetDayOfMonth > 0 then NextMonthly(dt + offset, c.resetDayOfMonth) - offset else dt + c.resetDays * Day
  }

  predicate HasPeriod(c: Client) {
    c.autoReset && (c.resetDays > 0 || c.resetDayOfMonth > 0)
  }

  /** A delayed client that has moved its first bytes. */
  predicate Starting(c: Client) {
    c.enable && c.delayStart && c.up + c.down > 0
  }

  predicate Due(c: Client, dt: int) {
    !c.delayStart && HasPeriod(c) && c.nextReset < dt
  }

  function Started(c: Client, dt: int, offset: int): Client {
    c.(nextReset := if HasPeriod(c) then NextResetAt(c, dt, offset) else c.nextReset, delayStart := false)
  }

  function Renewed(c: Client, dt: int, offset: int): Client {
    c.(nextReset := NextResetAt(c, dt, offset), totalUp := c.totalUp + c.up, totalDown := c.totalDown + c.down,
       up := 0, down := 0, enable := true)
  }

  function Ticked(c: Client, dt: int, offset: int): Client {
    if Starting(c) then Started(c, dt, offset) else if Due(c, dt) then Renewed(c, dt, offset) else c
  }

  function AllTicked(rows: Clients, dt: int, offset: int): Clients {
    map id | id in rows :: Ticked(rows[id], dt, offset)
  }

  // ---------- what a pass guarantees ----------

  lemma NextIsLater(c: Client, dt: int, offset: int)
    requires HasPeriod(c)
    ensures NextResetAt(c, dt, offset) > dt
  {
    if c.resetDayOfMonth > 0 {
      NextMonthlyIsNext(dt + offset, c.resetDayOfMonth);
    }
  }

  /** What a pass touched it need not touch again: afterwards nobody is starting or due at dt, so a second
      pass at the same time changes nothing. */
  lemma SecondPassIsIdle(rows: Clients, dt: int, offset: int)
    ensures forall id :: id in rows ==> !Starting(AllTicked(rows, dt, offset)[id]) && !Due(AllTicked(rows, dt, offset)[id], dt)
    ensures AllTicked(AllTicked(rows, dt, offset), dt, offset) == AllTicked(rows, dt, offset)
  {
    var once := AllTicked(rows, dt, offset);
    forall id | id in rows
      ensures !Starting(once[id]) && !Due(once[id], dt)
    {
      TickedIsSettled(rows[id], dt, offset);
    }
  }

  lemma TickedIsSettled(c: Client, dt: int, offset: int)
    ensures !Starting(Ticked(c, dt, offset)) && !Due(Ticked(c, dt, offset), dt)
    ensures Due(c, dt) ==> Ticked(c, dt, offset).nextReset > dt
  {
    hide NextResetAt;
    if HasPeriod(c) {
      NextIsLater(c, dt, offset);
    }
  }

  /** Traffic moves between the period's counters and the totals; none is lost or made up. */
  lemma TrafficIsConserved(c: Client, dt: int, offset: int)
    ensures var d := Ticked(c, dt, offset);
            d.up + d.totalUp == c.up + c.totalUp && d.down + d.totalDown == c.down + c.totalDown
  {
  }

  /** What a reset gives back: the period's counters are empty, their bytes are in the totals, and the client is in
      service; who is not due keeps counters, totals and service as they are. */
  lemma DueIsEmptied(c: Client, dt: int, offset: int)
    ensures var d := Ticked(c, dt, offset);
            if Due(c, dt)
            then d.up == 0 && d.down == 0 && d.totalUp == c.totalUp + c.up && d.totalDown == c.totalDown + c.down && d.enable
            else d.up == c.up && d.down == c.down && d.totalUp == c.totalUp && d.totalDown == c.totalDown && d.enable == c.enable
    ensures Due(c, dt) || Starting(c) ==> !Ticked(c, dt, offset).delayStart
  {
  }

  /** Whom a pass touches, in the words of its two queries: an enabled delayed client with traffic is started, an
      undelayed one with a period whose boundary has passed is reset, and everybody else is left exactly as is. */
  lemma PassTouches(c: Client, dt: int, offset: int)
    ensures Starting(c) <==> c.delayStart && c.enable && c.up + c.down > 0
    ensures Due(c, dt) <==> !c.delayStart && c.autoReset && (c.resetDays > 0 || c.resetDayOfMonth > 0) && c.nextReset < dt
    ensures !Starting(c) && !Due(c, dt) ==> Ticked(c, dt, offset) == c
    ensures Starting(c) ==> Ticked(c, dt, offset) == c.(delayStart := false, nextReset := Ticked(c, dt, offset).nextReset)
    ensures Starting(c) && !HasPeriod(c) ==> Ticked(c, dt, offset).nextReset == c.nextReset
  {
    hide NextResetAt;
  }

  /** How far ahead the next reset lies: a period of days is counted from the pass, a day of the month is the first
      such day after it; a delayed client gets its first one when its first bytes have come. */
  lemma NextResetLiesAhead(c: Client, dt: int, offset: int)
    requires HasPeriod(c) && (Due(c, dt) || Starting(c))
    ensures var next := Ticked(c, dt, offset).nextReset;
            if c.resetDayOfMonth > 0 then IsNext(dt + offset, c.resetDayOfMonth, next + offset)
            else next - dt == c.resetDays * 86400
  {
    hide NextMonthly, IsNext;
    if c.resetDayOfMonth > 0 {
      NextMonthlyIsNext(dt + offset, c.resetDayOfMonth);
    }
  }

  function Ticks(c: Client, dts: seq<int>, offset: int): Client {
    if dts == [] then c else Ticked(Ticks(c, dts[..|dts| - 1], offset), dts[|dts| - 1], offset)
  }

  /** Over any number of passes: traffic is conserved, and a client is never disabled or renamed by them. */
  lemma {:induction false} TicksConserve(c: Client, dts: seq<int>, offset: int)
    ensures var d := Ticks(c, dts, offset);
            && d.up + d.totalUp == c.up + c.totalUp && d.down + d.totalDown == c.down + c.totalDown
            && (c.enable ==> d.enable) && d.name == c.name && d.inbounds == c.inbounds
            && d.resetDays == c.resetDays && d.resetDayOfMonth == c.resetDayOfMonth && d.autoReset == c.autoReset
  {
    if dts != [] {
      TicksConserve(c, dts[..|dts| - 1], offset);
      TrafficIsConserved(Ticks(c, dts[..|dts| - 1], offset), dts[|dts| - 1], offset);
    }
  }

  /** Once a pass has found a client due its counters stay empty, however many passes follow: nothing but traffic
      fills them, and what they held is in the totals. */
  lemma {:induction false} EmptyAfterReset(c: Client, dts: seq<int>, i: nat, offset: int)
    requires i < |dts| && Due(Ticks(c, dts[..i], offset), dts[i])
    ensures var d := Ticks(c, dts, offset);
            d.up == 0 && d.down == 0 && d.totalUp == c.totalUp + c.up && d.totalDown == c.totalDown + c.down && d.enable
    decreases |dts|
  {
    var n := |dts| - 1;
    var front := dts[..n];
    DueIsEmptied(Ticks(c, front, offset), dts[n], offset);
    TicksConserve(c, dts, offset);
    if i < n {
      assert front[..i] == dts[..i];
      EmptyAfterReset(c, front, i, offset);
    }
  }

  /** A boundary of the client's calendar, as a unix time. */
  function UnixBoundary(m: int, c: Client, offset: int): int {
    Boundary(m, c.resetDayOfMonth) - offset
  }

  /** A monthly client reset at dt is next due exactly when one of its boundaries after dt has passed. */
  lemma ResetOncePerBoundary(c: Client, dt: int, later: int, offset: int)
    requires Due(c, dt) && c.resetDayOfMonth > 0
    ensures Due(Ticked(c, dt, offset), later) <==> exists m :: dt < UnixBoundary(m, c, offset) < later
  {
    hide NextMonthly, Boundary;
    var from, dom := dt + offset, c.resetDayOfMonth;
    NextMonthlyIsNext(from, dom);
    var next := NextMonthly(from, dom) - offset;
    assert Due(Ticked(c, dt, offset), later) <==> next < later;
    if next < later {
      var m :| NextMonthly(from, dom) == Boundary(m, dom);
      assert dt < UnixBoundary(m, c, offset) < later;
    }
    if exists m :: dt < UnixBoundary(m, c, offset) < later {
      var m :| dt < UnixBoundary(m, c, offset) < later;
      assert from < Boundary(m, dom);
    }
  }

  /** Ticking once inside every gap between boundaries, a monthly client is reset in every one of them. */
  lemma MonthlyPassResets(c: Client, m: int, first: int, second: int, offset: int)
    requires c.resetDayOfMonth > 0 && Due(c, first)
    requires UnixBoundary(m, c, offset) <= first < UnixBoundary(m + 1, c, offset) < second
    ensures Ticked(c, first, offset).nextReset == UnixBoundary(m + 1, c, offset) && Due(Ticked(c, first, offset), second)
  {
    hide NextMonthly, Boundary, IsNext;
    var from, dom := first + offset, c.resetDayOfMonth;
    NextMonthlyIsNext(from, dom);
    FirstBoundary(from, dom, m + 1);
    NextIsUnique(from, dom, NextMonthly(from, dom), Boundary(m + 1, dom));
  }

  // ---------- how often a monthly client is reset ----------

  /** A client on its monthly schedule, due at its boundary m. */
  predicate Monthly(c: Client, m: int, offset: int) {
    !c.delayStart && c.autoReset && c.resetDayOfMonth > 0 && c.nextReset == UnixBoundary(m, c, offset)
  }

  function Resets(c: Client, dts: seq<int>, offset: int): nat
    decreases |dts|
  {
    if dts == [] then 0
    else
      var n := |dts| - 1;
      Resets(c, dts[..n], offset) + if Due(Ticks(c, dts[..n], offset), dts[n]) then 1 else 0
  }

  predicate Ordered(dts: seq<int>) {
    forall i, j :: 0 <= i < j < |dts| ==> dts[i] <= dts[j]
  }

  /** One pass: a boundary that has gone by is answered by one reset, and the next one to come is kept. */
  lemma MonthlyTick(c: Client, m: int, dt: int, offset: int) returns (next: int)
    requires Monthly(c, m, offset)
    ensures Monthly(Ticked(c, dt, offset), next, offset) && Ticked(c, dt, offset).resetDayOfMonth == c.resetDayOfMonth
    ensures Due(c, dt) <==> UnixBoundary(m, c, offset) < dt
    ensures !Due(c, dt) ==> next == m
    ensures Due(c, dt) ==> m < next && UnixBoundary(next - 1, c, offset) <= dt < UnixBoundary(next, c, offset)
  {
    hide NextMonthly, Boundary;
    next := m;
    if Due(c, dt) {
      var from, dom := dt + offset, c.resetDayOfMonth;
      NextMonthlyIsNext(from, dom);
      next :| NextMonthly(from, dom) == Boundary(next, dom);
      if next <= m {
        Increasing(next, m, dom);
      }
      if from < Boundary(next - 1, dom) {
        BoundariesIncrease(next - 1, next, dom);
      }
    }
  }

  lemma Increasing(m: int, n: int, dom: int)
    requires dom >= 1 && m <= n
    ensures Boundary(m, dom) <= Boundary(n, dom)
  {
    if m < n {
      BoundariesIncrease(m, n, dom);
    }
  }

  /** Where a run of passes stands: due at boundary `next`, and each reset answered a boundary of its own, the
      last of them `answered - 1`, which lies before the last pass. */
  lemma {:induction false} ResetsSoFar(c: Client, m: int, dts: seq<int>, offset: int) returns (next: int, answered: int)
    requires Monthly(c, m, offset) && Ordered(dts)
    ensures Monthly(Ticks(c, dts, offset), next, offset) && Ticks(c, dts, offset).resetDayOfMonth == c.resetDayOfMonth
    ensures m <= answered <= next && Resets(c, dts, offset) <= answered - m
    ensures answered > m ==> dts != [] && UnixBoundary(answered - 1, c, offset) < dts[|dts| - 1]
    decreases |dts|
  {
    hide Boundary, Ticked;
    next, answered := m, m;
    if dts != [] {
      var n := |dts| - 1;
      next, answered := ResetsSoFar(c, m, dts[..n], offset);
      var before, was := Ticks(c, dts[..n], offset), next;
      assert n > 0 ==> dts[n - 1] <= dts[n];
      next := MonthlyTick(before, was, dts[n], offset);
      if Due(before, dts[n]) {
        answered := was + 1;
      }
    }
  }

  /** However often the pass runs, a client is reset at most once for each of its boundaries gone by. */
  lemma NeverMoreThanBoundaries(c: Client, m: int, last: int, dts: seq<int>, offset: int)
    requires Monthly(c, m, offset) && Ordered(dts) && m <= last
    requires dts != [] ==> dts[|dts| - 1] <= UnixBoundary(last, c, offset)
    ensures Resets(c, dts, offset) <= last - m
  {
    hide Boundary, Resets, Ticks;
    var next, answered := ResetsSoFar(c, m, dts, offset);
    if answered > last {
      Increasing(last, answered - 1, c.resetDayOfMonth);
    }
  }

  /** A pass falls strictly between boundary k and the next. */
  predicate PassIn(dts: seq<int>, k: int, c: Client, offset: int) {
    exists i :: 0 <= i < |dts| && UnixBoundary(k, c, offset) < dts[i] < UnixBoundary(k + 1, c, offset)
  }

  ghost predicate PassInEvery(dts: seq<int>, m: int, last: int, c: Client, offset: int) {
    forall k :: m <= k < last ==> PassIn(dts, k, c, offset)
  }

  /** With a pass in every gap the first n passes have answered every boundary before them. */
  lemma {:induction false} ResetsKeepUp(c: Client, m: int, last: int, dts: seq<int>, n: nat, offset: int) returns (next: int)
    requires Monthly(c, m, offset) && Ordered(dts) && m <= last && n <= |dts| && PassInEvery(dts, m, last, c, offset)
    requires dts != [] ==> dts[|dts| - 1] <= UnixBoundary(last, c, offset)
    ensures Monthly(Ticks(c, dts[..n], offset), next, offset) && Ticks(c, dts[..n], offset).resetDayOfMonth == c.resetDayOfMonth
    ensures m <= next && Resets(c, dts[..n], offset) == next - m
    ensures n > 0 ==> dts[n - 1] <= UnixBoundary(next, c, offset)
    ensures next > m ==> n > 0 && UnixBoundary(next - 1, c, offset) < dts[n - 1]
    decreases n
  {
    hide Boundary, Ticked;
    next := m;
    if n > 0 {
      var dt := dts[n - 1];
      assert dts[..n][..n - 1] == dts[..n - 1];
      var was := ResetsKeepUp(c, m, last, dts, n - 1, offset);
      var before := Ticks(c, dts[..n - 1], offset);
      next := MonthlyTick(before, was, dt, offset);
      if Due(before, dt) {
        GapIsMet(c, was, last, dts, n - 1, offset);
        if next > was + 1 {
          Increasing(was + 1, next - 1, c.resetDayOfMonth);
        }
      }
    }
  }

  /** The first pass after boundary k comes before the next boundary. */
  lemma GapIsMet(c: Client, k: int, last: int, dts: seq<int>, n: nat, offset: int)
    requires c.resetDayOfMonth > 0 && Ordered(dts) && n < |dts| && dts[|dts| - 1] <= UnixBoundary(last, c, offset)
    requires UnixBoundary(k, c, offset) < dts[n] && (n > 0 ==> dts[n - 1] <= UnixBoundary(k, c, offset))
    requires k < last ==> PassIn(dts, k, c, offset)
    ensures dts[n] < UnixBoundary(k + 1, c, offset)
  {
    hide Boundary;
    assert n < |dts| - 1 ==> dts[n] <= dts[|dts| - 1];
    if last <= k {
      Increasing(last, k, c.resetDayOfMonth);
    } else {
      var i :| 0 <= i < |dts| && UnixBoundary(k, c, offset) < dts[i] < UnixBoundary(k + 1, c, offset);
      assert i < n ==> dts[i] <= dts[n - 1];
      assert n < i ==> dts[n] <= dts[i];
    }
  }

  /** With a pass strictly inside every gap between boundaries, a client is reset exactly once for each. */
  lemma ExactlyOncePerBoundary(c: Client, m: int, last: int, dts: seq<int>, offset: int)
    requires Monthly(c, m, offset) && Ordered(dts) && m <= last && PassInEvery(dts, m, last, c, offset)
    requires dts != [] ==> dts[|dts| - 1] <= UnixBoundary(last, c, offset)
    ensures Resets(c, dts, offset) == last - m
  {
    hide Boundary, Resets, Ticks;
    assert dts[..|dts|] == dts;
    var next := ResetsKeepUp(c, m, last, dts, |dts|, offset);
    NeverMoreThanBoundaries(c, m, last, dts, offset);
    if next < last {
      assert PassIn(dts, last - 1, c, offset);
      var i :| 0 <= i < |dts| && UnixBoundary(last - 1, c, offset) < dts[i] < UnixBoundary(last - 1 + 1, c, offset);
      assert i < |dts| - 1 ==> dts[i] <= dts[|dts| - 1];
      Increasing(next, last - 1, c.resetDayOfMonth);
    }
  }

  // ---------- the pass ----------

  function Elements(ids: seq<nat>): set<nat> {
    set i | 0 <= i < |ids| :: ids[i]
  }

  /** Whom the pass brings back. */
  predicate Returning(c: Client, dt: int) {
    Due(c, dt) && !c.enable
  }

  function NamesOf(rows: Clients, ids: seq<nat>): seq<string> {
    seq(|ids|, i requires 0 <= i < |ids| => if ids[i] in rows then rows[ids[i]].name else "")
  }

  predicate Listing(rows: Clients, ids: seq<nat>, chosen: set<nat>) {
    && chosen <= rows.Keys && Elements(ids) == chosen
    && (forall i :: 0 <= i < |ids| ==> ids[i] in rows)
    && forall i, j :: 0 <= i < j < |ids| ==> ids[i] != ids[j]
  }

  lemma ListMore(rows: Clients, ids: seq<nat>, chosen: set<nat>, id: nat)
    requires Listing(rows, ids, chosen) && id in rows && id !in chosen
    ensures Listing(rows, ids + [id], chosen + {id}) && NamesOf(rows, ids + [id]) == NamesOf(rows, ids) + [rows[id].name]
  {
    var more := ids + [id];
    assert more[|ids|] == id;
    assert forall i :: 0 <= i < |ids| ==> more[i] == ids[i] && ids[i] in Elements(ids);
    assert Elements(more) == Elements(ids) + {id};
  }

  /** The inbounds of some clients. */
  function InboundsOf(rows: Clients, ids: set<nat>): set<nat> {
    set id, inbound | id in ids && id in rows && inbound in rows[id].inbounds :: inbound
  }

  lemma InboundsGrow(rows: Clients, ids: set<nat>, id: nat)
    requires id in rows
    ensures InboundsOf(rows, ids + {id}) == InboundsOf(rows, ids) + rows[id].inbounds
  {
  }

  class ClientTable {
    var rows: Clients

    /** Delayed clients whose first bytes have come get their first boundary. */
    method StartDelayed(dt: int, offset: int) returns (saved: Clients, changes: seq<string>, ghost ids: seq<nat>)
      ensures saved == map id | id in rows && Starting(rows[id]) :: Ticked(rows[id], dt, offset)
      ensures Listing(rows, ids, StartingIds(rows)) && changes == NamesOf(rows, ids)
    {
      hide NextMonthly, NextResetAt, Elements, Listing;
      saved, changes, ids := map[], [], [];
      var todo := set id | id in rows && Starting(rows[id]);
      ghost var all := todo;
      NothingListed(rows);
      assert all - todo == {};
      while todo != {}
        invariant todo <= all && saved == map id | id in all && id !in todo :: Ticked(rows[id], dt, offset)
        invariant Listing(rows, ids, all - todo) && changes == NamesOf(rows, ids)
        decreases todo
      {
        var id :| id in todo;
        var c := rows[id];
        if c.autoReset && (c.resetDays > 0 || c.resetDayOfMonth > 0) {
          var next := ScheduleNext(c, dt, offset);
          c := c.(nextReset := next);
        }
        c := c.(delayStart := false);
        ListMore(rows, ids, all - todo, id);
        changes := changes + [rows[id].name];
        ids := ids + [id];
        saved := saved[id := c];
        assert all - (todo - {id}) == all - todo + {id};
        todo := todo - {id};
      }
      assert all - todo == StartingIds(rows);
    }

    /** Clients whose period is over start a new one, with their counters moved into the totals. */
    method RenewDue(dt: int, offset: int) returns (saved: Clients, inboundIds: set<nat>, reenabled: seq<string>, ghost ids: seq<nat>)
      ensures saved == map id | id in rows && Due(rows[id], dt) :: Ticked(rows[id], dt, offset)
      ensures Listing(rows, ids, ReturningIds(rows, dt)) && reenabled == NamesOf(rows, ids)
      ensures inboundIds == InboundsOf(rows, ReturningIds(rows, dt))
    {
      hide NextMonthly, NextResetAt, Elements, Listing, InboundsOf;
      saved, inboundIds, reenabled, ids := map[], {}, [], [];
      var todo := set id | id in rows && Due(rows[id], dt);
      ghost var all, back := todo, {};
      NothingListed(rows);
      while todo != {}
        invariant todo <= all && saved == map id | id in all && id !in todo :: Ticked(rows[id], dt, offset)
        invariant back == set id | id in all && id !in todo && !rows[id].enable
        invariant Listing(rows, ids, back) && reenabled == NamesOf(rows, ids) && inboundIds == InboundsOf(rows, back)
        decreases todo
      {
        var id :| id in todo;
        var c := rows[id];
        var next := ScheduleNext(c, dt, offset);
        c := c.(nextReset := next, totalUp := c.totalUp + c.up, totalDown := c.totalDown + c.down, up := 0, down := 0);
        if !c.enable {
          ListMore(rows, ids, back, id);
          InboundsGrow(rows, back, id);
          c := c.(enable := true);
          reenabled := reenabled + [c.name];
          inboundIds := inboundIds + c.inbounds;
          ids, back := ids + [id], back + {id};
        }
        saved := saved[id := c];
        todo := todo - {id};
      }
      assert back == ReturningIds(rows, dt);
    }

    /** One pass, as one transaction: both selections read the table as it was. */
    method ResetClients(dt: int, offset: int)
      returns (inboundIds: set<nat>, reenabled: seq<string>, changes: seq<string>, wrote: bool, ghost started: seq<nat>, ghost returned: seq<nat>)
      modifies this
      ensures rows == AllTicked(old(rows), dt, offset)
      ensures forall id :: id in old(rows) ==> Emptied(old(rows)[id], rows[id], dt)
      ensures Listing(old(rows), started, StartingIds(old(rows))) && changes == NamesOf(old(rows), started)
      ensures Listing(old(rows), returned, ReturningIds(old(rows), dt)) && reenabled == NamesOf(old(rows), returned)
      ensures inboundIds == InboundsOf(old(rows), ReturningIds(old(rows), dt))
      ensures wrote <==> exists id :: id in old(rows) && (Starting(old(rows)[id]) || Due(old(rows)[id], dt))
    {
      hide Ticked, NamesOf, InboundsOf, Listing;
      var first, second;
      first, changes, started := StartDelayed(dt, offset);
      second, inboundIds, reenabled, returned := RenewDue(dt, offset);
      wrote := first != map[] || second != map[];
      SavedAll(rows, first, second, dt, offset);
      EmptiedAll(rows, dt, offset);
      rows := rows + first + second;
    }

    method ScheduleNext(c: Client, dt: int, offset: int) returns (t: int)
      ensures t == NextResetAt(c, dt, offset)
    {
      if c.resetDayOfMonth > 0 {
        var local := NextMonthlyReset(dt + offset, c.resetDayOfMonth);
        t := local - offset;
      } else {
        t := dt + c.resetDays * Day;
      }
    }
  }

  function StartingIds(rows: Clients): set<nat> {
    set id | id in rows && Starting(rows[id])
  }

  function ReturningIds(rows: Clients, dt: int): set<nat> {
    set id | id in rows && Returning(rows[id], dt)
  }

  /** A due row was emptied into its totals and is in service; any other kept its counters. */
  predicate Emptied(c: Client, d: Client, dt: int) {
    if Due(c, dt)
    then d.up == 0 && d.down == 0 && d.totalUp == c.totalUp + c.up && d.totalDown == c.totalDown + c.down && d.enable && d.nextReset > dt
    else d.up == c.up && d.down == c.down && d.totalUp == c.totalUp && d.totalDown == c.totalDown && d.enable == c.enable
  }

  lemma EmptiedAll(rows: Clients, dt: int, offset: int)
    ensures forall id :: id in rows ==> Emptied(rows[id], AllTicked(rows, dt, offset)[id], dt)
  {
    hide Ticked, Due;
    forall id | id in rows
      ensures Emptied(rows[id], AllTicked(rows, dt, offset)[id], dt)
    {
      DueIsEmptied(rows[id], dt, offset);
      TickedIsSettled(rows[id], dt, offset);
    }
  }

  lemma SavedAll(rows: Clients, first: Clients, second: Clients, dt: int, offset: int)
    requires first == map id | id in rows && Starting(rows[id]) :: Ticked(rows[id], dt, offset)
    requires second == map id | id in rows && Due(rows[id], dt) :: Ticked(rows[id], dt, offset)
    ensures rows + first + second == AllTicked(rows, dt, offset)
    ensures first != map[] || second != map[] <==> exists id :: id in rows && (Starting(rows[id]) || Due(rows[id], dt))
  {
    hide NextResetAt;
    if first != map[] {
      var id :| id in first;
    }
    if second != map[] {
      var id :| id in second;
    }
    assert forall id :: id in rows && Starting(rows[id]) ==> id in first;
    assert forall id :: id in rows && Due(rows[id], dt) ==> id in second;
  }

  lemma NothingListed(rows: Clients)
    ensures Listing(rows, [], {}) && NamesOf(rows, []) == [] && InboundsOf(rows, {}) == {}
  {
  }
}

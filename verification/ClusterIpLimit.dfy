/**
 One IP limit across a cluster (service/clusterIPLimit.go): the master's plan over everything its
 nodes report, and a node's acceptance of the bans that come out of it.
 Times of the plan are nanoseconds of the master's clock.
 */
module ClusterIpLimit {
  import opened Measures
  import opened IpLimit
  import opened ConnTracker
  import opened IpEnforce

  const ClusterBanTTL: nat := 300_000_000_000
  const ClusterBanLease: nat := 30

  datatype Span = Span(firstSeen: nat, lastSeen: nat)

  type Spans = map<Key, Span>

  type Untils = map<Key, nat>

  /** A reported address, or text that is none. */
  datatype Report = Garbage | Address(source: Source)

  function IdentityOf(s: Source): Addr {
    Rank(NormalizeSrc(s))
  }

  function LimitOf(limits: map<string, int>, u: string): int {
    if u in limits then limits[u] else 0
  }

  // ---------- the phases before the ranking ----------

  /** Every identity some node reports for a limited client. */
  function ActiveKeys(reports: map<string, seq<Report>>, limits: map<string, int>): set<Key> {
    set u, i | u in reports && LimitOf(limits, u) > 0 && 0 <= i < |reports[u]| && reports[u][i].Address? ::
      Key(u, IdentityOf(reports[u][i].source))
  }

  function UserKeys(user: string, reports: seq<Report>): set<Key> {
    set i | 0 <= i < |reports| && reports[i].Address? :: Key(user, IdentityOf(reports[i].source))
  }

  lemma OneMoreReport(user: string, reports: seq<Report>, i: nat)
    requires i < |reports|
    ensures UserKeys(user, reports[..i + 1]) ==
            UserKeys(user, reports[..i]) + if reports[i].Address? then {Key(user, IdentityOf(reports[i].source))} else {}
    ensures UserKeys(user, reports[..i + 1]) <= UserKeys(user, reports)
  {
    hide IdentityOf;
    var s, t := reports[..i], reports[..i + 1];
    assert t[i] == reports[i];
    forall k
      ensures k in UserKeys(user, s) ==> k in UserKeys(user, t)
    {
      if k in UserKeys(user, s) {
        var j :| 0 <= j < |s| && s[j].Address? && k == Key(user, IdentityOf(s[j].source));
        assert t[j] == s[j];
      }
    }
    forall k | k in UserKeys(user, t)
      ensures k in UserKeys(user, reports)
      ensures k in UserKeys(user, s) || (reports[i].Address? && k == Key(user, IdentityOf(reports[i].source)))
    {
      var j :| 0 <= j < |t| && t[j].Address? && k == Key(user, IdentityOf(t[j].source));
      assert reports[j] == t[j];
      assert j < i ==> s[j] == t[j];
    }
  }

  predicate Readable(reports: map<string, seq<Report>>, limits: map<string, int>) {
    forall u, i :: u in reports && LimitOf(limits, u) > 0 && 0 <= i < |reports[u]| ==> reports[u][i].Address?
  }

  function Remembering(holders: Spans, active: set<Key>, now: nat): Spans {
    map k | k in holders && (k in active || now - holders[k].lastSeen <= HoldMemory) :: holders[k]
  }

  function Stamped(holders: Spans, active: set<Key>, now: nat): Spans {
    map k | k in holders.Keys + active ::
      if k in active then Span(if k in holders then holders[k].firstSeen else now, now) else holders[k]
  }

  function Running(bans: Untils, limits: map<string, int>, now: nat): Untils {
    map k | k in bans && LimitOf(limits, k.user) > 0 && now < bans[k] :: bans[k]
  }

  // ---------- one client ----------

  /** What the ranking of every client works from. */
  datatype Round = Round(active: set<Key>, holders: Spans, bans: Untils, limits: map<string, int>, now: nat)

  predicate RoundValid(r: Round) {
    r.active <= r.holders.Keys
  }

  function Ips(keys: set<Key>, u: string): set<Addr> {
    set k | k in keys && k.user == u :: k.ip
  }

  lemma IpsAre(keys: set<Key>, k: Key)
    ensures k in keys <==> k.ip in Ips(keys, k.user)
  {
    assert forall b: Key :: b.user == k.user && b.ip == k.ip ==> b == k;
  }

  /** With fewer unbanned candidates than slots, the client's bans are doing no work. */
  predicate Cleared(r: Round, u: string) {
    |Ips(r.active, u) - Ips(r.bans.Keys, u)| < LimitOf(r.limits, u)
  }

  function Out(r: Round, u: string): set<Addr> {
    if Cleared(r, u) then {} else Ips(r.bans.Keys, u)
  }

  function Free(r: Round, u: string): set<Addr> {
    Ips(r.active, u) - Out(r, u)
  }

  function Windows(r: Round, u: string, ips: set<Addr>): map<Addr, Window>
    requires RoundValid(r) && ips <= Ips(r.active, u)
  {
    map a | a in ips :: assert Key(u, a) in r.active; Window(r.holders[Key(u, a)].firstSeen, r.now)
  }

  /** The first to come among those not banned, as many as there are slots. */
  function Seats(r: Round, u: string): set<Addr>
    requires RoundValid(r)
  {
    AdmittedSet(map[], Windows(r, u, Free(r, u)), LimitOf(r.limits, u), r.now, 0)
  }

  predicate Unseated(r: Round, k: Key)
    requires RoundValid(r)
  {
    k in r.active && k.ip !in Seats(r, k.user)
  }

  /** Holders once the clients in `done` are dealt with: whoever is active without a seat is struck. */
  function HoldersAfter(r: Round, done: set<string>): Spans
    requires RoundValid(r)
  {
    map k | k in r.holders && !(k.user in done && Unseated(r, k)) :: r.holders[k]
  }

  /** Bans once the clients in `done` are dealt with. */
  function BansAfter(r: Round, done: set<string>): Untils
    requires RoundValid(r)
  {
    map k | k in r.bans.Keys + r.active && (if k.user in done then k.ip in Out(r, k.user) || Unseated(r, k) else k in r.bans) ::
      if k in r.bans && !(k.user in done && Cleared(r, k.user)) then r.bans[k] else r.now + ClusterBanTTL
  }

  // ---------- the whole plan ----------

  /** `lists` is what the panel shows: each client's admitted identities in order of seniority. */
  datatype Ledger = Ledger(holders: Spans, bans: Untils, counts: map<string, nat>, lists: map<string, seq<Addr>>)

  const EMPTY: Ledger := Ledger(map[], map[], map[], map[])

  function RoundOf(l: Ledger, active: set<Key>, limits: map<string, int>, now: nat): (r: Round)
    ensures RoundValid(r)
  {
    Round(active, Stamped(Remembering(l.holders, active, now), active, now), Running(l.bans, limits, now), limits, now)
  }

  predicate Subset(small: Untils, big: Untils) {
    forall k :: k in small ==> k in big && small[k] == big[k]
  }

  /** Names in byte order. */
  predicate NameBefore(a: string, b: string) {
    if a == [] || b == [] then a == [] && b != []
    else a[0] < b[0] || (a[0] == b[0] && NameBefore(a[1..], b[1..]))
  }

  lemma {:induction false} NamesAreOrdered(a: string, b: string, c: string)
    ensures !(NameBefore(a, b) && NameBefore(b, a))
    ensures a == b || NameBefore(a, b) || NameBefore(b, a)
    ensures NameBefore(a, b) && NameBefore(b, c) ==> NameBefore(a, c)
    decreases |a|
  {
    if a != [] && b != [] {
      if c != [] {
        NamesAreOrdered(a[1..], b[1..], c[1..]);
      } else {
        NamesAreOrdered(a[1..], b[1..], []);
      }
      assert a == [a[0]] + a[1..] && b == [b[0]] + b[1..];
    }
  }

  /** The order bans are cut in: by their end, then by client, then by address. */
  predicate Sooner(bans: Untils, k: Key, l: Key)
    requires k in bans && l in bans
  {
    || bans[k] < bans[l]
    || (bans[k] == bans[l] && (NameBefore(k.user, l.user) || (k.user == l.user && k.ip < l.ip)))
  }

  lemma SoonerIsOrder(bans: Untils, k: Key, l: Key, m: Key)
    requires k in bans && l in bans && m in bans
    ensures !(Sooner(bans, k, l) && Sooner(bans, l, k))
    ensures k == l || Sooner(bans, k, l) || Sooner(bans, l, k)
    ensures Sooner(bans, k, l) && Sooner(bans, l, m) ==> Sooner(bans, k, m)
  {
    hide NameBefore;
    NamesAreOrdered(k.user, l.user, m.user);
    NamesAreOrdered(k.user, k.user, k.user);
  }

  /** Cut down to the cap, and only when over it, soonest first. */
  ghost predicate CutTo(small: Untils, big: Untils) {
    && Subset(small, big)
    && |small| <= BanMaxSize
    && (if |big| <= BanMaxSize then small == big else |small| == BanMaxSize)
    && forall k, l :: k in big && k !in small && l in small ==> l in big && Sooner(big, k, l)
  }

  /** There is only one way to cut. */
  lemma CutIsDetermined(a: Untils, b: Untils, big: Untils)
    requires CutTo(a, big) && CutTo(b, big)
    ensures a == b
  {
    hide Sooner;
    if a.Keys <= b.Keys {
      SameSizeSameKeys(a.Keys, b.Keys);
    } else if b.Keys <= a.Keys {
      SameSizeSameKeys(b.Keys, a.Keys);
    } else {
      var k :| k in a.Keys && k !in b.Keys;
      var l :| l in b.Keys && l !in a.Keys;
      SoonerIsOrder(big, k, l, k);
    }
  }

  lemma SameSizeSameKeys(a: set<Key>, b: set<Key>)
    requires a <= b
    ensures |a| <= |b| && (|a| == |b| ==> a == b)
  {
    assert b == a + (b - a);
    assert |a| == |b| ==> b - a == {};
  }

  /** The plan, from before to after. */
  ghost predicate Planned(l: Ledger, l': Ledger, active: set<Key>, limits: map<string, int>, now: nat) {
    var r := RoundOf(l, active, limits, now);
    && l'.holders == HoldersAfter(r, limits.Keys)
    && CutTo(l'.bans, BansAfter(r, limits.Keys))
    && l'.counts == SeatCounts(r, limits.Keys)
    && SeatLists(r, limits.Keys, l'.lists)
  }

  /** Exactly the seated identities, the most senior first. */
  ghost predicate SeatList(r: Round, u: string, list: seq<Addr>)
    requires RoundValid(r)
  {
    Elements(list) == Seats(r, u) && Ranked(map[], Windows(r, u, Free(r, u)), list)
  }

  ghost predicate SeatLists(r: Round, done: set<string>, lists: map<string, seq<Addr>>)
    requires RoundValid(r)
  {
    && (forall u :: u in lists <==> u in done && Seats(r, u) != {})
    && forall u :: u in lists ==> SeatList(r, u, lists[u])
  }

  // ---------- what a plan guarantees ----------

  lemma FreeWindows(r: Round, u: string)
    requires RoundValid(r)
    ensures Candidates(Windows(r, u, Free(r, u)), r.now, 0) == Free(r, u)
  {
  }

  /** Exactly min(limit, active identities) get a seat: bans never leave a slot empty. */
  lemma SeatsAreFilled(r: Round, u: string)
    requires RoundValid(r) && LimitOf(r.limits, u) > 0
    ensures Seats(r, u) <= Free(r, u) <= Ips(r.active, u)
    ensures var n := |Ips(r.active, u)|;
            |Seats(r, u)| == if n < LimitOf(r.limits, u) then n else LimitOf(r.limits, u)
  {
    hide Ips, AdmittedSet, Windows;
    FreeWindows(r, u);
    AdmittedExactly(map[], Windows(r, u, Free(r, u)), LimitOf(r.limits, u), r.now, 0);
    SeatsAreFree(r, u);
    Smaller(Free(r, u), Ips(r.active, u));
    if Cleared(r, u) {
      assert Free(r, u) == Ips(r.active, u);
    }
  }

  lemma SeatsAreFree(r: Round, u: string)
    requires RoundValid(r)
    ensures Seats(r, u) <= Free(r, u) <= Ips(r.active, u)
  {
    FreeWindows(r, u);
  }

  lemma CountsAreExact(l: Ledger, l': Ledger, active: set<Key>, limits: map<string, int>, now: nat, u: string)
    requires Planned(l, l', active, limits, now) && u in limits && limits[u] > 0
    ensures var n := |Ips(active, u)|;
            (if u in l'.counts then l'.counts[u] else 0) == if n < limits[u] then n else limits[u]
  {
    hide HoldersAfter, CutTo, BansAfter, Seats, Ips;
    SeatsAreFilled(RoundOf(l, active, limits, now), u);
  }

  /** A plan is determined by what came before and what was reported: whatever order the maps were gone
      through, the same seats, records, bans and lists come out. */
  lemma PlanIsDetermined(l: Ledger, a: Ledger, b: Ledger, active: set<Key>, limits: map<string, int>, now: nat)
    requires Planned(l, a, active, limits, now) && Planned(l, b, active, limits, now)
    ensures a == b
  {
    hide HoldersAfter, BansAfter, CutTo, SeatCounts, Seats, SeatList, RoundOf;
    var r := RoundOf(l, active, limits, now);
    CutIsDetermined(a.bans, b.bans, BansAfter(r, limits.Keys));
    forall u | u in a.lists
      ensures u in b.lists && a.lists[u] == b.lists[u]
    {
      SeatListIsDetermined(r, u, a.lists[u], b.lists[u]);
    }
    assert a.lists.Keys == b.lists.Keys;
    assert a.lists == b.lists;
  }

  lemma SeatListIsDetermined(r: Round, u: string, x: seq<Addr>, y: seq<Addr>)
    requires RoundValid(r) && SeatList(r, u, x) && SeatList(r, u, y)
    ensures x == y
  {
    hide Seats, Ips, Out;
    RankingIsUnique(Windows(r, u, Free(r, u)), x, y);
  }

  lemma RankingIsUnique(w: map<Addr, Window>, x: seq<Addr>, y: seq<Addr>)
    requires Ranked(map[], w, x) && Ranked(map[], w, y) && Elements(x) == Elements(y)
    ensures x == y
  {
    RankedCount(map[], w, x, 0);
    RankedCount(map[], w, y, 0);
    forall i | 0 <= i < |x|
      ensures x[i] == y[i]
    {
      assert x[i] in Elements(y);
      var j :| 0 <= j < |y| && y[j] == x[i];
      RankIsPosition(map[], w, x, i);
      RankIsPosition(map[], w, y, j);
    }
  }

  predicate Disjoint(holders: Spans, bans: Untils) {
    forall k :: k in holders ==> k !in bans
  }

  /** A seat is never held by a banned identity, nor a ban by a holder. */
  lemma PlanKeepsDisjoint(l: Ledger, l': Ledger, active: set<Key>, limits: map<string, int>, now: nat)
    requires Planned(l, l', active, limits, now) && Disjoint(l.holders, l.bans)
    ensures Disjoint(l'.holders, l'.bans) && |l'.bans| <= BanMaxSize
  {
    hide Seats, Cleared, Ips, RoundOf;
    var r := RoundOf(l, active, limits, now);
    InactiveHoldersAreNotBanned(l, active, limits, now);
    forall k | k in l'.holders
      ensures k !in l'.bans
    {
      assert k in r.holders && !(k.user in limits && Unseated(r, k));
      if k in r.bans {
        RunningAreLimited(l, active, limits, now, k);
      }
      HolderNotBanned(r, limits.Keys, k);
    }
  }

  lemma RunningAreLimited(l: Ledger, active: set<Key>, limits: map<string, int>, now: nat, k: Key)
    requires k in RoundOf(l, active, limits, now).bans
    ensures k.user in limits
  {
  }

  lemma InactiveHoldersAreNotBanned(l: Ledger, active: set<Key>, limits: map<string, int>, now: nat)
    requires Disjoint(l.holders, l.bans)
    ensures var r := RoundOf(l, active, limits, now);
            r.active == active && r.limits == limits && forall k :: k in r.holders && k !in r.active ==> k !in r.bans
  {
  }

  lemma HolderNotBanned(r: Round, done: set<string>, k: Key)
    requires RoundValid(r) && k in r.holders && !(k.user in done && Unseated(r, k))
    requires k in r.bans ==> k in r.active && k.user in done
    ensures k !in BansAfter(r, done)
  {
    hide Cleared, AdmittedSet;
    SeatsAreFree(r, k.user);
    if k.user in done && k in r.active {
      assert k.ip in Seats(r, k.user);
      assert k.ip !in Out(r, k.user);
    }
    IpsAre(r.bans.Keys, k);
  }

  predicate SeenBefore(holders: Spans, now: nat) {
    forall k :: k in holders ==> holders[k].firstSeen < now
  }

  /** First come, first served, across scans: an active holder that loses its slot loses it to identities
      that were holders before it; never to a newcomer, never to one that had been banned. */
  lemma OnlyElderHoldersDisplace(l: Ledger, l': Ledger, active: set<Key>, limits: map<string, int>, now: nat, k: Key, winner: Key)
    requires Planned(l, l', active, limits, now) && Disjoint(l.holders, l.bans) && SeenBefore(l.holders, now)
    requires k in l.holders && k in active && k.user in limits && k !in l'.holders
    requires winner in active && winner.user == k.user && winner in l'.holders
    ensures winner in l.holders && l.holders[winner].firstSeen <= l.holders[k].firstSeen && winner !in l.bans
  {
    hide Planned;
    var r := RoundOf(l, active, limits, now);
    Struck(l, l', active, limits, now, k);
    Struck(l, l', active, limits, now, winner);
    HolderIsFree(l, active, limits, now, k);
    SeatedComesFirst(r, k.user, k.ip, winner.ip);
    assert winner == Key(k.user, winner.ip) && k == Key(k.user, k.ip);
  }

  lemma Struck(l: Ledger, l': Ledger, active: set<Key>, limits: map<string, int>, now: nat, k: Key)
    requires Planned(l, l', active, limits, now) && k in active && k.user in limits
    ensures k in l'.holders <==> k.ip in Seats(RoundOf(l, active, limits, now), k.user)
  {
    hide Seats, CutTo, BansAfter;
  }

  lemma HolderIsFree(l: Ledger, active: set<Key>, limits: map<string, int>, now: nat, k: Key)
    requires Disjoint(l.holders, l.bans) && k in l.holders && k in active
    ensures k.ip in Free(RoundOf(l, active, limits, now), k.user)
  {
    hide Cleared;
    var r := RoundOf(l, active, limits, now);
    IpsAre(r.bans.Keys, k);
  }

  lemma SeatedComesFirst(r: Round, u: string, loser: Addr, winner: Addr)
    requires RoundValid(r) && loser in Free(r, u) && loser !in Seats(r, u) && winner in Seats(r, u)
    ensures Key(u, loser) in r.active && Key(u, winner) in r.active
    ensures r.holders[Key(u, winner)].firstSeen <= r.holders[Key(u, loser)].firstSeen
  {
    hide Out, Cleared;
    SeatsAreFree(r, u);
    var w := Windows(r, u, Free(r, u));
    FreeWindows(r, u);
    if Before(map[], w, loser, winner) {
      assert Ahead(map[], w, Free(r, u), loser) <= Ahead(map[], w, Free(r, u), winner);
      Smaller(Ahead(map[], w, Free(r, u), loser), Ahead(map[], w, Free(r, u), winner));
    }
  }

  /** Who is not active keeps its record, untouched, for exactly as long as the memory lasts. */
  lemma AbsentKeepsItsPlace(l: Ledger, l': Ledger, active: set<Key>, limits: map<string, int>, now: nat, k: Key)
    requires Planned(l, l', active, limits, now) && k !in active
    ensures k in l'.holders <==> k in l.holders && now - l.holders[k].lastSeen <= HoldMemory
    ensures k in l'.holders ==> l'.holders[k] == l.holders[k]
  {
    hide CutTo, BansAfter, SeatCounts, Seats;
  }

  /** A ban lasts, with its time unchanged, as long as the client has enough other identities to fill its limit;
      when it has too few, none of its bans stays. */
  lemma BanLastsWhileFull(l: Ledger, l': Ledger, active: set<Key>, limits: map<string, int>, now: nat, k: Key)
    requires Planned(l, l', active, limits, now) && k in l.bans && now < l.bans[k] && k.user in limits && limits[k.user] > 0
    ensures var r := RoundOf(l, active, limits, now);
            |BansAfter(r, limits.Keys)| <= BanMaxSize && |Ips(active, k.user) - Ips(r.bans.Keys, k.user)| >= limits[k.user] ==>
            k in l'.bans && l'.bans[k] == l.bans[k]
    ensures var r := RoundOf(l, active, limits, now);
            |Ips(active, k.user) - Ips(r.bans.Keys, k.user)| < limits[k.user] && k in l'.bans ==>
            k in active && l'.bans[k] == now + ClusterBanTTL
  {
    hide HoldersAfter, SeatCounts, SeatLists, Seats, Ips, CutTo, BansAfter;
    var r := RoundOf(l, active, limits, now);
    assert k in r.bans && r.bans[k] == l.bans[k];
    CutMeans(l'.bans, BansAfter(r, limits.Keys), k);
    RunningBan(r, limits.Keys, k);
  }

  lemma CutMeans(small: Untils, big: Untils, k: Key)
    requires CutTo(small, big)
    ensures |big| <= BanMaxSize ==> small == big
    ensures k in small ==> k in big && small[k] == big[k]
  {
  }

  lemma RunningBan(r: Round, done: set<string>, k: Key)
    requires RoundValid(r) && k in r.bans && k.user in done
    ensures !Cleared(r, k.user) ==> k in BansAfter(r, done) && BansAfter(r, done)[k] == r.bans[k]
    ensures Cleared(r, k.user) && k in BansAfter(r, done) ==> k in r.active && BansAfter(r, done)[k] == r.now + ClusterBanTTL
  {
    hide Seats, Ips, Cleared;
    IpsAre(r.bans.Keys, k);
  }

  // ---------- over many scans ----------

  datatype Scanning = Plan(active: set<Key>, limits: map<string, int>, now: nat) | Unreadable | NothingToDo

  /** A plan, an attempt that changed no holder or ban, or the reset when there is no node or no limit. */
  ghost predicate Turn(l: Ledger, s: Scanning, l': Ledger) {
    match s
    case Plan(active, limits, now) => Planned(l, l', active, limits, now)
    case Unreadable => l' == l.(counts := l'.counts, lists := l'.lists)
    case NothingToDo => l' == EMPTY
  }

  ghost predicate Turns(ls: seq<Ledger>, ss: seq<Scanning>) {
    |ls| == |ss| + 1 && forall i :: 0 <= i < |ss| ==> Turn(ls[i], ss[i], ls[i + 1])
  }

  /** The time of the last plan; before the first there is none. */
  function LatestPlan(ss: seq<Scanning>): int {
    if ss == [] then -1
    else if ss[|ss| - 1].Plan? then ss[|ss| - 1].now
    else LatestPlan(ss[..|ss| - 1])
  }

  predicate Increasing(ss: seq<Scanning>) {
    forall i :: 0 <= i < |ss| && ss[i].Plan? ==> LatestPlan(ss[..i]) < ss[i].now
  }

  predicate SeenBy(holders: Spans, t: int) {
    forall k :: k in holders ==> holders[k].firstSeen <= t
  }

  /** In every reachable ledger holders and bans are disjoint, the bans fit, and no record is younger than
      the last plan. */
  lemma {:induction false} TurnsStayFine(ls: seq<Ledger>, ss: seq<Scanning>)
    requires Turns(ls, ss) && Increasing(ss) && ls[0] == EMPTY
    ensures var l := ls[|ss|];
            Disjoint(l.holders, l.bans) && |l.bans| <= BanMaxSize && SeenBy(l.holders, LatestPlan(ss))
    decreases |ss|
  {
    hide Planned, Disjoint, SeenBy;
    if ss == [] {
      NothingHeld();
    } else {
      var n := |ss| - 1;
      Prefix(ls, ss, n);
      TurnsStayFine(ls[..n + 1], ss[..n]);
      TurnStaysFine(ls[n], ss[n], ls[n + 1], LatestPlan(ss[..n]));
    }
  }

  lemma NothingHeld()
    ensures Disjoint(map[], map[]) && forall t :: SeenBy(map[], t)
  {
  }

  lemma Prefix(ls: seq<Ledger>, ss: seq<Scanning>, n: nat)
    requires Turns(ls, ss) && Increasing(ss) && n < |ss|
    ensures Turns(ls[..n + 1], ss[..n]) && Increasing(ss[..n]) && ls[..n + 1][0] == ls[0]
    ensures Turn(ls[n], ss[n], ls[n + 1]) && (ss[n].Plan? ==> LatestPlan(ss[..n]) < ss[n].now)
  {
    hide Turn, LatestPlan;
    assert forall i :: 0 <= i < n ==> ss[..n][..i] == ss[..i];
  }

  lemma TurnStaysFine(l: Ledger, s: Scanning, l': Ledger, last: int)
    requires Turn(l, s, l') && Disjoint(l.holders, l.bans) && |l.bans| <= BanMaxSize && SeenBy(l.holders, last)
    requires s.Plan? ==> last < s.now
    ensures Disjoint(l'.holders, l'.bans) && |l'.bans| <= BanMaxSize
    ensures SeenBy(l'.holders, if s.Plan? then s.now else last)
  {
    hide Planned;
    if s.Plan? {
      PlanKeepsDisjoint(l, l', s.active, s.limits, s.now);
      PlanStamps(l, l', s.active, s.limits, s.now);
    }
  }

  lemma PlanStamps(l: Ledger, l': Ledger, active: set<Key>, limits: map<string, int>, now: nat)
    requires Planned(l, l', active, limits, now) && SeenBy(l.holders, now)
    ensures SeenBy(l'.holders, now)
  {
    hide CutTo, BansAfter, Unseated;
  }

  /** In every run whose scan times increase, at every plan: whoever takes an active holder's slot was a
      holder before it and not banned. */
  lemma FirstComeFirstServed(ls: seq<Ledger>, ss: seq<Scanning>, n: nat, k: Key, winner: Key)
    requires Turns(ls, ss) && Increasing(ss) && ls[0] == EMPTY
    requires n < |ss| && ss[n].Plan? && k.user in ss[n].limits
    requires k in ss[n].active && k in ls[n].holders && k !in ls[n + 1].holders
    requires winner in ss[n].active && winner.user == k.user && winner in ls[n + 1].holders
    ensures winner in ls[n].holders && ls[n].holders[winner].firstSeen <= ls[n].holders[k].firstSeen && winner !in ls[n].bans
  {
    hide Planned, Increasing, Disjoint;
    Prefix(ls, ss, n);
    TurnsStayFine(ls[..n + 1], ss[..n]);
    assert ls[..n + 1][n] == ls[n];
    assert SeenBefore(ls[n].holders, ss[n].now);
    OnlyElderHoldersDisplace(ls[n], ls[n + 1], ss[n].active, ss[n].limits, ss[n].now, k, winner);
  }

  // ---------- what the history says ----------

  predicate Reports(s: Scanning, k: Key) {
    s.Plan? && k in s.active
  }

  /** When the identity was first reported since the last reset, or -1. */
  function FirstReport(ss: seq<Scanning>, k: Key): int {
    if ss == [] then -1
    else
      var last, first := ss[|ss| - 1], FirstReport(ss[..|ss| - 1], k);
      if last.NothingToDo? then -1 else if first == -1 && Reports(last, k) then last.now else first
  }

  function LastReport(ss: seq<Scanning>, k: Key): int {
    if ss == [] then -1
    else
      var last := ss[|ss| - 1];
      if last.NothingToDo? then -1 else if Reports(last, k) then last.now else LastReport(ss[..|ss| - 1], k)
  }

  /** Whenever it is reported it gets a seat. */
  ghost predicate NeverStruck(ls: seq<Ledger>, ss: seq<Scanning>, k: Key)
    requires |ls| == |ss| + 1
  {
    forall i :: 0 <= i < |ss| && Reports(ss[i], k) && k.user in ss[i].limits ==>
      k.ip in Seats(RoundOf(ls[i], ss[i].active, ss[i].limits, ss[i].now), k.user)
  }

  /** Every plan that does not report it comes within the memory of the last one that did. */
  predicate GapsFit(ss: seq<Scanning>, k: Key) {
    forall i :: 0 <= i < |ss| && ss[i].Plan? && !Reports(ss[i], k) && FirstReport(ss[..i], k) != -1 ==>
      ss[i].now - LastReport(ss[..i], k) <= HoldMemory
  }

  /** What one plan does to a record: seen with a seat it is renewed, its first time kept. */
  lemma PlanRenews(l: Ledger, l': Ledger, active: set<Key>, limits: map<string, int>, now: nat, k: Key)
    requires Planned(l, l', active, limits, now) && k in active
    requires k.user in limits ==> k.ip in Seats(RoundOf(l, active, limits, now), k.user)
    ensures k in l'.holders && l'.holders[k] == Span(if k in l.holders then l.holders[k].firstSeen else now, now)
  {
    hide CutTo, BansAfter, SeatCounts, SeatLists, Seats;
  }

  /** Over any run of plans, failed attempts and resets, an identity that is never struck and never out of sight for
      longer than the memory is on record from its first report to its last, with exactly those two times; one
      that was never reported has no record. */
  lemma {:induction false} RecordIsHistory(ls: seq<Ledger>, ss: seq<Scanning>, k: Key)
    requires Turns(ls, ss) && ls[0] == EMPTY && NeverStruck(ls, ss, k) && GapsFit(ss, k)
    ensures var first, last := FirstReport(ss, k), LastReport(ss, k);
            && (first == -1 <==> last == -1)
            && (first == -1 ==> k !in ls[|ss|].holders)
            && (first != -1 ==> first >= 0 && last >= 0 && k in ls[|ss|].holders && ls[|ss|].holders[k] == Span(first, last))
    decreases |ss|
  {
    hide Planned, Seats;
    if ss != [] {
      var n := |ss| - 1;
      var front := ss[..n];
      HistoryPrefix(ls, ss, k);
      RecordIsHistory(ls[..n + 1], front, k);
      assert Turn(ls[n], ss[n], ls[n + 1]);
      if ss[n].Plan? {
        if k in ss[n].active {
          PlanRenews(ls[n], ls[n + 1], ss[n].active, ss[n].limits, ss[n].now, k);
        } else {
          AbsentKeepsItsPlace(ls[n], ls[n + 1], ss[n].active, ss[n].limits, ss[n].now, k);
        }
      }
    }
  }

  lemma HistoryPrefix(ls: seq<Ledger>, ss: seq<Scanning>, k: Key)
    requires Turns(ls, ss) && NeverStruck(ls, ss, k) && GapsFit(ss, k) && ss != []
    ensures var n := |ss| - 1;
            Turns(ls[..n + 1], ss[..n]) && NeverStruck(ls[..n + 1], ss[..n], k) && GapsFit(ss[..n], k) && ls[..n + 1][0] == ls[0]
  {
    hide Turn, Seats, RoundOf, FirstReport, LastReport, Reports;
    var n := |ss| - 1;
    assert forall i :: 0 <= i < n ==> ss[..n][i] == ss[i] && ss[..n][..i] == ss[..i] && ls[..n + 1][i] == ls[i];
  }

  /** Whoever is active without a seat is banned: for the full time if it was free, for the rest of it if not. */
  lemma LosersAreBanned(l: Ledger, l': Ledger, active: set<Key>, limits: map<string, int>, now: nat, k: Key)
    requires Planned(l, l', active, limits, now) && k in active && k.user in limits && k !in l'.holders
    ensures var r := RoundOf(l, active, limits, now);
            && (|BansAfter(r, limits.Keys)| <= BanMaxSize ==> k in l'.bans)
            && (k in l'.bans ==> l'.bans[k] == if k in r.bans && !Cleared(r, k.user) then l.bans[k] else now + ClusterBanTTL)
  {
    hide HoldersAfter, SeatCounts, SeatLists, Seats, Ips, CutTo, Cleared;
    var r := RoundOf(l, active, limits, now);
    Struck(l, l', active, limits, now, k);
    CutMeans(l'.bans, BansAfter(r, limits.Keys), k);
  }

  /** No ban outlives its time or its client's limit. */
  lemma NoStaleBans(l: Ledger, l': Ledger, active: set<Key>, limits: map<string, int>, now: nat, k: Key)
    requires Planned(l, l', active, limits, now) && k in l'.bans && (forall x :: x in active ==> LimitOf(limits, x.user) > 0)
    ensures now < l'.bans[k] && LimitOf(limits, k.user) > 0
    ensures (k in l.bans && l'.bans[k] == l.bans[k]) || (k in active && l'.bans[k] == now + ClusterBanTTL)
  {
    hide HoldersAfter, SeatCounts, SeatLists, Seats, CutTo, Cleared;
    var r := RoundOf(l, active, limits, now);
    CutMeans(l'.bans, BansAfter(r, limits.Keys), k);
    IpsAre(r.bans.Keys, k);
  }

  /** Every address reported for a limited client is active, and nothing else is. */
  lemma ReportedIsActive(reports: map<string, seq<Report>>, limits: map<string, int>, u: string, s: Source)
    ensures (u in reports && u in limits && limits[u] > 0 && Address(s) in reports[u]) ==> Key(u, IdentityOf(s)) in ActiveKeys(reports, limits)
    ensures forall k :: k in ActiveKeys(reports, limits) ==>
              k.user in reports && k.user in limits && limits[k.user] > 0 && exists a :: Address(a) in reports[k.user] && IdentityOf(a) == k.ip
  {
    hide IdentityOf;
    if u in reports && u in limits && limits[u] > 0 && Address(s) in reports[u] {
      var i :| 0 <= i < |reports[u]| && reports[u][i] == Address(s);
      assert reports[u][i].Address? && Key(u, IdentityOf(reports[u][i].source)) == Key(u, IdentityOf(s));
    }
    forall k | k in ActiveKeys(reports, limits)
      ensures k.user in reports && k.user in limits && limits[k.user] > 0 && exists a :: Address(a) in reports[k.user] && IdentityOf(a) == k.ip
    {
      var x, i :| x in reports && LimitOf(limits, x) > 0 && 0 <= i < |reports[x]| && reports[x][i].Address? && k == Key(x, IdentityOf(reports[x][i].source));
      assert Address(reports[x][i].source) in reports[x];
    }
  }

  // ---------- the master's plan ----------

  /** Who is free among the first j of a ranking. */
  function FreeBefore(ranked: seq<Addr>, banned: set<Addr>, j: nat): set<Addr>
    requires j <= |ranked|
  {
    set i | 0 <= i < j && ranked[i] !in banned :: ranked[i]
  }

  /** Who of the first n gets a seat, going down the ranking. */
  function SeatedOf(ranked: seq<Addr>, banned: set<Addr>, limit: int, n: nat): set<Addr>
    requires n <= |ranked|
  {
    set j | 0 <= j < n && ranked[j] !in banned && |FreeBefore(ranked, banned, j)| < limit :: ranked[j]
  }

  predicate Distinct(s: seq<Addr>) {
    forall i, j :: 0 <= i < j < |s| ==> s[i] != s[j]
  }

  function Without(holders: Spans, u: string, ips: set<Addr>): Spans {
    map k | k in holders && !(k.user == u && k.ip in ips) :: holders[k]
  }

  function Raised(bans: Untils, u: string, ips: set<Addr>, t: nat): Untils {
    map k | k in bans.Keys + KeysOf(u, ips) :: if k.user == u && k.ip in ips then t else bans[k]
  }

  function Others(bans: Untils, u: string): Untils {
    map k | k in bans && k.user != u :: bans[k]
  }

  lemma OneDown(ranked: seq<Addr>, banned: set<Addr>, limit: int, i: nat)
    requires i < |ranked| && Distinct(ranked)
    ensures var seat := ranked[i] !in banned && |FreeBefore(ranked, banned, i)| < limit;
            && SeatedOf(ranked, banned, limit, i + 1) == SeatedOf(ranked, banned, limit, i) + (if seat then {ranked[i]} else {})
            && FreeBefore(ranked, banned, i + 1) == FreeBefore(ranked, banned, i) + (if ranked[i] !in banned then {ranked[i]} else {})
    ensures ranked[i] !in SeatedOf(ranked, banned, limit, i) && ranked[i] !in FreeBefore(ranked, banned, i)
    ensures Elements(ranked[..i + 1]) == Elements(ranked[..i]) + {ranked[i]} && ranked[i] !in Elements(ranked[..i])
  {
    InsertElements(ranked[..i], i, ranked[i]);
    assert ranked[..i][..i] + [ranked[i]] + ranked[..i][i..] == ranked[..i + 1];
  }

  /** Going down the ranking and counting is taking the first `limit` free ones. */
  lemma SeatedAreSeats(r: Round, u: string, ranked: seq<Addr>)
    requires RoundValid(r) && Ranked(map[], Windows(r, u, Ips(r.active, u)), ranked) && Elements(ranked) == Ips(r.active, u)
    ensures SeatedOf(ranked, Out(r, u), LimitOf(r.limits, u), |ranked|) == Seats(r, u)
  {
    hide Out, Ips;
    var out, limit := Out(r, u), LimitOf(r.limits, u);
    var w, all := Windows(r, u, Free(r, u)), Windows(r, u, Ips(r.active, u));
    FreeWindows(r, u);
    SeatsAreFree(r, u);
    forall j | 0 <= j < |ranked|
      ensures ranked[j] in Free(r, u) <==> ranked[j] !in out
      ensures ranked[j] in Free(r, u) ==> FreeBefore(ranked, out, j) == Ahead(map[], w, Free(r, u), ranked[j])
    {
      assert ranked[j] in Elements(ranked);
      if ranked[j] in Free(r, u) {
        FreeIsAhead(all, w, ranked, out, Free(r, u), j);
      }
    }
    forall a
      ensures a in SeatedOf(ranked, out, limit, |ranked|) <==> a in Seats(r, u)
    {
      if a in Seats(r, u) {
        assert a in Elements(ranked);
        var j :| 0 <= j < |ranked| && ranked[j] == a;
      }
    }
  }

  lemma FreeIsAhead(all: map<Addr, Window>, w: map<Addr, Window>, ranked: seq<Addr>, out: set<Addr>, free: set<Addr>, j: nat)
    requires Ranked(map[], all, ranked) && Elements(ranked) == all.Keys && j < |ranked| && ranked[j] in free
    requires free == w.Keys == all.Keys - out && forall a :: a in w ==> w[a] == all[a]
    ensures FreeBefore(ranked, out, j) == Ahead(map[], w, free, ranked[j])
  {
    assert forall i :: j < i < |ranked| ==> Before(map[], all, ranked[j], ranked[i]);
    forall a
      ensures a in FreeBefore(ranked, out, j) <==> a in Ahead(map[], w, free, ranked[j])
    {
      if a in Ahead(map[], w, free, ranked[j]) {
        assert a in Elements(ranked);
        var i :| 0 <= i < |ranked| && ranked[i] == a;
      }
      if a in FreeBefore(ranked, out, j) {
        var i :| 0 <= i < j && ranked[i] == a;
        assert Before(map[], all, ranked[i], ranked[j]);
        assert ranked[i] in Elements(ranked);
      }
    }
  }

  lemma HoldersStep(r: Round, done: set<string>, u: string)
    requires RoundValid(r) && u !in done
    ensures HoldersAfter(r, done + {u}) == Without(HoldersAfter(r, done), u, Ips(r.active, u) - Seats(r, u))
  {
    hide Seats;
    forall k: Key
      ensures k in r.active <==> k.ip in Ips(r.active, k.user)
    {
      IpsAre(r.active, k);
    }
  }

  lemma BansStep(r: Round, done: set<string>, u: string)
    requires RoundValid(r) && u !in done
    ensures var bans := BansAfter(r, done);
            BansAfter(r, done + {u}) ==
            Raised(if Cleared(r, u) then Others(bans, u) else bans, u, Ips(r.active, u) - Seats(r, u) - Out(r, u), r.now + ClusterBanTTL)
  {
    hide Seats, Cleared, Out, BansAfter, Raised, Others, Ips;
    var was, now := BansAfter(r, done), BansAfter(r, done + {u});
    var next := Raised(if Cleared(r, u) then Others(was, u) else was, u, Ips(r.active, u) - Seats(r, u) - Out(r, u), r.now + ClusterBanTTL);
    forall k: Key
      ensures k in now <==> k in next
      ensures k in now ==> now[k] == next[k]
    {
      BansStepAt(r, done, u, k);
    }
  }

  lemma BansStepAt(r: Round, done: set<string>, u: string, k: Key)
    requires RoundValid(r) && u !in done
    ensures var was, now := BansAfter(r, done), BansAfter(r, done + {u});
            var next := Raised(if Cleared(r, u) then Others(was, u) else was, u, Ips(r.active, u) - Seats(r, u) - Out(r, u), r.now + ClusterBanTTL);
            (k in now <==> k in next) && (k in now ==> now[k] == next[k])
  {
    hide Seats, Cleared, Ips;
    IpsAre(r.active, k);
    IpsAre(r.bans.Keys, k);
    SeatsAreFree(r, k.user);
    KeysOfHas(u, Ips(r.active, u) - Seats(r, u) - Out(r, u), k);
  }

  lemma KeysOfHas(u: string, ips: set<Addr>, k: Key)
    ensures k in KeysOf(u, ips) <==> k.user == u && k.ip in ips
  {
    assert k == Key(k.user, k.ip);
  }

  lemma BannedNow(r: Round, done: set<string>, u: string)
    requires RoundValid(r) && u !in done
    ensures Ips(BansAfter(r, done).Keys, u) == Ips(r.bans.Keys, u)
    ensures forall k :: k in r.active && k.user == u ==> k in HoldersAfter(r, done) && HoldersAfter(r, done)[k] == r.holders[k]
  {
    hide Seats, Cleared;
  }

  class Master {
    var holders: Spans
    var bans: Untils
    var counts: map<string, nat>
    var lists: map<string, seq<Addr>>

    ghost function State(): Ledger
      reads this
    {
      Ledger(holders, bans, counts, lists)
    }

    constructor ()
      ensures State() == EMPTY
    {
      holders, bans, counts, lists := map[], map[], map[], map[];
    }

    method ReadUser(user: string, reports: seq<Report>) returns (ok: bool, active: set<Key>)
      ensures ok <==> forall i :: 0 <= i < |reports| ==> reports[i].Address?
      ensures ok ==> active == UserKeys(user, reports)
    {
      ok, active := true, {};
      var i := 0;
      while i < |reports|
        invariant 0 <= i <= |reports|
        invariant forall j :: 0 <= j < i ==> reports[j].Address?
        invariant active == UserKeys(user, reports[..i])
      {
        OneMoreReport(user, reports, i);
        if reports[i].Garbage? {
          return false, {};
        }
        active := active + {Key(user, IdentityOf(reports[i].source))};
        i := i + 1;
      }
      assert reports[..i] == reports;
    }

    method ReadActive(reports: map<string, seq<Report>>, limits: map<string, int>) returns (ok: bool, active: set<Key>)
      ensures ok <==> Readable(reports, limits)
      ensures ok ==> active == ActiveKeys(reports, limits)
    {
      ok, active := true, {};
      var todo := reports.Keys;
      ghost var read: map<string, seq<Report>> := map[];
      while todo != {}
        invariant todo <= reports.Keys
        invariant read == map u | u in reports && u !in todo :: reports[u]
        invariant Readable(read, limits) && active == ActiveKeys(read, limits)
        decreases todo
      {
        var user :| user in todo;
        ghost var was := read;
        read := read[user := reports[user]];
        if LimitOf(limits, user) > 0 {
          var fine, keys := ReadUser(user, reports[user]);
          if !fine {
            return false, {};
          }
          ReadMore(was, limits, user, reports[user], keys);
          active := active + keys;
        } else {
          SkipUser(was, limits, user, reports[user]);
        }
        todo := todo - {user};
      }
      assert read == reports;
    }

    method Forget(active: set<Key>, now: nat)
      modifies this`holders
      ensures holders == Remembering(old(holders), active, now)
    {
      var todo := holders.Keys;
      while todo != {}
        invariant todo <= holders.Keys <= old(holders).Keys
        invariant forall k :: k in holders ==> holders[k] == old(holders)[k]
        invariant forall k :: k in old(holders) && k !in todo ==> (k in holders <==> k in Remembering(old(holders), active, now))
        decreases todo
      {
        var k :| k in todo;
        if k !in active && now - holders[k].lastSeen > HoldMemory {
          holders := holders - {k};
        }
        todo := todo - {k};
      }
    }

    method Stamp(active: set<Key>, now: nat)
      modifies this`holders
      ensures holders == Stamped(old(holders), active, now)
    {
      var todo := active;
      while todo != {}
        invariant todo <= active
        invariant holders.Keys == old(holders).Keys + (active - todo)
        invariant forall k :: k in holders ==>
                    holders[k] == if k in active && k !in todo then Stamped(old(holders), active, now)[k] else old(holders)[k]
        decreases todo
      {
        var k :| k in todo;
        holders := holders[k := Span(if k in holders then holders[k].firstSeen else now, now)];
        todo := todo - {k};
      }
    }

    method Expire(limits: map<string, int>, now: nat)
      modifies this`bans
      ensures bans == Running(old(bans), limits, now)
    {
      var todo := bans.Keys;
      while todo != {}
        invariant todo <= bans.Keys && Subset(bans, old(bans))
        invariant forall k :: k in old(bans) && k !in todo ==> (k in bans <==> k in Running(old(bans), limits, now))
        decreases todo
      {
        var k :| k in todo;
        if LimitOf(limits, k.user) <= 0 || bans[k] <= now {
          bans := bans - {k};
        }
        todo := todo - {k};
      }
      assert bans.Keys == Running(old(bans), limits, now).Keys;
    }

    method ClearBans(user: string)
      modifies this`bans
      ensures bans == Others(old(bans), user)
    {
      var todo := bans.Keys;
      while todo != {}
        invariant todo <= bans.Keys && Subset(bans, old(bans))
        invariant forall k :: k in old(bans) && k !in todo ==> (k in bans <==> k.user != user)
        decreases todo
      {
        var k :| k in todo;
        if k.user == user {
          bans := bans - {k};
        }
        todo := todo - {k};
      }
    }

    /** Down the ranking: the banned are struck, the free take seats while there are any, the rest are banned. */
    method TakeSeats(user: string, ranked: seq<Addr>, limit: int, t: nat) returns (n: nat, list: seq<Addr>)
      requires Distinct(ranked)
      modifies this`holders, this`bans
      ensures var banned := Ips(old(bans).Keys, user);
              var seated := SeatedOf(ranked, banned, limit, |ranked|);
              && n == |seated| && list == SeatedList(ranked, banned, limit, |ranked|)
              && holders == Without(old(holders), user, Elements(ranked) - seated)
              && bans == Raised(old(bans), user, Elements(ranked) - seated - banned, t)
    {
      hide Ips, SeatedOf, Without, Raised, Elements, Midway;
      n, list := 0, [];
      var i := 0;
      NoneSeated(ranked, limit, holders, bans, user, t);
      while i < |ranked|
        invariant 0 <= i <= |ranked|
        invariant Midway(old(holders), old(bans), holders, bans, user, ranked, limit, t, i, n)
        invariant list == SeatedList(ranked, Ips(old(bans).Keys, user), limit, i)
      {
        var key := Key(user, ranked[i]);
        SeatTest(old(holders), old(bans), holders, bans, user, ranked, limit, t, i, n);
        MidwayOn(old(holders), old(bans), holders, bans, user, ranked, limit, t, i, n);
        if key in bans {
          holders := holders - {key};
        } else if n >= limit {
          bans := bans[key := t];
          holders := holders - {key};
        } else {
          n, list := n + 1, list + [ranked[i]];
        }
        i := i + 1;
      }
      AllTheWay(old(holders), old(bans), holders, bans, user, ranked, limit, t, n);
    }

    /** One client's turn. */
    method SeatClient(user: string, active: set<Key>, limit: int, now: nat, ghost r: Round, ghost done: set<string>) returns (n: nat, list: seq<Addr>)
      requires RoundValid(r) && user !in done && active == r.active && limit == LimitOf(r.limits, user) && now == r.now
      requires holders == HoldersAfter(r, done) && bans == BansAfter(r, done)
      modifies this`holders, this`bans
      ensures n == |Seats(r, user)| && SeatList(r, user, list)
      ensures holders == HoldersAfter(r, done + {user}) && bans == BansAfter(r, done + {user})
    {
      hide *;
      BannedNow(r, done, user);
      var ranked := RankClient(user, active, now, r);
      HoldersStep(r, done, user);
      BansStep(r, done, user);
      SeatedAreSeats(r, user, ranked);
      SeatedListIs(r, user, ranked);
      OutIs(r, user);
      if |Ips(active, user) - Ips(bans.Keys, user)| < limit {
        ClearBans(user);
        NoneLeft(old(bans), user);
      }
      n, list := TakeSeats(user, ranked, limit, now + ClusterBanTTL);
    }

    method Soonest() returns (k: Key)
      requires bans != map[]
      ensures k in bans && forall l :: l in bans && l != k ==> Sooner(bans, k, l)
    {
      hide Sooner;
      k :| k in bans;
      var todo := bans.Keys - {k};
      while todo != {}
        invariant todo <= bans.Keys && k in bans
        invariant forall l :: l in bans && l !in todo && l != k ==> Sooner(bans, k, l)
        decreases todo
      {
        var l :| l in todo;
        forall m | m in bans
          ensures k == l || Sooner(bans, k, l) || Sooner(bans, l, k)
          ensures Sooner(bans, l, k) && Sooner(bans, k, m) ==> Sooner(bans, l, m)
        {
          SoonerIsOrder(bans, k, l, m);
          SoonerIsOrder(bans, l, k, m);
        }
        if Sooner(bans, l, k) {
          k := l;
        }
        todo := todo - {l};
      }
    }

    method Cut()
      modifies this`bans
      ensures CutTo(bans, old(bans))
    {
      while |bans| > BanMaxSize
        invariant Subset(bans, old(bans))
        invariant bans == old(bans) || (|bans| >= BanMaxSize && |old(bans)| > BanMaxSize)
        invariant forall k, l :: k in old(bans) && k !in bans && l in bans ==> l in old(bans) && Sooner(old(bans), k, l)
        decreases |bans|
      {
        var k := Soonest();
        forall l | l in bans && l != k
          ensures Sooner(old(bans), k, l)
        {
          assert Sooner(bans, k, l);
        }
        bans := bans - {k};
      }
    }

    /** The plan: seats, records and bans for every client, or nothing at all if a report cannot be read. */
    method PlanLimits(reports: map<string, seq<Report>>, limits: map<string, int>, now: nat, spell: Addr -> string)
      returns (ok: bool, out: map<string, seq<string>>)
      modifies this
      ensures ok <==> Readable(reports, limits)
      ensures !ok ==> State() == old(State())
      ensures ok ==> Planned(old(State()), State(), ActiveKeys(reports, limits), limits, now)
      ensures ok ==> Published(bans.Keys, spell, out)
    {
      hide *;
      out := map[];
      ghost var l := State();
      StateIs();
      var active;
      ok, active := ReadActive(reports, limits);
      if !ok {
        return;
      }
      ghost var r := RoundOf(l, active, limits, now);
      Forget(active, now);
      Stamp(active, now);
      Expire(limits, now);
      RoundIs(l, active, limits, now);
      NoneDone(r);
      var seats: map<string, nat>, shown: map<string, seq<Addr>> := map[], map[];
      var todo := limits.Keys;
      assert limits.Keys - todo == {};
      while todo != {}
        invariant todo <= limits.Keys && RoundValid(r)
        invariant holders == HoldersAfter(r, limits.Keys - todo) && bans == BansAfter(r, limits.Keys - todo)
        invariant seats == SeatCounts(r, limits.Keys - todo) && SeatLists(r, limits.Keys - todo, shown)
        decreases todo
      {
        var user :| user in todo;
        LimitIs(limits, user);
        var n, list := SeatClient(user, active, limits[user], now, r, limits.Keys - todo);
        OneMoreSeated(r, limits.Keys - todo, user);
        OneMoreListed(r, limits.Keys - todo, user, shown, list);
        assert limits.Keys - (todo - {user}) == limits.Keys - todo + {user};
        if n > 0 {
          seats, shown := seats[user := n], shown[user := list];
        }
        todo := todo - {user};
      }
      assert limits.Keys - todo == limits.Keys;
      Cut();
      out := Publish(spell);
      counts, lists := seats, shown;
      StateIs();
      PlanIs(l, State(), active, limits, now);
    }

    /** The bans as they go out to the nodes: for every client its addresses as text, in order. */
    method Publish(spell: Addr -> string) returns (out: map<string, seq<string>>)
      ensures Published(bans.Keys, spell, out)
    {
      hide Spelled, DropsOf;
      out := map[];
      var drops := Group();
      var todo := drops.Keys;
      while todo != {}
        invariant todo <= drops.Keys == DropsOf(bans.Keys).Keys && out.Keys == drops.Keys - todo
        invariant forall u :: u in out ==> Spelled(drops[u], spell, out[u])
        decreases todo
      {
        var u :| u in todo;
        var names := SpellOut(drops[u], spell);
        out := out[u := names];
        todo := todo - {u};
      }
    }

    /** The bans client by client. */
    method Group() returns (out: DropSets)
      ensures out == DropsOf(bans.Keys)
    {
      hide DropsOf;
      out := map[];
      var todo := bans.Keys;
      assert bans.Keys - todo == {};
      NoDrops();
      while todo != {}
        invariant todo <= bans.Keys && out == DropsOf(bans.Keys - todo)
        decreases todo
      {
        var k :| k in todo;
        DropsGrow(bans.Keys - todo, k);
        assert bans.Keys - (todo - {k}) == bans.Keys - todo + {k};
        out := out[k.user := (if k.user in out then out[k.user] else {}) + {k.ip}];
        todo := todo - {k};
      }
      assert bans.Keys - todo == bans.Keys;
    }

    lemma StateIs()
      ensures State() == Ledger(holders, bans, counts, lists)
    {
    }

    method RankClient(user: string, active: set<Key>, now: nat, ghost r: Round) returns (ranked: seq<Addr>)
      requires RoundValid(r) && active == r.active && now == r.now
      requires forall k :: k in r.active && k.user == user ==> k in holders && holders[k] == r.holders[k]
      ensures Distinct(ranked) && Elements(ranked) == Ips(r.active, user) && Ranked(map[], Windows(r, user, Ips(r.active, user)), ranked)
    {
      hide Ips, Elements, Ranked, Distinct;
      var ips := Ips(active, user);
      KeysOfIps(active, user);
      var windows := map a | a in ips :: Window(holders[Key(user, a)].firstSeen, now);
      assert windows == Windows(r, user, ips);
      ranked := RankCandidates(map[], windows, now, 0);
      assert Candidates(windows, now, 0) == ips;
      RankedIsDistinct(windows, ranked);
    }
  }

  function SeatCounts(r: Round, done: set<string>): map<string, nat>
    requires RoundValid(r)
  {
    map u | u in done && Seats(r, u) != {} :: |Seats(r, u)|
  }

  lemma OneMoreSeated(r: Round, done: set<string>, u: string)
    requires RoundValid(r) && u !in done
    ensures SeatCounts(r, done + {u}) == if |Seats(r, u)| > 0 then SeatCounts(r, done)[u := |Seats(r, u)|] else SeatCounts(r, done)
  {
    hide Seats;
  }

  lemma OneMoreListed(r: Round, done: set<string>, u: string, lists: map<string, seq<Addr>>, list: seq<Addr>)
    requires RoundValid(r) && u !in done && SeatLists(r, done, lists) && SeatList(r, u, list)
    ensures SeatLists(r, done + {u}, if |Seats(r, u)| > 0 then lists[u := list] else lists)
  {
    hide Seats, SeatList;
  }

  lemma RoundIs(l: Ledger, active: set<Key>, limits: map<string, int>, now: nat)
    ensures var r := RoundOf(l, active, limits, now);
            && RoundValid(r) && r.active == active && r.limits == limits && r.now == now
            && r.holders == Stamped(Remembering(l.holders, active, now), active, now) && r.bans == Running(l.bans, limits, now)
  {
    hide Stamped, Remembering, Running;
  }

  lemma LimitIs(limits: map<string, int>, u: string)
    requires u in limits
    ensures LimitOf(limits, u) == limits[u]
  {
  }

  lemma NoneDone(r: Round)
    requires RoundValid(r)
    ensures HoldersAfter(r, {}) == r.holders && BansAfter(r, {}) == r.bans && SeatCounts(r, {}) == map[] && SeatLists(r, {}, map[])
  {
    hide Seats, Cleared;
  }

  lemma PlanIs(l: Ledger, l': Ledger, active: set<Key>, limits: map<string, int>, now: nat)
    requires var r := RoundOf(l, active, limits, now);
             && l'.holders == HoldersAfter(r, limits.Keys) && CutTo(l'.bans, BansAfter(r, limits.Keys))
             && l'.counts == SeatCounts(r, limits.Keys) && SeatLists(r, limits.Keys, l'.lists)
    ensures Planned(l, l', active, limits, now)
  {
    hide HoldersAfter, BansAfter, CutTo, Seats, RoundOf, SeatLists;
  }

  lemma OutIs(r: Round, u: string)
    ensures Cleared(r, u) <==> |Ips(r.active, u) - Ips(r.bans.Keys, u)| < LimitOf(r.limits, u)
    ensures Out(r, u) == if Cleared(r, u) then {} else Ips(r.bans.Keys, u)
  {
    hide Ips;
  }

  /** The seated of the first n, in order. */
  function SeatedList(ranked: seq<Addr>, banned: set<Addr>, limit: int, n: nat): seq<Addr>
    requires n <= |ranked|
  {
    if n == 0 then []
    else
      var rest := SeatedList(ranked, banned, limit, n - 1);
      if ranked[n - 1] !in banned && |FreeBefore(ranked, banned, n - 1)| < limit then rest + [ranked[n - 1]] else rest
  }

  lemma SeatTest(h: Spans, b: Untils, h': Spans, b': Untils, u: string, ranked: seq<Addr>, limit: int, t: nat, i: nat, n: nat)
    requires Midway(h, b, h', b', u, ranked, limit, t, i, n) && i < |ranked| && Distinct(ranked)
    ensures Key(u, ranked[i]) !in b' && n < limit <==>
            ranked[i] !in Ips(b.Keys, u) && |FreeBefore(ranked, Ips(b.Keys, u), i)| < limit
  {
    hide Ips, SeatedOf, Without, Raised, Elements, FreeBefore, Distinct;
    var banned := Ips(b.Keys, u);
    OneDown(ranked, banned, limit, i);
    IpsAre(b.Keys, Key(u, ranked[i]));
    RaisedHas(b, u, StruckOf(ranked, banned, limit, i) - banned, t, ranked[i]);
  }

  lemma {:induction false} SeatedListHolds(all: map<Addr, Window>, ranked: seq<Addr>, banned: set<Addr>, limit: int, n: nat)
    requires Ranked(map[], all, ranked) && n <= |ranked|
    ensures var list := SeatedList(ranked, banned, limit, n);
            Elements(list) == SeatedOf(ranked, banned, limit, n) <= Elements(ranked[..n]) && Ranked(map[], all, list)
  {
    hide SeatedOf, Elements, Ranked, FreeBefore, Distinct;
    if n == 0 {
      NothingSeated(all, ranked, banned, limit);
    } else {
      var rest, next := SeatedList(ranked, banned, limit, n - 1), ranked[n - 1];
      SeatedListHolds(all, ranked, banned, limit, n - 1);
      RankedIsDistinct(all, ranked);
      OneDown(ranked, banned, limit, n - 1);
      RankedAppend(all, ranked, rest, n - 1);
      InsertElements(rest, |rest|, next);
      assert rest[..|rest|] + [next] + rest[|rest|..] == rest + [next];
    }
  }

  lemma NothingSeated(all: map<Addr, Window>, ranked: seq<Addr>, banned: set<Addr>, limit: int)
    ensures SeatedOf(ranked, banned, limit, 0) == {} == Elements([]) && Elements(ranked[..0]) == {} && Ranked(map[], all, [])
  {
  }

  lemma RankedAppend(all: map<Addr, Window>, ranked: seq<Addr>, rest: seq<Addr>, i: nat)
    requires Ranked(map[], all, ranked) && Ranked(map[], all, rest) && i < |ranked| && Elements(rest) <= Elements(ranked[..i])
    ensures Ranked(map[], all, rest + [ranked[i]])
  {
    hide Before;
    forall p | 0 <= p < |rest|
      ensures Before(map[], all, rest[p], ranked[i])
    {
      assert rest[p] in Elements(rest);
      var q :| 0 <= q < i && ranked[..i][q] == rest[p];
    }
  }

  lemma SeatedListIs(r: Round, u: string, ranked: seq<Addr>)
    requires RoundValid(r) && Ranked(map[], Windows(r, u, Ips(r.active, u)), ranked) && Elements(ranked) == Ips(r.active, u)
    ensures SeatList(r, u, SeatedList(ranked, Out(r, u), LimitOf(r.limits, u), |ranked|))
  {
    hide Ips, Out, SeatedOf, SeatedList;
    var list := SeatedList(ranked, Out(r, u), LimitOf(r.limits, u), |ranked|);
    SeatedAreSeats(r, u, ranked);
    SeatedListHolds(Windows(r, u, Ips(r.active, u)), ranked, Out(r, u), LimitOf(r.limits, u), |ranked|);
    SeatsAreFree(r, u);
    forall i | 0 <= i < |list|
      ensures list[i] in Free(r, u)
    {
      assert list[i] in Elements(list);
    }
  }

  /** Part way down the ranking, from holders h and bans b. */
  ghost predicate Midway(h: Spans, b: Untils, h': Spans, b': Untils, u: string, ranked: seq<Addr>, limit: int, t: nat, i: nat, n: nat) {
    var banned := Ips(b.Keys, u);
    && i <= |ranked|
    && n == |SeatedOf(ranked, banned, limit, i)| == Least(|FreeBefore(ranked, banned, i)|, limit)
    && h' == Without(h, u, StruckOf(ranked, banned, limit, i))
    && b' == Raised(b, u, StruckOf(ranked, banned, limit, i) - banned, t)
  }

  function Least(f: nat, limit: int): nat {
    if f < limit then f else if limit > 0 then limit else 0
  }

  lemma NoneSeated(ranked: seq<Addr>, limit: int, holders: Spans, bans: Untils, u: string, t: nat)
    ensures Midway(holders, bans, holders, bans, u, ranked, limit, t, 0, 0)
  {
    var banned := Ips(bans.Keys, u);
    assert SeatedOf(ranked, banned, limit, 0) == {} && FreeBefore(ranked, banned, 0) == {} && StruckOf(ranked, banned, limit, 0) == {};
    assert Without(holders, u, {}) == holders && Raised(bans, u, {}, t) == bans;
  }

  lemma AllTheWay(h: Spans, b: Untils, h': Spans, b': Untils, u: string, ranked: seq<Addr>, limit: int, t: nat, n: nat)
    requires Midway(h, b, h', b', u, ranked, limit, t, |ranked|, n)
    ensures var banned := Ips(b.Keys, u);
            var seated := SeatedOf(ranked, banned, limit, |ranked|);
            && n == |seated|
            && h' == Without(h, u, Elements(ranked) - seated)
            && b' == Raised(b, u, Elements(ranked) - seated - banned, t)
  {
    hide Ips, SeatedOf, Without, Raised, Elements, FreeBefore;
    assert ranked[..|ranked|] == ranked;
  }

  lemma MidwayOn(h: Spans, b: Untils, h': Spans, b': Untils, u: string, ranked: seq<Addr>, limit: int, t: nat, i: nat, n: nat)
    requires Midway(h, b, h', b', u, ranked, limit, t, i, n) && i < |ranked| && Distinct(ranked)
    ensures var key := Key(u, ranked[i]);
            if key in b' then Midway(h, b, h' - {key}, b', u, ranked, limit, t, i + 1, n)
            else if n >= limit then Midway(h, b, h' - {key}, b'[key := t], u, ranked, limit, t, i + 1, n)
            else Midway(h, b, h', b', u, ranked, limit, t, i + 1, n + 1)
  {
    hide Ips, StruckOf, SeatedOf, Without, Raised, Elements, FreeBefore, Distinct;
    var banned := Ips(b.Keys, u);
    var struck := StruckOf(ranked, banned, limit, i);
    StruckOn(ranked, banned, limit, i, n);
    IpsAre(b.Keys, Key(u, ranked[i]));
    RaisedHas(b, u, struck - banned, t, ranked[i]);
    StrikeOne(h, u, struck, ranked[i]);
    RaiseOne(b, u, struck - banned, t, ranked[i]);
  }

  /** Who of the first i is active and gets no seat. */
  function StruckOf(ranked: seq<Addr>, banned: set<Addr>, limit: int, i: nat): set<Addr>
    requires i <= |ranked|
  {
    Elements(ranked[..i]) - SeatedOf(ranked, banned, limit, i)
  }

  lemma StruckOn(ranked: seq<Addr>, banned: set<Addr>, limit: int, i: nat, n: nat)
    requires i < |ranked| && Distinct(ranked)
    requires n == |SeatedOf(ranked, banned, limit, i)| == Least(|FreeBefore(ranked, banned, i)|, limit)
    ensures var struck, struck' := StruckOf(ranked, banned, limit, i), StruckOf(ranked, banned, limit, i + 1);
            && ranked[i] !in struck
            && (if ranked[i] in banned then struck' == struck + {ranked[i]} && struck' - banned == struck - banned
                else if n >= limit then struck' == struck + {ranked[i]} && struck' - banned == (struck - banned) + {ranked[i]}
                else struck' == struck)
    ensures var n' := if ranked[i] !in banned && n < limit then n + 1 else n;
            n' == |SeatedOf(ranked, banned, limit, i + 1)| == Least(|FreeBefore(ranked, banned, i + 1)|, limit)
  {
    hide SeatedOf, Elements, FreeBefore, Distinct;
    OneDown(ranked, banned, limit, i);
    var x, elements, seated := ranked[i], Elements(ranked[..i]), SeatedOf(ranked, banned, limit, i);
    OneStruck(elements, seated, banned, x);
    OneBigger(seated, x);
    OneBigger(FreeBefore(ranked, banned, i), x);
  }

  lemma OneStruck(elements: set<Addr>, seated: set<Addr>, banned: set<Addr>, x: Addr)
    requires x !in elements && x !in seated
    ensures (elements + {x}) - seated == (elements - seated) + {x}
    ensures (elements + {x}) - (seated + {x}) == elements - seated
    ensures ((elements - seated) + {x}) - banned == if x in banned then (elements - seated) - banned else ((elements - seated) - banned) + {x}
  {
  }

  lemma OneBigger(s: set<Addr>, x: Addr)
    requires x !in s
    ensures |s + {x}| == |s| + 1 && s + {} == s
  {
  }

  lemma StrikeOne(holders: Spans, u: string, ips: set<Addr>, a: Addr)
    ensures Without(holders, u, ips + {a}) == Without(holders, u, ips) - {Key(u, a)}
  {
    forall k: Key
      ensures k.user == u && k.ip == a <==> k == Key(u, a)
    {
    }
  }

  lemma RaiseOne(bans: Untils, u: string, ips: set<Addr>, t: nat, a: Addr)
    ensures Raised(bans, u, ips + {a}, t) == Raised(bans, u, ips, t)[Key(u, a) := t]
  {
    hide KeysOf;
    forall k: Key
      ensures k in KeysOf(u, ips) <==> k.user == u && k.ip in ips
      ensures k in KeysOf(u, ips + {a}) <==> k.user == u && k.ip in ips + {a}
    {
      KeysOfHas(u, ips, k);
      KeysOfHas(u, ips + {a}, k);
    }
    assert Raised(bans, u, ips + {a}, t).Keys == Raised(bans, u, ips, t)[Key(u, a) := t].Keys;
  }

  lemma RaisedHas(bans: Untils, u: string, ips: set<Addr>, t: nat, a: Addr)
    ensures Key(u, a) in Raised(bans, u, ips, t) <==> Key(u, a) in bans || a in ips
  {
  }

  lemma NoneLeft(bans: Untils, u: string)
    ensures Ips(Others(bans, u).Keys, u) == {}
  {
  }

  lemma KeysOfIps(keys: set<Key>, u: string)
    ensures forall a :: a in Ips(keys, u) <==> Key(u, a) in keys
  {
    forall a
      ensures a in Ips(keys, u) <==> Key(u, a) in keys
    {
      IpsAre(keys, Key(u, a));
    }
  }

  lemma RankedIsDistinct(w: map<Addr, Window>, s: seq<Addr>)
    requires Ranked(map[], w, s)
    ensures Distinct(s)
  {
  }

  lemma ReadMore(reports: map<string, seq<Report>>, limits: map<string, int>, user: string, more: seq<Report>, keys: set<Key>)
    requires user !in reports && LimitOf(limits, user) > 0 && Readable(reports, limits)
    requires forall i :: 0 <= i < |more| ==> more[i].Address?
    requires keys == UserKeys(user, more)
    ensures Readable(reports[user := more], limits)
    ensures ActiveKeys(reports[user := more], limits) == ActiveKeys(reports, limits) + keys
  {
    hide IdentityOf;
    var all := reports[user := more];
    forall k
      ensures k in ActiveKeys(all, limits) <==> k in ActiveKeys(reports, limits) || k in keys
    {
      if k in ActiveKeys(all, limits) {
        var u, i :| u in all && LimitOf(limits, u) > 0 && 0 <= i < |all[u]| && all[u][i].Address? && k == Key(u, IdentityOf(all[u][i].source));
        if u != user {
          assert reports[u] == all[u];
        }
      }
      if k in ActiveKeys(reports, limits) {
        var u, i :| u in reports && LimitOf(limits, u) > 0 && 0 <= i < |reports[u]| && reports[u][i].Address? && k == Key(u, IdentityOf(reports[u][i].source));
        assert all[u] == reports[u];
      }
      if k in keys {
        var i :| 0 <= i < |more| && more[i].Address? && k == Key(user, IdentityOf(more[i].source));
        assert all[user][i] == more[i];
      }
    }
  }

  lemma SkipUser(reports: map<string, seq<Report>>, limits: map<string, int>, user: string, more: seq<Report>)
    requires user !in reports && LimitOf(limits, user) <= 0 && Readable(reports, limits)
    ensures Readable(reports[user := more], limits)
    ensures ActiveKeys(reports[user := more], limits) == ActiveKeys(reports, limits)
  {
    hide IdentityOf;
    var all := reports[user := more];
    forall k
      ensures k in ActiveKeys(all, limits) <==> k in ActiveKeys(reports, limits)
    {
      if k in ActiveKeys(reports, limits) {
        var u, i :| u in reports && LimitOf(limits, u) > 0 && 0 <= i < |reports[u]| && reports[u][i].Address? && k == Key(u, IdentityOf(reports[u][i].source));
        assert all[u] == reports[u];
      }
    }
  }

  // ---------- a node takes the master's bans ----------

  function Everyone(raw: map<string, seq<Report>>): map<string, int> {
    map u | u in raw :: 1
  }

  function BannedKeys(raw: map<string, seq<Report>>): set<Key> {
    ActiveKeys(raw, Everyone(raw))
  }

  /** What a node accepts: named clients, addresses that are addresses, and no more than the cap. */
  predicate Acceptable(raw: map<string, seq<Report>>) {
    "" !in raw && Readable(raw, Everyone(raw)) && |BannedKeys(raw)| <= BanMaxSize
  }

  function DropsOf(keys: set<Key>): DropSets {
    map u | u in (set k | k in keys :: k.user) :: Ips(keys, u)
  }

  /** In the order of sort.Strings. */
  predicate Alphabetical(names: seq<string>) {
    forall i, j :: 0 <= i < j < |names| ==> !NameBefore(names[j], names[i])
  }

  /** One entry for every address, and nothing else, in order. */
  ghost predicate Spelled(ips: set<Addr>, spell: Addr -> string, names: seq<string>) {
    && |names| == |ips| && Alphabetical(names)
    && forall s :: s in names <==> exists a :: a in ips && spell(a) == s
  }

  ghost predicate Published(keys: set<Key>, spell: Addr -> string, out: map<string, seq<string>>) {
    out.Keys == DropsOf(keys).Keys && forall u :: u in out ==> Spelled(DropsOf(keys)[u], spell, out[u])
  }

  lemma InsertName(names: seq<string>, i: nat, s: string)
    requires Alphabetical(names) && i <= |names|
    requires forall j :: 0 <= j < i ==> NameBefore(names[j], s)
    requires i < |names| ==> !NameBefore(names[i], s)
    ensures Alphabetical(names[..i] + [s] + names[i..])
    ensures forall x :: x in names[..i] + [s] + names[i..] <==> x in names || x == s
  {
    hide NameBefore;
    var more := names[..i] + [s] + names[i..];
    forall j | 0 <= j < i
      ensures !NameBefore(s, names[j])
    {
      NamesAreOrdered(names[j], s, s);
    }
    forall j | i <= j < |names|
      ensures !NameBefore(names[j], s)
    {
      NamesAreOrdered(names[j], s, names[i]);
      NamesAreOrdered(s, names[i], names[j]);
      if j > i {
        assert !NameBefore(names[j], names[i]);
      }
    }
    assert names == names[..i] + names[i..];
  }

  method SpellOut(ips: set<Addr>, spell: Addr -> string) returns (names: seq<string>)
    ensures Spelled(ips, spell, names)
  {
    hide Alphabetical, NameBefore;
    names := [];
    var todo := ips;
    NothingSpelled();
    while todo != {}
      invariant todo <= ips && |names| == |ips| - |todo| && Alphabetical(names)
      invariant forall s :: s in names <==> exists a :: a in ips - todo && spell(a) == s
      decreases todo
    {
      var a :| a in todo;
      var s, i := spell(a), 0;
      while i < |names| && NameBefore(names[i], s)
        invariant 0 <= i <= |names| && forall j :: 0 <= j < i ==> NameBefore(names[j], s)
      {
        i := i + 1;
      }
      InsertName(names, i, s);
      OneFewer(todo, a);
      names := names[..i] + [s] + names[i..];
      todo := todo - {a};
    }
  }

  lemma NothingSpelled()
    ensures Alphabetical([])
  {
  }

  lemma OneFewer(s: set<Addr>, a: Addr)
    requires a in s
    ensures |s - {a}| == |s| - 1
  {
  }

  lemma NoDrops()
    ensures DropsOf({}) == map[]
  {
  }

  lemma DropsGrow(keys: set<Key>, k: Key)
    ensures var drops := DropsOf(keys);
            DropsOf(keys + {k}) == drops[k.user := (if k.user in drops then drops[k.user] else {}) + {k.ip}]
  {
    hide DropsOf, Ips;
    var more, next := DropsOf(keys + {k}), DropsOf(keys)[k.user := (if k.user in DropsOf(keys) then DropsOf(keys)[k.user] else {}) + {k.ip}];
    forall u
      ensures u in more <==> u in next
      ensures u in more ==> more[u] == next[u]
    {
      DropsAt(keys, u);
      DropsAt(keys + {k}, u);
      IpsGrow(keys, k, u);
    }
  }

  lemma DropsAt(keys: set<Key>, u: string)
    ensures u in DropsOf(keys) <==> Ips(keys, u) != {}
    ensures u in DropsOf(keys) ==> DropsOf(keys)[u] == Ips(keys, u)
  {
    if k :| k in keys && k.user == u {
      assert k.ip in Ips(keys, u);
    }
  }

  lemma IpsGrow(keys: set<Key>, k: Key, u: string)
    ensures Ips(keys + {k}, u) == Ips(keys, u) + if u == k.user then {k.ip} else {}
  {
  }

  lemma DropsHit(keys: set<Key>, u: string, a: Addr)
    ensures Hit(DropsOf(keys), u, a) <==> Key(u, a) in keys
  {
    IpsAre(keys, Key(u, a));
  }

  /** Only the part of the message read so far counts. */
  ghost predicate ReadSoFar(raw: map<string, seq<Report>>, read: map<string, seq<Report>>, keys: set<Key>) {
    && read.Keys <= raw.Keys && (forall u :: u in read ==> read[u] == raw[u])
    && "" !in read && Readable(read, Everyone(read)) && keys == BannedKeys(read) && |keys| <= BanMaxSize
  }

  lemma MoreRead(raw: map<string, seq<Report>>, read: map<string, seq<Report>>, keys: set<Key>, user: string)
    requires ReadSoFar(raw, read, keys) && user in raw && user !in read
    ensures keys + UserKeys(user, raw[user]) <= BannedKeys(raw)
    ensures (forall i :: 0 <= i < |raw[user]| ==> raw[user][i].Address?) ==>
            var next := read[user := raw[user]]; Readable(next, Everyone(next)) && BannedKeys(next) == keys + UserKeys(user, raw[user])
  {
    hide UserKeys, BannedKeys;
    var next := read[user := raw[user]];
    forall k
      ensures k in BannedKeys(next) <==> k in keys || k in UserKeys(user, raw[user])
      ensures k in keys || k in UserKeys(user, raw[user]) ==> k in BannedKeys(raw)
    {
      KeysAre(raw, k);
      KeysAre(read, k);
      KeysAre(next, k);
      UsersOwn(user, raw[user], k);
    }
  }

  lemma KeysAre(raw: map<string, seq<Report>>, k: Key)
    ensures k in BannedKeys(raw) <==> k.user in raw && k in UserKeys(k.user, raw[k.user])
  {
    hide IdentityOf;
    if k in BannedKeys(raw) {
      var u, i :| u in raw && LimitOf(Everyone(raw), u) > 0 && 0 <= i < |raw[u]| && raw[u][i].Address? && k == Key(u, IdentityOf(raw[u][i].source));
    }
    if k.user in raw && k in UserKeys(k.user, raw[k.user]) {
      var i :| 0 <= i < |raw[k.user]| && raw[k.user][i].Address? && k == Key(k.user, IdentityOf(raw[k.user][i].source));
      assert LimitOf(Everyone(raw), k.user) > 0;
    }
  }

  lemma UsersOwn(user: string, reports: seq<Report>, k: Key)
    ensures k in UserKeys(user, reports) ==> k.user == user
  {
  }

  lemma CapSays(a: set<Key>, b: set<Key>)
    requires a <= b && |a| > BanMaxSize
    ensures |b| > BanMaxSize
  {
    Smaller(a, b);
  }

  class Node {
    var lease: Lease
    const tracker: Tracker?

    constructor (t: Tracker?)
      ensures lease == NoLease && tracker == t
    {
      lease := NoLease;
      tracker := t;
    }

    method AddUser(keys: set<Key>, user: string, reports: seq<Report>) returns (ok: bool, more: set<Key>)
      requires |keys| <= BanMaxSize
      ensures ok <==> (forall i :: 0 <= i < |reports| ==> reports[i].Address?) && |keys + UserKeys(user, reports)| <= BanMaxSize
      ensures ok ==> more == keys + UserKeys(user, reports)
    {
      hide UserKeys, IdentityOf;
      ok, more := true, keys;
      var i := 0;
      NoReport(user, reports);
      while i < |reports|
        invariant 0 <= i <= |reports|
        invariant forall j :: 0 <= j < i ==> reports[j].Address?
        invariant more == keys + UserKeys(user, reports[..i]) && |more| <= BanMaxSize
      {
        OneMoreReport(user, reports, i);
        if reports[i].Garbage? {
          return false, {};
        }
        var key := Key(user, IdentityOf(reports[i].source));
        if |more| >= BanMaxSize && key !in more {
          OverCap(keys, UserKeys(user, reports[..i]), UserKeys(user, reports), key);
          return false, {};
        }
        more := more + {key};
        i := i + 1;
      }
      assert reports[..i] == reports;
    }

    method ReadBans(raw: map<string, seq<Report>>) returns (ok: bool, keys: set<Key>)
      ensures ok <==> Acceptable(raw)
      ensures ok ==> keys == BannedKeys(raw)
    {
      hide BannedKeys, UserKeys, ReadSoFar, Acceptable, Readable;
      ok, keys := true, {};
      var todo := raw.Keys;
      ghost var read: map<string, seq<Report>> := map[];
      NothingRead(raw);
      while todo != {}
        invariant todo <= raw.Keys && read.Keys == raw.Keys - todo
        invariant ReadSoFar(raw, read, keys)
        decreases todo
      {
        var user :| user in todo;
        if user == "" {
          NotAcceptable(raw, user);
          return false, {};
        }
        FewRead(raw, read, keys);
        var fine, more := AddUser(keys, user, raw[user]);
        if !fine {
          NotAcceptable(raw, user);
          TooMany(raw, read, keys, user);
          return false, {};
        }
        ReadOn(raw, read, keys, user);
        keys := more;
        read := read[user := raw[user]];
        todo := todo - {user};
      }
      AllRead(raw, read, keys);
    }

    /** The whole deny set is replaced and its connections closed, or nothing changes. */
    method ApplyClusterBans(raw: map<string, seq<Report>>, managed: set<string>, nowUnix: nat) returns (ok: bool)
      modifies this, if tracker == null then {} else {tracker}
      ensures ok <==> Acceptable(raw)
      ensures !ok ==> lease == old(lease) && (tracker != null ==> tracker.connections == old(tracker.connections))
      ensures ok ==> lease == LeaseOf(raw, managed, nowUnix)
      ensures ok && tracker != null ==> tracker.connections == Closed(old(tracker.connections), DropsOf(BannedKeys(raw)))
    {
      hide Acceptable, BannedKeys, Closed;
      var keys;
      ok, keys := ReadBans(raw);
      if !ok {
        return;
      }
      var until := nowUnix + ClusterBanLease;
      lease := Lease(map k | k in keys :: until, managed, until);
      var drop := DropsOf(keys);
      if tracker != null && drop != map[] {
        var _ := tracker.CloseConnByUserIPs(drop);
      } else if tracker != null {
        ClosedNothing(tracker.connections);
      }
    }
  }

  lemma NoReport(user: string, reports: seq<Report>)
    ensures UserKeys(user, reports[..0]) == {}
  {
  }

  lemma OverCap(keys: set<Key>, some: set<Key>, all: set<Key>, key: Key)
    requires |keys + some| >= BanMaxSize && key !in keys + some && some + {key} <= all
    ensures |keys + all| > BanMaxSize
  {
    assert |keys + some + {key}| == |keys + some| + 1;
    CapSays(keys + some + {key}, keys + all);
  }

  lemma NothingRead(raw: map<string, seq<Report>>)
    ensures ReadSoFar(raw, map[], {})
  {
    assert BannedKeys(map[]) == {};
  }

  lemma FewRead(raw: map<string, seq<Report>>, read: map<string, seq<Report>>, keys: set<Key>)
    requires ReadSoFar(raw, read, keys)
    ensures |keys| <= BanMaxSize
  {
  }

  lemma NotAcceptable(raw: map<string, seq<Report>>, user: string)
    requires user in raw
    ensures user == "" || (exists i :: 0 <= i < |raw[user]| && !raw[user][i].Address?) ==> !Acceptable(raw)
  {
    assert LimitOf(Everyone(raw), user) > 0;
  }

  lemma TooMany(raw: map<string, seq<Report>>, read: map<string, seq<Report>>, keys: set<Key>, user: string)
    requires ReadSoFar(raw, read, keys) && user in raw && user !in read
    ensures |keys + UserKeys(user, raw[user])| > BanMaxSize ==> !Acceptable(raw)
  {
    hide BannedKeys, UserKeys;
    MoreRead(raw, read, keys, user);
    if |keys + UserKeys(user, raw[user])| > BanMaxSize {
      CapSays(keys + UserKeys(user, raw[user]), BannedKeys(raw));
    }
  }

  lemma ReadOn(raw: map<string, seq<Report>>, read: map<string, seq<Report>>, keys: set<Key>, user: string)
    requires ReadSoFar(raw, read, keys) && user in raw && user !in read && user != ""
    requires (forall i :: 0 <= i < |raw[user]| ==> raw[user][i].Address?) && |keys + UserKeys(user, raw[user])| <= BanMaxSize
    ensures ReadSoFar(raw, read[user := raw[user]], keys + UserKeys(user, raw[user]))
  {
    hide BannedKeys, UserKeys;
    MoreRead(raw, read, keys, user);
  }

  lemma AllRead(raw: map<string, seq<Report>>, read: map<string, seq<Report>>, keys: set<Key>)
    requires ReadSoFar(raw, read, keys) && read.Keys == raw.Keys
    ensures Acceptable(raw) && keys == BannedKeys(raw)
  {
    assert read == raw;
  }

  function LeaseOf(raw: map<string, seq<Report>>, managed: set<string>, nowUnix: nat): Lease {
    Lease(map k | k in BannedKeys(raw) :: nowUnix + ClusterBanLease, managed, nowUnix + ClusterBanLease)
  }

  /** While the lease runs the master decides alone over the clients it manages, and adds to the local bans
      for the others; once it has run out only the local bans count.  Nobody it banned is still connected. */
  lemma LeaseDecides(raw: map<string, seq<Report>>, managed: set<string>, at: nat, bans: Bans, k: Key, now: nat, conns: Connections, id: ConnId)
    ensures var lease, open := LeaseOf(raw, managed, at), k !in bans || bans[k].until <= now;
            Allow(bans, lease, k, now) ==
            if now >= at + ClusterBanLease then open
            else if k.user in managed then k !in BannedKeys(raw)
            else k !in BannedKeys(raw) && open
    ensures var left := Closed(conns, DropsOf(BannedKeys(raw)));
            id in left && Counted(left[id]) ==> Key(left[id].user, left[id].source) !in BannedKeys(raw)
  {
    hide BannedKeys;
    if id in conns {
      DropsHit(BannedKeys(raw), conns[id].user, conns[id].source);
    }
  }
}

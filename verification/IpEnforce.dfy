/**
 The IP-limit scan (service/iplimit.go): what it leaves connected, whom it bans and for how long.
 Wall-clock times are unix seconds; scan times are nanoseconds of the tracker's own clock.
 */
module IpEnforce {
  import opened Measures
  import opened IpLimit
  import opened ConnTracker

  const BanTTL: nat := 300
  const BanMaxSize: nat := 1024
  const IdleGrace: nat := 90_000_000_000
  const HoldMemory: nat := 30_000_000_000

  // ---------- the ban list ----------

  datatype Key = Key(user: string, ip: Addr)

  datatype Ban = Ban(until: int, generation: nat)

  type Bans = map<Key, Ban>

  /** What a sweep knows: nothing, or which clients one scan found limited and still at their cap. */
  datatype Scope = NoScan | Seen(generation: nat, capped: map<string, bool>)

  predicate Released(scope: Scope, k: Key, b: Ban) {
    scope.Seen? && (k.user !in scope.capped || (!scope.capped[k.user] && b.generation == scope.generation))
  }

  function Live(bans: Bans, now: int): Bans {
    map k | k in bans && now < bans[k].until :: bans[k]
  }

  function Swept(bans: Bans, now: int, scope: Scope): Bans {
    map k | k in bans && now < bans[k].until && !Released(scope, k, bans[k]) :: bans[k]
  }

  function Placed(bans: Bans, user: string, ips: set<Addr>, now: int, g: nat): Bans {
    map k | k in bans.Keys + KeysOf(user, ips) :: if k.user == user && k.ip in ips then Ban(now + BanTTL, g) else bans[k]
  }

  function KeysOf(user: string, ips: set<Addr>): set<Key> {
    set a | a in ips :: Key(user, a)
  }

  predicate Submap(small: Bans, big: Bans) {
    forall k :: k in small ==> k in big && small[k] == big[k]
  }

  /** Cut down to the cap, and only when over it. */
  predicate Trimmed(small: Bans, big: Bans) {
    Submap(small, big) && |small| <= BanMaxSize && (small == big || |small| == BanMaxSize)
  }

  /** Whatever was cut expires no later than whatever stayed. */
  predicate LatestStay(small: Bans, big: Bans) {
    forall k, l :: k in big && k !in small && l in small ==> big[k].until <= small[l].until
  }

  /** No ban reaches further than one placed now. */
  predicate Within(bans: Bans, now: int) {
    forall k :: k in bans ==> bans[k].until <= now + BanTTL
  }

  lemma SubmapIsSmaller(small: Bans, big: Bans)
    requires Submap(small, big)
    ensures |small| <= |big| && (|small| == |big| ==> small == big)
  {
    var s, b := small.Keys, big.Keys;
    assert s <= b;
    assert b == s + (b - s);
    assert |small| == |s| && |big| == |b|;
    if |s| == |b| {
      assert b - s == {};
      assert s == b;
    }
  }

  // ---------- the gate ----------

  /** What the master of a cluster has told this node. */
  datatype Lease = Lease(bans: map<Key, int>, managed: set<string>, until: int)

  const NoLease: Lease := Lease(map[], {}, 0)

  function Allow(bans: Bans, lease: Lease, k: Key, now: int): bool {
    var clusterUntil := if k in lease.bans then lease.bans[k] else 0;
    if k.user in lease.managed && lease.until > now then clusterUntil <= now
    else if k !in bans && clusterUntil == 0 then true
    else if clusterUntil > now then false
    else if k !in bans then true
    else now >= bans[k].until
  }

  predicate Admits(bans: Bans, lease: Lease, c: Conn, now: int) {
    c.user == "" || !c.valid || Allow(bans, lease, Key(c.user, c.source), now)
  }

  // ---------- what one scan decides ----------

  type Holders = map<string, map<Addr, Hold>>

  datatype Verdict = Verdict(admitted: map<Addr, Hold>, dropped: set<Addr>)

  function HeldFor(held: Holders, u: string): map<Addr, Hold> {
    if u in held then held[u] else map[]
  }

  ghost function Judged(held: Holders, conns: Connections, limit: int, now: nat, u: string): Verdict {
    var h, active := HeldFor(held, u), ActiveOf(conns, u);
    Verdict(Admitted(h, active, limit, now, IdleGrace), Dropped(h, active, limit, now, IdleGrace))
  }

  predicate AtCap(v: Verdict, limit: int) {
    |v.admitted| >= limit || v.dropped != {}
  }

  function RecordOf(held: Holders, v: Verdict, now: nat, u: string): map<Addr, Hold> {
    Remembered(HeldFor(held, u), v.admitted, v.dropped, now, HoldMemory)
  }

  /** The four maps a scan builds, one client at a time. */
  datatype Findings = Findings(counts: map<string, nat>, records: Holders, drop: DropSets, capped: map<string, bool>)

  function Noting(f: Findings, held: Holders, v: Verdict, limit: int, now: nat, u: string): Findings {
    var record := RecordOf(held, v, now, u);
    Findings(
      if v.admitted != map[] then f.counts[u := |v.admitted|] else f.counts,
      if record != map[] then f.records[u := record] else f.records,
      if v.dropped != {} then f.drop[u := v.dropped] else f.drop,
      f.capped[u := AtCap(v, limit)])
  }

  ghost function AllFindings(held: Holders, conns: Connections, limits: map<string, nat>, now: nat): Findings {
    FindingsFor(limits.Keys, held, conns, limits, now)
  }

  ghost function FindingsFor(done: set<string>, held: Holders, conns: Connections, limits: map<string, nat>, now: nat): Findings
    requires done <= limits.Keys
  {
    Findings(
      CountsFor(done, held, conns, limits, now), RecordsFor(done, held, conns, limits, now),
      DropsFor(done, held, conns, limits, now), CapsFor(done, held, conns, limits, now))
  }

  ghost function CountsFor(done: set<string>, held: Holders, conns: Connections, limits: map<string, nat>, now: nat): map<string, nat>
    requires done <= limits.Keys
  {
    map u | u in done && Judged(held, conns, limits[u], now, u).admitted != map[] :: |Judged(held, conns, limits[u], now, u).admitted|
  }

  ghost function RecordsFor(done: set<string>, held: Holders, conns: Connections, limits: map<string, nat>, now: nat): Holders
    requires done <= limits.Keys
  {
    map u | u in done && RecordOf(held, Judged(held, conns, limits[u], now, u), now, u) != map[] ::
      RecordOf(held, Judged(held, conns, limits[u], now, u), now, u)
  }

  ghost function DropsFor(done: set<string>, held: Holders, conns: Connections, limits: map<string, nat>, now: nat): DropSets
    requires done <= limits.Keys
  {
    map u | u in done && Judged(held, conns, limits[u], now, u).dropped != {} :: Judged(held, conns, limits[u], now, u).dropped
  }

  ghost function CapsFor(done: set<string>, held: Holders, conns: Connections, limits: map<string, nat>, now: nat): map<string, bool>
    requires done <= limits.Keys
  {
    map u | u in done :: AtCap(Judged(held, conns, limits[u], now, u), limits[u])
  }

  lemma OneMoreClient(done: set<string>, held: Holders, conns: Connections, limits: map<string, nat>, now: nat, u: string)
    requires done <= limits.Keys && u in limits && u !in done
    ensures FindingsFor(done + {u}, held, conns, limits, now) ==
            Noting(FindingsFor(done, held, conns, limits, now), held, Judged(held, conns, limits[u], now, u), limits[u], now, u)
  {
    hide Judged, RecordOf, AtCap, CountsFor, RecordsFor, DropsFor, CapsFor;
    OneMoreCount(done, held, conns, limits, now, u);
    OneMoreRecord(done, held, conns, limits, now, u);
    OneMoreDrop(done, held, conns, limits, now, u);
    OneMoreCap(done, held, conns, limits, now, u);
  }

  lemma OneMoreCount(done: set<string>, held: Holders, conns: Connections, limits: map<string, nat>, now: nat, u: string)
    requires done <= limits.Keys && u in limits && u !in done
    ensures var v, m := Judged(held, conns, limits[u], now, u), CountsFor(done, held, conns, limits, now);
            CountsFor(done + {u}, held, conns, limits, now) == if v.admitted != map[] then m[u := |v.admitted|] else m
  {
    hide Judged;
  }

  lemma OneMoreRecord(done: set<string>, held: Holders, conns: Connections, limits: map<string, nat>, now: nat, u: string)
    requires done <= limits.Keys && u in limits && u !in done
    ensures var r, m := RecordOf(held, Judged(held, conns, limits[u], now, u), now, u), RecordsFor(done, held, conns, limits, now);
            RecordsFor(done + {u}, held, conns, limits, now) == if r != map[] then m[u := r] else m
  {
    hide Judged, RecordOf;
  }

  lemma OneMoreDrop(done: set<string>, held: Holders, conns: Connections, limits: map<string, nat>, now: nat, u: string)
    requires done <= limits.Keys && u in limits && u !in done
    ensures var v, m := Judged(held, conns, limits[u], now, u), DropsFor(done, held, conns, limits, now);
            DropsFor(done + {u}, held, conns, limits, now) == if v.dropped != {} then m[u := v.dropped] else m
  {
    hide Judged;
  }

  lemma OneMoreCap(done: set<string>, held: Holders, conns: Connections, limits: map<string, nat>, now: nat, u: string)
    requires done <= limits.Keys && u in limits && u !in done
    ensures CapsFor(done + {u}, held, conns, limits, now) ==
            CapsFor(done, held, conns, limits, now)[u := AtCap(Judged(held, conns, limits[u], now, u), limits[u])]
  {
    hide Judged, AtCap;
  }

  // ---------- what one scan does to the bans ----------

  function DropKeys(drop: DropSets): set<Key> {
    set u, a | u in drop && a in drop[u] :: Key(u, a)
  }

  /** The bans still running, renewed for everything dropped: what the list would hold without a cap. */
  function Due(bans: Bans, now: int, g: nat, drop: DropSets): Bans {
    map k | k in Live(bans, now).Keys + DropKeys(drop) ::
      if Hit(drop, k.user, k.ip) then Ban(now + BanTTL, g) else bans[k]
  }

  lemma DueGrows(bans: Bans, now: int, g: nat, drop: DropSets, u: string, ips: set<Addr>)
    requires u !in drop
    ensures Due(bans, now, g, drop[u := ips]) == Placed(Due(bans, now, g, drop), u, ips, now, g)
  {
    var more := drop[u := ips];
    var x, y := Due(bans, now, g, more), Placed(Due(bans, now, g, drop), u, ips, now, g);
    forall k: Key
      ensures Hit(more, k.user, k.ip) <==> Hit(drop, k.user, k.ip) || (k.user == u && k.ip in ips)
    {
    }
    forall k: Key
      ensures k in DropKeys(more) <==> Hit(more, k.user, k.ip)
      ensures k in DropKeys(drop) <==> Hit(drop, k.user, k.ip)
      ensures k in KeysOf(u, ips) <==> k.user == u && k.ip in ips
    {
      assert k == Key(k.user, k.ip);
    }
    assert x.Keys == y.Keys;
  }

  lemma PlacedLive(bans: Bans, u: string, ips: set<Addr>, now: int, g: nat)
    ensures Live(Placed(bans, u, ips, now, g), now) == Placed(Live(bans, now), u, ips, now, g)
  {
    var x, y := Live(Placed(bans, u, ips, now, g), now), Placed(Live(bans, now), u, ips, now, g);
    forall k: Key
      ensures k in KeysOf(u, ips) <==> k.user == u && k.ip in ips
    {
      assert k == Key(k.user, k.ip);
    }
    assert x.Keys == y.Keys;
  }

  /** Trimming what was already trimmed, with new bans in between, is still trimming. */
  lemma TrimAgain(small: Bans, big: Bans, u: string, ips: set<Addr>, now: int, g: nat, next: Bans)
    requires Trimmed(small, big) && Trimmed(next, Placed(small, u, ips, now, g))
    ensures Trimmed(next, Placed(big, u, ips, now, g))
  {
    var s, b := Placed(small, u, ips, now, g), Placed(big, u, ips, now, g);
    assert Submap(s, b);
    assert Submap(next, b);
    if small != big && next == s {
      assert small.Keys <= s.Keys;
      Smaller(small.Keys, s.Keys);
      assert |small| == |small.Keys| && |s| == |s.Keys|;
    }
  }

  lemma LatestAgain(small: Bans, big: Bans, u: string, ips: set<Addr>, now: int, g: nat, next: Bans)
    requires Submap(small, big) && LatestStay(small, big) && Within(big, now)
    requires Submap(next, Placed(small, u, ips, now, g)) && LatestStay(next, Placed(small, u, ips, now, g))
    ensures LatestStay(next, Placed(big, u, ips, now, g)) && Within(Placed(big, u, ips, now, g), now)
  {
    var s, b := Placed(small, u, ips, now, g), Placed(big, u, ips, now, g);
    forall k, l | k in b && k !in next && l in next
      ensures b[k].until <= next[l].until
    {
      assert next[l] == s[l];
      if k in s {
        assert s[k] == b[k];
      } else {
        assert k in big && k !in small && b[k] == big[k];
      }
    }
  }

  /** What a scan leaves: every ban that is due and still doing work, unless the list was full. */
  ghost predicate BansSettled(before: Bans, after: Bans, now: int, g: nat, drop: DropSets, capped: map<string, bool>) {
    var due := Due(before, now, g, drop);
    var kept := Swept(due, now, Seen(g, capped));
    && Submap(after, kept)
    && |after| <= BanMaxSize
    && (|due| <= BanMaxSize ==> after == kept)
    && (Within(before, now) ==> LatestStay(after, kept))
  }

  lemma SweepSettles(before: Bans, mid: Bans, now: int, g: nat, drop: DropSets, capped: map<string, bool>)
    requires Trimmed(Live(mid, now), Due(before, now, g, drop))
    requires Within(before, now) ==> LatestStay(Live(mid, now), Due(before, now, g, drop))
    ensures BansSettled(before, Swept(mid, now, Seen(g, capped)), now, g, drop, capped)
  {
    hide Due, Within;
    var due, live := Due(before, now, g, drop), Live(mid, now);
    SweptParts(mid, now, Seen(g, capped));
    SweptParts(due, now, Seen(g, capped));
    SweepTrimmed(live, due, now, Seen(g, capped));
    if Within(before, now) {
      SweepLatest(live, due, now, Seen(g, capped));
    }
  }

  lemma SweptParts(bans: Bans, now: int, scope: Scope)
    ensures Swept(bans, now, scope) == Swept(Live(bans, now), now, scope)
  {
  }

  lemma SweepTrimmed(small: Bans, big: Bans, now: int, scope: Scope)
    requires Trimmed(small, big)
    ensures Submap(Swept(small, now, scope), Swept(big, now, scope)) && |Swept(small, now, scope)| <= BanMaxSize
    ensures |big| <= BanMaxSize ==> small == big
  {
    SubmapIsSmaller(Swept(small, now, scope), small);
    SubmapIsSmaller(small, big);
  }

  lemma SweepLatest(small: Bans, big: Bans, now: int, scope: Scope)
    requires Submap(small, big) && LatestStay(small, big)
    ensures LatestStay(Swept(small, now, scope), Swept(big, now, scope))
  {
  }

  // ---------- the limiter ----------

  datatype Book = Book(bans: Bans, holders: Holders, lastGeneration: nat, counts: map<string, nat>)

  /** Seniority measured on another tracker's clock means nothing. */
  function HeldBy(b: Book, g: nat): Holders {
    if b.lastGeneration == g then b.holders else map[]
  }

  /** One scan of a live tracker, from before to after. */
  ghost predicate Scanned(b: Book, conns: Connections, b': Book, conns': Connections, g: nat, limits: map<string, nat>, nowUnix: int, now: nat) {
    var f := AllFindings(HeldBy(b, g), conns, limits, now);
    && conns' == Closed(conns, f.drop)
    && b'.holders == f.records && b'.lastGeneration == g && b'.counts == f.counts
    && BansSettled(b.bans, b'.bans, nowUnix, g, f.drop, f.capped)
  }

  datatype Client = Client(name: string, limitIp: int, enable: bool, cluster: bool)

  /** The last enabled row of that name with a limit decides. */
  function LimitsOf(rows: seq<Client>): map<string, nat> {
    if rows == [] then map[]
    else
      var last, limits := rows[|rows| - 1], LimitsOf(rows[..|rows| - 1]);
      if last.limitIp > 0 && last.enable then limits[last.name := last.limitIp] else limits
  }

  function ManagedOf(rows: seq<Client>): set<string> {
    set i | 0 <= i < |rows| && rows[i].limitIp > 0 && rows[i].enable && rows[i].cluster :: rows[i].name
  }

  /** While the master's lease runs, the clients it manages are not this node's to limit. */
  function InForce(rows: seq<Client>, leased: bool): map<string, nat> {
    if leased then LimitsOf(rows) - ManagedOf(rows) else LimitsOf(rows)
  }

  /** Whom a scan limits: the enabled clients with a limit, each at that of its last such row, less those a running
      lease leaves to the master. */
  lemma {:induction false} WhoIsLimited(rows: seq<Client>, u: string)
    ensures u in LimitsOf(rows) <==> exists i :: 0 <= i < |rows| && Limiting(rows[i], u)
    ensures u in LimitsOf(rows) ==> exists i :: LastLimiting(rows, i, u) && LimitsOf(rows)[u] == rows[i].limitIp
    decreases |rows|
  {
    if rows != [] {
      var n := |rows| - 1;
      WhoIsLimited(rows[..n], u);
      assert forall i :: 0 <= i < n ==> rows[..n][i] == rows[i];
      if Limiting(rows[n], u) {
        assert LastLimiting(rows, n, u) && LimitsOf(rows)[u] == rows[n].limitIp;
      } else if u in LimitsOf(rows) {
        var i :| LastLimiting(rows[..n], i, u) && LimitsOf(rows[..n])[u] == rows[..n][i].limitIp;
        assert LastLimiting(rows, i, u);
      }
    }
  }

  predicate LastLimiting(rows: seq<Client>, i: int, u: string) {
    0 <= i < |rows| && Limiting(rows[i], u) && forall j :: i < j < |rows| ==> !Limiting(rows[j], u)
  }

  predicate Limiting(c: Client, u: string) {
    c.name == u && c.limitIp > 0 && c.enable
  }

  lemma WhoIsInForce(rows: seq<Client>, leased: bool, u: string)
    ensures u in InForce(rows, leased) <==>
            && (exists i :: 0 <= i < |rows| && Limiting(rows[i], u))
            && !(leased && exists i :: 0 <= i < |rows| && Limiting(rows[i], u) && rows[i].cluster)
    ensures u in InForce(rows, leased) ==> InForce(rows, leased)[u] == LimitsOf(rows)[u]
  {
    WhoIsLimited(rows, u);
  }

  /** The gate lets everything in that is not banned; what has no user or no address is never asked about. */
  lemma GateIsExact(bans: Bans, c: Conn, now: nat)
    ensures Admits(bans, NoLease, c, now) <==>
            c.user == "" || !c.valid || !(Key(c.user, c.source) in bans && now < bans[Key(c.user, c.source)].until)
  {
  }

  class Limiter {
    var bans: Bans
    var holders: Holders
    var lastGeneration: nat
    var counts: map<string, nat>

    ghost function State(): Book
      reads this
    {
      Book(bans, holders, lastGeneration, counts)
    }

    constructor ()
      ensures State() == Book(map[], map[], 0, map[])
    {
      bans, holders, lastGeneration, counts := map[], map[], 0, map[];
    }

    method Sweep(now: int, scope: Scope)
      modifies this`bans
      ensures bans == Swept(old(bans), now, scope)
    {
      var todo := bans.Keys;
      while todo != {}
        invariant todo <= bans.Keys && Submap(bans, old(bans))
        invariant forall k :: k in old(bans) && k !in todo ==> (k in bans <==> k in Swept(old(bans), now, scope))
        decreases todo
      {
        var k :| k in todo;
        if now >= bans[k].until || Released(scope, k, bans[k]) {
          bans := bans - {k};
        }
        todo := todo - {k};
      }
      assert bans.Keys == Swept(old(bans), now, scope).Keys;
    }

    method Soonest() returns (k: Key)
      requires bans != map[]
      ensures k in bans && forall l :: l in bans ==> bans[k].until <= bans[l].until
    {
      k :| k in bans;
      var todo := bans.Keys - {k};
      while todo != {}
        invariant todo <= bans.Keys && k in bans
        invariant forall l :: l in bans && l !in todo ==> bans[k].until <= bans[l].until
        decreases todo
      {
        var l :| l in todo;
        if bans[l].until < bans[k].until {
          k := l;
        }
        todo := todo - {l};
      }
    }

    /** Expired bans go first, then the soonest to expire until the list fits. */
    method Evict(now: int)
      modifies this`bans
      ensures Trimmed(bans, Live(old(bans), now)) && LatestStay(bans, Live(old(bans), now))
    {
      Sweep(now, NoScan);
      ghost var live := Live(old(bans), now);
      assert bans == live;
      while |bans| > BanMaxSize
        invariant Submap(bans, live) && LatestStay(bans, live)
        invariant bans == live || |bans| >= BanMaxSize
        decreases |bans|
      {
        var k := Soonest();
        bans := bans - {k};
      }
    }

    method PlaceBans(user: string, ips: seq<Addr>, now: int, g: nat)
      modifies this`bans
      ensures ips == [] ==> bans == old(bans)
      ensures ips != [] ==> var due := Live(Placed(old(bans), user, Elements(ips), now, g), now);
                            Trimmed(bans, due) && LatestStay(bans, due)
    {
      if ips == [] {
        return;
      }
      var i := 0;
      while i < |ips|
        invariant 0 <= i <= |ips|
        invariant bans == Placed(old(bans), user, Elements(ips[..i]), now, g)
      {
        ghost var was := bans;
        bans := bans[Key(user, ips[i]) := Ban(now + BanTTL, g)];
        PlacedOne(old(bans), user, ips, i, now, g);
        i := i + 1;
      }
      assert ips[..i] == ips;
      Evict(now);
    }

    method BeginScan(g: nat) returns (held: Holders)
      modifies this`holders, this`lastGeneration
      ensures held == holders == HeldBy(old(State()), g) && lastGeneration == g
    {
      if g != lastGeneration {
        holders := map[];
        lastGeneration := g;
      }
      held := holders;
    }

    /** Plan, remember and ban, client by client. */
    method PlanAll(limits: map<string, nat>, active: Snapshot, held: Holders, nowUnix: int, now: nat, g: nat, ghost conns: Connections)
      returns (f: Findings)
      requires forall u :: u in limits ==> limits[u] > 0 && WindowsFor(active, u) == ActiveOf(conns, u)
      requires |bans| <= BanMaxSize
      modifies this`bans
      ensures f == AllFindings(held, conns, limits, now)
      ensures BansInStep(old(bans), bans, nowUnix, g, f.drop)
    {
      hide *;
      f := Findings(map[], map[], map[], map[]);
      var todo := limits.Keys;
      assert limits.Keys - todo == {};
      NothingYet(held, conns, limits, now, bans, nowUnix, g);
      while todo != {}
        invariant todo <= limits.Keys
        invariant f == FindingsFor(limits.Keys - todo, held, conns, limits, now)
        invariant BansInStep(old(bans), bans, nowUnix, g, f.drop)
        decreases todo
      {
        var name :| name in todo;
        ghost var was, before := f, bans;
        OneMoreClient(limits.Keys - todo, held, conns, limits, now, name);
        assert limits.Keys - (todo - {name}) == limits.Keys - todo + {name};
        var dropped;
        f, dropped := NoteClient(f, held, WindowsFor(active, name), limits[name], now, name, conns);
        PlaceBans(name, dropped, nowUnix, g);
        NotYetDropped(limits.Keys - todo, held, conns, limits, now, name);
        if dropped != [] {
          StayInStep(old(bans), before, bans, nowUnix, g, was.drop, name, Elements(dropped));
        }
        todo := todo - {name};
      }
      assert limits.Keys - todo == limits.Keys;
      WholeScan(held, conns, limits, now);
    }

    /** One client's line in each of the four maps. */
    method NoteClient(f: Findings, held: Holders, active: map<Addr, Window>, limit: int, now: nat, name: string, ghost conns: Connections)
      returns (f': Findings, dropped: seq<Addr>)
      requires active == ActiveOf(conns, name)
      ensures f' == Noting(f, held, Judged(held, conns, limit, now, name), limit, now, name)
      ensures f'.drop == if dropped != [] then f.drop[name := Elements(dropped)] else f.drop
    {
      hide Elements, ActiveOf, Admitted, Dropped, Remembered, HeldFor, Candidates;
      var admitted;
      admitted, dropped := PlanIPLimit(HeldFor(held, name), active, limit, now, IdleGrace);
      var record := RememberHolders(HeldFor(held, name), admitted, dropped, now, HoldMemory);
      EmptyElements(dropped);
      assert Judged(held, conns, limit, now, name) == Verdict(admitted, Elements(dropped));
      f' := Findings(
        if admitted != map[] then f.counts[name := |admitted|] else f.counts,
        if record != map[] then f.records[name := record] else f.records,
        if dropped != [] then f.drop[name := Elements(dropped)] else f.drop,
        f.capped[name := |admitted| >= limit || dropped != []]);
    }

    method Scan(limits: map<string, nat>, tracker: Tracker, nowUnix: int, now: nat)
      requires forall u :: u in limits ==> limits[u] > 0
      requires |bans| <= BanMaxSize
      modifies this, tracker
      ensures Scanned(old(State()), old(tracker.connections), State(), tracker.connections, tracker.generation, limits, nowUnix, now)
    {
      hide AllFindings, BansInStep, BansSettled, Closed, Trimmed, LatestStay, Within, Due, Swept, Live;
      var g := tracker.generation;
      var active := tracker.UserIPs(u => u in limits);
      var held := BeginScan(g);
      var f := PlanAll(limits, active, held, nowUnix, now, g, tracker.connections);
      holders, counts := f.records, f.counts;
      if f.drop != map[] {
        var _ := tracker.CloseConnByUserIPs(f.drop);
      } else {
        ClosedNothing(tracker.connections);
      }
      InStepMeans(old(bans), bans, nowUnix, g, f.drop);
      SweepSettles(old(bans), bans, nowUnix, g, f.drop, f.capped);
      Sweep(nowUnix, Seen(g, f.capped));
    }

    method LoadLimits(rows: seq<Client>) returns (limits: map<string, nat>, managed: set<string>)
      ensures limits == LimitsOf(rows) && managed == ManagedOf(rows)
    {
      limits, managed := map[], {};
      var i := 0;
      while i < |rows|
        invariant 0 <= i <= |rows|
        invariant limits == LimitsOf(rows[..i]) && managed == ManagedOf(rows[..i])
      {
        var row := rows[i];
        assert rows[..i + 1][..i] == rows[..i];
        if row.limitIp > 0 && row.enable {
          limits := limits[row.name := row.limitIp];
          if row.cluster {
            managed := managed + {row.name};
          }
        }
        ManagedGrows(rows, i);
        i := i + 1;
      }
      assert rows[..i] == rows;
    }

    method EnforceIPLimits(rows: seq<Client>, leased: bool, tracker: Tracker?, nowUnix: int, now: nat)
      requires |bans| <= BanMaxSize
      modifies this, if tracker == null then {} else {tracker}
      ensures InForce(rows, leased) == map[] ==> State() == Book(map[], map[], old(lastGeneration), map[])
      ensures InForce(rows, leased) == map[] && tracker != null ==> tracker.connections == old(tracker.connections)
      ensures InForce(rows, leased) != map[] && tracker == null ==>
                State() == Book(Live(old(bans), nowUnix), map[], old(lastGeneration), map[])
      ensures InForce(rows, leased) != map[] && tracker != null ==>
                Scanned(old(State()), old(tracker.connections), State(), tracker.connections, tracker.generation,
                        InForce(rows, leased), nowUnix, now)
    {
      hide Scanned;
      var limits, managed := LoadLimits(rows);
      if leased {
        limits := limits - managed;
      }
      LimitsArePositive(rows);
      if limits == map[] {
        counts, holders := map[], map[];
        Sweep(nowUnix, Seen(0, map[]));
        assert bans == map[];
      } else if tracker == null {
        counts, holders := map[], map[];
        Sweep(nowUnix, NoScan);
        assert Swept(old(bans), nowUnix, NoScan) == Live(old(bans), nowUnix);
      } else {
        Scan(limits, tracker, nowUnix, now);
      }
    }
  }

  lemma PlacedOne(bans: Bans, user: string, ips: seq<Addr>, i: nat, now: int, g: nat)
    requires i < |ips|
    ensures Placed(bans, user, Elements(ips[..i + 1]), now, g) ==
            Placed(bans, user, Elements(ips[..i]), now, g)[Key(user, ips[i]) := Ban(now + BanTTL, g)]
  {
    InsertElements(ips[..i], i, ips[i]);
    assert ips[..i][..i] + [ips[i]] + ips[..i][i..] == ips[..i + 1];
    assert Elements(ips[..i + 1]) == Elements(ips[..i]) + {ips[i]};
    var x, y := Placed(bans, user, Elements(ips[..i + 1]), now, g),
                Placed(bans, user, Elements(ips[..i]), now, g)[Key(user, ips[i]) := Ban(now + BanTTL, g)];
    assert KeysOf(user, Elements(ips[..i + 1])) == KeysOf(user, Elements(ips[..i])) + {Key(user, ips[i])};
    assert x.Keys == y.Keys;
  }

  lemma EmptyElements(s: seq<Addr>)
    ensures Elements(s) == {} <==> s == []
  {
    if s != [] {
      assert s[0] in Elements(s);
    }
  }

  lemma NotYetDropped(done: set<string>, held: Holders, conns: Connections, limits: map<string, nat>, now: nat, u: string)
    requires done <= limits.Keys && u !in done
    ensures u !in FindingsFor(done, held, conns, limits, now).drop
  {
  }

  lemma ClosedNothing(conns: Connections)
    ensures Closed(conns, map[]) == conns
  {
  }

  lemma ManagedGrows(rows: seq<Client>, i: nat)
    requires i < |rows|
    ensures ManagedOf(rows[..i + 1]) ==
            ManagedOf(rows[..i]) + if rows[i].limitIp > 0 && rows[i].enable && rows[i].cluster then {rows[i].name} else {}
  {
    var s, t := rows[..i], rows[..i + 1];
    forall n
      ensures n in ManagedOf(s) ==> n in ManagedOf(t)
    {
      if n in ManagedOf(s) {
        var j :| 0 <= j < |s| && s[j].limitIp > 0 && s[j].enable && s[j].cluster && s[j].name == n;
        assert t[j] == s[j];
      }
    }
    assert t[i] == rows[i];
    assert forall j :: 0 <= j < i ==> t[j] == s[j];
  }

  lemma {:induction false} LimitsArePositive(rows: seq<Client>)
    ensures forall u :: u in LimitsOf(rows) ==> LimitsOf(rows)[u] > 0
  {
    if rows != [] {
      LimitsArePositive(rows[..|rows| - 1]);
    }
  }

  /** The list part way through a scan: the running bans are those due so far, cut to size. */
  ghost predicate BansInStep(before: Bans, bans: Bans, now: int, g: nat, drop: DropSets) {
    && Trimmed(Live(bans, now), Due(before, now, g, drop))
    && (Within(before, now) ==> LatestStay(Live(bans, now), Due(before, now, g, drop)) && Within(Due(before, now, g, drop), now))
  }

  lemma InStepMeans(before: Bans, bans: Bans, now: int, g: nat, drop: DropSets)
    requires BansInStep(before, bans, now, g, drop)
    ensures Trimmed(Live(bans, now), Due(before, now, g, drop))
    ensures Within(before, now) ==> LatestStay(Live(bans, now), Due(before, now, g, drop))
  {
    hide Trimmed, Live, Due, Within, LatestStay;
  }

  lemma WholeScan(held: Holders, conns: Connections, limits: map<string, nat>, now: nat)
    ensures AllFindings(held, conns, limits, now) == FindingsFor(limits.Keys, held, conns, limits, now)
  {
    hide FindingsFor;
  }

  lemma NothingYet(held: Holders, conns: Connections, limits: map<string, nat>, now: nat, bans: Bans, nowUnix: int, g: nat)
    requires |bans| <= BanMaxSize
    ensures FindingsFor({}, held, conns, limits, now) == Findings(map[], map[], map[], map[])
    ensures BansInStep(bans, bans, nowUnix, g, map[])
  {
    hide Judged, RecordOf, Due, Live, Submap;
    NothingDue(bans, nowUnix, g);
    SubmapIsSmaller(Live(bans, nowUnix), bans);
  }

  lemma NothingDue(bans: Bans, now: int, g: nat)
    ensures Due(bans, now, g, map[]) == Live(bans, now) && Submap(Live(bans, now), bans) && Submap(bans, bans)
    ensures Submap(Live(bans, now), Live(bans, now))
    ensures Within(bans, now) ==> Within(Live(bans, now), now)
  {
    assert DropKeys(map[]) == {};
  }

  lemma StayInStep(before: Bans, bans: Bans, bans': Bans, now: int, g: nat, drop: DropSets, u: string, ips: set<Addr>)
    requires BansInStep(before, bans, now, g, drop) && u !in drop
    requires Trimmed(bans', Live(Placed(bans, u, ips, now, g), now)) && LatestStay(bans', Live(Placed(bans, u, ips, now, g), now))
    ensures BansInStep(before, bans', now, g, drop[u := ips])
  {
    hide Placed, Due, Live, Trimmed, LatestStay, Within;
    var due := Due(before, now, g, drop);
    DueGrows(before, now, g, drop, u, ips);
    PlacedLive(bans, u, ips, now, g);
    StillLive(bans', Placed(bans, u, ips, now, g), now);
    TrimAgain(Live(bans, now), due, u, ips, now, g, bans');
    if Within(before, now) {
      TrimmedIsSubmap(Live(bans, now), due);
      TrimmedIsSubmap(bans', Placed(Live(bans, now), u, ips, now, g));
      LatestAgain(Live(bans, now), due, u, ips, now, g, bans');
    }
  }

  lemma StillLive(small: Bans, big: Bans, now: int)
    requires Trimmed(small, Live(big, now))
    ensures Live(small, now) == small
  {
  }

  lemma TrimmedIsSubmap(small: Bans, big: Bans)
    requires Trimmed(small, big)
    ensures Submap(small, big)
  {
  }
}

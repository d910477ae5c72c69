/**
 What the IP limit guarantees: after one scan, after a second one, and over whole runs in which
 clients connect, the core restarts and scans happen in any order.
 */
module IpRuns {
  import opened Measures
  import opened IpLimit
  import opened ConnTracker
  import opened IpEnforce

  // ---------- one scan ----------

  /** What stays connected and is not idle is exactly what was admitted: as many identities as the limit
      allows and no more, and the panel is told that number. */
  lemma ScanMeetsLimits(b: Book, conns: Connections, b': Book, conns': Connections, g: nat, limits: map<string, nat>, nowUnix: int, now: nat, u: string)
    requires Scanned(b, conns, b', conns', g, limits, nowUnix, now) && u in limits && limits[u] > 0
    ensures LiveIdentities(conns', u, now, IdleGrace) ==
            AdmittedSet(HeldFor(HeldBy(b, g), u), ActiveOf(conns, u), limits[u], now, IdleGrace)
    ensures var n := |LiveIdentities(conns, u, now, IdleGrace)|;
            |LiveIdentities(conns', u, now, IdleGrace)| == if n < limits[u] then n else limits[u]
    ensures (if u in b'.counts then b'.counts[u] else 0) == |LiveIdentities(conns', u, now, IdleGrace)|
  {
    hide Judged, AllFindings, AdmittedSet, ActiveOf, LiveIdentities, Closed, BansSettled, HeldFor, HeldBy;
    var f := AllFindings(HeldBy(b, g), conns, limits, now);
    FindingsAt(HeldBy(b, g), conns, limits, now, u);
    VerdictParts(HeldBy(b, g), conns, limits[u], now, u);
    ClosedLeaves(conns, f.drop, u, now, IdleGrace);
  }

  lemma FindingsAt(held: Holders, conns: Connections, limits: map<string, nat>, now: nat, u: string)
    requires u in limits
    ensures var f, v := AllFindings(held, conns, limits, now), Judged(held, conns, limits[u], now, u);
            && (if u in f.drop then f.drop[u] else {}) == v.dropped
            && (if u in f.counts then f.counts[u] else 0) == |v.admitted|
            && u in f.capped && f.capped[u] == AtCap(v, limits[u])
  {
    hide Judged, RecordsFor, AtCap;
  }

  lemma VerdictParts(held: Holders, conns: Connections, limit: nat, now: nat, u: string)
    requires limit > 0
    ensures var v, all := Judged(held, conns, limit, now, u), LiveIdentities(conns, u, now, IdleGrace);
            && v.admitted.Keys == AdmittedSet(HeldFor(held, u), ActiveOf(conns, u), limit, now, IdleGrace) <= all
            && v.dropped == all - v.admitted.Keys
            && |v.admitted| == |v.admitted.Keys| == if |all| < limit then |all| else limit
  {
    hide Candidates, AdmittedSet, ActiveOf, LiveIdentities, HeldFor;
    var h, active := HeldFor(held, u), ActiveOf(conns, u);
    CandidatesAreLive(conns, u, now, IdleGrace);
    AdmittedExactly(h, active, limit, now, IdleGrace);
    AdmittedAreCandidates(h, active, limit, now, IdleGrace);
  }

  lemma AdmittedAreCandidates(held: map<Addr, Hold>, active: map<Addr, Window>, limit: int, now: nat, grace: int)
    ensures AdmittedSet(held, active, limit, now, grace) <= Candidates(active, now, grace)
  {
  }

  /** A scan closes exactly the connections of the identities it dropped: nothing of a user without a limit, and
      nothing that has no address. */
  lemma ScanClosesExactly(b: Book, conns: Connections, b': Book, conns': Connections, g: nat, limits: map<string, nat>, nowUnix: int, now: nat, id: ConnId)
    requires Scanned(b, conns, b', conns', g, limits, nowUnix, now) && id in conns
    ensures var c := conns[id];
            id !in conns' <==>
            Counted(c) && c.user in limits && c.source in Judged(HeldBy(b, g), conns, limits[c.user], now, c.user).dropped
    ensures id in conns' ==> conns'[id] == conns[id]
  {
    hide AllFindings, BansSettled, Judged, HeldBy;
    var c, f := conns[id], AllFindings(HeldBy(b, g), conns, limits, now);
    DropIsLimited(HeldBy(b, g), conns, limits, now, c.user);
    if c.user in limits {
      FindingsAt(HeldBy(b, g), conns, limits, now, c.user);
      NobodyIsNotDropped(HeldBy(b, g), conns, limits[c.user], now);
    }
  }

  lemma DropIsLimited(held: Holders, conns: Connections, limits: map<string, nat>, now: nat, u: string)
    ensures u in AllFindings(held, conns, limits, now).drop ==> u in limits
  {
    hide Judged, CountsFor, RecordsFor, CapsFor;
  }

  /** Connections without a user belong to nobody who could be limited. */
  lemma NobodyIsNotDropped(held: Holders, conns: Connections, limit: int, now: nat)
    ensures Judged(held, conns, limit, now, "").dropped == {}
  {
    assert Identities(conns, "") == {};
    assert Candidates(ActiveOf(conns, ""), now, IdleGrace) == {};
  }

  /** A ban the scan just placed survives the sweep at its end.  Only the cap can cost it, and then the
      list holds nothing but bans just as recent. */
  lemma FreshBansHold(b: Book, conns: Connections, b': Book, conns': Connections, g: nat, limits: map<string, nat>, nowUnix: int, now: nat, k: Key)
    requires Scanned(b, conns, b', conns', g, limits, nowUnix, now)
    requires k.user in limits && k.ip in Judged(HeldBy(b, g), conns, limits[k.user], now, k.user).dropped
    ensures var due := Due(b.bans, nowUnix, g, AllFindings(HeldBy(b, g), conns, limits, now).drop);
            k in b'.bans || |due| > BanMaxSize
    ensures k in b'.bans ==> b'.bans[k] == Ban(nowUnix + BanTTL, g)
    ensures k !in b'.bans && Within(b.bans, nowUnix) ==> forall l :: l in b'.bans ==> b'.bans[l].until == nowUnix + BanTTL
  {
    hide AllFindings, Due, Swept, Judged, HeldBy, Within, LatestStay, Submap, BansSettled;
    var f := AllFindings(HeldBy(b, g), conns, limits, now);
    FreshBanIsKept(HeldBy(b, g), conns, limits, now, b.bans, nowUnix, g, k);
    KeptIsSettled(b.bans, b'.bans, nowUnix, g, f.drop, f.capped, k);
  }

  lemma KeptIsSettled(before: Bans, after: Bans, now: int, g: nat, drop: DropSets, capped: map<string, bool>, k: Key)
    requires BansSettled(before, after, now, g, drop, capped)
    requires var kept := Swept(Due(before, now, g, drop), now, Seen(g, capped));
             k in kept && kept[k] == Ban(now + BanTTL, g)
    ensures k in after || |Due(before, now, g, drop)| > BanMaxSize
    ensures k in after ==> after[k] == Ban(now + BanTTL, g)
    ensures k !in after && Within(before, now) ==> forall l :: l in after ==> after[l].until == now + BanTTL
  {
    hide Due, Swept;
    if k !in after && Within(before, now) {
      DueWithin(before, now, g, drop, Seen(g, capped));
    }
  }

  lemma FreshBanIsKept(held: Holders, conns: Connections, limits: map<string, nat>, now: nat, bans: Bans, nowUnix: int, g: nat, k: Key)
    requires k.user in limits && k.ip in Judged(held, conns, limits[k.user], now, k.user).dropped
    ensures var f := AllFindings(held, conns, limits, now);
            var kept := Swept(Due(bans, nowUnix, g, f.drop), nowUnix, Seen(g, f.capped));
            k in kept && kept[k] == Ban(nowUnix + BanTTL, g)
  {
    hide Judged, AllFindings;
    var f := AllFindings(held, conns, limits, now);
    FindingsAt(held, conns, limits, now, k.user);
    assert Hit(f.drop, k.user, k.ip) && f.capped[k.user];
    assert k == Key(k.user, k.ip) && k in DropKeys(f.drop);
  }

  lemma DueWithin(bans: Bans, now: int, g: nat, drop: DropSets, scope: Scope)
    requires Within(bans, now)
    ensures Within(Swept(Due(bans, now, g, drop), now, scope), now)
  {
  }

  /** A ban that no longer protects anything is gone: every ban left is of a limited client, and one placed on
      this very tracker is of a client that fills its limit. */
  lemma IdleBansAreLifted(b: Book, conns: Connections, b': Book, conns': Connections, g: nat, limits: map<string, nat>, nowUnix: int, now: nat, k: Key)
    requires Scanned(b, conns, b', conns', g, limits, nowUnix, now) && (forall u :: u in limits ==> limits[u] > 0) && k in b'.bans
    ensures k.user in limits && nowUnix < b'.bans[k].until
    ensures b'.bans[k].generation == g ==> |LiveIdentities(conns', k.user, now, IdleGrace)| == limits[k.user]
  {
    hide AllFindings, Judged, Due, LatestStay, Within, LiveIdentities, AdmittedSet, HeldBy, Closed;
    var held := HeldBy(b, g);
    var f := AllFindings(held, conns, limits, now);
    CapsCover(held, conns, limits, now);
    assert k in Swept(Due(b.bans, nowUnix, g, f.drop), nowUnix, Seen(g, f.capped));
    if b'.bans[k].generation == g {
      CapIsFull(held, conns, limits, now, k.user);
      ScanMeetsLimits(b, conns, b', conns', g, limits, nowUnix, now, k.user);
    }
  }

  lemma CapIsFull(held: Holders, conns: Connections, limits: map<string, nat>, now: nat, u: string)
    requires u in limits && limits[u] > 0
    ensures u in AllFindings(held, conns, limits, now).capped
    ensures AllFindings(held, conns, limits, now).capped[u] <==> |LiveIdentities(conns, u, now, IdleGrace)| >= limits[u]
  {
    hide AllFindings, Judged, LiveIdentities, AdmittedSet, HeldFor, ActiveOf;
    FindingsAt(held, conns, limits, now, u);
    VerdictParts(held, conns, limits[u], now, u);
    var v, all := Judged(held, conns, limits[u], now, u), LiveIdentities(conns, u, now, IdleGrace);
    assert all == v.admitted.Keys + v.dropped;
  }

  /** What a scan remembers of a client is the record of IpLimit, so its seniority and its bound hold from
      scan to scan. */
  lemma ScanIsScanRecord(b: Book, conns: Connections, b': Book, conns': Connections, g: nat, limits: map<string, nat>, nowUnix: int, now: nat, u: string)
    requires Scanned(b, conns, b', conns', g, limits, nowUnix, now)
    ensures HeldFor(HeldBy(b', g), u) ==
            if u in limits then ScanRecord(HeldFor(HeldBy(b, g), u), Scan(ActiveOf(conns, u), limits[u], now), IdleGrace, HoldMemory) else map[]
    ensures b.lastGeneration != g ==> HeldFor(HeldBy(b, g), u) == map[]
  {
    hide BansSettled, Closed, CountsFor, DropsFor, CapsFor, Remembered, Admitted, Dropped, ActiveOf;
  }

  /** Enforcement settles: a scan straight after a scan has nobody to drop. */
  lemma SecondScanDropsNothing(b: Book, conns: Connections, b': Book, conns': Connections, g: nat, limits: map<string, nat>, nowUnix: int, now: nat)
    requires Scanned(b, conns, b', conns', g, limits, nowUnix, now) && forall u :: u in limits ==> limits[u] > 0
    ensures AllFindings(HeldBy(b', g), conns', limits, now).drop == map[]
  {
    hide Scanned, Judged, CountsFor, RecordsFor, CapsFor, HeldBy;
    var held := HeldBy(b', g);
    forall u | u in limits
      ensures Judged(held, conns', limits[u], now, u).dropped == {}
    {
      ScanMeetsLimits(b, conns, b', conns', g, limits, nowUnix, now, u);
      NobodyOver(held, conns', limits[u], now, u);
    }
  }

  lemma NobodyOver(held: Holders, conns: Connections, limit: nat, now: nat, u: string)
    requires |LiveIdentities(conns, u, now, IdleGrace)| <= limit
    ensures Judged(held, conns, limit, now, u).dropped == {}
  {
    hide Candidates, AdmittedSet, ActiveOf, LiveIdentities, HeldFor;
    var h, active := HeldFor(held, u), ActiveOf(conns, u);
    CandidatesAreLive(conns, u, now, IdleGrace);
    AdmittedExactly(h, active, limit, now, IdleGrace);
    AdmittedAreCandidates(h, active, limit, now, IdleGrace);
    var all, admitted := Candidates(active, now, IdleGrace), AdmittedSet(h, active, limit, now, IdleGrace);
    assert all == admitted + (all - admitted);
  }

  // ---------- whole runs ----------

  /** A node on its own: no master's lease is in force. */
  datatype World = World(book: Book, conns: Connections, generation: nat, up: bool, now: int)

  datatype Event =
    | Connect(id: ConnId, conn: Conn)
    | Disconnect(id: ConnId)
    | Touch(id: ConnId, at: nat)
    | Tick(seconds: nat)
    | Stop
    | Start
    | Enforce(limits: map<string, nat>, clock: nat)

  function Routed(w: World, id: ConnId, c: Conn): Connections {
    if w.up && id !in w.conns && Admits(w.book.bans, NoLease, c, w.now) then w.conns[id := c] else w.conns
  }

  /** EnforceIPLimits taken as one step. */
  ghost predicate Enforced(w: World, w': World, limits: map<string, nat>, clock: nat) {
    && w' == w.(book := w'.book, conns := w'.conns)
    && (limits == map[] ==> w'.conns == w.conns && w'.book == Book(map[], map[], w.book.lastGeneration, map[]))
    && (limits != map[] && !w.up ==> w'.conns == w.conns && w'.book == Book(Live(w.book.bans, w.now), map[], w.book.lastGeneration, map[]))
    && (limits != map[] && w.up ==> Scanned(w.book, w.conns, w'.book, w'.conns, w.generation, limits, w.now, clock))
  }

  ghost predicate Step(w: World, e: Event, w': World) {
    match e
    case Connect(id, c) => w' == w.(conns := Routed(w, id, c))
    case Disconnect(id) => w' == w.(conns := w.conns - {id})
    case Touch(id, at) => w' == w.(conns := if id in w.conns then w.conns[id := w.conns[id].(lastActive := at)] else w.conns)
    case Tick(seconds) => w' == w.(now := w.now + seconds)
    case Stop => w' == w.(conns := map[], up := false)
    case Start => w' == w.(conns := map[], up := true, generation := w.generation + 1)
    case Enforce(limits, clock) => Enforced(w, w', limits, clock)
  }

  ghost predicate Run(ws: seq<World>, es: seq<Event>) {
    |ws| == |es| + 1 && forall i :: 0 <= i < |es| ==> Step(ws[i], es[i], ws[i + 1])
  }

  const Initial: World := World(Book(map[], map[], 0, map[]), map[], 0, false, 0)

  predicate Banned(w: World, k: Key) {
    k in w.book.bans && w.now < w.book.bans[k].until
  }

  /** A banned identity has no connection in the tracker. */
  predicate BannedAreOut(w: World) {
    forall id :: id in w.conns && Counted(w.conns[id]) ==> !Banned(w, Key(w.conns[id].user, w.conns[id].source))
  }

  predicate Sound(w: World) {
    && BannedAreOut(w)
    && |w.book.bans| <= BanMaxSize
    && Within(w.book.bans, w.now)
    && forall k :: k in w.book.bans ==> w.book.bans[k].generation <= w.generation
  }

  lemma StepIsSound(w: World, e: Event, w': World)
    requires Sound(w) && Step(w, e, w')
    ensures Sound(w')
  {
    match e
    case Connect(id, c) =>
    case Disconnect(id) =>
    case Touch(id, at) =>
      assert id in w.conns ==> w'.conns[id].user == w.conns[id].user && w'.conns[id].source == w.conns[id].source;
    case Tick(seconds) =>
    case Stop =>
    case Start =>
    case Enforce(limits, clock) =>
      if limits == map[] {
      } else if !w.up {
        assert Submap(w'.book.bans, w.book.bans);
        SubmapIsSmaller(w'.book.bans, w.book.bans);
      } else {
        ScanIsSound(w, w', limits, clock);
      }
  }

  lemma ScanIsSound(w: World, w': World, limits: map<string, nat>, clock: nat)
    requires Sound(w) && limits != map[] && w.up && Enforced(w, w', limits, clock)
    ensures Sound(w')
  {
    hide AllFindings, BansSettled, Closed, HeldBy, Within;
    var f := AllFindings(HeldBy(w.book, w.generation), w.conns, limits, clock);
    SettledAreOldOrNew(w.book.bans, w'.book.bans, w.now, w.generation, f.drop, f.capped);
    forall id | id in w'.conns && Counted(w'.conns[id])
      ensures !Banned(w', Key(w'.conns[id].user, w'.conns[id].source))
    {
      ClosedAt(w.conns, f.drop, id);
      assert !Banned(w, Key(w.conns[id].user, w.conns[id].source));
    }
  }

  lemma ClosedAt(conns: Connections, drop: DropSets, id: ConnId)
    requires id in Closed(conns, drop) && Counted(Closed(conns, drop)[id])
    ensures id in conns && Closed(conns, drop)[id] == conns[id] && !Hit(drop, conns[id].user, conns[id].source)
  {
  }

  lemma SettledAreOldOrNew(before: Bans, after: Bans, now: int, g: nat, drop: DropSets, capped: map<string, bool>)
    requires BansSettled(before, after, now, g, drop, capped)
    ensures |after| <= BanMaxSize
    ensures forall k :: k in after ==>
              if Hit(drop, k.user, k.ip) then after[k] == Ban(now + BanTTL, g) else k in before && after[k] == before[k]
    ensures Within(before, now) ==> Within(after, now)
  {
    hide LatestStay;
    forall k | k in after
      ensures if Hit(drop, k.user, k.ip) then after[k] == Ban(now + BanTTL, g) else k in before && after[k] == before[k]
    {
      DueIsOldOrNew(before, now, g, drop, k);
    }
  }

  lemma DueIsOldOrNew(bans: Bans, now: int, g: nat, drop: DropSets, k: Key)
    requires k in Due(bans, now, g, drop)
    ensures if Hit(drop, k.user, k.ip) then Due(bans, now, g, drop)[k] == Ban(now + BanTTL, g)
            else k in bans && Due(bans, now, g, drop)[k] == bans[k]
  {
  }

  /** In every run, at every moment: a banned identity is out, and the list has at most 1024 entries. */
  lemma {:induction false} RunsAreSound(ws: seq<World>, es: seq<Event>)
    requires Run(ws, es) && Sound(ws[0])
    ensures forall i :: 0 <= i < |ws| ==> Sound(ws[i])
    decreases |es|
  {
    hide Step, Sound;
    if es != [] {
      var n := |es| - 1;
      assert Step(ws[n], es[n], ws[n + 1]);
      RunsAreSound(ws[..n + 1], es[..n]);
      assert ws[..n + 1][n] == ws[n];
      StepIsSound(ws[n], es[n], ws[n + 1]);
      forall i | 0 <= i < |ws|
        ensures Sound(ws[i])
      {
        if i <= n {
          assert ws[..n + 1][i] == ws[i];
        }
      }
    }
  }

  lemma InitialIsSound()
    ensures Sound(Initial)
  {
  }

  /** The client still has a limit and the list has room. */
  ghost predicate LeavesRoom(w: World, e: Event, user: string) {
    e.Enforce? ==>
      && user in e.limits
      && (w.up ==> |Due(w.book.bans, w.now, w.generation, AllFindings(HeldBy(w.book, w.generation), w.conns, e.limits, e.clock).drop)| <= BanMaxSize)
  }

  lemma BanOutlivesStep(w: World, e: Event, w': World, k: Key)
    requires Sound(w) && Step(w, e, w') && LeavesRoom(w, e, k.user)
    requires Banned(w, k) && w.book.bans[k].generation < w.generation && w'.now < w.book.bans[k].until
    ensures k in w'.book.bans && w'.book.bans[k] == w.book.bans[k]
    ensures w.generation <= w'.generation && w.now <= w'.now
  {
    hide AllFindings, BansSettled, Closed, HeldBy, Within, BannedAreOut;
    if e.Enforce? && w.up {
      var held := HeldBy(w.book, w.generation);
      BannedIsNotDropped(w, held, e.limits, e.clock, k);
      CapsCover(held, w.conns, e.limits, e.clock);
      var f := AllFindings(held, w.conns, e.limits, e.clock);
      SettledKeepsEarlier(w.book.bans, w'.book.bans, w.now, w.generation, f.drop, f.capped, k);
    }
  }

  lemma SettledKeepsEarlier(before: Bans, after: Bans, now: int, g: nat, drop: DropSets, capped: map<string, bool>, k: Key)
    requires BansSettled(before, after, now, g, drop, capped) && |Due(before, now, g, drop)| <= BanMaxSize
    requires k in before && now < before[k].until && before[k].generation != g && k.user in capped && !Hit(drop, k.user, k.ip)
    ensures k in after && after[k] == before[k]
  {
    hide LatestStay, Submap, Within;
    assert k in Due(before, now, g, drop) && Due(before, now, g, drop)[k] == before[k];
  }

  lemma CapsCover(held: Holders, conns: Connections, limits: map<string, nat>, clock: nat)
    ensures AllFindings(held, conns, limits, clock).capped.Keys == limits.Keys
  {
  }

  /** Someone without a connection is not a candidate, so the scan cannot renew the ban either. */
  lemma BannedIsNotDropped(w: World, held: Holders, limits: map<string, nat>, clock: nat, k: Key)
    requires BannedAreOut(w) && Banned(w, k)
    ensures !Hit(AllFindings(held, w.conns, limits, clock).drop, k.user, k.ip)
  {
    hide CountsFor, RecordsFor, CapsFor, AdmittedSet, Banned, ActiveOf;
    forall id | id in w.conns && Counted(w.conns[id])
      ensures Key(w.conns[id].user, w.conns[id].source) != k
    {
      assert !Banned(w, Key(w.conns[id].user, w.conns[id].source));
    }
    assert k.ip !in LiveIdentities(w.conns, k.user, clock, IdleGrace);
    CandidatesAreLive(w.conns, k.user, clock, IdleGrace);
  }

  /** A restart forgives nobody: a ban placed on an earlier tracker is there, unchanged, until its time is
      up, whatever connects, leaves, restarts or is scanned meanwhile. */
  lemma {:induction false} EarlierBanLasts(ws: seq<World>, es: seq<Event>, k: Key)
    requires Run(ws, es) && Sound(ws[0])
    requires Banned(ws[0], k) && ws[0].book.bans[k].generation < ws[0].generation
    requires forall i :: 0 <= i < |es| ==> LeavesRoom(ws[i], es[i], k.user)
    ensures ws[0].generation <= ws[|es|].generation && ws[0].now <= ws[|es|].now
    ensures ws[|es|].now < ws[0].book.bans[k].until ==> k in ws[|es|].book.bans && ws[|es|].book.bans[k] == ws[0].book.bans[k]
    decreases |es|
  {
    hide Step, Sound, LeavesRoom;
    if es != [] {
      var n := |es| - 1;
      var front := ws[..n + 1];
      assert forall i :: 0 <= i <= n ==> front[i] == ws[i];
      assert Run(front, es[..n]);
      EarlierBanLasts(front, es[..n], k);
      RunsAreSound(front, es[..n]);
      assert Step(ws[n], es[n], ws[n + 1]) && Sound(front[n]) && LeavesRoom(ws[n], es[n], k.user);
      StepForward(ws[n], es[n], ws[n + 1]);
      if ws[n + 1].now < ws[0].book.bans[k].until {
        BanOutlivesStep(ws[n], es[n], ws[n + 1], k);
      }
    }
  }

  lemma StepForward(w: World, e: Event, w': World)
    requires Step(w, e, w')
    ensures w.generation <= w'.generation && w.now <= w'.now
  {
    hide Scanned;
  }
}

/**
 The table of live connections (core/tracker_conn.go): who counts as one subscriber, the
 snapshot an IP-limit scan works from, and the closing of what the scan dropped.
 */
module ConnTracker {
  import opened IpLimit

  // ---------- the identity of a source address ----------

  const Half: nat := 0x1_0000_0000_0000_0000

  /** A v6 address is its upper and lower 64 bits; a v4-mapped one is ::ffff:0:0/96
      (section 2.5.5.2 of RFC 4291). */
  datatype Source = V4(bits: nat) | V6(upper: nat, lower: nat, zone: string)

  predicate IsSource(s: Source) {
    match s
    case V4(bits) => bits < 0x1_0000_0000
    case V6(upper, lower, _) => upper < Half && lower < Half
  }

  predicate Mapped(s: Source) {
    s.V6? && s.upper == 0 && s.lower / 0x1_0000_0000 == 0xffff
  }

  function Unmap(s: Source): Source {
    if Mapped(s) then V4(s.lower % 0x1_0000_0000) else s
  }

  function NormalizeSrc(s: Source): Source {
    var u := Unmap(s);
    if u.V6? then V6(u.upper, 0, "") else u
  }

  /** Identities as the addresses of the limit: v4 before v6, then by value. */
  function Rank(s: Source): Addr {
    if s.V4? then s.bits else 0x1_0000_0000 + s.upper
  }

  /** Two addresses are one subscriber exactly when they are the same v4 address, mapped or not, or
      share a v6 /64 that is not the mapped range. */
  lemma SameSubscriber(s: Source, t: Source)
    requires IsSource(s) && IsSource(t)
    ensures NormalizeSrc(NormalizeSrc(s)) == NormalizeSrc(s)
    ensures NormalizeSrc(s) == NormalizeSrc(t) <==>
            Unmap(s) == Unmap(t) || (Unmap(s).V6? && Unmap(t).V6? && s.upper == t.upper)
    ensures Rank(NormalizeSrc(s)) == Rank(NormalizeSrc(t)) <==> NormalizeSrc(s) == NormalizeSrc(t)
  {
    assert Mapped(s) ==> NormalizeSrc(s).V4?;
    assert !Mapped(V6(0, 0, ""));
  }

  // ---------- the table ----------

  datatype Conn = Conn(user: string, valid: bool, source: Addr, createdAt: int, lastActive: nat)

  type ConnId = nat

  type Connections = map<ConnId, Conn>

  /** Unauthenticated inbounds and sources that are not addresses are never counted. */
  predicate Counted(c: Conn) {
    c.user != "" && c.valid
  }

  predicate From(c: Conn, u: string, a: Addr) {
    Counted(c) && c.user == u && c.source == a
  }

  function Of(conns: Connections, u: string, a: Addr): set<ConnId> {
    set id | id in conns && From(conns[id], u, a)
  }

  function Identities(conns: Connections, u: string): set<Addr> {
    set id | id in conns && Counted(conns[id]) && conns[id].user == u :: conns[id].source
  }

  predicate Fresh(c: Conn, now: nat, grace: int) {
    now - c.lastActive <= grace
  }

  /** The identities of a user with a connection that moved bytes recently. */
  function LiveIdentities(conns: Connections, u: string, now: nat, grace: int): set<Addr> {
    set id | id in conns && Counted(conns[id]) && conns[id].user == u && Fresh(conns[id], now, grace) :: conns[id].source
  }

  ghost function Oldest(conns: Connections, ids: set<ConnId>): (t: int)
    requires ids != {} && ids <= conns.Keys
    ensures forall id :: id in ids ==> t <= conns[id].createdAt
    ensures exists id :: id in ids && t == conns[id].createdAt
  {
    var id :| id in ids;
    var rest := ids - {id};
    assert ids == rest + {id};
    if rest == {} then conns[id].createdAt
    else
      var t := Oldest(conns, rest);
      if t < conns[id].createdAt then t else conns[id].createdAt
  }

  ghost function Newest(conns: Connections, ids: set<ConnId>): (t: nat)
    requires ids != {} && ids <= conns.Keys
    ensures forall id :: id in ids ==> conns[id].lastActive <= t
    ensures exists id :: id in ids && t == conns[id].lastActive
  {
    var id :| id in ids;
    var rest := ids - {id};
    assert ids == rest + {id};
    if rest == {} then conns[id].lastActive
    else
      var t := Newest(conns, rest);
      if t > conns[id].lastActive then t else conns[id].lastActive
  }

  ghost function WindowOf(conns: Connections, u: string, a: Addr): (w: Window)
    requires a in Identities(conns, u)
  {
    assert Of(conns, u, a) != {} by {
      var id :| id in conns && From(conns[id], u, a);
      assert id in Of(conns, u, a);
    }
    Window(Oldest(conns, Of(conns, u, a)), Newest(conns, Of(conns, u, a)))
  }

  /** From its oldest connection to the last byte on any of them. */
  ghost function ActiveOf(conns: Connections, u: string): map<Addr, Window> {
    map a | a in Identities(conns, u) :: WindowOf(conns, u, a)
  }

  // ---------- UserIPs ----------

  type Snapshot = map<string, map<Addr, Window>>

  function WindowsFor(users: Snapshot, u: string): map<Addr, Window> {
    if u in users then users[u] else map[]
  }

  predicate Wanted(c: Conn, want: string -> bool) {
    Counted(c) && want(c.user)
  }

  function Noted(users: Snapshot, c: Conn): Snapshot {
    var ips := WindowsFor(users, c.user);
    var w := if c.source !in ips then Window(c.createdAt, c.lastActive)
             else Window(
               if c.createdAt < ips[c.source].firstSeen then c.createdAt else ips[c.source].firstSeen,
               if c.lastActive > ips[c.source].lastSeen then c.lastActive else ips[c.source].lastSeen);
    users[c.user := ips[c.source := w]]
  }

  /** What the table says about u after the connections `seen`. */
  ghost predicate Tallies(conns: Connections, seen: set<ConnId>, want: string -> bool, users: Snapshot) {
    && seen <= conns.Keys
    && (forall id :: id in seen && Wanted(conns[id], want) ==> Covers(WindowsFor(users, conns[id].user), conns[id]))
    && forall u, a :: a in WindowsFor(users, u) ==> want(u) && Backed(conns, seen, u, a, WindowsFor(users, u)[a])
  }

  predicate Covers(ips: map<Addr, Window>, c: Conn) {
    c.source in ips && ips[c.source].firstSeen <= c.createdAt && c.lastActive <= ips[c.source].lastSeen
  }

  predicate Backed(conns: Connections, seen: set<ConnId>, u: string, a: Addr, w: Window)
    requires seen <= conns.Keys
  {
    && (exists id :: id in seen && From(conns[id], u, a) && conns[id].createdAt == w.firstSeen)
    && (exists id :: id in seen && From(conns[id], u, a) && conns[id].lastActive == w.lastSeen)
  }

  lemma NotedTallies(conns: Connections, seen: set<ConnId>, want: string -> bool, users: Snapshot, id: ConnId)
    requires Tallies(conns, seen, want, users) && id in conns
    ensures Tallies(conns, seen + {id}, want, if Wanted(conns[id], want) then Noted(users, conns[id]) else users)
  {
    var c := conns[id];
    var after := if Wanted(c, want) then Noted(users, c) else users;
    var more := seen + {id};
    forall u, a | a in WindowsFor(after, u)
      ensures want(u) && Backed(conns, more, u, a, WindowsFor(after, u)[a])
    {
      if u == c.user && a == c.source && Wanted(c, want) {
        var w := WindowsFor(after, u)[a];
        assert id in more && From(conns[id], u, a);
        if a in WindowsFor(users, u) {
          assert Backed(conns, seen, u, a, WindowsFor(users, u)[a]);
        }
      } else {
        assert Backed(conns, seen, u, a, WindowsFor(users, u)[a]);
      }
    }
  }

  lemma TallyIsExact(conns: Connections, want: string -> bool, users: Snapshot, u: string)
    requires Tallies(conns, conns.Keys, want, users)
    ensures WindowsFor(users, u) == if want(u) then ActiveOf(conns, u) else map[]
  {
    hide Tallies, Backed, Covers, WindowOf, Identities, WindowsFor;
    var ips := WindowsFor(users, u);
    forall a
      ensures a in ips <==> want(u) && a in Identities(conns, u)
      ensures a in ips ==> a in Identities(conns, u) && ips[a] == WindowOf(conns, u, a)
    {
      TallyAt(conns, want, users, u, a);
    }
    assert want(u) ==> ips.Keys == Identities(conns, u);
  }

  lemma TallyAt(conns: Connections, want: string -> bool, users: Snapshot, u: string, a: Addr)
    requires Tallies(conns, conns.Keys, want, users)
    ensures a in WindowsFor(users, u) <==> want(u) && a in Identities(conns, u)
    ensures a in WindowsFor(users, u) ==> a in Identities(conns, u) && WindowsFor(users, u)[a] == WindowOf(conns, u, a)
  {
    hide WindowOf;
    var ips := WindowsFor(users, u);
    if a in ips {
      assert Backed(conns, conns.Keys, u, a, ips[a]);
      BackedIsWindow(conns, u, a, ips[a]);
    }
    if want(u) && a in Identities(conns, u) {
      var id :| id in conns && From(conns[id], u, a);
      assert Covers(WindowsFor(users, conns[id].user), conns[id]);
    }
  }

  lemma BackedIsWindow(conns: Connections, u: string, a: Addr, w: Window)
    requires a in Identities(conns, u) && Backed(conns, conns.Keys, u, a, w)
    requires forall id :: id in conns && From(conns[id], u, a) ==> w.firstSeen <= conns[id].createdAt && conns[id].lastActive <= w.lastSeen
    ensures w == WindowOf(conns, u, a)
  {
    var first :| first in conns && From(conns[first], u, a) && conns[first].createdAt == w.firstSeen;
    var last :| last in conns && From(conns[last], u, a) && conns[last].lastActive == w.lastSeen;
    assert first in Of(conns, u, a) && last in Of(conns, u, a);
  }

  /** Idle or not is a property of an identity's freshest connection. */
  lemma CandidatesAreLive(conns: Connections, u: string, now: nat, grace: int)
    ensures Candidates(ActiveOf(conns, u), now, grace) == LiveIdentities(conns, u, now, grace)
  {
    var active := ActiveOf(conns, u);
    forall a
      ensures a in Candidates(active, now, grace) <==> a in LiveIdentities(conns, u, now, grace)
    {
      if a in Candidates(active, now, grace) {
        var id :| id in Of(conns, u, a) && active[a].lastSeen == conns[id].lastActive;
        assert Fresh(conns[id], now, grace);
      }
      if a in LiveIdentities(conns, u, now, grace) {
        var id :| id in conns && From(conns[id], u, a) && Fresh(conns[id], now, grace);
        assert id in Of(conns, u, a) && a in Identities(conns, u);
      }
    }
  }

  // ---------- CloseConnByUserIPs ----------

  type DropSets = map<string, set<Addr>>

  predicate Hit(drop: DropSets, u: string, a: Addr) {
    u in drop && a in drop[u]
  }

  function Closed(conns: Connections, drop: DropSets): Connections {
    map id | id in conns && !(conns[id].valid && Hit(drop, conns[id].user, conns[id].source)) :: conns[id]
  }

  lemma ClosedLeaves(conns: Connections, drop: DropSets, u: string, now: nat, grace: int)
    ensures LiveIdentities(Closed(conns, drop), u, now, grace) ==
            LiveIdentities(conns, u, now, grace) - (if u in drop then drop[u] else {})
  {
    var left := Closed(conns, drop);
    forall a
      ensures a in LiveIdentities(left, u, now, grace) <==> a in LiveIdentities(conns, u, now, grace) && !Hit(drop, u, a)
    {
      if a in LiveIdentities(conns, u, now, grace) && !Hit(drop, u, a) {
        var id :| id in conns && From(conns[id], u, a) && Fresh(conns[id], now, grace);
        assert From(conns[id], u, a);
        assert id in left && left[id] == conns[id];
      }
      if a in LiveIdentities(left, u, now, grace) {
        var id :| id in left && From(left[id], u, a) && Fresh(left[id], now, grace);
        assert From(conns[id], u, a);
      }
    }
  }

  class Tracker {
    var connections: Connections
    const generation: nat

    constructor (g: nat)
      ensures connections == map[] && generation == g
    {
      connections := map[];
      generation := g;
    }

    method UserIPs(want: string -> bool) returns (users: Snapshot)
      ensures forall u :: WindowsFor(users, u) == if want(u) then ActiveOf(connections, u) else map[]
    {
      users := map[];
      var todo := connections.Keys;
      while todo != {}
        invariant todo <= connections.Keys
        invariant Tallies(connections, connections.Keys - todo, want, users)
        decreases todo
      {
        hide *;
        var id :| id in todo;
        NotedTallies(connections, connections.Keys - todo, want, users, id);
        assert connections.Keys - (todo - {id}) == connections.Keys - todo + {id};
        if Wanted(connections[id], want) {
          users := Noted(users, connections[id]);
        }
        todo := todo - {id};
      }
      assert connections.Keys - todo == connections.Keys;
      forall u
        ensures WindowsFor(users, u) == if want(u) then ActiveOf(connections, u) else map[]
      {
        TallyIsExact(connections, want, users, u);
      }
    }

    method CloseConnByUserIPs(drop: DropSets) returns (closed: nat)
      modifies this
      ensures connections == Closed(old(connections), drop)
      ensures closed + |connections| == |old(connections)|
    {
      closed := 0;
      var todo := connections.Keys;
      while todo != {}
        invariant todo <= connections.Keys <= old(connections).Keys
        invariant forall id :: id in connections ==> connections[id] == old(connections)[id]
        invariant forall id :: id in old(connections) && id !in todo ==>
                    (id in connections <==> id in Closed(old(connections), drop))
        invariant forall id :: id in todo ==> id in connections
        invariant closed + |connections| == |old(connections)|
        decreases todo
      {
        var id :| id in todo;
        var c := connections[id];
        if c.valid && Hit(drop, c.user, c.source) {
          connections := connections - {id};
          closed := closed + 1;
        }
        todo := todo - {id};
      }
    }
  }
}

/**
 The per-client IP limit (service/iplimit.go): who keeps a slot, and what is remembered about
 who had one.  Addresses are ordered as netip.Addr.Compare orders them; times are readings
 of one tracker's monotonic clock.
 */
module IpLimit {
  import opened Measures

  type Addr = nat

  datatype Hold = Hold(at: int, lastSeen: nat)

  datatype Window = Window(firstSeen: int, lastSeen: nat)

  // ---------- who is ahead of whom ----------

  /** Not idle: counted against the limit, and evicted if it comes to that. */
  function Candidates(active: map<Addr, Window>, now: nat, grace: int): set<Addr> {
    set a | a in active && now - active[a].lastSeen <= grace
  }

  /** Remembered seniority wins over the oldest live connection. */
  function Since(held: map<Addr, Hold>, active: map<Addr, Window>, a: Addr): int
    requires a in active
  {
    if a in held then held[a].at else active[a].firstSeen
  }

  predicate Before(held: map<Addr, Hold>, active: map<Addr, Window>, a: Addr, b: Addr)
    requires a in active && b in active
  {
    var x, y := Since(held, active, a), Since(held, active, b);
    x < y || (x == y && a < b)
  }

  function Ahead(held: map<Addr, Hold>, active: map<Addr, Window>, candidates: set<Addr>, b: Addr): set<Addr>
    requires candidates <= active.Keys && b in active
  {
    set a | a in candidates && Before(held, active, a, b)
  }

  /** First come, first served: admitted are those with fewer than `limit` candidates ahead of them. */
  function AdmittedSet(held: map<Addr, Hold>, active: map<Addr, Window>, limit: int, now: nat, grace: int): set<Addr> {
    set a | a in Candidates(active, now, grace) && |Ahead(held, active, Candidates(active, now, grace), a)| < limit
  }

  function Admitted(held: map<Addr, Hold>, active: map<Addr, Window>, limit: int, now: nat, grace: int): map<Addr, Hold> {
    map a | a in AdmittedSet(held, active, limit, now, grace) :: Hold(Since(held, active, a), now)
  }

  function Dropped(held: map<Addr, Hold>, active: map<Addr, Window>, limit: int, now: nat, grace: int): set<Addr> {
    if limit <= 0 then {} else Candidates(active, now, grace) - AdmittedSet(held, active, limit, now, grace)
  }

  // ---------- planIPLimit ----------

  function Elements(s: seq<Addr>): set<Addr> {
    set i | 0 <= i < |s| :: s[i]
  }

  predicate Ranked(held: map<Addr, Hold>, active: map<Addr, Window>, s: seq<Addr>) {
    && (forall i :: 0 <= i < |s| ==> s[i] in active)
    && (forall i, j :: 0 <= i < j < |s| ==> Before(held, active, s[i], s[j]))
  }

  /** The sort: one candidate goes to its place among those already ranked. */
  method Insert(held: map<Addr, Hold>, active: map<Addr, Window>, s: seq<Addr>, a: Addr) returns (r: seq<Addr>)
    requires Ranked(held, active, s) && a in active && a !in Elements(s)
    ensures Ranked(held, active, r) && Elements(r) == Elements(s) + {a} && |r| == |s| + 1
  {
    var i := 0;
    while i < |s| && Before(held, active, s[i], a)
      invariant 0 <= i <= |s|
      invariant forall j :: 0 <= j < i ==> Before(held, active, s[j], a)
    {
      i := i + 1;
    }
    r := s[..i] + [a] + s[i..];
    InsertRanked(held, active, s, i, a);
    InsertElements(s, i, a);
  }

  lemma InsertRanked(held: map<Addr, Hold>, active: map<Addr, Window>, s: seq<Addr>, i: nat, a: Addr)
    requires Ranked(held, active, s) && a in active && a !in Elements(s) && i <= |s|
    requires forall j :: 0 <= j < i ==> Before(held, active, s[j], a)
    requires i < |s| ==> !Before(held, active, s[i], a)
    ensures Ranked(held, active, s[..i] + [a] + s[i..])
  {
    forall j | i <= j < |s|
      ensures Before(held, active, a, s[j])
    {
      assert s[i] in Elements(s) && s[j] in Elements(s);
      assert i < j ==> Before(held, active, s[i], s[j]);
    }
  }

  lemma InsertElements(s: seq<Addr>, i: nat, a: Addr)
    requires i <= |s|
    ensures Elements(s[..i] + [a] + s[i..]) == Elements(s) + {a}
  {
    var r := s[..i] + [a] + s[i..];
    assert r[i] == a;
    forall j | 0 <= j < |s|
      ensures s[j] in Elements(r)
    {
      assert s[j] == r[if j < i then j else j + 1];
    }
  }

  lemma {:induction false} ElementCount(s: seq<Addr>)
    requires forall i, j :: 0 <= i < j < |s| ==> s[i] != s[j]
    ensures |Elements(s)| == |s|
  {
    if s != [] {
      var front, last := s[..|s| - 1], s[|s| - 1];
      ElementCount(front);
      assert Elements(s) == Elements(front) + {last};
    }
  }

  /** In a ranked list exactly the ones further up are ahead. */
  lemma RankIsPosition(held: map<Addr, Hold>, active: map<Addr, Window>, s: seq<Addr>, i: nat)
    requires Ranked(held, active, s) && i < |s|
    ensures Elements(s) <= active.Keys && |Ahead(held, active, Elements(s), s[i])| == i
  {
    ElementCount(s[..i]);
    var ahead := Ahead(held, active, Elements(s), s[i]);
    forall a
      ensures a in ahead <==> a in Elements(s[..i])
    {
      if a in Elements(s) {
        var j :| 0 <= j < |s| && s[j] == a;
        assert j < i ==> s[..i][j] == a && Before(held, active, s[j], s[i]);
        assert i < j ==> Before(held, active, s[i], s[j]);
      }
    }
    assert ahead == Elements(s[..i]);
  }

  method RankCandidates(held: map<Addr, Hold>, active: map<Addr, Window>, now: nat, grace: int) returns (ranked: seq<Addr>)
    ensures Ranked(held, active, ranked) && Elements(ranked) == Candidates(active, now, grace)
  {
    ranked := [];
    var todo := active.Keys;
    while todo != {}
      invariant todo <= active.Keys && Ranked(held, active, ranked)
      invariant Elements(ranked) == Candidates(active, now, grace) - todo
      decreases todo
    {
      var a :| a in todo;
      if now - active[a].lastSeen <= grace {
        ranked := Insert(held, active, ranked, a);
      }
      todo := todo - {a};
    }
  }

  /** The first `limit` in rank are admitted and stamped, the rest are dropped. */
  method Admit(held: map<Addr, Hold>, active: map<Addr, Window>, ranked: seq<Addr>, limit: nat, now: nat)
    returns (admitted: map<Addr, Hold>, drop: seq<Addr>)
    requires Ranked(held, active, ranked)
    ensures var k := if |ranked| < limit then |ranked| else limit;
            admitted.Keys == Elements(ranked[..k]) && drop == ranked[k..]
    ensures forall a :: a in admitted ==> a in active && admitted[a] == Hold(Since(held, active, a), now)
  {
    admitted, drop := map[], [];
    var i := 0;
    while i < |ranked| && i < limit
      invariant 0 <= i <= |ranked| && i <= limit
      invariant admitted.Keys == Elements(ranked[..i])
      invariant forall a :: a in admitted ==> a in active && admitted[a] == Hold(Since(held, active, a), now)
    {
      admitted := admitted[ranked[i] := Hold(Since(held, active, ranked[i]), now)];
      InsertElements(ranked[..i], i, ranked[i]);
      assert ranked[..i][..i] + [ranked[i]] + ranked[..i][i..] == ranked[..i + 1];
      i := i + 1;
    }
    drop := ranked[i..];
  }

  method PlanIPLimit(held: map<Addr, Hold>, active: map<Addr, Window>, limit: int, now: nat, grace: int)
    returns (admitted: map<Addr, Hold>, drop: seq<Addr>)
    ensures admitted == Admitted(held, active, limit, now, grace)
    ensures Elements(drop) == Dropped(held, active, limit, now, grace)
    ensures limit > 0 ==> |admitted| == if |Candidates(active, now, grace)| < limit then |Candidates(active, now, grace)| else limit
    ensures limit > 0 ==> |admitted| + |drop| == |Candidates(active, now, grace)|
  {
    if limit <= 0 {
      assert AdmittedSet(held, active, limit, now, grace) == {};
      return map[], [];
    }
    hide AdmittedSet, Dropped, Candidates, Before, Since, Elements;
    var ranked := RankCandidates(held, active, now, grace);
    admitted, drop := Admit(held, active, ranked, limit, now);
    ghost var k := if |ranked| < limit then |ranked| else limit;
    FirstAdmitted(held, active, ranked, limit, now, grace, k);
    RankedCount(held, active, ranked, k);
    assert |admitted| == |admitted.Keys|;
    SameAdmitted(held, active, limit, now, grace, admitted);
  }

  lemma SameAdmitted(held: map<Addr, Hold>, active: map<Addr, Window>, limit: int, now: nat, grace: int, m: map<Addr, Hold>)
    requires m.Keys == AdmittedSet(held, active, limit, now, grace)
    requires forall a :: a in m ==> a in active && m[a] == Hold(Since(held, active, a), now)
    ensures m == Admitted(held, active, limit, now, grace)
  {
  }

  lemma RankedCount(held: map<Addr, Hold>, active: map<Addr, Window>, ranked: seq<Addr>, k: nat)
    requires Ranked(held, active, ranked) && k <= |ranked|
    ensures |Elements(ranked)| == |ranked| && |Elements(ranked[..k])| == k
  {
    ElementCount(ranked);
    ElementCount(ranked[..k]);
  }

  lemma FirstAdmitted(held: map<Addr, Hold>, active: map<Addr, Window>, ranked: seq<Addr>, limit: int, now: nat, grace: int, k: nat)
    requires Ranked(held, active, ranked) && Elements(ranked) == Candidates(active, now, grace)
    requires limit > 0 && k == if |ranked| < limit then |ranked| else limit
    ensures Elements(ranked[..k]) == AdmittedSet(held, active, limit, now, grace)
    ensures Elements(ranked[k..]) == Dropped(held, active, limit, now, grace)
  {
    forall i | 0 <= i < |ranked|
      ensures ranked[i] in AdmittedSet(held, active, limit, now, grace) <==> i < k
      ensures ranked[i] in Elements(ranked[..k]) <==> i < k
      ensures ranked[i] in Elements(ranked[k..]) <==> k <= i
    {
      RankIsPosition(held, active, ranked, i);
      assert i < k ==> ranked[..k][i] == ranked[i];
      assert k <= i ==> ranked[k..][i - k] == ranked[i];
    }
  }

  // ---------- rememberHolders ----------

  /** Everything admitted, and whoever went quiet recently enough and was not just dropped. */
  function Remembered(held: map<Addr, Hold>, admitted: map<Addr, Hold>, dropped: set<Addr>, now: nat, memory: int): map<Addr, Hold> {
    map a | a in admitted.Keys + held.Keys && (a in admitted || (now - held[a].lastSeen <= memory && a !in dropped)) ::
      if a in admitted then admitted[a] else held[a]
  }

  method RememberHolders(held: map<Addr, Hold>, admitted: map<Addr, Hold>, dropped: seq<Addr>, now: nat, memory: int)
    returns (record: map<Addr, Hold>)
    ensures record == Remembered(held, admitted, Elements(dropped), now, memory)
  {
    hide Elements;
    record := admitted;
    var todo := held.Keys;
    while todo != {}
      invariant todo <= held.Keys
      invariant record.Keys == Remembered(held, admitted, Elements(dropped), now, memory).Keys - (todo - admitted.Keys)
      invariant forall a :: a in record ==> record[a] == if a in admitted then admitted[a] else held[a]
      decreases todo
    {
      var a :| a in todo;
      if a !in record && now - held[a].lastSeen <= memory && a !in Elements(dropped) {
        record := record[a := held[a]];
      }
      todo := todo - {a};
    }
  }

  // ---------- one client over many scans ----------

  datatype Scan = Scan(active: map<Addr, Window>, limit: int, now: nat)

  function ScanRecord(held: map<Addr, Hold>, s: Scan, grace: int, memory: int): map<Addr, Hold> {
    Remembered(held, Admitted(held, s.active, s.limit, s.now, grace), Dropped(held, s.active, s.limit, s.now, grace), s.now, memory)
  }

  function RecordAfter(held: map<Addr, Hold>, scans: seq<Scan>, grace: int, memory: int): map<Addr, Hold>
    decreases |scans|
  {
    if scans == [] then held else ScanRecord(RecordAfter(held, scans[..|scans| - 1], grace, memory), scans[|scans| - 1], grace, memory)
  }

  /** When the address last held a slot, as the trace shows it: the last scan that found it live, or the time
      recorded before. */
  function LastHeld(before: nat, scans: seq<Scan>, a: Addr, grace: int): nat
    decreases |scans|
  {
    if scans == [] then before
    else
      var n := |scans| - 1;
      if a in Candidates(scans[n].active, scans[n].now, grace) then scans[n].now else LastHeld(before, scans[..n], a, grace)
  }

  /** Every scan that does not find the address live comes within `memory` of the last one that did. */
  predicate GapsFit(before: nat, scans: seq<Scan>, a: Addr, grace: int, memory: int) {
    forall i :: 0 <= i < |scans| ==>
      a in Candidates(scans[i].active, scans[i].now, grace) || scans[i].now - LastHeld(before, scans[..i], a, grace) <= memory
  }

  predicate NeverDropped(held: map<Addr, Hold>, scans: seq<Scan>, a: Addr, grace: int, memory: int) {
    forall i :: 0 <= i < |scans| ==>
      a !in Dropped(RecordAfter(held, scans[..i], grace, memory), scans[i].active, scans[i].limit, scans[i].now, grace)
  }

  lemma HoldIsKept(held: map<Addr, Hold>, s: Scan, a: Addr, grace: int, memory: int)
    requires a in held && s.limit > 0 && a !in Dropped(held, s.active, s.limit, s.now, grace)
    requires a in Candidates(s.active, s.now, grace) || s.now - held[a].lastSeen <= memory
    ensures var record := ScanRecord(held, s, grace, memory);
            && a in record && record[a].at == held[a].at
            && record[a].lastSeen == if a in Candidates(s.active, s.now, grace) then s.now else held[a].lastSeen
  {
  }

  /** An address that vanishes and returns keeps its original seniority: if it is never dropped and no gap
      outlasts the memory, then over any number of scans, with whatever limits and whoever else around, it
      stays on record with its first rank and the time it was last admitted. */
  lemma {:induction false} SeniorityIsKept(held: map<Addr, Hold>, scans: seq<Scan>, a: Addr, grace: int, memory: int)
    requires a in held && forall i :: 0 <= i < |scans| ==> scans[i].limit > 0
    requires NeverDropped(held, scans, a, grace, memory) && GapsFit(held[a].lastSeen, scans, a, grace, memory)
    ensures var record := RecordAfter(held, scans, grace, memory);
            && a in record && record[a] == Hold(held[a].at, LastHeld(held[a].lastSeen, scans, a, grace))
            && forall next: Scan :: a in next.active ==> Since(record, next.active, a) == held[a].at
    decreases |scans|
  {
    hide ScanRecord, Dropped, Candidates;
    if scans != [] {
      var n := |scans| - 1;
      var front := scans[..n];
      assert forall i :: 0 <= i < n ==> front[i] == scans[i] && front[..i] == scans[..i];
      SeniorityIsKept(held, front, a, grace, memory);
      HoldIsKept(RecordAfter(held, front, grace, memory), scans[n], a, grace, memory);
    }
  }

  /** What the memory must not do: an address that was dropped starts over. */
  lemma DroppedIsForgotten(held: map<Addr, Hold>, s: Scan, a: Addr, grace: int, memory: int)
    requires a in Dropped(held, s.active, s.limit, s.now, grace)
    ensures a !in ScanRecord(held, s, grace, memory)
  {
  }

  // ---------- the record stays small ----------

  function Stamps(record: map<Addr, Hold>): set<nat> {
    set a | a in record :: record[a].lastSeen
  }

  function StampedAt(record: map<Addr, Hold>, t: nat): set<Addr> {
    set a | a in record && record[a].lastSeen == t
  }

  function StampedIn(record: map<Addr, Hold>, ts: set<nat>): set<Addr> {
    set a | a in record && record[a].lastSeen in ts
  }

  predicate Spaced(ts: set<nat>, d: int) {
    forall t, u :: t in ts && u in ts && t < u ==> u - t >= d
  }

  /** Between scans: stamps are recent and at least `d` apart, and each was given to at most `limit`. */
  ghost predicate Compact(record: map<Addr, Hold>, now: nat, limit: nat, d: int, memory: int) {
    && (forall t :: t in Stamps(record) ==> now - memory <= t <= now)
    && Spaced(Stamps(record), d)
    && forall t :: |StampedAt(record, t)| <= limit
  }

  /** Whoever is last among the admitted has all the others ahead of it. */
  lemma AdmittedCount(held: map<Addr, Hold>, active: map<Addr, Window>, limit: nat, now: nat, grace: int)
    ensures |AdmittedSet(held, active, limit, now, grace)| <= limit
  {
    var admitted := AdmittedSet(held, active, limit, now, grace);
    if admitted != {} {
      var last := LastOf(held, active, admitted);
      var ahead := Ahead(held, active, Candidates(active, now, grace), last);
      assert admitted - {last} <= ahead;
      Smaller(admitted - {last}, ahead);
    }
  }

  /** Slots are not left empty either: the first one dropped has only admitted ones ahead of it. */
  lemma AdmittedExactly(held: map<Addr, Hold>, active: map<Addr, Window>, limit: nat, now: nat, grace: int)
    ensures var n, k := |Candidates(active, now, grace)|, |AdmittedSet(held, active, limit, now, grace)|;
            k == if n < limit then n else limit
  {
    var all, admitted := Candidates(active, now, grace), AdmittedSet(held, active, limit, now, grace);
    AdmittedCount(held, active, limit, now, grace);
    Smaller(admitted, all);
    if all - admitted != {} {
      var first := FirstOf(held, active, all - admitted);
      var ahead := Ahead(held, active, all, first);
      assert ahead <= admitted;
      Smaller(ahead, admitted);
    } else {
      assert all <= admitted + (all - admitted);
      Smaller(all, admitted);
    }
  }

  /** Without a limit nobody is dropped, and nobody holds a slot. */
  lemma UnlimitedDropsNobody(held: map<Addr, Hold>, active: map<Addr, Window>, limit: int, now: nat, grace: int)
    requires limit <= 0
    ensures Dropped(held, active, limit, now, grace) == {} && Admitted(held, active, limit, now, grace) == map[]
  {
  }

  /** First come, first served: nobody is dropped while a later comer is admitted. */
  lemma NoElderIsDropped(held: map<Addr, Hold>, active: map<Addr, Window>, limit: int, now: nat, grace: int, kept: Addr, lost: Addr)
    requires kept in AdmittedSet(held, active, limit, now, grace) && lost in Dropped(held, active, limit, now, grace)
    ensures Since(held, active, kept) <= Since(held, active, lost) && Before(held, active, kept, lost)
  {
    var all := Candidates(active, now, grace);
    if Before(held, active, lost, kept) {
      assert Ahead(held, active, all, lost) <= Ahead(held, active, all, kept);
      Smaller(Ahead(held, active, all, lost), Ahead(held, active, all, kept));
    }
  }

  lemma FirstOf(held: map<Addr, Hold>, active: map<Addr, Window>, c: set<Addr>) returns (first: Addr)
    requires c != {} && c <= active.Keys
    ensures first in c && forall a :: a in c ==> !Before(held, active, a, first)
    decreases c
  {
    var one :| one in c;
    var rest := c - {one};
    first := one;
    assert c == rest + {one};
    if rest != {} {
      var other := FirstOf(held, active, rest);
      if Before(held, active, other, one) {
        first := other;
      }
    }
  }

  lemma LastOf(held: map<Addr, Hold>, active: map<Addr, Window>, c: set<Addr>) returns (last: Addr)
    requires c != {} && c <= active.Keys
    ensures last in c && forall a :: a in c && a != last ==> Before(held, active, a, last)
    decreases c
  {
    var one :| one in c;
    var rest := c - {one};
    last := one;
    assert c == rest + {one};
    if rest != {} {
      var other := LastOf(held, active, rest);
      if Before(held, active, one, other) {
        last := other;
      }
    }
  }

  lemma ScanKeepsCompact(held: map<Addr, Hold>, s: Scan, before: nat, d: int, grace: int, memory: int)
    requires s.limit >= 0 && d > 0 && memory >= 0
    requires Compact(held, before, s.limit, d, memory) && (held == map[] || before + d <= s.now)
    ensures Compact(ScanRecord(held, s, grace, memory), s.now, s.limit, d, memory)
  {
    var record := ScanRecord(held, s, grace, memory);
    var admitted := AdmittedSet(held, s.active, s.limit, s.now, grace);
    forall a | a in record
      ensures if a in admitted then record[a].lastSeen == s.now
              else a in held && record[a] == held[a] && s.now - memory <= held[a].lastSeen <= s.now - d
    {
      assert a !in admitted ==> held[a].lastSeen in Stamps(held);
    }
    forall t
      ensures |StampedAt(record, t)| <= s.limit
    {
      if t == s.now {
        assert StampedAt(record, t) <= admitted;
        Smaller(StampedAt(record, t), admitted);
        AdmittedCount(held, s.active, s.limit, s.now, grace);
      } else {
        assert StampedAt(record, t) <= StampedAt(held, t);
        Smaller(StampedAt(record, t), StampedAt(held, t));
      }
    }
    forall t | t in Stamps(record)
      ensures t == s.now || (t in Stamps(held) && s.now - memory <= t <= s.now - d)
    {
      var a :| a in record && record[a].lastSeen == t;
    }
  }

  lemma {:induction false} RunsKeepCompact(scans: seq<Scan>, limit: nat, d: int, grace: int, memory: int)
    requires scans != [] && d > 0 && memory >= 0
    requires forall i :: 0 <= i < |scans| ==> scans[i].limit == limit
    requires forall i :: 0 <= i < |scans| - 1 ==> scans[i].now + d <= scans[i + 1].now
    ensures Compact(RecordAfter(map[], scans, grace, memory), scans[|scans| - 1].now, limit, d, memory)
    decreases |scans|
  {
    var n := |scans| - 1;
    var front := scans[..n];
    if n == 0 {
      assert RecordAfter(map[], front, grace, memory) == map[];
      assert forall t :: StampedAt(map[], t) == {};
      ScanKeepsCompact(map[], scans[0], 0, d, grace, memory);
    } else {
      assert forall i :: 0 <= i < |front| ==> front[i] == scans[i];
      RunsKeepCompact(front, limit, d, grace, memory);
      assert scans[n - 1].now + d <= scans[n - 1 + 1].now;
      ScanKeepsCompact(RecordAfter(map[], front, grace, memory), scans[n], scans[n - 1].now, d, grace, memory);
    }
  }

  /** Moments at least d apart take up a span of (count - 1) x d. */
  lemma {:induction false} SpacedCount(ts: set<nat>, lo: int, hi: int, d: int)
    requires d > 0 && Spaced(ts, d) && ts != {} && forall t :: t in ts ==> lo <= t <= hi
    ensures (|ts| - 1) * d <= hi - lo
    decreases |ts|
  {
    var top := Latest(ts);
    var rest := ts - {top};
    if rest == {} {
      assert ts == {top};
    } else {
      SpacedCount(rest, lo, top - d, d);
      OneMore(|rest| - 1, d);
    }
  }

  lemma Latest(ts: set<nat>) returns (top: nat)
    requires ts != {}
    ensures top in ts && forall t :: t in ts ==> t <= top
    decreases ts
  {
    var one :| one in ts;
    var rest := ts - {one};
    top := one;
    assert ts == rest + {one};
    if rest != {} {
      var other := Latest(rest);
      if one < other {
        top := other;
      }
    }
  }

  /** A record is covered by its stamps. */
  lemma {:induction false} StampsCover(record: map<Addr, Hold>, ts: set<nat>, limit: nat)
    requires forall t :: |StampedAt(record, t)| <= limit
    ensures |StampedIn(record, ts)| <= |ts| * limit
    decreases ts
  {
    var covered := StampedIn(record, ts);
    if ts == {} {
      assert covered == {};
    } else {
      var t :| t in ts;
      var rest := StampedIn(record, ts - {t});
      StampsCover(record, ts - {t}, limit);
      assert covered == rest + StampedAt(record, t);
      assert |covered| <= |rest| + |StampedAt(record, t)|;
      assert |ts| == |ts - {t}| + 1;
      OneMore(|ts - {t}|, limit);
    }
  }

  lemma CompactIsSmall(record: map<Addr, Hold>, now: nat, limit: nat, d: int, memory: int)
    requires d > 0 && memory >= 0 && Compact(record, now, limit, d, memory)
    ensures |record| <= (memory / d + 1) * limit
  {
    var ts := Stamps(record);
    StampsCover(record, ts, limit);
    assert StampedIn(record, ts) == record.Keys;
    assert |record| == |record.Keys|;
    if ts != {} {
      SpacedCount(ts, now - memory, now, d);
      FitsIn(|ts| - 1, d, memory);
    }
    Scaled(|ts|, memory / d + 1, limit);
  }

  /** "A client's record holds at most (memory / scan interval + 1) x its limit entries." */
  lemma RecordIsBounded(scans: seq<Scan>, limit: nat, d: int, grace: int, memory: int)
    requires scans != [] && d > 0 && memory >= 0
    requires forall i :: 0 <= i < |scans| ==> scans[i].limit == limit
    requires forall i :: 0 <= i < |scans| - 1 ==> scans[i].now + d <= scans[i + 1].now
    ensures |RecordAfter(map[], scans, grace, memory)| <= (memory / d + 1) * limit
  {
    hide RecordAfter, Compact;
    RunsKeepCompact(scans, limit, d, grace, memory);
    CompactIsSmall(RecordAfter(map[], scans, grace, memory), scans[|scans| - 1].now, limit, d, memory);
  }
}

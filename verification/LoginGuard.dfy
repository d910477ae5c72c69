/**
 The login limiter (service/loginguard.go): the policy for one row, the rows an attempt is counted
 against, and the sweep that must not be noticed.  Addresses and names arrive normalized; times are
 unix seconds.
 */
module LoginGuard {
  import opened Measures

  datatype Scope = IP | User | Prompt

  datatype RowKey = RowKey(scope: Scope, key: string)

  datatype Row = Row(failures: nat, windowStart: nat, bannedUntil: nat)

  datatype Config = Config(maxFailures: int, window: int, ban: int)

  type Rows = map<RowKey, Row>

  const PromptBudgetFactor: nat := 10
  const Retention: nat := 3600
  const NoRow: Row := Row(0, 0, 0)

  predicate Enabled(cfg: Config) {
    cfg.maxFailures > 0 && cfg.window > 0 && cfg.ban > 0
  }

  // ---------- one row ----------

  function Remaining(row: Row, now: nat): nat {
    if row.bannedUntil <= now then 0 else row.bannedUntil - now
  }

  function PlanFailure(scope: Scope, row: Row, now: nat, cfg: Config): Row
    requires cfg.ban >= 0
  {
    if Remaining(row, now) > 0 then row
    else if scope == User && row.bannedUntil > 0 then
      if row.windowStart > 0 && now - row.windowStart < Retention then row.(windowStart := now)
      else Counting(scope, NoRow, now, cfg)
    else Counting(scope, row, now, cfg)
  }

  predicate NewWindow(row: Row, now: nat, cfg: Config) {
    row.windowStart == 0 || now - row.windowStart >= cfg.window
  }

  function Counting(scope: Scope, row: Row, now: nat, cfg: Config): Row
    requires cfg.ban >= 0
  {
    var counted := if NewWindow(row, now, cfg) then Row(1, now, row.bannedUntil) else row.(failures := row.failures + 1);
    if counted.failures >= cfg.maxFailures then Row(0, if scope == User then now else 0, now + cfg.ban) else counted
  }

  /** Hammering at a ban does not extend it. */
  lemma BanIsNotExtended(scope: Scope, row: Row, now: nat, cfg: Config)
    requires cfg.ban >= 0 && now < row.bannedUntil
    ensures PlanFailure(scope, row, now, cfg) == row
  {
  }

  // ---------- the stored rows ----------

  function At(rows: Rows, k: RowKey): Row {
    if k in rows then rows[k] else NoRow
  }

  function LoginKeys(ip: string, user: string): seq<RowKey> {
    (if ip != "" then [RowKey(IP, ip)] else []) + (if user != "" then [RowKey(User, user)] else [])
  }

  function BanKeys(ip: string, user: string): seq<RowKey> {
    LoginKeys(ip, user) + if ip != "" then [RowKey(Prompt, ip)] else []
  }

  function Longest(rows: Rows, keys: seq<RowKey>, now: nat): nat {
    if keys == [] then 0
    else
      var rest, last := Longest(rows, keys[..|keys| - 1], now), Remaining(At(rows, keys[|keys| - 1]), now);
      if last > rest then last else rest
  }

  function Bumped(rows: Rows, k: RowKey, now: nat, cfg: Config): Rows
    requires cfg.ban >= 0
  {
    rows[k := PlanFailure(k.scope, At(rows, k), now, cfg)]
  }

  function BumpedAll(rows: Rows, keys: seq<RowKey>, now: nat, cfg: Config): Rows
    requires cfg.ban >= 0
  {
    if keys == [] then rows else Bumped(BumpedAll(rows, keys[..|keys| - 1], now, cfg), keys[|keys| - 1], now, cfg)
  }

  predicate Spent(row: Row, now: nat, cfg: Config) {
    row.bannedUntil <= now && row.windowStart <= now - cfg.window - Retention
  }

  function Swept(rows: Rows, now: nat, cfg: Config): Rows {
    map k | k in rows && !Spent(rows[k], now, cfg) :: rows[k]
  }

  function Without(rows: Rows, keys: seq<RowKey>): Rows {
    map k | k in rows && k !in keys :: rows[k]
  }

  function PromptConfig(cfg: Config): Config {
    cfg.(maxFailures := cfg.maxFailures * PromptBudgetFactor)
  }

  class Guard {
    var rows: Rows

    constructor ()
      ensures rows == map[]
    {
      rows := map[];
    }

    method BanRemaining(cfg: Config, ip: string, user: string, now: nat) returns (longest: nat)
      ensures longest == if Enabled(cfg) then Longest(rows, BanKeys(ip, user), now) else 0
    {
      if !Enabled(cfg) {
        return 0;
      }
      longest := 0;
      var keys, i := BanKeys(ip, user), 0;
      while i < |keys|
        invariant 0 <= i <= |keys| && longest == Longest(rows, keys[..i], now)
      {
        assert keys[..i + 1][..i] == keys[..i];
        var remaining := Remaining(At(rows, keys[i]), now);
        if remaining > longest {
          longest := remaining;
        }
        i := i + 1;
      }
      assert keys[..i] == keys;
    }

    method Sweep(cfg: Config, now: nat)
      modifies this
      ensures rows == Swept(old(rows), now, cfg)
    {
      var todo := rows.Keys;
      while todo != {}
        invariant todo <= rows.Keys <= old(rows).Keys
        invariant forall k :: k in rows ==> rows[k] == old(rows)[k]
        invariant forall k :: k in old(rows) && k !in todo ==> (k in rows <==> !Spent(old(rows)[k], now, cfg))
        decreases todo
      {
        var k :| k in todo;
        if Spent(rows[k], now, cfg) {
          rows := rows - {k};
        }
        todo := todo - {k};
      }
    }

    /** `swept` is whether the clean-up query got through. */
    method RecordFailure(cfg: Config, ip: string, user: string, now: nat, swept: bool)
      modifies this
      ensures rows == After(old(rows), Failure(ip, user), now, cfg, swept)
    {
      if !Enabled(cfg) {
        return;
      }
      var keys, i := LoginKeys(ip, user), 0;
      while i < |keys|
        invariant 0 <= i <= |keys| && rows == BumpedAll(old(rows), keys[..i], now, cfg)
      {
        assert keys[..i + 1][..i] == keys[..i];
        rows := Bumped(rows, keys[i], now, cfg);
        i := i + 1;
      }
      assert keys[..i] == keys;
      if swept {
        Sweep(cfg, now);
      }
    }

    method RecordPrompt(cfg: Config, ip: string, now: nat, swept: bool)
      modifies this
      ensures rows == After(old(rows), Asked(ip), now, cfg, swept)
    {
      if !Enabled(cfg) || ip == "" {
        return;
      }
      rows := Bumped(rows, RowKey(Prompt, ip), now, PromptConfig(cfg));
      if swept {
        Sweep(PromptConfig(cfg), now);
      }
    }

    method RecordSuccess(ip: string, user: string)
      modifies this
      ensures rows == Without(old(rows), BanKeys(ip, user))
    {
      var keys, i := BanKeys(ip, user), 0;
      while i < |keys|
        invariant 0 <= i <= |keys| && rows == Without(old(rows), keys[..i])
      {
        rows := rows - {keys[i]};
        i := i + 1;
      }
      assert keys[..i] == keys;
    }
  }

  // ---------- runs ----------

  datatype Event = Check(ip: string, user: string) | Failure(ip: string, user: string) | Asked(ip: string)
    | Success(ip: string, user: string) | ClearAll

  datatype Moment = Moment(event: Event, now: nat)

  function After(rows: Rows, e: Event, now: nat, cfg: Config, swept: bool): Rows {
    match e
    case Check(_, _) => rows
    case Failure(ip, user) =>
      if !Enabled(cfg) then rows
      else
        var bumped := BumpedAll(rows, LoginKeys(ip, user), now, cfg);
        if swept then Swept(bumped, now, cfg) else bumped
    case Asked(ip) =>
      if !Enabled(cfg) || ip == "" then rows
      else
        var bumped := Bumped(rows, RowKey(Prompt, ip), now, PromptConfig(cfg));
        if swept then Swept(bumped, now, cfg) else bumped
    case Success(ip, user) => Without(rows, BanKeys(ip, user))
    case ClearAll => map[]
  }

  /** What a caller can see of a moment: how long the attempt is refused, and for a recorded failure
      or prompt whether its identities are banned before and after it. */
  function Seen(rows: Rows, m: Moment, cfg: Config): seq<nat> {
    match m.event
    case Check(ip, user) => [if Enabled(cfg) then Longest(rows, BanKeys(ip, user), m.now) else 0]
    case Failure(ip, user) =>
      var after := After(rows, m.event, m.now, cfg, false);
      [Remaining(At(rows, RowKey(IP, ip)), m.now), Remaining(At(after, RowKey(IP, ip)), m.now),
       Remaining(At(rows, RowKey(User, user)), m.now), Remaining(At(after, RowKey(User, user)), m.now)]
    case Asked(ip) =>
      var after := After(rows, m.event, m.now, cfg, false);
      [Remaining(At(rows, RowKey(Prompt, ip)), m.now), Remaining(At(after, RowKey(Prompt, ip)), m.now)]
    case _ => []
  }

  function RowsAfter(rows: Rows, ms: seq<Moment>, cfg: Config, swept: seq<bool>): Rows
    requires |ms| == |swept|
    decreases |ms|
  {
    if ms == [] then rows
    else
      var n := |ms| - 1;
      After(RowsAfter(rows, ms[..n], cfg, swept[..n]), ms[n].event, ms[n].now, cfg, swept[n])
  }

  predicate Ordered(ms: seq<Moment>) {
    && (forall i :: 0 <= i < |ms| ==> ms[i].now > 0)
    && (forall i, j :: 0 <= i < j < |ms| ==> ms[i].now <= ms[j].now)
  }

  // ---------- the sweep cannot be observed ----------

  /** Neither refusing anything nor counting anything: the next failure starts from scratch. */
  predicate Dormant(row: Row, now: nat, cfg: Config) {
    row.bannedUntil <= now && (row.windowStart == 0 || now - row.windowStart >= cfg.window + Retention)
  }

  /** Two rows nobody can tell apart from now on. */
  predicate Alike(scope: Scope, a: Row, b: Row, now: nat, cfg: Config) {
    || a == b
    || (Dormant(a, now, cfg) && Dormant(b, now, cfg))
    || (scope != User && a.failures == b.failures && a.windowStart == b.windowStart && a.bannedUntil <= now && b.bannedUntil <= now)
  }

  ghost predicate AllAlike(a: Rows, b: Rows, now: nat, cfg: Config) {
    forall k: RowKey :: Alike(k.scope, At(a, k), At(b, k), now, cfg)
  }

  lemma FailureKeepsAlike(scope: Scope, a: Row, b: Row, now: nat, cfg: Config)
    requires Enabled(cfg) && Alike(scope, a, b, now, cfg)
    ensures Alike(scope, PlanFailure(scope, a, now, cfg), PlanFailure(scope, b, now, cfg), now, cfg)
    ensures Remaining(a, now) == Remaining(b, now)
    ensures Remaining(PlanFailure(scope, a, now, cfg), now) == Remaining(PlanFailure(scope, b, now, cfg), now)
  {
  }

  lemma TimeKeepsAlike(a: Rows, b: Rows, now: nat, later: nat, cfg: Config)
    requires AllAlike(a, b, now, cfg) && now <= later
    ensures AllAlike(a, b, later, cfg)
  {
    forall k: RowKey
      ensures Alike(k.scope, At(a, k), At(b, k), later, cfg)
    {
      assert Alike(k.scope, At(a, k), At(b, k), now, cfg);
    }
  }

  lemma SweepKeepsAlike(a: Rows, b: Rows, now: nat, cfg: Config)
    requires AllAlike(a, b, now, cfg) && cfg.window > 0
    ensures AllAlike(a, Swept(b, now, cfg), now, cfg) && AllAlike(Swept(a, now, cfg), b, now, cfg)
  {
    forall k: RowKey
      ensures Alike(k.scope, At(a, k), At(Swept(b, now, cfg), k), now, cfg)
      ensures Alike(k.scope, At(Swept(a, now, cfg), k), At(b, k), now, cfg)
    {
      assert Alike(k.scope, At(a, k), At(b, k), now, cfg);
    }
  }

  lemma BumpKeepsAlike(a: Rows, b: Rows, k: RowKey, now: nat, cfg: Config, rule: Config)
    requires AllAlike(a, b, now, cfg) && Enabled(rule) && rule.window == cfg.window
    ensures AllAlike(Bumped(a, k, now, rule), Bumped(b, k, now, rule), now, cfg)
  {
    forall j: RowKey
      ensures Alike(j.scope, At(Bumped(a, k, now, rule), j), At(Bumped(b, k, now, rule), j), now, cfg)
    {
      assert Alike(j.scope, At(a, j), At(b, j), now, cfg);
      assert Alike(j.scope, At(a, j), At(b, j), now, rule);
      if j == k {
        FailureKeepsAlike(k.scope, At(a, k), At(b, k), now, rule);
      }
    }
  }

  lemma {:induction false} BumpsKeepAlike(a: Rows, b: Rows, keys: seq<RowKey>, now: nat, cfg: Config)
    requires AllAlike(a, b, now, cfg) && Enabled(cfg)
    ensures AllAlike(BumpedAll(a, keys, now, cfg), BumpedAll(b, keys, now, cfg), now, cfg)
  {
    if keys != [] {
      var front := keys[..|keys| - 1];
      BumpsKeepAlike(a, b, front, now, cfg);
      BumpKeepsAlike(BumpedAll(a, front, now, cfg), BumpedAll(b, front, now, cfg), keys[|keys| - 1], now, cfg, cfg);
    }
  }

  lemma {:induction false} AlikeRefuseAlike(a: Rows, b: Rows, keys: seq<RowKey>, now: nat, cfg: Config)
    requires AllAlike(a, b, now, cfg)
    ensures Longest(a, keys, now) == Longest(b, keys, now)
  {
    if keys != [] {
      AlikeRefuseAlike(a, b, keys[..|keys| - 1], now, cfg);
      var k := keys[|keys| - 1];
      assert Alike(k.scope, At(a, k), At(b, k), now, cfg);
    }
  }

  lemma AlikeRemain(a: Rows, b: Rows, k: RowKey, now: nat, cfg: Config)
    requires AllAlike(a, b, now, cfg)
    ensures Remaining(At(a, k), now) == Remaining(At(b, k), now)
  {
    assert Alike(k.scope, At(a, k), At(b, k), now, cfg);
  }

  lemma WithoutKeepsAlike(a: Rows, b: Rows, keys: seq<RowKey>, now: nat, cfg: Config)
    requires AllAlike(a, b, now, cfg)
    ensures AllAlike(Without(a, keys), Without(b, keys), now, cfg)
  {
    forall k: RowKey
      ensures Alike(k.scope, At(Without(a, keys), k), At(Without(b, keys), k), now, cfg)
    {
      assert Alike(k.scope, At(a, k), At(b, k), now, cfg);
    }
  }

  lemma MaybeSwept(a: Rows, b: Rows, now: nat, cfg: Config, x: bool, y: bool)
    requires AllAlike(a, b, now, cfg) && Enabled(cfg)
    ensures AllAlike(if x then Swept(a, now, cfg) else a, if y then Swept(b, now, cfg) else b, now, cfg)
  {
    hide AllAlike, Swept;
    SweepKeepsAlike(a, b, now, cfg);
    SweepKeepsAlike(Swept(a, now, cfg), b, now, cfg);
  }

  lemma MomentKeepsAlike(a: Rows, b: Rows, m: Moment, cfg: Config, x: bool, y: bool)
    requires AllAlike(a, b, m.now, cfg)
    ensures AllAlike(After(a, m.event, m.now, cfg, x), After(b, m.event, m.now, cfg, y), m.now, cfg)
    ensures Seen(a, m, cfg) == Seen(b, m, cfg)
  {
    hide AllAlike, Swept, Without, BumpedAll, Bumped, Longest, Remaining;
    match m.event
    case Check(ip, user) =>
      AlikeRefuseAlike(a, b, BanKeys(ip, user), m.now, cfg);
    case Failure(ip, user) =>
      if Enabled(cfg) {
        BumpsKeepAlike(a, b, LoginKeys(ip, user), m.now, cfg);
        MaybeSwept(BumpedAll(a, LoginKeys(ip, user), m.now, cfg), BumpedAll(b, LoginKeys(ip, user), m.now, cfg), m.now, cfg, x, y);
      }
      var a', b' := After(a, m.event, m.now, cfg, false), After(b, m.event, m.now, cfg, false);
      AlikeRemain(a, b, RowKey(IP, ip), m.now, cfg);
      AlikeRemain(a, b, RowKey(User, user), m.now, cfg);
      AlikeRemain(a', b', RowKey(IP, ip), m.now, cfg);
      AlikeRemain(a', b', RowKey(User, user), m.now, cfg);
    case Asked(ip) =>
      AlikeRemain(a, b, RowKey(Prompt, ip), m.now, cfg);
      if Enabled(cfg) && ip != "" {
        var k, rule := RowKey(Prompt, ip), PromptConfig(cfg);
        BumpKeepsAlike(a, b, k, m.now, cfg, rule);
        AlikeRemain(Bumped(a, k, m.now, rule), Bumped(b, k, m.now, rule), k, m.now, cfg);
        MaybeSwept(Bumped(a, k, m.now, rule), Bumped(b, k, m.now, rule), m.now, cfg, x, y);
      }
    case Success(ip, user) =>
      WithoutKeepsAlike(a, b, BanKeys(ip, user), m.now, cfg);
    case ClearAll =>
      NoRowsAlike(m.now, cfg);
  }

  lemma NoRowsAlike(now: nat, cfg: Config)
    ensures AllAlike(map[], map[], now, cfg)
  {
  }

  lemma SameAlike(a: Rows, now: nat, cfg: Config)
    ensures AllAlike(a, a, now, cfg)
  {
  }

  /** Sweeping is not observable: over every run, whichever sweeps get through, every refusal and every
      ban is the same as without any. */
  lemma {:induction false} SweepIsUnobservable(rows: Rows, ms: seq<Moment>, cfg: Config, x: seq<bool>, y: seq<bool>, m: Moment)
    requires |x| == |y| == |ms| && Ordered(ms + [m])
    ensures Seen(RowsAfter(rows, ms, cfg, x), m, cfg) == Seen(RowsAfter(rows, ms, cfg, y), m, cfg)
    ensures AllAlike(RowsAfter(rows, ms, cfg, x), RowsAfter(rows, ms, cfg, y), m.now, cfg)
    decreases |ms|
  {
    hide AllAlike, Seen, After;
    if ms == [] {
      SameAlike(rows, m.now, cfg);
    } else {
      var n := |ms| - 1;
      var last := ms[n];
      EarlierOrdered(ms, m);
      SweepIsUnobservable(rows, ms[..n], cfg, x[..n], y[..n], last);
      var a, b := RowsAfter(rows, ms[..n], cfg, x[..n]), RowsAfter(rows, ms[..n], cfg, y[..n]);
      MomentKeepsAlike(a, b, last, cfg, x[n], y[n]);
      TimeKeepsAlike(After(a, last.event, last.now, cfg, x[n]), After(b, last.event, last.now, cfg, y[n]), last.now, m.now, cfg);
    }
    MomentKeepsAlike(RowsAfter(rows, ms, cfg, x), RowsAfter(rows, ms, cfg, y), m, cfg, false, false);
  }

  lemma EarlierOrdered(ms: seq<Moment>, m: Moment)
    requires ms != [] && Ordered(ms + [m])
    ensures var n := |ms| - 1;
            Ordered(ms[..n] + [ms[n]]) && ms[n].now <= m.now
  {
    var n, all := |ms| - 1, ms + [m];
    assert all[n] == ms[n] && all[n + 1] == m;
    assert ms[..n] + [ms[n]] == ms;
    assert forall i :: 0 <= i < |ms| ==> all[i] == ms[i];
  }

  // ---------- how many failures one address gets through ----------

  predicate Through(rows: Rows, m: Moment, ip: string) {
    m.event.Failure? && m.event.ip == ip && Remaining(At(rows, RowKey(IP, ip)), m.now) == 0
  }

  /** Failures from an address that is not banned at the time. */
  function ThroughCount(rows: Rows, ms: seq<Moment>, cfg: Config, swept: seq<bool>, ip: string): nat
    requires |ms| == |swept|
    decreases |ms|
  {
    if ms == [] then 0
    else
      var n := |ms| - 1;
      ThroughCount(rows, ms[..n], cfg, swept[..n], ip) + if Through(RowsAfter(rows, ms[..n], cfg, swept[..n]), ms[n], ip) then 1 else 0
  }

  function Shorter(cfg: Config): int {
    if cfg.window < cfg.ban then cfg.window else cfg.ban
  }

  /** The first moment at which the row could open another window. */
  function NextWindow(row: Row, cfg: Config): int {
    if row.windowStart == 0 || row.windowStart + cfg.window < row.bannedUntil then row.bannedUntil
    else row.windowStart + cfg.window
  }

  /** n failures got through since t0, in windows of which `begun` began since then, the last one at `last`. */
  datatype Tally = Tally(n: nat, begun: nat, last: nat)

  predicate Accounts(row: Row, now: nat, t: Tally, t0: nat, cfg: Config) {
    && t.n <= cfg.maxFailures * t.begun + cfg.maxFailures
    && (row.windowStart != 0 ==> t.n <= cfg.maxFailures * t.begun + row.failures && (row.failures < cfg.maxFailures || t.n == 0))
    && t0 <= now
    && (t.begun > 0 ==>
          && t0 <= t.last <= now
          && (t.begun - 1) * Shorter(cfg) <= t.last - t0
          && (t.last + Shorter(cfg) <= NextWindow(row, cfg) || t.last + Shorter(cfg) <= now))
  }

  function Tallied(row: Row, t: Tally, now: nat, cfg: Config): Tally {
    if NewWindow(row, now, cfg) then Tally(t.n + 1, t.begun + 1, now) else t.(n := t.n + 1)
  }

  /** A failure let through is the next of its window, or opens one no sooner than Shorter after the last. */
  lemma FailureAccounts(row: Row, t: Tally, t0: nat, now: nat, cfg: Config)
    requires Enabled(cfg) && now > 0 && Accounts(row, now, t, t0, cfg) && Remaining(row, now) == 0
    ensures Accounts(PlanFailure(IP, row, now, cfg), now, Tallied(row, t, now, cfg), t0, cfg)
  {
    var k, d := cfg.maxFailures, Shorter(cfg);
    OneMore(t.begun, k);
    if NewWindow(row, now, cfg) && t.begun > 0 {
      assert t.last + d <= now;
      OneMore(t.begun - 1, d);
    }
  }

  lemma TimeAccounts(row: Row, t: Tally, t0: nat, now: nat, later: nat, cfg: Config)
    requires Accounts(row, now, t, t0, cfg) && now <= later
    ensures Accounts(row, later, t, t0, cfg)
  {
  }

  lemma SweepAccounts(row: Row, t: Tally, t0: nat, now: nat, cfg: Config)
    requires Enabled(cfg) && Accounts(row, now, t, t0, cfg) && Spent(row, now, cfg)
    ensures Accounts(NoRow, now, t, t0, cfg)
  {
  }

  /** Nothing clears the row of this address. */
  predicate Spares(e: Event, ip: string) {
    !(e.Success? && e.ip == ip) && !e.ClearAll?
  }

  lemma RowAfter(rows: Rows, m: Moment, cfg: Config, swept: bool, ip: string)
    requires Enabled(cfg) && Spares(m.event, ip) && ip != ""
    ensures var k, before := RowKey(IP, ip), At(rows, RowKey(IP, ip));
            var next := if m.event.Failure? && m.event.ip == ip then PlanFailure(IP, before, m.now, cfg) else before;
            var after := At(After(rows, m.event, m.now, cfg, swept), k);
            after == next || (after == NoRow && Spent(next, m.now, cfg))
  {
    hide PlanFailure;
    match m.event
    case Check(_, _) =>
    case Failure(from, user) =>
      BumpedOnce(rows, from, user, m.now, cfg, ip);
    case Asked(_) =>
    case Success(from, user) =>
      assert RowKey(IP, ip) !in BanKeys(from, user);
  }

  lemma BumpedOnce(rows: Rows, from: string, user: string, now: nat, cfg: Config, ip: string)
    requires Enabled(cfg) && ip != ""
    ensures At(BumpedAll(rows, LoginKeys(from, user), now, cfg), RowKey(IP, ip)) ==
            if from == ip then PlanFailure(IP, At(rows, RowKey(IP, ip)), now, cfg) else At(rows, RowKey(IP, ip))
  {
    hide PlanFailure;
    var keys := LoginKeys(from, user);
    if |keys| == 2 {
      assert keys[..1] == [RowKey(IP, from)] && keys[..1][..0] == [];
      assert BumpedAll(rows, keys[..1], now, cfg) == Bumped(rows, RowKey(IP, from), now, cfg);
      assert BumpedAll(rows, keys, now, cfg) == Bumped(BumpedAll(rows, keys[..1], now, cfg), RowKey(User, user), now, cfg);
    } else if |keys| == 1 {
      assert keys[..0] == [];
    }
  }

  lemma {:induction false} RunAccounts(rows: Rows, ms: seq<Moment>, cfg: Config, swept: seq<bool>, ip: string) returns (t: Tally)
    requires |swept| == |ms| && Ordered(ms) && ms != [] && Enabled(cfg) && ip != ""
    requires forall i :: 0 <= i < |ms| ==> Spares(ms[i].event, ip)
    ensures t.n == ThroughCount(rows, ms, cfg, swept, ip)
    ensures Accounts(At(RowsAfter(rows, ms, cfg, swept), RowKey(IP, ip)), ms[|ms| - 1].now, t, ms[0].now, cfg)
    decreases |ms|
  {
    hide After, PlanFailure, Accounts, Spent;
    var n := |ms| - 1;
    var m, before := ms[n], RowsAfter(rows, ms[..n], cfg, swept[..n]);
    var row := At(before, RowKey(IP, ip));
    if n == 0 {
      t := Tally(0, 0, 0);
      AccountsStart(row, m.now, cfg);
    } else {
      assert ms[..n][0] == ms[0];
      t := RunAccounts(rows, ms[..n], cfg, swept[..n], ip);
      TimeAccounts(row, t, ms[0].now, ms[n - 1].now, m.now, cfg);
    }
    RowAfter(before, m, cfg, swept[n], ip);
    var next := row;
    if m.event.Failure? && m.event.ip == ip {
      next := PlanFailure(IP, row, m.now, cfg);
      if Through(before, m, ip) {
        FailureAccounts(row, t, ms[0].now, m.now, cfg);
        t := Tallied(row, t, m.now, cfg);
      } else {
        BanIsNotExtended(IP, row, m.now, cfg);
      }
    }
    if Spent(next, m.now, cfg) {
      SweepAccounts(next, t, ms[0].now, m.now, cfg);
    }
  }

  lemma AccountsStart(row: Row, now: nat, cfg: Config)
    requires Enabled(cfg)
    ensures Accounts(row, now, Tally(0, 0, 0), now, cfg)
  {
  }

  /** Without a success, an address gets at most maxFailures x (T / min(window, ban) + 2) failures through in
      a span of T seconds, whatever the rows held before, whoever else tries and whenever rows are swept. */
  lemma AddressIsBounded(rows: Rows, ms: seq<Moment>, cfg: Config, swept: seq<bool>, ip: string)
    requires |swept| == |ms| && Ordered(ms) && ms != [] && Enabled(cfg) && ip != ""
    requires forall i :: 0 <= i < |ms| ==> Spares(ms[i].event, ip)
    ensures var span := ms[|ms| - 1].now - ms[0].now;
            ThroughCount(rows, ms, cfg, swept, ip) <= cfg.maxFailures * (span / Shorter(cfg) + 2)
  {
    hide RowsAfter, ThroughCount;
    var t := RunAccounts(rows, ms, cfg, swept, ip);
    var span, k, d := ms[|ms| - 1].now - ms[0].now, cfg.maxFailures, Shorter(cfg);
    if t.begun > 0 {
      FitsIn(t.begun - 1, d, span);
    } else {
      FitsIn(0, d, span);
    }
    Scaled(t.begun + 1, span / d + 2, k);
    OneMore(t.begun, k);
  }

  /** A failure counts against its address and its name, once each, and against nothing else. */
  lemma FailureCountsTwice(rows: Rows, ip: string, user: string, now: nat, cfg: Config, k: RowKey)
    requires cfg.maxFailures > 0 && cfg.window > 0 && cfg.ban > 0
    ensures var counted := (k == RowKey(IP, ip) && ip != "") || (k == RowKey(User, user) && user != "");
            At(After(rows, Failure(ip, user), now, cfg, false), k) ==
            if counted then PlanFailure(k.scope, At(rows, k), now, cfg) else At(rows, k)
  {
    hide PlanFailure;
    var keys := LoginKeys(ip, user);
    if |keys| == 2 {
      assert keys[..1] == [RowKey(IP, ip)] && keys[..1][..0] == [];
      assert BumpedAll(rows, keys[..1], now, cfg) == Bumped(rows, RowKey(IP, ip), now, cfg);
      assert BumpedAll(rows, keys, now, cfg) == Bumped(BumpedAll(rows, keys[..1], now, cfg), RowKey(User, user), now, cfg);
    } else if |keys| == 1 {
      assert keys[..0] == [];
      assert BumpedAll(rows, keys, now, cfg) == Bumped(rows, keys[0], now, cfg);
    }
  }

  /** With any of the three settings cleared the limiter is off: nothing is refused and nothing is counted. */
  lemma ClearedSettingsSwitchOff(rows: Rows, e: Event, now: nat, cfg: Config, swept: bool)
    requires cfg.maxFailures <= 0 || cfg.window <= 0 || cfg.ban <= 0
    ensures e.Check? ==> Seen(rows, Moment(e, now), cfg) == [0]
    ensures e.Failure? || e.Asked? ==> After(rows, e, now, cfg, swept) == rows
  {
  }

  /** A success clears address, name and prompts of the attempt, and nothing else. */
  lemma SuccessClears(rows: Rows, ip: string, user: string, now: nat, cfg: Config, swept: bool, k: RowKey)
    ensures var mine := (ip != "" && (k == RowKey(IP, ip) || k == RowKey(Prompt, ip))) || (user != "" && k == RowKey(User, user));
            At(After(rows, Success(ip, user), now, cfg, swept), k) == if mine then NoRow else At(rows, k)
  {
    assert k in BanKeys(ip, user) <==>
           (ip != "" && (k == RowKey(IP, ip) || k == RowKey(Prompt, ip))) || (user != "" && k == RowKey(User, user));
  }

  function Prompted(rows: Rows, ip: string, ts: seq<nat>, cfg: Config): Rows
    decreases |ts|
  {
    if ts == [] then rows else After(Prompted(rows, ip, ts[..|ts| - 1], cfg), Asked(ip), ts[|ts| - 1], cfg, false)
  }

  /** Prompts have ten times the budget of failures, on a row of their own: within one window the address is refused
      after exactly that many. */
  lemma {:induction false} PromptBudget(ip: string, ts: seq<nat>, cfg: Config)
    requires cfg.maxFailures > 0 && cfg.window > 0 && cfg.ban > 0
    requires ip != "" && WithinWindow(ts, cfg) && 0 < |ts| <= 10 * cfg.maxFailures
    ensures var rows := Prompted(map[], ip, ts, cfg);
            && At(rows, RowKey(Prompt, ip)) == (if |ts| < 10 * cfg.maxFailures then Row(|ts|, ts[0], 0) else Row(0, 0, ts[|ts| - 1] + cfg.ban))
            && forall k :: k != RowKey(Prompt, ip) ==> At(rows, k) == NoRow
    decreases |ts|
  {
    var n := |ts| - 1;
    if n > 0 {
      PromptBudget(ip, ts[..n], cfg);
    }
    var before, rows := Prompted(map[], ip, ts[..n], cfg), Prompted(map[], ip, ts, cfg);
    forall k | k != RowKey(Prompt, ip)
      ensures At(rows, k) == NoRow
    {
      assert At(rows, k) == At(before, k);
    }
  }

  /** An attempt is refused exactly when its address, its name or the address's prompts are banned. */
  lemma RefusedByAnyBan(rows: Rows, ip: string, user: string, now: nat)
    ensures Longest(rows, BanKeys(ip, user), now) > 0 <==>
            || (ip != "" && (now < At(rows, RowKey(IP, ip)).bannedUntil || now < At(rows, RowKey(Prompt, ip)).bannedUntil))
            || (user != "" && now < At(rows, RowKey(User, user)).bannedUntil)
  {
    var keys := BanKeys(ip, user);
    LongestIsAny(rows, keys, now);
    if ip != "" {
      assert keys[0] == RowKey(IP, ip) && keys[|keys| - 1] == RowKey(Prompt, ip);
    }
    if user != "" {
      assert keys[if ip != "" then 1 else 0] == RowKey(User, user);
    }
  }

  /** The wait that is reported is exact: refused for every moment short of it, and free once it is over. */
  lemma WaitIsExact(rows: Rows, ip: string, user: string, now: nat, d: nat)
    ensures Longest(rows, BanKeys(ip, user), now + d) > 0 <==> d < Longest(rows, BanKeys(ip, user), now)
  {
    LongestLater(rows, BanKeys(ip, user), now, d);
  }

  lemma {:induction false} LongestLater(rows: Rows, keys: seq<RowKey>, now: nat, d: nat)
    ensures Longest(rows, keys, now + d) == if d < Longest(rows, keys, now) then Longest(rows, keys, now) - d else 0
    decreases |keys|
  {
    if keys != [] {
      LongestLater(rows, keys[..|keys| - 1], now, d);
    }
  }

  lemma {:induction false} LongestIsAny(rows: Rows, keys: seq<RowKey>, now: nat)
    ensures Longest(rows, keys, now) > 0 <==> exists i :: 0 <= i < |keys| && now < At(rows, keys[i]).bannedUntil
    decreases |keys|
  {
    if keys != [] {
      var n := |keys| - 1;
      LongestIsAny(rows, keys[..n], now);
      assert forall i :: 0 <= i < n ==> keys[..n][i] == keys[i];
    }
  }

  // ---------- the budget is enforced ----------

  function Failed(scope: Scope, ts: seq<nat>, cfg: Config): Row
    requires cfg.ban >= 0
    decreases |ts|
  {
    if ts == [] then NoRow else PlanFailure(scope, Failed(scope, ts[..|ts| - 1], cfg), ts[|ts| - 1], cfg)
  }

  predicate WithinWindow(ts: seq<nat>, cfg: Config) {
    && (forall i :: 0 <= i < |ts| ==> ts[i] > 0 && ts[i] - ts[0] < cfg.window)
    && (forall i, j :: 0 <= i < j < |ts| ==> ts[i] <= ts[j])
  }

  /** Failures inside one window are counted one by one; the one that uses up the budget bans, and none before it. */
  lemma {:induction false} BudgetIsEnforced(scope: Scope, ts: seq<nat>, cfg: Config)
    requires Enabled(cfg) && WithinWindow(ts, cfg) && 0 < |ts| <= cfg.maxFailures
    ensures var row, last := Failed(scope, ts, cfg), ts[|ts| - 1];
            row == if |ts| < cfg.maxFailures then Row(|ts|, ts[0], 0) else Row(0, if scope == User then last else 0, last + cfg.ban)
    decreases |ts|
  {
    var n := |ts| - 1;
    if n > 0 {
      BudgetIsEnforced(scope, ts[..n], cfg);
    }
  }

  // ---------- a served ban on a name ----------

  function NameRow(row: Row, ts: seq<nat>, cfg: Config): Row
    requires cfg.ban >= 0
    decreases |ts|
  {
    if ts == [] then row else PlanFailure(User, NameRow(row, ts[..|ts| - 1], cfg), ts[|ts| - 1], cfg)
  }

  function LastOf(s: nat, ts: seq<nat>): nat {
    if ts == [] then s else ts[|ts| - 1]
  }

  /** Each failure comes at most `gap` after the one before it, the first after s. */
  predicate Hammering(s: nat, ts: seq<nat>, gap: nat) {
    forall i :: 0 <= i < |ts| ==> LastOf(s, ts[..i]) <= ts[i] <= LastOf(s, ts[..i]) + gap
  }

  /** A name banned at s cannot be locked again by keeping at it, however long that goes on, when the ban
      and one gap between attempts fit into the retention. */
  lemma {:induction false} ServedBanStaysDisarmed(s: nat, ts: seq<nat>, gap: nat, cfg: Config)
    requires Enabled(cfg) && s > 0 && Hammering(s, ts, gap) && cfg.ban + gap <= Retention
    ensures var row, until := NameRow(Row(0, s, s + cfg.ban), ts, cfg), s + cfg.ban;
            row == Row(0, if LastOf(s, ts) < until then s else LastOf(s, ts), until)
    decreases |ts|
  {
    if ts != [] {
      var n := |ts| - 1;
      assert forall i :: 0 <= i < n ==> ts[..n][..i] == ts[..i];
      ServedBanStaysDisarmed(s, ts[..n], gap, cfg);
      assert LastOf(s, ts[..n]) <= ts[n] <= LastOf(s, ts[..n]) + gap;
    }
  }

  function Times(t: nat, n: nat): seq<nat> {
    seq(n, _ => t)
  }

  /** One attempt a second until a second before the ban ends. */
  function Meanwhile(s: nat, n: nat): seq<nat> {
    seq(n, i => s + 1 + i)
  }

  /** ... and then, one gap later, a whole budget of them. */
  function Attack(s: nat, gap: nat, cfg: Config): seq<nat>
    requires Enabled(cfg) && gap >= 1
  {
    Upto(s, gap, cfg.maxFailures, cfg)
  }

  lemma {:induction false} MeanwhileChangesNothing(s: nat, n: nat, cfg: Config)
    requires Enabled(cfg) && n < cfg.ban
    ensures NameRow(Row(0, s, s + cfg.ban), Meanwhile(s, n), cfg) == Row(0, s, s + cfg.ban)
  {
    if n > 0 {
      assert Meanwhile(s, n)[..n - 1] == Meanwhile(s, n - 1);
      MeanwhileChangesNothing(s, n - 1, cfg);
    }
  }

  lemma AttackHammers(s: nat, gap: nat, cfg: Config)
    requires Enabled(cfg) && gap >= 1
    ensures Hammering(s, Attack(s, gap, cfg), gap)
  {
    var ts := Attack(s, gap, cfg);
    forall i | 0 <= i < |ts|
      ensures LastOf(s, ts[..i]) <= ts[i] <= LastOf(s, ts[..i]) + gap
    {
      assert i > 0 ==> ts[..i][i - 1] == ts[i - 1];
    }
  }

  /** With a ban and a gap that outlast the retention together, the last gap of the attack arms the row again
      and its attempts lock the name a second time. */
  lemma AttackRenewsTheBan(s: nat, gap: nat, cfg: Config)
    requires Enabled(cfg) && s > 0 && gap >= 1 && cfg.ban + gap > Retention
    ensures NameRow(Row(0, s, s + cfg.ban), Attack(s, gap, cfg), cfg).bannedUntil == s + cfg.ban - 1 + gap + cfg.ban
  {
    var n, t := cfg.maxFailures, s + cfg.ban - 1 + gap;
    var ts := Attack(s, gap, cfg);
    assert ts[..|ts| - 1] == Upto(s, gap, n - 1, cfg);
    CountsUp(s, gap, n - 1, cfg);
  }

  /** The attack with only n attempts at its end. */
  function Upto(s: nat, gap: nat, n: nat, cfg: Config): seq<nat>
    requires Enabled(cfg) && gap >= 1
  {
    Meanwhile(s, cfg.ban - 1) + Times(s + cfg.ban - 1 + gap, n)
  }

  lemma {:induction false} CountsUp(s: nat, gap: nat, n: nat, cfg: Config)
    requires Enabled(cfg) && s > 0 && gap >= 1 && cfg.ban + gap > Retention && n < cfg.maxFailures
    ensures NameRow(Row(0, s, s + cfg.ban), Upto(s, gap, n, cfg), cfg) ==
            if n == 0 then Row(0, s, s + cfg.ban) else Row(n, s + cfg.ban - 1 + gap, 0)
  {
    var ts := Upto(s, gap, n, cfg);
    if n == 0 {
      assert ts == Meanwhile(s, cfg.ban - 1);
      MeanwhileChangesNothing(s, cfg.ban - 1, cfg);
    } else {
      assert ts[..|ts| - 1] == Upto(s, gap, n - 1, cfg);
      CountsUp(s, gap, n - 1, cfg);
    }
  }

  lemma {:induction false} SameMoment(s: nat, ts: seq<nat>, cfg: Config)
    requires Enabled(cfg) && Hammering(s, ts, 0)
    ensures LastOf(s, ts) == s && NameRow(Row(0, s, s + cfg.ban), ts, cfg) == Row(0, s, s + cfg.ban)
    decreases |ts|
  {
    if ts != [] {
      var n := |ts| - 1;
      assert forall i :: 0 <= i < n ==> ts[..n][..i] == ts[..i];
      SameMoment(s, ts[..n], cfg);
      assert LastOf(s, ts[..n]) <= ts[n] <= LastOf(s, ts[..n]) + 0;
    }
  }

  /** "A served username ban stays disarmed while failures keep arriving": exactly when the ban and the longest
      gap between them fit into the retention.  Otherwise the name can be locked again. */
  lemma DisarmedExactly(s: nat, gap: nat, cfg: Config)
    requires Enabled(cfg) && s > 0
    ensures (forall ts :: Hammering(s, ts, gap) ==> NameRow(Row(0, s, s + cfg.ban), ts, cfg).bannedUntil == s + cfg.ban)
              <==> gap == 0 || cfg.ban + gap <= Retention
    ensures (forall ts :: Hammering(s, ts, gap) ==> NameRow(Row(0, s, s + cfg.ban), ts, cfg).bannedUntil <= s + cfg.ban)
              <==> gap == 0 || cfg.ban + gap <= Retention
  {
    hide Hammering, NameRow;
    if gap == 0 || cfg.ban + gap <= Retention {
      forall ts | Hammering(s, ts, gap)
        ensures NameRow(Row(0, s, s + cfg.ban), ts, cfg).bannedUntil == s + cfg.ban
      {
        if gap == 0 {
          SameMoment(s, ts, cfg);
        } else {
          ServedBanStaysDisarmed(s, ts, gap, cfg);
        }
      }
    } else {
      AttackHammers(s, gap, cfg);
      AttackRenewsTheBan(s, gap, cfg);
    }
  }
}

/**
 What a call on the core achieves when nobody else is in flight and everything it tries works
 (service/config.go, service/maintenance.go): the other half of the lifecycle protocol, whose
 interleavings only say what must not happen.
 */
module CoreAlone {
  import opened CoreLifecycle

  /** Caller t is the only one, at pc, and holds the lock as pc says. */
  predicate Solo(s: State, t: Caller) {
    && t in s.callers && s.callers == map[t := s.callers[t]]
    && s.writer == (if Writes(s.callers[t]) then Some(t) else None)
    && s.readers == (if Reads(s.callers[t]) then {t} else {})
  }

  function Ahead(pc: Pc): nat {
    match pc
    case SaveWaiting(_) => 14
    case Saving(_) => 13
    case Committed(_, _) => 12
    case Saved(_, _) => 11
    case StartCalling(_) => 10
    case QueueCheck => 10
    case StartPolling(_) => 9
    case QueueWaiting => 9
    case StartWaiting(_) => 8
    case RestartWaiting => 8
    case QueueHeld => 8
    case StartHeld => 7
    case RestartHeld => 7
    case RestartStopping => 6
    case Begin => 5
    case Reading => 4
    case Launching(_) => 3
    case StopWaiting(_) => 3
    case Launched => 2
    case StopHeld(_) => 2
    case Releasing => 1
    case StopReleasing(_) => 1
  }

  /** Alone, a call is never held up, and goes on alone until it returns. */
  lemma SoloStep(s: State, t: Caller, w: Caller)
    requires Solo(s, t) && w != t
    ensures Enabled(s, Advance(t, true, w))
    ensures var s' := Next(s, Advance(t, true, w));
            t in s'.callers ==> Solo(s', t) && Ahead(s'.callers[t]) < Ahead(s.callers[t])
  {
    SoloEnabled(s, t, w);
    MoveFits(s, t, true, w);
    MoveAhead(s, s.callers[t]);
    hide MoveOf, Enabled;
    var m := MoveOf(s, s.callers[t], true);
    var s' := Next(s, Advance(t, true, w));
    if m.pc.Some? {
      assert s'.callers == map[t := m.pc.value];
    }
  }

  lemma SoloEnabled(s: State, t: Caller, w: Caller)
    requires Solo(s, t) && w != t
    ensures Enabled(s, Advance(t, true, w))
  {
  }

  lemma MoveAhead(s: State, pc: Pc)
    ensures var m := MoveOf(s, pc, true);
            m.pc.Some? ==> Ahead(m.pc.value) < Ahead(pc) && m.request.None?
  {
  }

  /** The call runs to its end, every step of it going well. */
  function Finished(s: State, t: Caller, w: Caller): State
    requires Solo(s, t) && w != t
    decreases Ahead(s.callers[t])
  {
    SoloStep(s, t, w);
    var s' := Next(s, Advance(t, true, w));
    if t in s'.callers then Finished(s', t, w) else s'
  }

  /** Everyone is gone and the lock is free. */
  function Quit(s: State): State {
    s.(callers := map[], writer := None, readers := {})
  }

  lemma ReleasingEnds(s: State, t: Caller, w: Caller)
    requires Solo(s, t) && w != t && s.callers[t].Releasing?
    ensures Finished(s, t, w) == Quit(s)
  {
    assert s.callers - {t} == map[];
  }

  lemma LaunchingEnds(s: State, t: Caller, w: Caller)
    requires Solo(s, t) && w != t && s.callers[t].Launching?
    ensures Finished(s, t, w) == Quit(s).(running := if s.maintenance then None else Some(s.callers[t].config))
  {
    SoloStep(s, t, w);
    var s1 := Next(s, Advance(t, true, w));
    SoloStep(s1, t, w);
    var s2 := Next(s1, Advance(t, true, w));
    ReleasingEnds(s2, t, w);
  }

  lemma BeginEnds(s: State, t: Caller, w: Caller)
    requires Solo(s, t) && w != t && s.callers[t].Begin?
    ensures Finished(s, t, w) ==
            if s.retired then Quit(s) else Quit(s).(running := if s.maintenance then None else Some(s.db))
  {
    SoloStep(s, t, w);
    var s1 := Next(s, Advance(t, true, w));
    if s.retired {
      ReleasingEnds(s1, t, w);
    } else {
      SoloStep(s1, t, w);
      LaunchingEnds(Next(s1, Advance(t, true, w)), t, w);
    }
  }

  lemma RestartStoppingEnds(s: State, t: Caller, w: Caller)
    requires Solo(s, t) && w != t && s.callers[t].RestartStopping?
    ensures Finished(s, t, w) == Quit(s).(running := if s.retired || s.maintenance then None else Some(s.db))
  {
    SoloStep(s, t, w);
    BeginEnds(Next(s, Advance(t, true, w)), t, w);
  }

  /** What a start leaves: the core up on the current config, unless it is up already, retired or in maintenance. */
  function Up(s: State): State {
    if s.maintenance || s.retired || s.running.Some? then Quit(s) else Quit(s).(running := Some(s.db))
  }

  lemma StartCallingEnds(s: State, t: Caller, w: Caller)
    requires Solo(s, t) && w != t && s.callers[t].StartCalling?
    ensures Finished(s, t, w) == Up(s)
  {
    assert s.callers - {t} == map[];
    SoloStep(s, t, w);
    var s1 := Next(s, Advance(t, true, w));
    if !s.maintenance {
      SoloStep(s1, t, w);
      var s2 := Next(s1, Advance(t, true, w));
      if s.running.None? {
        StartWaitingEnds(s2, t, w);
      } else {
        assert s1.callers - {t} == map[];
      }
    }
  }

  lemma StartWaitingEnds(s: State, t: Caller, w: Caller)
    requires Solo(s, t) && w != t && s.callers[t].StartWaiting? && s.running.None? && !s.maintenance
    ensures Finished(s, t, w) == Up(s)
  {
    SoloStep(s, t, w);
    var s1 := Next(s, Advance(t, true, w));
    SoloStep(s1, t, w);
    BeginEnds(Next(s1, Advance(t, true, w)), t, w);
  }

  lemma RestartWaitingEnds(s: State, t: Caller, w: Caller)
    requires Solo(s, t) && w != t && s.callers[t].RestartWaiting?
    ensures Finished(s, t, w) ==
            if s.retired then Quit(s) else Quit(s).(running := if s.maintenance then None else Some(s.db))
  {
    SoloStep(s, t, w);
    var s1 := Next(s, Advance(t, true, w));
    SoloStep(s1, t, w);
    var s2 := Next(s1, Advance(t, true, w));
    if s.retired {
      ReleasingEnds(s2, t, w);
    } else {
      RestartStoppingEnds(s2, t, w);
    }
  }

  lemma QueueCheckEnds(s: State, t: Caller, w: Caller)
    requires Solo(s, t) && w != t && s.callers[t].QueueCheck?
    ensures Finished(s, t, w) ==
            if s.maintenance then Quit(s).(queued := false)
            else Quit(s).(queued := false, running := if s.retired then None else Some(s.db))
  {
    assert s.callers - {t} == map[];
    SoloStep(s, t, w);
    var s1 := Next(s, Advance(t, true, w));
    if !s.maintenance {
      QueueWaitingEnds(s1, t, w);
    }
  }

  lemma QueueWaitingEnds(s: State, t: Caller, w: Caller)
    requires Solo(s, t) && w != t && s.callers[t].QueueWaiting? && !s.maintenance
    ensures Finished(s, t, w) == Quit(s).(queued := false, running := if s.retired then None else Some(s.db))
  {
    SoloStep(s, t, w);
    var s1 := Next(s, Advance(t, true, w));
    SoloStep(s1, t, w);
    RestartStoppingEnds(Next(s1, Advance(t, true, w)), t, w);
  }

  /** A stop takes the core down and, for a switch or a retirement, notes that it has returned. */
  function Down(s: State, why: Reason): State {
    Quit(s).(running := None,
             maintained := if why.ForMaintenance? then s.maintained + {why.epoch} else s.maintained,
             retirements := if why.ForRetirement? then s.retirements + {why.epoch} else s.retirements)
  }

  lemma StopWaitingEnds(s: State, t: Caller, w: Caller)
    requires Solo(s, t) && w != t && s.callers[t].StopWaiting?
    ensures Finished(s, t, w) == Down(s, s.callers[t].why)
  {
    SoloStep(s, t, w);
    var s1 := Next(s, Advance(t, true, w));
    SoloStep(s1, t, w);
    var s2 := Next(s1, Advance(t, true, w));
    SoloStep(s2, t, w);
    assert s2.callers - {t} == map[];
    assert Finished(s2, t, w) == Next(s2, Advance(t, true, w));
  }

  /** A save that asks for a restart leaves the restart's worker behind. */
  lemma SaveWaitingEnds(s: State, t: Caller, w: Caller)
    requires Solo(s, t) && w != t && s.callers[t].SaveWaiting? && !s.queued
    ensures Finished(s, t, w) ==
            if s.callers[t].restart
            then Quit(s).(db := s.db + 1, callers := map[w := QueueCheck], queued := true, asked := if s.db + 1 > s.asked then s.db + 1 else s.asked)
            else Up(s.(db := s.db + 1))
  {
    SoloStep(s, t, w);
    var s1 := Next(s, Advance(t, true, w));
    SavingEnds(s1, t, w);
  }

  lemma SavingEnds(s: State, t: Caller, w: Caller)
    requires Solo(s, t) && w != t && s.callers[t].Saving? && !s.queued
    ensures Finished(s, t, w) ==
            if s.callers[t].restart
            then Quit(s).(db := s.db + 1, callers := map[w := QueueCheck], queued := true, asked := if s.db + 1 > s.asked then s.db + 1 else s.asked)
            else Up(s.(db := s.db + 1))
  {
    SoloStep(s, t, w);
    var s1 := Next(s, Advance(t, true, w));
    SoloStep(s1, t, w);
    SavedEnds(Next(s1, Advance(t, true, w)), t, w);
  }

  lemma SavedEnds(s: State, t: Caller, w: Caller)
    requires Solo(s, t) && w != t && s.callers[t].Saved? && !s.queued
    ensures var Saved(restart, k) := s.callers[t];
            Finished(s, t, w) ==
            if restart then Quit(s).(callers := map[w := QueueCheck], queued := true, asked := if k > s.asked then k else s.asked)
            else Up(s)
  {
    assert s.callers - {t} == map[];
    SoloStep(s, t, w);
    var s1 := Next(s, Advance(t, true, w));
    if !s.callers[t].restart && s.running.None? {
      StartCallingEnds(s1, t, w);
    }
  }

  // ---------- from every quiet state ----------

  /** Nobody in flight: the lock is free, nothing is queued, and in maintenance the core is down. */
  lemma QuietState(s: State, steps: seq<Step>)
    requires Reachable(s, steps) && s.callers == map[]
    ensures s == Quit(s) && !s.queued && (s.maintenance ==> s.running.None?)
  {
    ReachableKeeps(s, steps);
    assert s.readers == {};
  }

  function Entering(s: State, t: Caller, call: Call): State
    requires s.callers == map[]
  {
    Next(s, Enter(t, call))
  }

  /** StartCore brings the core up on the config that is stored now, exactly when it is not up already, not
      retired and not in maintenance; otherwise it changes nothing. */
  lemma StartAlone(s: State, steps: seq<Step>, t: Caller, w: Caller, try: bool)
    requires Reachable(s, steps) && s.callers == map[] && w != t
    ensures var s1 := Entering(s, t, StartCore(try));
            Solo(s1, t) && Finished(s1, t, w) ==
            if s.maintenance || s.retired || s.running.Some? then s else s.(running := Some(s.db))
  {
    hide Finished, MoveOf;
    QuietState(s, steps);
    StartCallingEnds(Entering(s, t, StartCore(try)), t, w);
  }

  /** RestartCore ends with the core up on the config that is stored now, whether it was up or not, unless the
      core is retired or in maintenance; then it changes nothing. */
  lemma RestartAlone(s: State, steps: seq<Step>, t: Caller, w: Caller)
    requires Reachable(s, steps) && s.callers == map[] && w != t
    ensures var s1 := Entering(s, t, RestartCore);
            if s.maintenance then s1 == s
            else Solo(s1, t) && Finished(s1, t, w) == if s.retired then s else s.(running := Some(s.db))
  {
    hide Finished, MoveOf;
    QuietState(s, steps);
    if !s.maintenance {
      RestartWaitingEnds(Entering(s, t, RestartCore), t, w);
    }
  }

  /** A save that asks for a restart, and then its worker: the change is stored and the core runs on it, unless
      it is retired or in maintenance. */
  lemma SaveAndRestartAlone(s: State, steps: seq<Step>, t: Caller, w: Caller)
    requires Reachable(s, steps) && s.callers == map[] && w != t
    ensures var s1 := Entering(s, t, Save(true));
            && Solo(s1, t) && Solo(Finished(s1, t, w), w)
            && var s3 := Finished(Finished(s1, t, w), w, t);
               && s3.callers == map[] && !s3.queued && s3.db == s.db + 1 && s3.asked >= s3.db
               && s3.running == if s.maintenance || s.retired then None else Some(s3.db)
  {
    hide Finished, MoveOf;
    QuietState(s, steps);
    var s1 := Entering(s, t, Save(true));
    SaveWaitingEnds(s1, t, w);
    QueueCheckEnds(Finished(s1, t, w), w, t);
  }

  /** A save that asks for none stores the change, leaves a running core alone and starts one that is down. */
  lemma SaveAlone(s: State, steps: seq<Step>, t: Caller, w: Caller)
    requires Reachable(s, steps) && s.callers == map[] && w != t
    ensures var s1 := Entering(s, t, Save(false));
            Solo(s1, t) && Finished(s1, t, w) ==
            if s.maintenance || s.retired || s.running.Some? then s.(db := s.db + 1)
            else s.(db := s.db + 1, running := Some(s.db + 1))
  {
    hide Finished, MoveOf;
    QuietState(s, steps);
    SaveWaitingEnds(Entering(s, t, Save(false)), t, w);
  }

  /** StopCore takes the core down and changes nothing else. */
  lemma StopAlone(s: State, steps: seq<Step>, t: Caller, w: Caller)
    requires Reachable(s, steps) && s.callers == map[] && w != t
    ensures var s1 := Entering(s, t, StopCore);
            Solo(s1, t) && Finished(s1, t, w) == s.(running := None)
  {
    hide Finished, MoveOf;
    QuietState(s, steps);
    StopWaitingEnds(Entering(s, t, StopCore), t, w);
  }

  /** The maintenance switch: on takes the core down, off brings it up again. */
  lemma MaintenanceAlone(s: State, steps: seq<Step>, t: Caller, w: Caller, on: bool)
    requires Reachable(s, steps) && s.callers == map[] && w != t
    ensures var s1 := Entering(s, t, SetMaintenance(on));
            && Solo(s1, t)
            && var s2 := Finished(s1, t, w);
               && s2.callers == map[] && s2.maintenance == on && s2.db == s.db
               && s2.running == if on then None else if s.running.Some? then s.running else if s.retired then None else Some(s.db)
  {
    hide Finished, MoveOf;
    QuietState(s, steps);
    var s1 := Entering(s, t, SetMaintenance(on));
    if on {
      StopWaitingEnds(s1, t, w);
    } else {
      StartCallingEnds(s1, t, w);
    }
  }

  /** Retire, reclaim and start in a row: down, and then up again on the stored config. */
  lemma RetireReclaimStart(s: State, steps: seq<Step>, t: Caller, w: Caller)
    requires Reachable(s, steps) && s.callers == map[] && w != t && !s.maintenance
    ensures var s1 := Entering(s, t, RetireCore);
            && Solo(s1, t)
            && var s2 := Finished(s1, t, w);
               && s2.callers == map[] && s2.retired && s2.running.None?
               && var s3 := Entering(s2, t, ReclaimCore);
                  && s3 == s2.(retired := false, reclaimed := s2.reclaimed + 1)
                  && var s4 := Entering(s3, t, StartCore(false));
                     Solo(s4, t) && Finished(s4, t, w) == s3.(running := Some(s.db))
  {
    hide Finished, MoveOf;
    QuietState(s, steps);
    var s1 := Entering(s, t, RetireCore);
    StopWaitingEnds(s1, t, w);
    var s3 := Entering(Finished(s1, t, w), t, ReclaimCore);
    StartCallingEnds(Entering(s3, t, StartCore(false)), t, w);
  }
}

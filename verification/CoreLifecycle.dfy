/**
 Starting, stopping and restarting the core (service/config.go, service/maintenance.go,
 core/main.go) as an interleaved protocol.

 startMu is a read/write lock; maintenance, retired and restartQueued are flags anyone can set
 at any time.  Every call is cut at each lock operation and each flag access, so that a flag
 can change between any two of its steps.  The config a core runs is the database version
 that was current when it was read.
 */
module CoreLifecycle {
  type Caller = nat
  type Version = nat

  datatype Option<T> = None | Some(value: T)

  /** Who asked for a stop, and in which epoch of the flag that goes with it. */
  datatype Reason = Plain | ForMaintenance(epoch: nat) | ForRetirement(epoch: nat)

  /** Where a call is.  Those from Held on own the lock's write side, Saving ones its read side. */
  datatype Pc =
    | StartCalling(try: bool)            // startCore: maintenance not read yet
    | StartPolling(try: bool)            // startCore: maintenance seen off, running not read yet
    | StartWaiting(try: bool)            // startCore: about to take startMu
    | RestartWaiting                     // RestartCore: about to take startMu
    | QueueCheck                         // restartQueuedCore: maintenance not read yet
    | QueueWaiting                       // restartQueuedCore: about to take startMu
    | StopWaiting(why: Reason)           // StopCore: about to take startMu
    | StartHeld                          // startCore: re-check running, then the cooldown
    | RestartHeld                        // RestartCore: the retired check
    | QueueHeld                          // restartQueuedCore: about to clear restartQueued
    | RestartStopping                    // stopLocked on the way to startLocked
    | Begin                              // startLocked: the retired check
    | Reading                            // startLocked: GetConfig
    | Launching(config: Version)         // startBox: Core.Start
    | Launched                           // startBox: published, maintenance not read yet
    | Releasing                          // about to release startMu
    | StopHeld(why: Reason)              // StopCore: stopLocked
    | StopReleasing(why: Reason)         // StopCore: about to release startMu and return
    | SaveWaiting(restart: bool)         // Save: about to take the read side
    | Saving(restart: bool)              // Save: inside the transaction
    | Committed(restart: bool, change: Version)   // Save: committed, read side still held
    | Saved(restart: bool, change: Version)       // Save: read side released, follow-up to come

  datatype State = State(
    maintenance: bool,
    retired: bool,
    queued: bool,
    running: Option<Version>,
    db: Version,
    writer: Option<Caller>,
    readers: set<Caller>,
    callers: map<Caller, Pc>,
    // history: how often each flag was cleared, the epochs whose stop has returned, and the
    // latest committed change whose save asked for a restart
    switchedOff: nat,
    reclaimed: nat,
    maintained: set<nat>,
    retirements: set<nat>,
    asked: Version)

  /** The panel comes up with the core down and the switch as it was stored; stored on, it counts as an epoch
      of maintenance that has begun. */
  function Booted(stored: bool): State {
    State(stored, false, false, None, 0, None, {}, map[], 0, 0, if stored then {0} else {}, {}, 0)
  }

  predicate Writes(pc: Pc) {
    pc.StartHeld? || pc.RestartHeld? || pc.QueueHeld? || pc.RestartStopping? || pc.Begin? || pc.Reading? ||
    pc.Launching? || pc.Launched? || pc.Releasing? || pc.StopHeld? || pc.StopReleasing?
  }

  predicate Reads(pc: Pc) {
    pc.Saving? || pc.Committed?
  }

  datatype Call = StartCore(try: bool) | RestartCore | StopCore | SetMaintenance(on: bool) | RetireCore | ReclaimCore | Save(restart: bool)

  /** A new call, or one more step of a call under way.  `ok` settles what the model leaves open --
      whether the cooldown has passed, the config can be read, the box starts, the transaction
      commits -- and `worker` is the goroutine a restart request starts. */
  datatype Step = Enter(caller: Caller, call: Call) | Advance(caller: Caller, ok: bool, worker: Caller)

  predicate Free(s: State) {
    s.writer.None? && s.readers == {}
  }

  predicate Enabled(s: State, step: Step) {
    match step
    case Enter(t, _) => t !in s.callers
    case Advance(t, _, w) =>
      && t in s.callers && w !in s.callers
      && match s.callers[t] {
           case StartWaiting(try) => try || Free(s)
           case RestartWaiting => Free(s)
           case QueueWaiting => Free(s)
           case StopWaiting(_) => Free(s)
           case SaveWaiting(_) => s.writer.None?
           case _ => true
         }
  }

  /** Where a call stands after its first step. */
  function Place(s: State, call: Call): Pc {
    match call
    case StartCore(try) => StartCalling(try)
    case RestartCore => RestartWaiting
    case StopCore => StopWaiting(Plain)
    case SetMaintenance(on) => if on then StopWaiting(ForMaintenance(s.switchedOff)) else StartCalling(false)
    case RetireCore => StopWaiting(ForRetirement(s.reclaimed))
    case ReclaimCore => StartCalling(false)
    case Save(restart) => SaveWaiting(restart)
  }

  /** A call's first step: nothing but flags and the caller's own place change. */
  function Entered(s: State, t: Caller, call: Call): State {
    var s' := Arrive(s, t, Place(s, call));
    match call
    case RestartCore => if s.maintenance then s else s'
    case SetMaintenance(on) =>
      if on then s'.(maintenance := true) else s'.(maintenance := false, switchedOff := s.switchedOff + 1)
    case RetireCore => s'.(retired := true)
    case ReclaimCore => s.(retired := false, reclaimed := s.reclaimed + 1)
    case _ => s'
  }

  function Arrive(s: State, t: Caller, pc: Pc): State {
    s.(callers := s.callers[t := pc])
  }

  datatype LockOp = Keep | TakeWrite | DropWrite | TakeRead | DropRead

  /** What one step of a call does: where the caller goes next (nowhere when it returns), to the lock,
      to the core, the database and the queue.  `request` is a change a restart is asked for. */
  datatype Move = Move(
    pc: Option<Pc>, lock: LockOp, running: Option<Version>, db: Version, queued: bool,
    request: Option<Version>, returned: Reason)

  function MoveOf(s: State, pc: Pc, ok: bool): Move {
    var m := Move(None, Keep, s.running, s.db, s.queued, None, Plain);
    match pc
    case StartCalling(try) => if s.maintenance then m else m.(pc := Some(StartPolling(try)))
    case StartPolling(try) => if s.running.Some? then m else m.(pc := Some(StartWaiting(try)))
    case StartWaiting(_) => if Free(s) then m.(pc := Some(StartHeld), lock := TakeWrite) else m
    case RestartWaiting => m.(pc := Some(RestartHeld), lock := TakeWrite)
    case QueueCheck => if s.maintenance then m.(queued := false) else m.(pc := Some(QueueWaiting))
    case QueueWaiting => m.(pc := Some(QueueHeld), lock := TakeWrite)
    case StopWaiting(why) => m.(pc := Some(StopHeld(why)), lock := TakeWrite)
    case StartHeld => m.(pc := Some(if s.running.Some? || !ok then Releasing else Begin))
    case RestartHeld => m.(pc := Some(if s.retired then Releasing else RestartStopping))
    case QueueHeld => m.(pc := Some(RestartStopping), queued := false)
    case RestartStopping => m.(pc := Some(Begin), running := None)
    case Begin => m.(pc := Some(if s.retired then Releasing else Reading))
    case Reading => m.(pc := Some(if ok then Launching(s.db) else Releasing))
    case Launching(v) =>
      if ok then m.(pc := Some(Launched), running := Some(v)) else m.(pc := Some(Releasing), running := None)
    case Launched => m.(pc := Some(Releasing), running := if s.maintenance then None else s.running)
    case Releasing => m.(lock := DropWrite)
    case StopHeld(why) => m.(pc := Some(StopReleasing(why)), running := None)
    case StopReleasing(why) => m.(lock := DropWrite, returned := why)
    case SaveWaiting(restart) => m.(pc := Some(Saving(restart)), lock := TakeRead)
    case Saving(restart) =>
      if ok then m.(pc := Some(Committed(restart, s.db + 1)), db := s.db + 1) else m.(lock := DropRead)
    case Committed(restart, k) => m.(pc := Some(Saved(restart, k)), lock := DropRead)
    case Saved(restart, k) =>
      if restart then m.(request := Some(k), queued := true)
      else if s.running.None? then m.(pc := Some(StartCalling(false)))
      else m
  }

  /** requestRestart folds a request into a restart that is still queued; otherwise a worker starts. */
  predicate Spawns(s: State, m: Move) {
    m.request.Some? && !s.queued
  }

  function Moved(s: State, t: Caller, m: Move, worker: Caller): State {
    var callers := if m.pc.Some? then s.callers[t := m.pc.value] else s.callers - {t};
    s.(callers := if Spawns(s, m) then callers[worker := QueueCheck] else callers,
       writer := if m.lock.TakeWrite? then Some(t) else if m.lock.DropWrite? then None else s.writer,
       readers := if m.lock.TakeRead? then s.readers + {t} else if m.lock.DropRead? then s.readers - {t} else s.readers,
       running := m.running,
       db := m.db,
       queued := m.queued,
       asked := if m.request.Some? && m.request.value > s.asked then m.request.value else s.asked,
       maintained := if m.returned.ForMaintenance? then s.maintained + {m.returned.epoch} else s.maintained,
       retirements := if m.returned.ForRetirement? then s.retirements + {m.returned.epoch} else s.retirements)
  }

  function Next(s: State, step: Step): State
    requires Enabled(s, step)
  {
    match step
    case Enter(t, call) => Entered(s, t, call)
    case Advance(t, ok, worker) => Moved(s, t, MoveOf(s, s.callers[t], ok), worker)
  }

  ghost predicate Reachable(s: State, steps: seq<Step>)
    decreases |steps|
  {
    if steps == [] then s == Booted(true) || s == Booted(false)
    else
      var n := |steps| - 1;
      exists p :: Reachable(p, steps[..n]) && Enabled(p, steps[n]) && s == Next(p, steps[n])
  }

  // ---------- the lock ----------

  predicate LockInv(s: State) {
    && (forall t :: t in s.callers && Writes(s.callers[t]) ==> s.writer == Some(t))
    && (s.writer.Some? ==> s.writer.value in s.callers && Writes(s.callers[s.writer.value]) && s.readers == {})
    && (forall t :: t in s.callers && Reads(s.callers[t]) ==> t in s.readers)
    && (forall t :: t in s.readers ==> t in s.callers && Reads(s.callers[t]))
  }

  predicate HoldsWrite(s: State, t: Caller) {
    t in s.callers && Writes(s.callers[t])
  }

  predicate HoldsRead(s: State, t: Caller) {
    t in s.callers && Reads(s.callers[t])
  }

  /** What the step does to the lock matches where the caller goes. */
  predicate LockFits(s: State, pc: Pc, m: Move) {
    var write, read := m.pc.Some? && Writes(m.pc.value), m.pc.Some? && Reads(m.pc.value);
    match m.lock
    case Keep => write == Writes(pc) && read == Reads(pc)
    case TakeWrite => write && !read && !Writes(pc) && !Reads(pc) && Free(s)
    case DropWrite => !write && !read && Writes(pc)
    case TakeRead => read && !write && !Reads(pc) && !Writes(pc) && s.writer.None?
    case DropRead => !read && !write && Reads(pc)
  }

  lemma MoveFits(s: State, t: Caller, ok: bool, worker: Caller)
    requires Enabled(s, Advance(t, ok, worker))
    ensures LockFits(s, s.callers[t], MoveOf(s, s.callers[t], ok))
  {
  }

  lemma LockMoves(s: State, t: Caller, m: Move, worker: Caller)
    requires LockInv(s) && t in s.callers && worker !in s.callers && LockFits(s, s.callers[t], m)
    ensures LockInv(Moved(s, t, m, worker))
  {
  }

  lemma LockArrives(s: State, s': State, t: Caller, pc: Pc)
    requires LockInv(s) && t !in s.callers && !Writes(pc) && !Reads(pc)
    requires s'.writer == s.writer && s'.readers == s.readers
    requires s'.callers == s.callers || s'.callers == s.callers[t := pc]
    ensures LockInv(s')
  {
  }

  lemma LockEntered(s: State, t: Caller, call: Call)
    requires LockInv(s) && t !in s.callers
    ensures LockInv(Entered(s, t, call))
  {
    hide LockInv, Entered;
    EnteredShape(s, t, call);
    LockArrives(s, Entered(s, t, call), t, Place(s, call));
  }

  lemma EnteredShape(s: State, t: Caller, call: Call)
    requires t !in s.callers
    ensures var s' := Entered(s, t, call);
            && s'.writer == s.writer && s'.readers == s.readers
            && s'.running == s.running && s'.db == s.db && s'.queued == s.queued && s'.asked == s.asked
            && (s'.callers == s.callers || s'.callers == s.callers[t := Place(s, call)])
            && (call == SetMaintenance(true) ==> s'.callers == s.callers[t := Place(s, call)])
            && (s'.maintenance && !s.maintenance ==> call == SetMaintenance(true))
  {
  }

  lemma LockKept(s: State, step: Step)
    requires LockInv(s) && Enabled(s, step)
    ensures LockInv(Next(s, step))
  {
    hide MoveOf, LockFits, LockInv, Moved, Entered;
    match step
    case Enter(t, call) => LockEntered(s, t, call);
    case Advance(t, ok, worker) =>
      MoveFits(s, t, ok, worker);
      LockMoves(s, t, MoveOf(s, s.callers[t], ok), worker);
  }

  /** While one caller owns the write side, nobody else is past Held or inside a save. */
  lemma OthersWait(s: State, t: Caller, u: Caller)
    requires LockInv(s) && u != t
    ensures HoldsWrite(s, t) ==> !HoldsWrite(s, u) && !HoldsRead(s, u)
    ensures HoldsRead(s, t) ==> !HoldsWrite(s, u)
  {
  }

  // ---------- the configuration ----------

  /** What each caller may rely on about the core and the database where it stands. */
  predicate Placed(running: Option<Version>, db: Version, pc: Pc) {
    match pc
    case Begin => running.None?
    case Reading => running.None?
    case Launching(v) => running.None? && v == db
    case Launched => running == Some(db)
    case StopReleasing(_) => running.None?
    case Committed(_, k) => k <= db
    case Saved(_, k) => k <= db
    case _ => true
  }

  predicate ConfigInv(s: State) {
    && (forall t :: t in s.callers ==> Placed(s.running, s.db, s.callers[t]))
    && (s.running.Some? ==> s.running.value <= s.db)
    && s.asked <= s.db
  }

  /** Only the owner of the write side touches the core, only a save advances the database. */
  lemma MovePlaces(s: State, pc: Pc, ok: bool)
    requires Placed(s.running, s.db, pc) && (s.running.Some? ==> s.running.value <= s.db)
    ensures var m := MoveOf(s, pc, ok);
            && (m.pc.Some? ==> Placed(m.running, m.db, m.pc.value))
            && (m.running != s.running ==> Writes(pc))
            && (m.db != s.db ==> Reads(pc) && m.db > s.db)
            && (m.running.Some? ==> m.running.value <= m.db)
            && (m.request.Some? ==> m.request.value <= m.db)
  {
  }

  lemma ConfigEntered(s: State, t: Caller, call: Call)
    requires ConfigInv(s) && t !in s.callers
    ensures ConfigInv(Entered(s, t, call))
  {
  }

  lemma PlacedStays(s: State, t: Caller, m: Move, u: Caller)
    requires LockInv(s) && ConfigInv(s) && t in s.callers && u in s.callers && u != t
    requires m.running != s.running ==> Writes(s.callers[t])
    requires m.db != s.db ==> Reads(s.callers[t]) && m.db > s.db
    ensures Placed(m.running, m.db, s.callers[u])
  {
    OthersWait(s, t, u);
  }

  lemma ConfigMoved(s: State, t: Caller, ok: bool, worker: Caller)
    requires LockInv(s) && ConfigInv(s) && t in s.callers && worker !in s.callers
    ensures ConfigInv(Moved(s, t, MoveOf(s, s.callers[t], ok), worker))
  {
    hide MoveOf, LockInv, Writes, Reads;
    var m := MoveOf(s, s.callers[t], ok);
    MovePlaces(s, s.callers[t], ok);
    forall u | u in s.callers && u != t
      ensures Placed(m.running, m.db, s.callers[u])
    {
      PlacedStays(s, t, m, u);
    }
  }

  lemma ConfigKept(s: State, step: Step)
    requires LockInv(s) && ConfigInv(s) && Enabled(s, step)
    ensures ConfigInv(Next(s, step))
  {
    hide MoveOf, LockInv, ConfigInv, Moved, Entered;
    match step
    case Enter(t, call) => ConfigEntered(s, t, call);
    case Advance(t, ok, worker) => ConfigMoved(s, t, ok, worker);
  }

  // ---------- stops, queued restarts and epochs ----------

  /** Bound to take the core down: waiting in StopCore, or restarting with the stop still ahead. */
  predicate Stops(pc: Pc) {
    pc.StopWaiting? || pc.StopHeld? || pc.RestartStopping?
  }

  predicate Queues(pc: Pc) {
    pc.QueueCheck? || pc.QueueWaiting? || pc.QueueHeld?
  }

  ghost predicate SomeoneStops(s: State) {
    exists t :: t in s.callers && Stops(s.callers[t])
  }

  ghost predicate SomeoneQueues(s: State) {
    exists t :: t in s.callers && Queues(s.callers[t])
  }

  ghost predicate SomeoneLaunched(s: State) {
    exists t :: t in s.callers && s.callers[t].Launched?
  }

  /** A queued restart has its worker, a request the running core does not carry is queued or about to
      be overtaken by a stop, and a core up during maintenance is about to come down. */
  ghost predicate PromiseInv(s: State) {
    && (s.queued ==> SomeoneQueues(s))
    && (s.running.Some? && s.asked > s.running.value ==> s.queued || SomeoneStops(s))
    && (s.maintenance && s.running.Some? ==> SomeoneStops(s) || SomeoneLaunched(s))
  }

  lemma MoveKeepsPromises(s: State, pc: Pc, ok: bool)
    requires Placed(s.running, s.db, pc)
    ensures var m := MoveOf(s, pc, ok);
            && (Stops(pc) && !(m.pc.Some? && Stops(m.pc.value)) ==> m.running.None?)
            && (Queues(pc) && !(m.pc.Some? && Queues(m.pc.value)) ==> !m.queued)
            && (m.queued && !s.queued ==> m.request.Some?)
            && (m.request.Some? ==> m.queued && m.pc.None?)
            && (s.queued && !m.queued ==> (m.pc.Some? && Stops(m.pc.value)) || (s.maintenance && pc.QueueCheck?))
            && (m.running.Some? && m.running != s.running ==> m.pc == Some(Launched) && m.running == Some(m.db))
            && (pc.Launched? && s.maintenance ==> m.running.None?)
  {
  }

  /** Whoever is not the one moving stays where it is. */
  lemma OthersStay(s: State, t: Caller, m: Move, worker: Caller)
    requires t in s.callers && worker !in s.callers
    ensures var s' := Moved(s, t, m, worker);
            && (forall u :: u in s.callers && u != t ==> u in s'.callers && s'.callers[u] == s.callers[u])
            && (m.pc.Some? ==> t in s'.callers && s'.callers[t] == m.pc.value)
            && (Spawns(s, m) ==> worker in s'.callers && s'.callers[worker] == QueueCheck)
            && (forall u :: u in s'.callers && u != t && u !in s.callers ==> u == worker && s'.callers[u] == QueueCheck)
            && (m.pc.None? ==> t !in s'.callers)
  {
  }

  lemma StopsPersist(s: State, t: Caller, m: Move, worker: Caller)
    requires t in s.callers && worker !in s.callers && SomeoneStops(s)
    requires Stops(s.callers[t]) && !(m.pc.Some? && Stops(m.pc.value)) ==> m.running.None?
    ensures m.running.Some? ==> SomeoneStops(Moved(s, t, m, worker))
  {
    OthersStay(s, t, m, worker);
    hide Moved, Stops;
    var u :| u in s.callers && Stops(s.callers[u]);
    assert u == t || (u in Moved(s, t, m, worker).callers && Stops(Moved(s, t, m, worker).callers[u]));
  }

  lemma QueuesPersist(s: State, t: Caller, m: Move, worker: Caller)
    requires t in s.callers && worker !in s.callers
    requires s.queued ==> SomeoneQueues(s)
    requires Queues(s.callers[t]) && !(m.pc.Some? && Queues(m.pc.value)) ==> !m.queued
    requires m.queued && !s.queued ==> m.request.Some?
    ensures m.queued ==> SomeoneQueues(Moved(s, t, m, worker))
  {
    OthersStay(s, t, m, worker);
    if m.queued {
      if s.queued {
        var u :| u in s.callers && Queues(s.callers[u]);
        assert u == t || (u in Moved(s, t, m, worker).callers && Queues(Moved(s, t, m, worker).callers[u]));
      } else {
        assert Spawns(s, m) && Queues(Moved(s, t, m, worker).callers[worker]);
      }
    }
  }

  lemma LaunchedPersists(s: State, t: Caller, m: Move, worker: Caller)
    requires t in s.callers && worker !in s.callers && SomeoneLaunched(s)
    requires s.callers[t].Launched? ==> m.running.None?
    ensures m.running.Some? ==> SomeoneLaunched(Moved(s, t, m, worker))
  {
    OthersStay(s, t, m, worker);
    var u :| u in s.callers && s.callers[u].Launched?;
    assert u == t || (u in Moved(s, t, m, worker).callers && Moved(s, t, m, worker).callers[u].Launched?);
  }

  /** A launch that is not confirmed yet runs the newest configuration there is. */
  lemma LaunchedIsFresh(s: State)
    requires ConfigInv(s) && SomeoneLaunched(s)
    ensures s.running == Some(s.db) && s.asked <= s.db
  {
    var u :| u in s.callers && s.callers[u].Launched?;
    assert Placed(s.running, s.db, s.callers[u]);
  }

  lemma MovedStops(s: State, t: Caller, m: Move, worker: Caller)
    requires t in s.callers && worker !in s.callers && m.pc.Some?
    ensures Stops(m.pc.value) ==> SomeoneStops(Moved(s, t, m, worker))
    ensures m.pc.value.Launched? ==> SomeoneLaunched(Moved(s, t, m, worker))
  {
    OthersStay(s, t, m, worker);
    assert t in Moved(s, t, m, worker).callers;
  }

  lemma PromisesMoved(s: State, t: Caller, ok: bool, worker: Caller)
    requires ConfigInv(s) && PromiseInv(s) && t in s.callers && worker !in s.callers
    ensures PromiseInv(Moved(s, t, MoveOf(s, s.callers[t], ok), worker))
  {
    hide MoveOf, Stops, Queues, SomeoneStops, SomeoneQueues, SomeoneLaunched;
    var pc := s.callers[t];
    var m := MoveOf(s, pc, ok);
    var s' := Moved(s, t, m, worker);
    MovePlaces(s, pc, ok);
    MoveKeepsPromises(s, pc, ok);
    QueuesPersist(s, t, m, worker);
    if SomeoneStops(s) {
      StopsPersist(s, t, m, worker);
    }
    if SomeoneLaunched(s) {
      LaunchedIsFresh(s);
      if pc.Launched? ==> s.maintenance {
        LaunchedPersists(s, t, m, worker);
      }
    }
    if m.pc.Some? {
      MovedStops(s, t, m, worker);
    }
  }

  lemma PromisesEntered(s: State, t: Caller, call: Call)
    requires PromiseInv(s) && t !in s.callers
    ensures PromiseInv(Entered(s, t, call))
  {
    hide Entered;
    EnteredShape(s, t, call);
    var s' := Entered(s, t, call);
    if call == SetMaintenance(true) {
      assert t in s'.callers && Stops(s'.callers[t]);
    }
    if s.queued {
      var u :| u in s.callers && Queues(s.callers[u]);
      assert u in s'.callers;
    }
    if SomeoneStops(s) {
      var u :| u in s.callers && Stops(s.callers[u]);
      assert u in s'.callers;
    }
    if SomeoneLaunched(s) {
      var u :| u in s.callers && s.callers[u].Launched?;
      assert u in s'.callers;
    }
  }

  /** An epoch still current means its flag is still up. */
  predicate Timely(s: State, why: Reason) {
    match why
    case Plain => true
    case ForMaintenance(e) => e <= s.switchedOff && (e == s.switchedOff ==> s.maintenance)
    case ForRetirement(e) => e <= s.reclaimed && (e == s.reclaimed ==> s.retired)
  }

  /** A start that is past the retired check. */
  predicate PastRetiredCheck(pc: Pc) {
    pc.Reading? || pc.Launching? || pc.Launched?
  }

  predicate StopTimely(s: State, pc: Pc) {
    pc.StopWaiting? || pc.StopHeld? || pc.StopReleasing? ==> Timely(s, pc.why)
  }

  predicate TimelyInv(s: State) {
    && (forall t :: t in s.callers ==> StopTimely(s, s.callers[t]))
    && (forall e :: e in s.maintained ==> e <= s.switchedOff)
    && (forall e :: e in s.retirements ==> e <= s.reclaimed)
  }

  /** SetMaintenance(true) has returned and nothing switched it off since: a core that is up is one
      its start has not confirmed yet. */
  ghost predicate MaintainedInv(s: State) {
    s.switchedOff in s.maintained ==> s.maintenance && (s.running.Some? ==> SomeoneLaunched(s))
  }

  /** RetireCore has returned and nothing reclaimed the core since: it is down, and no start is past the check. */
  ghost predicate RetiredInv(s: State) {
    s.reclaimed in s.retirements ==>
      s.retired && s.running.None? && forall t :: t in s.callers ==> !PastRetiredCheck(s.callers[t])
  }

  lemma MoveKeepsEpochs(s: State, pc: Pc, ok: bool)
    requires Placed(s.running, s.db, pc) && StopTimely(s, pc)
    ensures var m := MoveOf(s, pc, ok);
            && (m.pc.Some? ==> StopTimely(s, m.pc.value))
            && Timely(s, m.returned)
            && (!m.returned.Plain? ==> m.pc.None? && m.request.None? && m.running.None? && Writes(pc))
            && (s.retired && m.pc.Some? && PastRetiredCheck(m.pc.value) ==> PastRetiredCheck(pc))
            && (m.running.Some? && m.running != s.running ==> m.pc == Some(Launched) && PastRetiredCheck(pc))
            && (pc.Launched? && s.maintenance ==> m.running.None?)
  {
  }

  lemma TimelyMoved(s: State, t: Caller, ok: bool, worker: Caller)
    requires ConfigInv(s) && TimelyInv(s) && t in s.callers && worker !in s.callers
    ensures TimelyInv(Moved(s, t, MoveOf(s, s.callers[t], ok), worker))
  {
    hide MoveOf;
    MoveKeepsEpochs(s, s.callers[t], ok);
    OthersStay(s, t, MoveOf(s, s.callers[t], ok), worker);
  }

  lemma MaintainedMoved(s: State, t: Caller, ok: bool, worker: Caller)
    requires ConfigInv(s) && TimelyInv(s) && MaintainedInv(s) && t in s.callers && worker !in s.callers
    ensures MaintainedInv(Moved(s, t, MoveOf(s, s.callers[t], ok), worker))
  {
    hide MoveOf, SomeoneLaunched;
    var m := MoveOf(s, s.callers[t], ok);
    MoveKeepsEpochs(s, s.callers[t], ok);
    if SomeoneLaunched(s) && s.maintenance {
      LaunchedPersists(s, t, m, worker);
    }
    if m.pc == Some(Launched) {
      MovedStops(s, t, m, worker);
    }
  }

  lemma RetiredMoved(s: State, t: Caller, ok: bool, worker: Caller)
    requires LockInv(s) && ConfigInv(s) && TimelyInv(s) && RetiredInv(s) && t in s.callers && worker !in s.callers
    ensures RetiredInv(Moved(s, t, MoveOf(s, s.callers[t], ok), worker))
  {
    hide MoveOf;
    var m := MoveOf(s, s.callers[t], ok);
    MoveKeepsEpochs(s, s.callers[t], ok);
    OthersStay(s, t, m, worker);
    forall u | u in s.callers && u != t
      ensures !m.returned.Plain? ==> !PastRetiredCheck(s.callers[u])
    {
      OthersWait(s, t, u);
    }
  }

  lemma TimelyEntered(s: State, t: Caller, call: Call)
    requires TimelyInv(s) && t !in s.callers
    ensures TimelyInv(Entered(s, t, call))
  {
  }

  lemma MaintainedEntered(s: State, t: Caller, call: Call)
    requires TimelyInv(s) && MaintainedInv(s) && t !in s.callers
    ensures MaintainedInv(Entered(s, t, call))
  {
    var s' := Entered(s, t, call);
    if SomeoneLaunched(s) {
      var u :| u in s.callers && s.callers[u].Launched?;
      assert u in s'.callers && s'.callers[u].Launched?;
    }
  }

  lemma RetiredEntered(s: State, t: Caller, call: Call)
    requires TimelyInv(s) && RetiredInv(s) && t !in s.callers
    ensures RetiredInv(Entered(s, t, call))
  {
  }

  // ---------- what the protocol promises ----------

  ghost predicate Inv(s: State) {
    LockInv(s) && ConfigInv(s) && PromiseInv(s) && TimelyInv(s) && MaintainedInv(s) && RetiredInv(s)
  }

  lemma StepKeeps(s: State, step: Step)
    requires Inv(s) && Enabled(s, step)
    ensures Inv(Next(s, step))
  {
    hide LockInv, ConfigInv, PromiseInv, TimelyInv, MaintainedInv, RetiredInv, Moved, MoveOf, Entered;
    LockKept(s, step);
    ConfigKept(s, step);
    match step
    case Enter(t, call) =>
      PromisesEntered(s, t, call);
      TimelyEntered(s, t, call);
      MaintainedEntered(s, t, call);
      RetiredEntered(s, t, call);
    case Advance(t, ok, worker) =>
      PromisesMoved(s, t, ok, worker);
      TimelyMoved(s, t, ok, worker);
      MaintainedMoved(s, t, ok, worker);
      RetiredMoved(s, t, ok, worker);
  }

  lemma {:induction false} ReachableKeeps(s: State, steps: seq<Step>)
    requires Reachable(s, steps)
    ensures Inv(s)
    decreases |steps|
  {
    if steps == [] {
      assert Inv(Booted(true)) && Inv(Booted(false));
    } else {
      hide Inv, Next, Enabled;
      var n := |steps| - 1;
      var p :| Reachable(p, steps[..n]) && Enabled(p, steps[n]) && s == Next(p, steps[n]);
      ReachableKeeps(p, steps[..n]);
      StepKeeps(p, steps[n]);
    }
  }

  /** Once RetireCore has returned the core is down, in every state until ReclaimCore. */
  lemma RetiredStaysDown(s: State, steps: seq<Step>)
    requires Reachable(s, steps) && s.reclaimed in s.retirements
    ensures s.running.None?
  {
    ReachableKeeps(s, steps);
  }

  /** Once SetMaintenance(true) has returned, or the panel has come up with maintenance stored on, the core is
      down whenever startMu is free, until the switch is turned off -- even for starts that passed the early check before it was turned on. */
  lemma MaintenanceStaysDown(s: State, steps: seq<Step>)
    requires Reachable(s, steps) && s.switchedOff in s.maintained && s.writer.None?
    ensures s.running.None?
  {
    ReachableKeeps(s, steps);
    assert !SomeoneLaunched(s);
  }

  /** No requested restart is lost by folding: the running core carries every change a restart was asked
      for, or a worker for the restart is still on its way, or the core is down or about to be stopped. */
  lemma NoRestartIsLost(s: State, steps: seq<Step>)
    requires Reachable(s, steps)
    ensures s.running.None? || s.asked <= s.running.value || (s.queued && SomeoneQueues(s)) || SomeoneStops(s)
  {
    ReachableKeeps(s, steps);
  }

  /** With nobody in flight that leaves two cases. */
  lemma QuietCoreIsCurrent(s: State, steps: seq<Step>)
    requires Reachable(s, steps) && s.callers == map[]
    ensures s.running.None? || s.asked <= s.running.value <= s.db
  {
    ReachableKeeps(s, steps);
    NoRestartIsLost(s, steps);
  }

  /** One start at a time, and no write to the database while a core is being started from it. */
  lemma StartsAreExclusive(s: State, steps: seq<Step>, t: Caller, u: Caller)
    requires Reachable(s, steps) && t != u && HoldsWrite(s, t)
    ensures !HoldsWrite(s, u) && !HoldsRead(s, u)
  {
    ReachableKeeps(s, steps);
    OthersWait(s, t, u);
  }
}

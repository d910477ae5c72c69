/**
 The dirty generation of service/nodeSync.go: how an edit made while a node is being reconciled
 keeps its mark.

 An edit commits, bumps the generation and only then writes the node's dirty flag.  A run
 claims the node together with the current generation, reads the database, pushes, and at the
 end clears the flag if the generation has not moved.  The model follows one enabled node;
 the generation is shared by all of them and the rest is per node.
 */
module DirtyMarks {
  type Editor = nat
  type Version = nat

  datatype Option<T> = None | Some(value: T)

  /** An edit between its commit and the end of MarkAllDirty. */
  datatype EditPc = Committed(change: Version) | Bumped(change: Version)

  /** A claimed run: the generation it claimed, the database when it did, what it read, and whether
      it already found the generation unchanged. */
  datatype Run = Run(gen: nat, claimedAt: Version, read: Option<Version>, checked: bool)

  /** `synced` is the newest read a completed run pushed, `marked` the newest edit whose mark is complete. */
  datatype State = State(
    db: Version, gen: nat, dirty: bool, run: Option<Run>, edits: map<Editor, EditPc>,
    synced: Version, marked: Version)

  const INITIAL := State(0, 0, false, None, map[], 0, 0)

  datatype Step =
    | Commit(editor: Editor)
    | Bump(editor: Editor)
    | WriteFlag(editor: Editor)
    /** The flag's UPDATE fails: the error is logged and the edit goes unmarked. */
    | FlagFails(editor: Editor)
    | Claim
    | Read
    | Fail
    /** The check and the clearing UPDATE taken as one. */
    | Finish
    /** The check alone, and the UPDATE that follows it. */
    | Check
    | Clear

  function Max(a: nat, b: nat): nat {
    if a > b then a else b
  }

  predicate Enabled(s: State, step: Step) {
    match step
    case Commit(e) => e !in s.edits
    case Bump(e) => e in s.edits && s.edits[e].Committed?
    case WriteFlag(e) => e in s.edits && s.edits[e].Bumped?
    case FlagFails(e) => e in s.edits && s.edits[e].Bumped?
    case Claim => s.run.None?
    case Read => s.run.Some? && s.run.value.read.None?
    case Fail => s.run.Some?
    case Finish => s.run.Some? && s.run.value.read.Some? && !s.run.value.checked
    case Check => s.run.Some? && s.run.value.read.Some? && !s.run.value.checked
    case Clear => s.run.Some? && s.run.value.read.Some? && s.run.value.checked
  }

  /** The run is over and its pushes count. */
  function Completed(s: State, clear: bool): State
    requires s.run.Some? && s.run.value.read.Some?
  {
    s.(run := None, synced := Max(s.synced, s.run.value.read.value), dirty := s.dirty && !clear)
  }

  function Next(s: State, step: Step): State
    requires Enabled(s, step)
  {
    match step
    case Commit(e) => s.(db := s.db + 1, edits := s.edits[e := Committed(s.db + 1)])
    case Bump(e) => s.(gen := s.gen + 1, edits := s.edits[e := Bumped(s.edits[e].change)])
    case WriteFlag(e) => s.(dirty := true, marked := Max(s.marked, s.edits[e].change), edits := s.edits - {e})
    case FlagFails(e) => s.(edits := s.edits - {e})
    case Claim => s.(run := Some(Run(s.gen, s.db, None, false)))
    case Read => s.(run := Some(s.run.value.(read := Some(s.db))))
    case Fail => s.(run := None)
    case Finish => Completed(s, s.gen == s.run.value.gen)
    case Check =>
      if s.gen == s.run.value.gen then s.(run := Some(s.run.value.(checked := true))) else Completed(s, false)
    case Clear => Completed(s, true)
  }

  ghost predicate Reachable(s: State, steps: seq<Step>)
    decreases |steps|
  {
    if steps == [] then s == INITIAL
    else
      var n := |steps| - 1;
      exists p :: Reachable(p, steps[..n]) && Enabled(p, steps[n]) && s == Next(p, steps[n])
  }

  /** Nothing marked is forgotten: the node is dirty, or a completed run read the edit. */
  predicate NothingLost(s: State) {
    s.dirty || s.marked <= s.synced
  }

  /** Holds with the two steps apart as well as together. */
  predicate Inv(s: State) {
    && s.marked <= s.db && s.synced <= s.db
    && (forall e :: e in s.edits ==> s.edits[e].change <= s.db)
    && (s.run.Some? ==>
          && s.run.value.gen <= s.gen
          && s.synced <= s.run.value.claimedAt <= s.db
          && (s.run.value.read.Some? ==> s.run.value.claimedAt <= s.run.value.read.value <= s.db)
          && (s.run.value.gen == s.gen ==>
                s.marked <= s.run.value.claimedAt &&
                forall e :: e in s.edits && s.edits[e].Bumped? ==> s.edits[e].change <= s.run.value.claimedAt))
  }

  lemma StepKeeps(s: State, step: Step)
    requires Inv(s) && Enabled(s, step)
    ensures Inv(Next(s, step))
  {
  }

  lemma {:induction false} ReachableKeeps(s: State, steps: seq<Step>)
    requires Reachable(s, steps)
    ensures Inv(s)
    decreases |steps|
  {
    if steps != [] {
      var n := |steps| - 1;
      var p :| Reachable(p, steps[..n]) && Enabled(p, steps[n]) && s == Next(p, steps[n]);
      ReachableKeeps(p, steps[..n]);
      StepKeeps(p, steps[n]);
    }
  }

  predicate OneStep(steps: seq<Step>) {
    forall i :: 0 <= i < |steps| ==> !steps[i].Check? && !steps[i].Clear?
  }

  /** With the generation check and the UPDATE as one step no edit is lost, in any interleaving of any
      number of edits and runs. */
  lemma {:induction false} NoEditIsLost(s: State, steps: seq<Step>)
    requires Reachable(s, steps) && OneStep(steps)
    ensures NothingLost(s)
    decreases |steps|
  {
    if steps != [] {
      var n := |steps| - 1;
      var p :| Reachable(p, steps[..n]) && Enabled(p, steps[n]) && s == Next(p, steps[n]);
      NoEditIsLost(p, steps[..n]);
      ReachableKeeps(p, steps[..n]);
    }
  }

  // ---------- the check and the UPDATE apart, as the code has them ----------

  /** Where in the history the step last occurred, or -1. */
  function LastAt(steps: seq<Step>, step: Step): (i: int)
    ensures -1 <= i < |steps| && (i >= 0 ==> steps[i] == step)
  {
    if steps == [] then -1
    else if steps[|steps| - 1] == step then |steps| - 1
    else LastAt(steps[..|steps| - 1], step)
  }

  predicate Slip(steps: seq<Step>, e: Editor, i: int, j: int, w: int) {
    && LastAt(steps, Read) < i < j < w < |steps|
    && i >= 0 && steps[i] == Commit(e) && steps[j] == Bump(e) && steps[w] == WriteFlag(e)
  }

  /** An edit committed after the run's read has bumped the generation and written the flag since the
      run's check. */
  ghost predicate SlipsThrough(steps: seq<Step>) {
    exists e, i, j, w :: Slip(steps, e, i, j, w) && LastAt(steps, Check) < j
  }

  /** An edit committed after the run's read. */
  predicate Late(steps: seq<Step>, e: Editor, i: int) {
    LastAt(steps, Read) < i < |steps| && i >= 0 && steps[i] == Commit(e)
  }

  predicate LateBump(steps: seq<Step>, e: Editor, i: int, j: int) {
    Late(steps, e, i) && i < j < |steps| && steps[j] == Bump(e)
  }

  predicate Reading(s: State) {
    s.run.Some? && s.run.value.read.Some?
  }

  /** What the state says about edits newer than the run's read is what the history says about them. */
  ghost predicate Told(s: State, steps: seq<Step>)
    requires Reading(s)
  {
    var v := s.run.value.read.value;
    && (forall e :: e in s.edits && s.edits[e].change > v ==> exists i :: Late(steps, e, i))
    && (forall e :: e in s.edits && s.edits[e].change > v && s.edits[e].Bumped? ==>
          exists i, j :: LateBump(steps, e, i, j) && (s.run.value.checked ==> LastAt(steps, Check) < j))
    && (s.marked > v ==> exists e, i, j, w :: Slip(steps, e, i, j, w) && (s.run.value.checked ==> LastAt(steps, Check) < j))
    && (forall e, i :: Late(steps, e, i) && e in s.edits ==> s.edits[e].change > v)
    && (forall e, i, w :: Late(steps, e, i) && i < w < |steps| && steps[w] == WriteFlag(e) ==> s.marked > v)
  }

  lemma LastAtGrows(front: seq<Step>, step: Step, sought: Step)
    ensures LastAt(front + [step], sought) == if step == sought then |front| else LastAt(front, sought)
  {
    assert (front + [step])[..|front|] == front;
  }

  lemma ToldFromRead(s: State, front: seq<Step>)
    requires Inv(s) && Enabled(s, Read)
    ensures Told(Next(s, Read), front + [Read])
  {
    LastAtGrows(front, Read, Read);
  }

  lemma ToldStep(s: State, front: seq<Step>, step: Step)
    requires Inv(s) && Reading(s) && Told(s, front) && Enabled(s, step) && Reading(Next(s, step))
    ensures Told(Next(s, step), front + [step])
  {
    var steps, s', v := front + [step], Next(s, step), s.run.value.read.value;
    LateStep(s, front, step);
    BumpStep(s, front, step);
    SlipStep(s, front, step);
    LastAtGrows(front, step, Read);
    forall e, i | Late(steps, e, i) && e in s'.edits
      ensures s'.edits[e].change > v
    {
      assert i < |front| ==> Late(front, e, i);
    }
    forall e, i, w | Late(steps, e, i) && i < w < |steps| && steps[w] == WriteFlag(e)
      ensures s'.marked > v
    {
      assert Late(front, e, i);
    }
  }

  lemma LateStep(s: State, front: seq<Step>, step: Step)
    requires Inv(s) && Reading(s) && Told(s, front) && Enabled(s, step) && Reading(Next(s, step))
    ensures var s', v := Next(s, step), s.run.value.read.value;
            forall e :: e in s'.edits && s'.edits[e].change > v ==> exists i :: Late(front + [step], e, i)
  {
    var steps, s', v := front + [step], Next(s, step), s.run.value.read.value;
    LastAtGrows(front, step, Read);
    forall e | e in s'.edits && s'.edits[e].change > v
      ensures exists i :: Late(steps, e, i)
    {
      if step == Commit(e) {
        assert Late(steps, e, |front|);
      } else {
        var i :| Late(front, e, i);
        assert Late(steps, e, i);
      }
    }
  }

  lemma BumpStep(s: State, front: seq<Step>, step: Step)
    requires Inv(s) && Reading(s) && Told(s, front) && Enabled(s, step) && Reading(Next(s, step))
    ensures var s', v, steps := Next(s, step), s.run.value.read.value, front + [step];
            forall e :: e in s'.edits && s'.edits[e].change > v && s'.edits[e].Bumped? ==>
              exists i, j :: LateBump(steps, e, i, j) && (s'.run.value.checked ==> LastAt(steps, Check) < j)
  {
    var steps, s', v := front + [step], Next(s, step), s.run.value.read.value;
    LastAtGrows(front, step, Read);
    LastAtGrows(front, step, Check);
    forall e | e in s'.edits && s'.edits[e].change > v && s'.edits[e].Bumped?
      ensures exists i, j :: LateBump(steps, e, i, j) && (s'.run.value.checked ==> LastAt(steps, Check) < j)
    {
      if step == Bump(e) {
        var i :| Late(front, e, i);
        assert LateBump(steps, e, i, |front|);
      } else {
        assert e in s.edits && s.edits[e] == s'.edits[e];
        var i, j :| LateBump(front, e, i, j) && (s.run.value.checked ==> LastAt(front, Check) < j);
        assert LateBump(steps, e, i, j);
      }
    }
  }

  lemma SlipStep(s: State, front: seq<Step>, step: Step)
    requires Inv(s) && Reading(s) && Told(s, front) && Enabled(s, step) && Reading(Next(s, step))
    ensures var s', v, steps := Next(s, step), s.run.value.read.value, front + [step];
            s'.marked > v ==> exists e, i, j, w :: Slip(steps, e, i, j, w) && (s'.run.value.checked ==> LastAt(steps, Check) < j)
  {
    var steps, s', v := front + [step], Next(s, step), s.run.value.read.value;
    LastAtGrows(front, step, Read);
    LastAtGrows(front, step, Check);
    if s.marked > v {
      var e, i, j, w :| Slip(front, e, i, j, w) && (s.run.value.checked ==> LastAt(front, Check) < j);
      assert Slip(steps, e, i, j, w);
    } else if s'.marked > v {
      var e := step.editor;
      var i, j :| LateBump(front, e, i, j) && (s.run.value.checked ==> LastAt(front, Check) < j);
      assert Slip(steps, e, i, j, |front|);
    }
  }

  lemma {:induction false} HistoryTells(s: State, steps: seq<Step>)
    requires Reachable(s, steps) && Reading(s)
    ensures Told(s, steps)
    decreases |steps|
  {
    hide Told, Inv;
    var n := |steps| - 1;
    var p :| Reachable(p, steps[..n]) && Enabled(p, steps[n]) && s == Next(p, steps[n]);
    ReachableKeeps(p, steps[..n]);
    assert steps == steps[..n] + [steps[n]];
    if steps[n] == Read {
      ToldFromRead(p, steps[..n]);
    } else {
      HistoryTells(p, steps[..n]);
      ToldStep(p, steps[..n], steps[n]);
    }
  }

  /** As the code has it: every step but the UPDATE is as safe as before, and the UPDATE loses an edit exactly
      when one committed after the run's read has bumped and written since the run's check. */
  lemma ClearIsTheOnlyGap(s: State, steps: seq<Step>, step: Step)
    requires Reachable(s, steps) && Enabled(s, step) && NothingLost(s)
    ensures NothingLost(Next(s, step)) <==> !(step.Clear? && SlipsThrough(steps))
  {
    ReachableKeeps(s, steps);
    if step.Clear? {
      HistoryTells(s, steps);
      if SlipsThrough(steps) {
        var e, i, j, w :| Slip(steps, e, i, j, w) && LastAt(steps, Check) < j;
        assert Late(steps, e, i);
      }
    }
  }

  /** Over a whole history: if no UPDATE comes after such an edit, no edit is lost. */
  lemma {:induction false} NoSlipNoLoss(s: State, steps: seq<Step>)
    requires Reachable(s, steps) && forall n :: 0 <= n < |steps| && steps[n] == Clear ==> !SlipsThrough(steps[..n])
    ensures NothingLost(s)
    decreases |steps|
  {
    hide SlipsThrough;
    if steps != [] {
      var n := |steps| - 1;
      var p :| Reachable(p, steps[..n]) && Enabled(p, steps[n]) && s == Next(p, steps[n]);
      assert forall m :: 0 <= m < n ==> steps[..n][m] == steps[m] && steps[..n][..m] == steps[..m];
      NoSlipNoLoss(p, steps[..n]);
      ClearIsTheOnlyGap(p, steps[..n], steps[n]);
    }
  }

  /** Every UPDATE of the history still finds the generation its run claimed. */
  ghost predicate UnmovedAtClears(s: State, steps: seq<Step>)
    decreases |steps|
  {
    if steps == [] then s == INITIAL
    else
      var n := |steps| - 1;
      exists p :: UnmovedAtClears(p, steps[..n]) && Enabled(p, steps[n]) && s == Next(p, steps[n])
               && (steps[n] == Clear ==> p.gen == p.run.value.gen)
  }

  /** Such a history loses nothing, check and UPDATE apart or not. */
  lemma {:induction false} UnmovedClearsLoseNothing(s: State, steps: seq<Step>)
    requires UnmovedAtClears(s, steps)
    ensures Reachable(s, steps) && NothingLost(s)
    decreases |steps|
  {
    if steps != [] {
      var n := |steps| - 1;
      var p :| UnmovedAtClears(p, steps[..n]) && Enabled(p, steps[n]) && s == Next(p, steps[n])
            && (steps[n] == Clear ==> p.gen == p.run.value.gen);
      UnmovedClearsLoseNothing(p, steps[..n]);
      ReachableKeeps(p, steps[..n]);
    }
  }

  /** And such a run exists: an edit that both bumps and writes between the two. */
  lemma TwoStepsLoseAnEdit()
    ensures exists s, steps :: Reachable(s, steps) && !NothingLost(s)
  {
    var h0: seq<Step> := [];
    var s1, h1 := Extended(INITIAL, h0, Claim);
    var s2, h2 := Extended(s1, h1, Read);
    var s3, h3 := Extended(s2, h2, Check);
    var s4, h4 := Extended(s3, h3, Commit(0));
    var s5, h5 := Extended(s4, h4, Bump(0));
    var s6, h6 := Extended(s5, h5, WriteFlag(0));
    var s7, h7 := Extended(s6, h6, Clear);
    assert !NothingLost(s7);
  }

  lemma Extended(p: State, front: seq<Step>, step: Step) returns (s: State, steps: seq<Step>)
    requires Reachable(p, front) && Enabled(p, step)
    ensures s == Next(p, step) && Reachable(s, steps)
  {
    s, steps := Next(p, step), front + [step];
    assert steps[..|steps| - 1] == front;
  }

  // ---------- what a run that completes does to the flag ----------

  predicate BumpedSinceClaim(steps: seq<Step>) {
    exists j :: LastAt(steps, Claim) < j < |steps| && j >= 0 && steps[j].Bump?
  }

  /** The claimed generation is still the current one exactly when nobody bumped it since the claim. */
  lemma {:induction false} GenerationIsHistory(s: State, steps: seq<Step>)
    requires Reachable(s, steps) && s.run.Some?
    ensures s.gen == s.run.value.gen <==> !BumpedSinceClaim(steps)
    decreases |steps|
  {
    var n := |steps| - 1;
    var front := steps[..n];
    var p :| Reachable(p, front) && Enabled(p, steps[n]) && s == Next(p, steps[n]);
    assert steps == front + [steps[n]];
    LastAtGrows(front, steps[n], Claim);
    ReachableKeeps(p, front);
    if steps[n] != Claim {
      GenerationIsHistory(p, front);
      if BumpedSinceClaim(front) {
        var j :| LastAt(front, Claim) < j < |front| && j >= 0 && front[j].Bump?;
        assert steps[j].Bump?;
      }
      if BumpedSinceClaim(steps) && !steps[n].Bump? {
        var j :| LastAt(steps, Claim) < j < |steps| && j >= 0 && steps[j].Bump?;
        assert front[j].Bump?;
      }
    }
  }

  /** A run that completes takes the flag down exactly when no edit bumped the generation since its claim, and what
      it read counts as synced either way. */
  lemma FinishClearsExactly(s: State, steps: seq<Step>)
    requires Reachable(s, steps) && Enabled(s, Finish)
    ensures Next(s, Finish).dirty <==> s.dirty && BumpedSinceClaim(steps)
    ensures Next(s, Finish).run.None? && Next(s, Finish).synced >= s.run.value.read.value
  {
    GenerationIsHistory(s, steps);
  }

  /** Check and UPDATE apart: the check passes exactly then, and the UPDATE takes the flag down. */
  lemma CheckPassesExactly(s: State, steps: seq<Step>)
    requires Reachable(s, steps) && Enabled(s, Check)
    ensures var s' := Next(s, Check);
            if BumpedSinceClaim(steps) then s'.run.None? && s'.dirty == s.dirty && s'.synced >= s.run.value.read.value
            else s'.run.Some? && Enabled(s', Clear) && !Next(s', Clear).dirty && Next(s', Clear).synced >= s.run.value.read.value
  {
    GenerationIsHistory(s, steps);
  }

  /** A run nobody disturbs leaves the node clean and in step with the database, in one step or in two. */
  lemma QuietRunCleans(s: State, steps: seq<Step>)
    requires Reachable(s, steps) && s.run.None?
    ensures var read := Next(Next(s, Claim), Read);
            && var done := Next(read, Finish); !done.dirty && done.synced == s.db && done.run.None?
    ensures var checked := Next(Next(Next(s, Claim), Read), Check);
            Enabled(checked, Clear) && !Next(checked, Clear).dirty && Next(checked, Clear).synced == s.db
  {
    ReachableKeeps(s, steps);
  }

  /** A mark that completes raises the flag; a run that fails leaves it, and what was synced, alone. */
  lemma MarkRaisesFlag(s: State, e: Editor)
    requires e in s.edits && s.edits[e].Bumped?
    ensures Next(s, WriteFlag(e)).dirty && Next(s, WriteFlag(e)).marked >= s.edits[e].change
    ensures s.run.Some? ==> Next(s, Fail) == s.(run := None)
  {
  }

  /** Whatever was lost, the next run heals: a run that completes has read every edit marked before it was claimed. */
  lemma CompletedRunHeals(s: State, steps: seq<Step>, step: Step)
    requires Reachable(s, steps) && Enabled(s, step) && (step.Finish? || step.Check? || step.Clear?)
    requires Next(s, step).run.None?
    ensures Next(s, step).synced >= s.run.value.claimedAt
  {
    ReachableKeeps(s, steps);
  }
}

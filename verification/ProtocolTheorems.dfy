/** The protocol's guarantees, over every interleaving of its tasks. */
module ProtocolTheorems {
  import opened Bytes
  import opened Protocol
  import opened ProtocolSafety

  ghost predicate Behavior(ss: seq<State>, ls: seq<Label>) {
    && |ss| == |ls| + 1
    && ss[0] == Initial()
    && forall i :: 0 <= i < |ls| ==> Enabled(ss[i], ls[i]) && ss[i + 1] == After(ss[i], ls[i])
  }

  lemma {:induction false} BehaviorInv(ss: seq<State>, ls: seq<Label>, i: nat)
    requires Behavior(ss, ls) && i < |ss|
    ensures Inv(ss[i])
  {
    if i == 0 {
      InitialInv();
    } else {
      BehaviorInv(ss, ls, i - 1);
      StepInv(ss[i - 1], ls[i - 1]);
    }
  }

  /** A delete reached its object removal with this key in hand. */
  ghost predicate RemovalBegan(ss: seq<State>, ls: seq<Label>, i: nat, k: Key)
    requires |ss| == |ls| + 1 && i <= |ls|
  {
    exists j :: 0 <= j < i && ls[j].ReadSegments? && ls[j].ok && k in RowKeys(ss[j])
  }

  /** The compensation of this object failed. */
  ghost predicate CompensationFailed(ss: seq<State>, ls: seq<Label>, i: nat, k: Key)
    requires |ss| == |ls| + 1 && i <= |ls|
  {
    exists j :: 0 <= j < i && ls[j].Compensate? && !ls[j].ok && IsOp(ss[j], ls[j].t)
                && ss[j].tasks[ls[j].t].pc.Compensating? && ss[j].tasks[ls[j].t].pc.key == k
  }

  lemma DoomedStep(s: State, l: Label, k: Key)
    requires Enabled(s, l) && k in After(s, l).doomed && k !in s.doomed
    ensures l.ReadSegments? && l.ok && k in RowKeys(s)
  {
    hide EffectOf, Background, Moved, MoveOf, ResumeMove, Enabled;
    if Subject(l).Some? {
      TaskStepTables(s, l);
      OnlyDeletesDoom(s, l);
    }
  }

  lemma OnlyDeletesDoom(s: State, l: Label)
    requires Enabled(s, l) && Subject(l).Some?
    ensures EffectOf(s, l).doomed == if l.ReadSegments? && l.ok then s.doomed + RowKeys(s) else s.doomed
  {
    hide OperationEffect, ResumeMove, Enabled;
    OperationSpares(s, l);
  }

  lemma OperationSpares(s: State, l: Label)
    requires Enabled(s, l) && Subject(l).Some?
    ensures OperationEffect(s, l).doomed == s.doomed
  {
    hide Enabled;
  }

  lemma LeakedStep(s: State, l: Label, k: Key)
    requires Enabled(s, l) && k in After(s, l).leaked && k !in s.leaked
    ensures l.Compensate? && !l.ok && IsOp(s, l.t)
    ensures s.tasks[l.t].pc.Compensating? && s.tasks[l.t].pc.key == k
  {
    hide EffectOf, Background, Moved, MoveOf, ResumeMove, Enabled;
    StepNeeds(s, l);
    if Subject(l).Some? {
      TaskStepTables(s, l);
      OnlyOperationsLeak(s, l);
    }
  }

  lemma OnlyOperationsLeak(s: State, l: Label)
    requires Enabled(s, l) && Subject(l).Some?
    ensures EffectOf(s, l).leaked == s.leaked || EffectOf(s, l) == OperationEffect(s, l)
  {
    hide OperationEffect, Enabled;
  }

  lemma {:induction false} Provenance(ss: seq<State>, ls: seq<Label>, i: nat, k: Key)
    requires Behavior(ss, ls) && i < |ss|
    ensures k in ss[i].doomed ==> RemovalBegan(ss, ls, i, k)
    ensures k in ss[i].leaked ==> CompensationFailed(ss, ls, i, k)
  {
    if i > 0 {
      Provenance(ss, ls, i - 1, k);
      if k in ss[i].doomed && k !in ss[i - 1].doomed { DoomedStep(ss[i - 1], ls[i - 1], k); }
      if k in ss[i].leaked && k !in ss[i - 1].leaked { LeakedStep(ss[i - 1], ls[i - 1], k); }
    }
  }

  /** Two-store safety: in every reachable state a committed segment's object exists unless a delete
      has begun removing it; a stored object is committed, held by the one persist step inside the
      runtime lock, or left by a compensation that failed; and the row counts its segments. */
  lemma TwoStoreSafety(ss: seq<State>, ls: seq<Label>, i: nat, k: Key)
    requires Behavior(ss, ls) && i < |ss|
    ensures k in RowKeys(ss[i]) ==> k in ss[i].objects || RemovalBegan(ss, ls, i, k)
    ensures k in ss[i].objects ==>
              || k in RowKeys(ss[i])
              || CompensationFailed(ss, ls, i, k)
              || (exists t :: t in ss[i].tasks && Owns(ss[i].tasks[t], k)
                              && RUNTIME_LOCK in ss[i].locked && ss[i].locked[RUNTIME_LOCK] == t)
    ensures ss[i].row.Some? ==> ss[i].row.value.segmentCount == |RowKeys(ss[i])|
  {
    BehaviorInv(ss, ls, i);
    Provenance(ss, ls, i, k);
  }

  /** Mutual exclusion through the weak index: while the row exists every task, waiting or inside,
      uses the one indexed lock, and at most one is inside. */
  lemma MutualExclusion(ss: seq<State>, ls: seq<Label>, i: nat, t: TaskId, u: TaskId)
    requires Behavior(ss, ls) && i < |ss| && ss[i].row.Some?
    requires t in ss[i].tasks && u in ss[i].tasks
    ensures LockOf(ss[i].tasks[t]) == LockOf(ss[i].tasks[u])
    ensures ss[i].index == Some(LockOf(ss[i].tasks[t]))
    ensures Holds(ss[i].tasks[t]) && Holds(ss[i].tasks[u]) ==> t == u
  {
    BehaviorInv(ss, ls, i);
    assert Steady(ss[i], ss[i].tasks[t]) && Steady(ss[i], ss[i].tasks[u]);
  }

  lemma ClosedStep(s: State, l: Label)
    requires Core(s) && Enabled(s, l) && s.closed
    ensures After(s, l).closed
    ensures After(s, l).row == s.row || After(s, l).row == None
    ensures After(s, l).objects <= s.objects
  {
    hide Background, EffectOf, Moved, MoveOf, ResumeMove, Enabled, Core;
    StepNeeds(s, l);
    if Subject(l).Some? {
      TaskStepTables(s, l);
      if l.PutEffect? || l.CommitEffect? || l.FinalizeEffect? {
        NoneActive(s, l.t);
      } else {
        PassiveEffect(s, l);
      }
    }
  }

  /** Every other step leaves the row as it is or erases it, adds no object and reopens nothing. */
  lemma PassiveEffect(s: State, l: Label)
    requires Enabled(s, l) && Subject(l).Some? && !l.PutEffect? && !l.CommitEffect? && !l.FinalizeEffect?
    ensures var q := EffectOf(s, l);
            && (q.row == s.row || q.row == None) && q.objects <= s.objects && (s.closed ==> q.closed)
  {
    hide Enabled, ResumeMove, OperationEffect;
    PassiveOperation(s, l);
  }

  lemma PassiveOperation(s: State, l: Label)
    requires Enabled(s, l) && Subject(l).Some? && !l.PutEffect? && !l.CommitEffect? && !l.FinalizeEffect?
    ensures var q := OperationEffect(s, l);
            q.row == s.row && q.objects <= s.objects && q.closed == s.closed
  {
    hide Enabled;
  }

  lemma NoneActive(s: State, t: TaskId)
    requires Core(s) && s.closed && t in s.tasks
    ensures !Active(s.tasks[t])
  {
    assert Steady(s, s.tasks[t]);
  }

  /** Once a runtime is closed, by a delete or by finalizing, no later step commits a segment or a
      result: the row only disappears, and no object is added. */
  lemma {:induction false} ClosedForGood(ss: seq<State>, ls: seq<Label>, i: nat, j: nat)
    requires Behavior(ss, ls) && i <= j < |ss| && ss[i].closed
    ensures ss[j].closed && ss[j].objects <= ss[i].objects
    ensures ss[j].row == ss[i].row || ss[j].row == None
    decreases j
  {
    hide After, Enabled, Inv, Core;
    if i < j {
      ClosedForGood(ss, ls, i, j - 1);
      BehaviorInv(ss, ls, j - 1);
      ClosedStep(ss[j - 1], ls[j - 1]);
    }
  }

  /** The step at which a delete takes the session over closes the runtime. */
  lemma DeleteCloses(ss: seq<State>, ls: seq<Label>, i: nat)
    requires Behavior(ss, ls) && i < |ls| && ls[i].ReadSegments? && ls[i].ok
    ensures ss[i + 1].closed
    ensures forall j :: i < j < |ss| ==> ss[j].row == ss[i].row || ss[j].row == None
  {
    BehaviorInv(ss, ls, i);
    forall j | i < j < |ss| ensures ss[j].row == ss[i].row || ss[j].row == None {
      ClosedForGood(ss, ls, i + 1, j);
    }
  }

  /** Without a row, nothing of the session is stored but what failed compensations left. */
  lemma NothingStored(s: State)
    requires Core(s) && s.row.None?
    ensures s.objects <= s.leaked
  {
    forall t, k | t in s.tasks ensures !Owns(s.tasks[t], k) {
      assert Steady(s, s.tasks[t]);
    }
  }

  /** A delete that returned, whether or not it found a row, leaves the session gone for good. */
  lemma {:induction false} DeleteIsFinal(ss: seq<State>, ls: seq<Label>, i: nat, j: nat, t: TaskId)
    requires Behavior(ss, ls) && i <= j < |ss|
    requires t in ss[i].results && ss[i].results[t].DeleteReturned?
    ensures ss[j].row.None? && ss[j].objects <= ss[j].leaked
    decreases j
  {
    hide After, Enabled;
    BehaviorInv(ss, ls, j);
    if i < j {
      DeleteIsFinal(ss, ls, i, j - 1, t);
      RowStable(ss[j - 1], ls[j - 1], Completed);
    }
    NothingStored(ss[j]);
  }

  // ---------- what a failed clean-up is to blame on ----------

  /** A storage call of delete t fails in this step. */
  predicate DeleteFails(l: Label, t: TaskId) {
    || l == ReadRow(t, false)
    || l == ReadSegments(t, false)
    || l == RemoveObjects(t, false)
    || l == EraseEffect(t, false)
  }

  /** A storage call of the handler's own clean-up delete failed. */
  ghost predicate CleanupFailed(ss: seq<State>, ls: seq<Label>, i: nat)
    requires |ss| == |ls| + 1 && i <= |ls|
  {
    exists j, t :: 0 <= j < i && ss[j].handler == Cleaning(t) && DeleteFails(ls[j], t)
  }

  /** The clean-up has met a failed call, reported or about to be. */
  ghost predicate CleanupBlamed(s: State) {
    match s.handler
    case Cleaning(t) =>
      || (t in s.results && s.results[t] == Raised(StorageFailure))
      || (t in s.tasks && s.tasks[t].Delete? && s.tasks[t].dpc.Erasing? && s.tasks[t].dpc.call.effect == NoEffect)
    case Exited(cleanup) => cleanup == Some(Raised(StorageFailure))
    case _ => false
  }

  lemma BlameAppears(s: State, l: Label)
    requires Inv(s) && Enabled(s, l) && CleanupBlamed(After(s, l)) && !CleanupBlamed(s)
    ensures s.handler.Cleaning? && DeleteFails(l, s.handler.task)
  {
    if l.HandlerCall? || l.HandlerReturn? || l.HandlerAbort? || l.HandlerExit? || l.HandlerClean? {
      HandlerBlamesNothing(s, l);
    } else {
      hide After, Enabled, Core, EffectOf, MoveOf;
      HandlerStays(s, l);
      if s.handler.Cleaning? {
        if Subject(l) == Some(s.handler.task) {
          BlameIsItsOwn(s, l, s.handler.task);
        } else {
          OthersStay(s, l, s.handler.task);
        }
      }
    }
  }

  lemma HandlerBlamesNothing(s: State, l: Label)
    requires Inv(s) && Enabled(s, l)
    requires l.HandlerCall? || l.HandlerReturn? || l.HandlerAbort? || l.HandlerExit? || l.HandlerClean?
    ensures CleanupBlamed(After(s, l)) ==> CleanupBlamed(s)
  {
    hide EffectOf, MoveOf, Steady, LocksOk, TablesOk, Accounted;
  }

  lemma BlameIsItsOwn(s: State, l: Label, t: TaskId)
    requires Enabled(s, l) && Subject(l) == Some(t) && s.handler == Cleaning(t) && CleanupRuns(s, t)
    requires CleanupBlamed(After(s, l)) && !CleanupBlamed(s) && t !in s.results
    ensures DeleteFails(l, t)
  {
    hide EffectOf;
  }

  lemma {:induction false} BlameIsEarned(ss: seq<State>, ls: seq<Label>, i: nat)
    requires Behavior(ss, ls) && i < |ss|
    ensures CleanupBlamed(ss[i]) ==> CleanupFailed(ss, ls, i)
  {
    hide Inv, After, Enabled;
    if i > 0 {
      BlameIsEarned(ss, ls, i - 1);
      BehaviorInv(ss, ls, i - 1);
      if CleanupBlamed(ss[i]) && !CleanupBlamed(ss[i - 1]) { BlameAppears(ss[i - 1], ls[i - 1]); }
    }
  }

  /** No stranded session: once the handler has exited, on any path, either it saw the analysis
      completed (and the row is completed or since deleted), or a storage call of its own clean-up
      delete failed, or nothing of the session is left beyond failed compensations. */
  lemma NoStrandedSession(ss: seq<State>, ls: seq<Label>, i: nat)
    requires Behavior(ss, ls) && i < |ss| && ss[i].handler.Exited?
    ensures ss[i].handler.cleanup == None ==> ss[i].completed && RowIs(ss[i], Completed)
    ensures ss[i].handler.cleanup.Some? ==>
              || CleanupFailed(ss, ls, i)
              || (ss[i].row.None? && ss[i].objects <= ss[i].leaked)
  {
    hide After, Enabled;
    BehaviorInv(ss, ls, i);
    BlameIsEarned(ss, ls, i);
    if ss[i].row.None? { NothingStored(ss[i]); }
  }

  // ---------- no step of the protocol can wedge the lock ----------

  /** How far a task is from leaving its lock, counting its own steps. */
  function Distance(t: Task): nat {
    match t
    case Op(_, Next(todo)) => 6 * todo + 5
    case Op(_, Putting(_, todo, call)) => 6 * todo + if call.effect == InFlight then 10 else 9
    case Op(_, Committing(_, todo, call)) => 6 * todo + if call.effect == InFlight then 8 else 7
    case Op(_, Compensating(_, _)) => 6
    case Op(_, Finalizing(call)) => if call.effect == InFlight then 4 else 3
    case Op(_, _) => 0
    case Delete(_, ReadingRow) => 5
    case Delete(_, ReadingSegments) => 4
    case Delete(_, Removing(_)) => 3
    case Delete(_, Erasing(call)) => if call.effect == InFlight then 2 else 1
    case Delete(_, Queued) => 0
  }

  /** Inside the lock, every step of the holder's own but a (possibly repeated) cancellation brings it
      closer to releasing the lock, a cancellation takes it no further away, and some step other
      than a cancellation is always possible. */
  lemma HolderProgress(s: State, t: TaskId) returns (l: Label)
    requires t in s.tasks && Holds(s.tasks[t])
    ensures Enabled(s, l) && Subject(l) == Some(t) && !l.Cancel?
  {
    match s.tasks[t] {
      case Op(k, Next(todo)) =>
        l := if todo > 0 then StartPut(t) else if Finalizes(k) then StartFinalize(t) else Finish(t);
      case Op(_, Putting(_, _, call)) =>
        l := if call.effect == InFlight then PutEffect(t, true) else Resume(t);
      case Op(_, Committing(_, _, call)) =>
        l := if call.effect == InFlight then CommitEffect(t, false) else Resume(t);
      case Op(_, Compensating(_, _)) => l := Compensate(t, true);
      case Op(_, Finalizing(call)) =>
        l := if call.effect == InFlight then FinalizeEffect(t, false) else Resume(t);
      case Delete(_, ReadingRow) => l := ReadRow(t, true);
      case Delete(_, ReadingSegments) => l := ReadSegments(t, true);
      case Delete(_, Removing(_)) => l := RemoveObjects(t, true);
      case Delete(_, Erasing(call)) =>
        l := if call.effect == InFlight then EraseEffect(t, true) else Resume(t);
    }
  }

  lemma HolderDistance(s: State, l: Label, t: TaskId)
    requires t in s.tasks && Holds(s.tasks[t]) && Enabled(s, l) && Subject(l) == Some(t)
    ensures var s' := After(s, l);
            t in s'.tasks && Holds(s'.tasks[t]) ==>
              if l.Cancel? then Distance(s'.tasks[t]) <= Distance(s.tasks[t])
              else Distance(s'.tasks[t]) < Distance(s.tasks[t])
  {
  }
}

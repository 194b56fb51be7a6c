/** Safety of the two-store protocol in every reachable state, and over every run. */
module ProtocolSafety {
  import opened Bytes
  import opened Protocol

  // ---------- the invariant ----------

  ghost predicate RowIs(s: State, status: Status) {
    s.row.Some? ==> s.row.value.status == status
  }

  ghost predicate Unpublished(s: State, k: Key) {
    k < s.nextKey && k !in s.doomed && k !in s.leaked
  }

  /** The object a persist step has stored but not yet committed or given up. */
  ghost predicate Owns(t: Task, k: Key) {
    && t.Op?
    && match t.pc
       case Putting(key, _, call) => key == k && call.effect == Done
       case Committing(key, _, _) => key == k
       case Compensating(key, _) => key == k
       case _ => false
  }

  ghost predicate Owned(s: State, k: Key) {
    exists t :: t in s.tasks && Owns(s.tasks[t], k)
  }

  ghost predicate OpOk(s: State, k: Kind, pc: OpPc) {
    match pc
    case Waiting => true
    case Next(_) => true
    case Putting(key, _, call) =>
      Unpublished(s, key) && key !in RowKeys(s) && (key in s.objects <==> call.effect == Done)
    case Committing(key, _, call) =>
      Unpublished(s, key) && key in s.objects && (key in RowKeys(s) <==> call.effect == Done)
    case Compensating(key, _) =>
      key < s.nextKey && key !in s.doomed && key !in RowKeys(s)
    case Finalizing(call) =>
      Finalizes(k) && (call.effect == Done ==> RowIs(s, if k == Complete then Completed else Failed))
    case Reading =>
      s.closed && Finalizes(k) && RowIs(s, if k == Complete then Completed else Failed)
  }

  ghost predicate DeleteOk(s: State, dpc: DeletePc) {
    match dpc
    case Queued => true
    case ReadingRow => true
    case ReadingSegments => s.row.Some?
    case Removing(keys) => s.row.Some? && s.closed && keys == RowKeys(s) && keys <= s.doomed
    case Erasing(call) =>
      s.closed && (if call.effect == Done then s.row.None? else s.row.Some? && RowKeys(s) !! s.objects)
  }

  ghost predicate PcOk(s: State, task: Task) {
    match task
    case Op(k, pc) => OpOk(s, k, pc)
    case Delete(_, dpc) => DeleteOk(s, dpc)
  }

  /** What each task relies on: while the row exists, its lock is the indexed one. */
  ghost predicate Steady(s: State, task: Task) {
    && (s.row.Some? ==> s.index == Some(LockOf(task)))
    && LockOf(task) < s.nextLock
    && (Active(task) ==> !s.closed)
    && PcOk(s, task)
  }

  ghost predicate LocksOk(s: State) {
    && (forall t :: t in s.tasks ==>
          (Holds(s.tasks[t]) <==> LockOf(s.tasks[t]) in s.locked && s.locked[LockOf(s.tasks[t])] == t))
    && (forall l :: l in s.locked ==> s.locked[l] in s.tasks && LockOf(s.tasks[s.locked[l]]) == l)
  }

  ghost predicate TablesOk(s: State) {
    && (s.row.Some? && s.registered ==> s.index == Some(RUNTIME_LOCK))
    && (s.index.Some? ==> s.index.value < s.nextLock)
    && RUNTIME_LOCK < s.nextLock
    && (s.row.None? || !s.registered ==> s.closed)
    && (forall k :: k in RowKeys(s) ==> k in s.objects || k in s.doomed)
    && (s.row.Some? ==> s.row.value.segmentCount == |RowKeys(s)|)
    && (forall k :: k in s.objects ==> k < s.nextKey)
    && (forall k :: k in RowKeys(s) ==> k < s.nextKey)
    && (forall k :: k in s.doomed ==> k < s.nextKey)
    && (forall k :: k in s.leaked ==> k < s.nextKey)
  }

  ghost predicate Accounted(s: State) {
    forall k :: k in s.objects ==> k in RowKeys(s) || k in s.leaked || Owned(s, k)
  }

  ghost predicate OutcomeOk(s: State, o: Outcome) {
    match o
    case Returned(k) => Finalizes(k) ==> RowIs(s, if k == Complete then Completed else Failed)
    case DeleteReturned(_) => s.row.None?
    case Raised(_) => true
  }

  ghost predicate OutcomesOk(s: State) {
    forall t :: t in s.results ==> OutcomeOk(s, s.results[t])
  }

  ghost predicate IdsOk(s: State) {
    && (forall t :: t in s.tasks ==> t < s.nextTask && t !in s.results)
    && (forall t :: t in s.results ==> t < s.nextTask)
  }

  /** Everything but the handler's own state. */
  ghost predicate Core(s: State) {
    && (forall t :: t in s.tasks ==> Steady(s, s.tasks[t]))
    && LocksOk(s) && TablesOk(s) && Accounted(s) && OutcomesOk(s) && IdsOk(s)
  }

  /** Nothing but a failed storage call can make the handler's own clean-up raise. */
  predicate CleanupOk(o: Outcome) {
    o.DeleteReturned? || o == Raised(StorageFailure)
  }

  ghost predicate CleanupRuns(s: State, t: TaskId) {
    && t < s.nextTask
    && (t in s.tasks || t in s.results)
    && (t in s.tasks ==> s.tasks[t].Delete?
                         && (s.tasks[t].dpc.Erasing? ==> !s.tasks[t].dpc.call.cancelled))
    && (t in s.results ==> CleanupOk(s.results[t]))
  }

  ghost predicate HandlerOk(s: State) {
    && (s.completed ==> RowIs(s, Completed))
    && match s.handler
       case Calling(t, k) => t < s.nextTask
       case Cleaning(t) => CleanupRuns(s, t)
       case Exited(None) => s.completed
       case Exited(Some(o)) => CleanupOk(o) && OutcomeOk(s, o)
       case _ => true
  }

  ghost predicate Inv(s: State) {
    Core(s) && HandlerOk(s)
  }

  lemma InitialInv()
    ensures Inv(Initial())
  {
  }

  // ---------- what a step presupposes ----------

  lemma StepNeeds(s: State, l: Label)
    requires Enabled(s, l)
    ensures Subject(l).Some? ==> Subject(l).value in s.tasks
    ensures (l.PutEffect? || l.CommitEffect? || l.FinalizeEffect?) ==> Active(s.tasks[l.t])
    ensures (l.CommitEffect? || l.FinalizeEffect?) && l.ok ==> RowPending(s)
    ensures l.Compensate? ==> IsOp(s, l.t) && s.tasks[l.t].pc.Compensating?
  {
  }

  /** A task's step changes the tables as `EffectOf` says. */
  lemma TaskStepTables(s: State, l: Label)
    requires Enabled(s, l) && Subject(l).Some?
    ensures var q, s' := EffectOf(s, l), After(s, l);
            && s'.row == q.row && s'.closed == q.closed && s'.objects == q.objects
            && s'.doomed == q.doomed && s'.leaked == q.leaked
  {
    hide EffectOf, MoveOf, Enabled;
    StepNeeds(s, l);
  }

  // ---------- one task moves ----------

  /** What remains to be shown for a step of task t whose effect on the tables is q. */
  ghost predicate MoveFits(s: State, q: State, t: TaskId, m: Move)
    requires t in s.tasks
  {
    && q.tasks == s.tasks && q.results == s.results && q.locked == s.locked && q.nextTask == s.nextTask
    && (forall u :: u in s.tasks && u != t ==> Steady(q, s.tasks[u]))
    && TablesOk(q) && OutcomesOk(q)
    && (forall k :: k in q.objects ==>
          || k in RowKeys(q) || k in q.leaked
          || (Owned(s, k) && !Owns(s.tasks[t], k)) || (m.To? && Owns(m.task, k)))
    && match m
       case Out(o) => OutcomeOk(q, o)
       case To(task) =>
         && LockOf(task) == LockOf(s.tasks[t]) && Steady(q, task)
         && (Holds(task) && !Holds(s.tasks[t]) ==> LockOf(task) !in s.locked)
  }

  lemma MovedCore(s: State, q: State, t: TaskId, m: Move)
    requires Core(s) && t in s.tasks && MoveFits(s, q, t, m)
    ensures Core(Moved(q, t, m))
  {
    hide LocksOk, Accounted, Steady, TablesOk, OutcomeOk, Owns;
    var s' := Moved(q, t, m);
    MovedAccounts(s, q, t, m);
    MovedLocks(s, q, t, m);
    SameTables(q, s');
    forall u | u in s'.tasks ensures Steady(s', s'.tasks[u]) {
      SameSteady(q, s', s'.tasks[u]);
    }
    forall u | u in s'.results ensures OutcomeOk(s', s'.results[u]) {
      SameOutcome(q, s', s'.results[u]);
    }
  }

  lemma SameTables(q: State, s': State)
    requires TablesOk(q) && s' == q.(tasks := s'.tasks, results := s'.results, locked := s'.locked)
    ensures TablesOk(s')
  {
  }

  lemma SameSteady(q: State, s': State, task: Task)
    requires Steady(q, task) && s' == q.(tasks := s'.tasks, results := s'.results, locked := s'.locked)
    ensures Steady(s', task)
  {
  }

  lemma SameOutcome(q: State, s': State, o: Outcome)
    requires OutcomeOk(q, o) && s'.row == q.row
    ensures OutcomeOk(s', o)
  {
  }

  lemma MovedAccounts(s: State, q: State, t: TaskId, m: Move)
    requires t in s.tasks && MoveFits(s, q, t, m)
    ensures Accounted(Moved(q, t, m))
  {
    hide Steady, TablesOk, OutcomesOk;
    var s' := Moved(q, t, m);
    forall k | k in s'.objects ensures k in RowKeys(s') || k in s'.leaked || Owned(s', k) {
      if Owned(s, k) && !Owns(s.tasks[t], k) {
        var u :| u in s.tasks && Owns(s.tasks[u], k);
        assert u in s'.tasks && Owns(s'.tasks[u], k);
      } else if m.To? && Owns(m.task, k) {
        assert Owns(s'.tasks[t], k);
      }
    }
  }

  lemma MovedLocks(s: State, q: State, t: TaskId, m: Move)
    requires LocksOk(s) && t in s.tasks && MoveFits(s, q, t, m)
    ensures LocksOk(Moved(q, t, m))
  {
    hide Steady, TablesOk, OutcomesOk, Owned, Owns;
  }

  /** The task that takes a step keeps what it relies on, and no other is active beside it. */
  lemma Alone(s: State, t: TaskId)
    requires Core(s) && t in s.tasks
    ensures Steady(s, s.tasks[t])
    ensures forall u :: u in s.tasks && u != t && LockOf(s.tasks[u]) == LockOf(s.tasks[t]) && Holds(s.tasks[t]) ==>
                          !Holds(s.tasks[u])
  {
  }

  /** Steps that touch none of the tables. */
  lemma QuietFits(s: State, l: Label)
    requires Core(s) && Enabled(s, l)
    requires l.StartFinalize? || l.ReadManifest?
    ensures MoveFits(s, EffectOf(s, l), Subject(l).value, MoveOf(s, l))
  {
    hide LocksOk, IdsOk;
    Alone(s, Subject(l).value);
    assert forall u :: u in s.tasks ==> Steady(s, s.tasks[u]);
  }

  lemma FinishFits(s: State, t: TaskId)
    requires Core(s) && Enabled(s, Finish(t))
    ensures MoveFits(s, EffectOf(s, Finish(t)), t, MoveOf(s, Finish(t)))
  {
    hide LocksOk, IdsOk;
    Alone(s, t);
    assert forall u :: u in s.tasks ==> Steady(s, s.tasks[u]);
  }

  lemma EnterFits(s: State, l: Label)
    requires Core(s) && Enabled(s, l)
    requires l.ReadRow? || l.Acquire?
    ensures MoveFits(s, EffectOf(s, l), Subject(l).value, MoveOf(s, l))
  {
    hide LocksOk, IdsOk;
    Alone(s, Subject(l).value);
    assert forall u :: u in s.tasks ==> Steady(s, s.tasks[u]);
  }

  lemma CancelFits(s: State, t: TaskId)
    requires Core(s) && Enabled(s, Cancel(t))
    ensures MoveFits(s, EffectOf(s, Cancel(t)), t, MoveOf(s, Cancel(t)))
  {
    hide LocksOk, IdsOk;
    Alone(s, t);
  }

  lemma StartPutFits(s: State, t: TaskId)
    requires Core(s) && Enabled(s, StartPut(t))
    ensures MoveFits(s, EffectOf(s, StartPut(t)), t, MoveOf(s, StartPut(t)))
  {
    hide LocksOk, IdsOk;
    Alone(s, t);
    var q := EffectOf(s, StartPut(t));
    forall u | u in s.tasks && u != t ensures Steady(q, s.tasks[u]) {
      assert Steady(s, s.tasks[u]);
    }
  }

  lemma PutFits(s: State, t: TaskId, ok: bool)
    requires Core(s) && Enabled(s, PutEffect(t, ok))
    ensures MoveFits(s, EffectOf(s, PutEffect(t, ok)), t, MoveOf(s, PutEffect(t, ok)))
  {
    hide LocksOk, IdsOk;
    Alone(s, t);
    var q := EffectOf(s, PutEffect(t, ok));
    forall u | u in s.tasks && u != t ensures Steady(q, s.tasks[u]) {
      assert Steady(s, s.tasks[u]);
    }
  }

  lemma CompensateFits(s: State, t: TaskId, ok: bool)
    requires Core(s) && Enabled(s, Compensate(t, ok))
    ensures MoveFits(s, EffectOf(s, Compensate(t, ok)), t, MoveOf(s, Compensate(t, ok)))
  {
    hide LocksOk, IdsOk;
    Alone(s, t);
    var q := EffectOf(s, Compensate(t, ok));
    forall u | u in s.tasks && u != t ensures Steady(q, s.tasks[u]) {
      assert Steady(s, s.tasks[u]);
    }
  }

  lemma CommitFits(s: State, t: TaskId, ok: bool)
    requires Core(s) && Enabled(s, CommitEffect(t, ok))
    ensures MoveFits(s, EffectOf(s, CommitEffect(t, ok)), t, MoveOf(s, CommitEffect(t, ok)))
  {
    hide LocksOk, IdsOk;
    Alone(s, t);
    var q := EffectOf(s, CommitEffect(t, ok));
    forall u | u in s.tasks && u != t ensures Steady(q, s.tasks[u]) {
      assert Steady(s, s.tasks[u]);
    }
  }

  lemma FinalizeFits(s: State, t: TaskId, ok: bool)
    requires Core(s) && Enabled(s, FinalizeEffect(t, ok))
    ensures MoveFits(s, EffectOf(s, FinalizeEffect(t, ok)), t, MoveOf(s, FinalizeEffect(t, ok)))
  {
    hide LocksOk, IdsOk;
    Alone(s, t);
    var q := EffectOf(s, FinalizeEffect(t, ok));
    forall u | u in s.tasks && u != t ensures Steady(q, s.tasks[u]) {
      assert Steady(s, s.tasks[u]);
    }
  }

  lemma ReadSegmentsFits(s: State, t: TaskId, ok: bool)
    requires Core(s) && Enabled(s, ReadSegments(t, ok))
    ensures MoveFits(s, EffectOf(s, ReadSegments(t, ok)), t, MoveOf(s, ReadSegments(t, ok)))
  {
    hide LocksOk, IdsOk;
    Alone(s, t);
    var q := EffectOf(s, ReadSegments(t, ok));
    forall u | u in s.tasks && u != t ensures Steady(q, s.tasks[u]) {
      assert Steady(s, s.tasks[u]);
    }
  }

  lemma RemoveFits(s: State, t: TaskId, ok: bool)
    requires Core(s) && Enabled(s, RemoveObjects(t, ok))
    ensures MoveFits(s, EffectOf(s, RemoveObjects(t, ok)), t, MoveOf(s, RemoveObjects(t, ok)))
  {
    hide LocksOk, IdsOk;
    Alone(s, t);
    var q := EffectOf(s, RemoveObjects(t, ok));
    forall u | u in s.tasks && u != t ensures Steady(q, s.tasks[u]) {
      assert Steady(s, s.tasks[u]);
    }
  }

  lemma EraseFits(s: State, t: TaskId, ok: bool)
    requires Core(s) && Enabled(s, EraseEffect(t, ok))
    ensures MoveFits(s, EffectOf(s, EraseEffect(t, ok)), t, MoveOf(s, EraseEffect(t, ok)))
  {
    hide LocksOk, IdsOk;
    Alone(s, t);
    var q := EffectOf(s, EraseEffect(t, ok));
    forall u | u in s.tasks && u != t ensures Steady(q, s.tasks[u]) {
      assert Steady(s, s.tasks[u]);
    }
  }

  lemma ResumeFits(s: State, t: TaskId)
    requires Core(s) && Enabled(s, Resume(t))
    ensures MoveFits(s, EffectOf(s, Resume(t)), t, MoveOf(s, Resume(t)))
  {
    hide MoveFits;
    if s.tasks[t].Delete? {
      ResumeDeleteFits(s, t);
    } else if s.tasks[t].pc.Finalizing? {
      if ResumeMove(s.tasks[t]).To? { ResumeFinalizedFits(s, t); } else { ResumeUnfinalizedFits(s, t); }
    } else {
      ResumePersistFits(s, t);
    }
  }

  lemma ResumeFinalizedFits(s: State, t: TaskId)
    requires Core(s) && Enabled(s, Resume(t))
    requires s.tasks[t].Op? && s.tasks[t].pc.Finalizing? && ResumeMove(s.tasks[t]).To?
    ensures MoveFits(s, EffectOf(s, Resume(t)), t, MoveOf(s, Resume(t)))
  {
    hide LocksOk, IdsOk;
    Alone(s, t);
    forall u | u in s.tasks && u != t ensures Steady(EffectOf(s, Resume(t)), s.tasks[u]) {
      assert Steady(s, s.tasks[u]);
    }
  }

  lemma ResumeUnfinalizedFits(s: State, t: TaskId)
    requires Core(s) && Enabled(s, Resume(t))
    requires s.tasks[t].Op? && s.tasks[t].pc.Finalizing? && ResumeMove(s.tasks[t]).Out?
    ensures MoveFits(s, EffectOf(s, Resume(t)), t, MoveOf(s, Resume(t)))
  {
    hide LocksOk, IdsOk;
    Alone(s, t);
    forall u | u in s.tasks && u != t ensures Steady(EffectOf(s, Resume(t)), s.tasks[u]) {
      assert Steady(s, s.tasks[u]);
    }
  }

  lemma ResumePersistFits(s: State, t: TaskId)
    requires Core(s) && Enabled(s, Resume(t)) && s.tasks[t].Op? && !s.tasks[t].pc.Finalizing?
    ensures MoveFits(s, EffectOf(s, Resume(t)), t, MoveOf(s, Resume(t)))
  {
    hide LocksOk, IdsOk;
    Alone(s, t);
    forall u | u in s.tasks && u != t ensures Steady(EffectOf(s, Resume(t)), s.tasks[u]) {
      assert Steady(s, s.tasks[u]);
    }
  }

  lemma ResumeDeleteFits(s: State, t: TaskId)
    requires Core(s) && Enabled(s, Resume(t)) && s.tasks[t].Delete?
    ensures MoveFits(s, EffectOf(s, Resume(t)), t, MoveOf(s, Resume(t)))
  {
    hide LocksOk, IdsOk;
    Alone(s, t);
    forall u | u in s.tasks && u != t ensures Steady(EffectOf(s, Resume(t)), s.tasks[u]) {
      assert Steady(s, s.tasks[u]);
    }
  }

  // ---------- steps that add a task or touch only the index or the objects ----------

  lemma SpawnOpCore(s: State, k: Kind)
    requires Core(s) && s.registered
    ensures Core(SpawnedOp(s, k))
  {
    var s' := SpawnedOp(s, k);
    SameOwned(s, s');
    forall u | u in s'.tasks ensures Steady(s', s'.tasks[u]) {
      assert u == s.nextTask || Steady(s, s.tasks[u]);
    }
  }

  lemma SpawnDeleteCore(s: State)
    requires Core(s)
    ensures Core(SpawnedDelete(s))
  {
    var s' := SpawnedDelete(s);
    SameOwned(s, s');
    forall u | u in s'.tasks ensures Steady(s', s'.tasks[u]) {
      assert u == s.nextTask || Steady(s, s.tasks[u]);
    }
  }

  /** Object loss after a delete began. */
  lemma VanishCore(s: State, k: Key)
    requires Core(s) && k in s.doomed
    ensures Core(s.(objects := s.objects - {k}))
  {
    var s' := s.(objects := s.objects - {k});
    SameOwned(s, s');
    forall u | u in s'.tasks ensures Steady(s', s'.tasks[u]) {
      assert Steady(s, s.tasks[u]);
    }
  }

  /** An index entry dropped with its last reference. */
  lemma ForgetCore(s: State)
    requires Core(s) && s.index.Some? && !Referenced(s, s.index.value)
    ensures Core(s.(index := None))
  {
    var s' := s.(index := None);
    SameOwned(s, s');
    forall u | u in s'.tasks ensures Steady(s', s'.tasks[u]) {
      assert Steady(s, s.tasks[u]);
    }
  }

  /** The handler's own bookkeeping. */
  lemma HandlerCore(s: State, s': State)
    requires Core(s) && s' == s.(handler := s'.handler, completed := s'.completed)
    ensures Core(s')
  {
    SameOwned(s, s');
    forall u | u in s'.tasks ensures Steady(s', s'.tasks[u]) {
      assert Steady(s, s.tasks[u]);
    }
  }

  lemma SameOwned(s: State, s': State)
    requires forall u :: u in s.tasks ==> u in s'.tasks && s'.tasks[u] == s.tasks[u]
    ensures forall k :: Owned(s, k) ==> Owned(s', k)
  {
    forall k | Owned(s, k) ensures Owned(s', k) {
      var u :| u in s.tasks && Owns(s.tasks[u], k);
      assert u in s'.tasks && Owns(s'.tasks[u], k);
    }
  }

  lemma TaskStepCore(s: State, l: Label)
    requires Core(s) && Enabled(s, l) && Subject(l).Some?
    ensures Core(After(s, l))
  {
    hide Core, MoveFits, EffectOf, MoveOf, Enabled;
    StepNeeds(s, l);
    match l {
      case StartPut(t) => StartPutFits(s, t);
      case PutEffect(t, ok) => PutFits(s, t, ok);
      case CommitEffect(t, ok) => CommitFits(s, t, ok);
      case Compensate(t, ok) => CompensateFits(s, t, ok);
      case FinalizeEffect(t, ok) => FinalizeFits(s, t, ok);
      case ReadSegments(t, ok) => ReadSegmentsFits(s, t, ok);
      case RemoveObjects(t, ok) => RemoveFits(s, t, ok);
      case EraseEffect(t, ok) => EraseFits(s, t, ok);
      case Resume(t) => ResumeFits(s, t);
      case Cancel(t) => CancelFits(s, t);
      case ReadRow(_, _) => EnterFits(s, l);
      case Acquire(_, _, _) => EnterFits(s, l);
      case Finish(t) => FinishFits(s, t);
      case _ => QuietFits(s, l);
    }
    MovedCore(s, EffectOf(s, l), Subject(l).value, MoveOf(s, l));
  }

  lemma SpawnSteps(s: State, l: Label)
    requires Core(s) && Enabled(s, l) && (l.SpawnOp? || l.SpawnDelete? || l.HandlerCall?)
    ensures Core(Background(s, l))
  {
    hide Core;
    match l {
      case SpawnOp(k) => SpawnOpCore(s, k);
      case SpawnDelete => SpawnDeleteCore(s);
      case HandlerCall(k) => SpawnOpCore(s, k); HandlerCore(SpawnedOp(s, k), Background(s, l));
    }
  }

  lemma HandlerTurns(s: State, l: Label)
    requires Core(s) && Enabled(s, l) && (l.HandlerReturn? || l.HandlerAbort? || l.HandlerExit? || l.HandlerClean?)
    ensures Core(Background(s, l))
  {
    hide Core, SpawnedDelete;
    if l.HandlerExit? && !s.completed {
      SpawnDeleteCore(s);
      HandlerCore(SpawnedDelete(s), Background(s, l));
    } else {
      HandlerCore(s, Background(s, l));
    }
  }

  lemma BackgroundCore(s: State, l: Label)
    requires Core(s) && Enabled(s, l) && Subject(l).None?
    ensures Core(Background(s, l))
  {
    hide Core;
    match l {
      case Vanish(k) => VanishCore(s, k);
      case Forget => ForgetCore(s);
      case SpawnOp(_) => SpawnSteps(s, l);
      case SpawnDelete => SpawnSteps(s, l);
      case HandlerCall(_) => SpawnSteps(s, l);
      case _ => HandlerTurns(s, l);
    }
  }

  lemma StepCore(s: State, l: Label)
    requires Core(s) && Enabled(s, l)
    ensures Core(After(s, l))
  {
    hide Core, EffectOf, MoveOf, Moved, Background, Enabled;
    if Subject(l).Some? { TaskStepCore(s, l); } else { BackgroundCore(s, l); }
  }

  // ---------- the handler ----------

  lemma OperationRow(s: State, l: Label)
    requires Enabled(s, l) && Subject(l).Some?
    ensures OperationEffect(s, l).row == s.row || (RowPending(s) && OperationEffect(s, l).row.Some?)
  {
    hide Enabled;
    StepNeeds(s, l);
  }

  lemma EffectRow(s: State, l: Label)
    requires Enabled(s, l) && Subject(l).Some?
    ensures EffectOf(s, l).row == s.row || EffectOf(s, l).row == None || EffectOf(s, l) == OperationEffect(s, l)
  {
    hide OperationEffect, ResumeMove, Enabled;
  }

  /** A finalized status is final, and a deleted row never comes back. */
  lemma RowStable(s: State, l: Label, status: Status)
    requires Enabled(s, l)
    ensures s.row.None? ==> After(s, l).row.None?
    ensures RowIs(s, status) && status != Pending ==> RowIs(After(s, l), status)
  {
    hide EffectOf, OperationEffect, Background, Moved, MoveOf, Enabled;
    if Subject(l).Some? {
      TaskStepTables(s, l);
      EffectRow(s, l);
      OperationRow(s, l);
    }
  }

  /** What a step leaves of task t: its state and its result. */
  ghost predicate Stays(s: State, s': State, t: TaskId) {
    && s.nextTask <= s'.nextTask
    && (t in s'.tasks <==> t in s.tasks) && (t in s.tasks ==> s'.tasks[t] == s.tasks[t])
    && (t in s'.results <==> t in s.results) && (t in s.results ==> s'.results[t] == s.results[t])
  }

  /** A step leaves every other task, and its result, as they are. */
  lemma OthersStay(s: State, l: Label, t: TaskId)
    requires Enabled(s, l) && Subject(l) != Some(t) && t < s.nextTask
    ensures Stays(s, After(s, l), t)
  {
    hide Enabled, Stays, EffectOf, MoveOf, Background, Moved;
    if Subject(l).Some? {
      StepNeeds(s, l);
      MovedStays(EffectOf(s, l), Subject(l).value, MoveOf(s, l), t);
      StaysAlong(s, EffectOf(s, l), After(s, l), t);
    } else {
      BackgroundStays(s, l, t);
    }
  }

  lemma MovedStays(s: State, u: TaskId, m: Move, t: TaskId)
    requires u in s.tasks && u != t
    ensures Stays(s, Moved(s, u, m), t)
  {
  }

  lemma StaysAlong(s: State, q: State, s': State, t: TaskId)
    requires q.tasks == s.tasks && q.results == s.results && q.nextTask == s.nextTask && Stays(q, s', t)
    ensures Stays(s, s', t)
  {
  }

  lemma BackgroundStays(s: State, l: Label, t: TaskId)
    requires Enabled(s, l) && Subject(l).None? && t < s.nextTask
    ensures Stays(s, Background(s, l), t)
  {
    hide Enabled, Background;
  }

  /** Whatever step is taken, the handler's clean-up either still runs or ended as it should. */
  lemma CleanupStep(s: State, l: Label, t: TaskId)
    requires Core(s) && Enabled(s, l) && CleanupRuns(s, t) && s.handler == Cleaning(t)
    ensures CleanupRuns(After(s, l), t)
  {
    if Subject(l) == Some(t) {
      CleanupMoves(s, l, t);
    } else {
      CleanupStands(s, l, t);
    }
  }

  lemma CleanupMoves(s: State, l: Label, t: TaskId)
    requires Core(s) && Enabled(s, l) && CleanupRuns(s, t) && s.handler == Cleaning(t) && Subject(l) == Some(t)
    ensures CleanupRuns(After(s, l), t)
  {
    hide EffectOf, Core;
  }

  lemma CleanupStands(s: State, l: Label, t: TaskId)
    requires Core(s) && Enabled(s, l) && CleanupRuns(s, t) && s.handler == Cleaning(t) && Subject(l) != Some(t)
    ensures CleanupRuns(After(s, l), t)
  {
    hide After, Enabled, Core;
    OthersStay(s, l, t);
  }

  lemma HandlerSteps(s: State, l: Label)
    requires Inv(s) && Enabled(s, l)
    requires l.HandlerCall? || l.HandlerReturn? || l.HandlerAbort? || l.HandlerExit? || l.HandlerClean?
    ensures HandlerOk(After(s, l))
  {
    hide After, Core, HandlerOk;
    if l.HandlerExit? {
      HandlerExits(s, l);
    } else if l.HandlerClean? {
      HandlerCleaned(s, l);
    } else {
      HandlerServes(s, l);
    }
  }

  lemma HandlerServes(s: State, l: Label)
    requires Inv(s) && Enabled(s, l) && (l.HandlerCall? || l.HandlerReturn? || l.HandlerAbort?)
    ensures HandlerOk(After(s, l))
  {
    hide EffectOf, MoveOf, Moved, Steady, LocksOk, TablesOk, Accounted;
  }

  lemma HandlerExits(s: State, l: Label)
    requires Inv(s) && Enabled(s, l) && l.HandlerExit?
    ensures HandlerOk(After(s, l))
  {
    hide EffectOf, MoveOf, Moved, Steady, LocksOk, TablesOk, Accounted;
  }

  lemma HandlerCleaned(s: State, l: Label)
    requires Inv(s) && Enabled(s, l) && l.HandlerClean?
    ensures HandlerOk(After(s, l))
  {
    hide EffectOf, MoveOf, Moved, Steady, LocksOk, TablesOk, Accounted;
  }

  lemma StepHandler(s: State, l: Label)
    requires Inv(s) && Enabled(s, l)
    ensures HandlerOk(After(s, l))
  {
    if l.HandlerCall? || l.HandlerReturn? || l.HandlerAbort? || l.HandlerExit? || l.HandlerClean? {
      HandlerSteps(s, l);
    } else {
      OtherSteps(s, l);
    }
  }

  lemma HandlerStays(s: State, l: Label)
    requires Enabled(s, l)
    requires !(l.HandlerCall? || l.HandlerReturn? || l.HandlerAbort? || l.HandlerExit? || l.HandlerClean?)
    ensures var s' := After(s, l);
            s'.handler == s.handler && s'.completed == s.completed && s.nextTask <= s'.nextTask
  {
    hide EffectOf, MoveOf, Moved, SpawnedOp, SpawnedDelete, Enabled;
    StepNeeds(s, l);
  }

  lemma OtherSteps(s: State, l: Label)
    requires Inv(s) && Enabled(s, l)
    requires !(l.HandlerCall? || l.HandlerReturn? || l.HandlerAbort? || l.HandlerExit? || l.HandlerClean?)
    ensures HandlerOk(After(s, l))
  {
    hide After, Enabled, Core, CleanupRuns;
    HandlerStays(s, l);
    RowStable(s, l, Completed);
    if s.handler.Cleaning? { CleanupStep(s, l, s.handler.task); }
  }

  lemma StepInv(s: State, l: Label)
    requires Inv(s) && Enabled(s, l)
    ensures Inv(After(s, l))
  {
    StepCore(s, l);
    StepHandler(s, l);
  }
}

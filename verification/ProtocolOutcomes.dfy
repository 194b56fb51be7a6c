/**
 What an operation's outcome tells its caller, in any run: whether it was cancelled, whether one of its
 storage calls failed, and that it lost nothing if it returned.
 */
module ProtocolOutcomes {
  import opened Bytes
  import opened Protocol
  import opened ProtocolSafety
  import opened ProtocolTheorems
  import opened ProtocolOrder

  // ---------- what has happened to a task ----------

  datatype History = History(cancelled: bool, failed: bool, lost: bool)

  /** In this step a storage call the task is waiting for fails. */
  predicate CallFails(l: Label, t: TaskId) {
    || l == PutEffect(t, false) || l == CommitEffect(t, false) || l == FinalizeEffect(t, false)
    || l == ReadManifest(t, false) || DeleteFails(l, t)
  }

  function Happens(s: State, l: Label, t: TaskId, h: History): History
    requires Enabled(s, l)
  {
    History(h.cancelled || l == Cancel(t),
            h.failed || CallFails(l, t),
            h.lost || (Subject(l) == Some(t) && Loss(s, l) > 0))
  }

  /** Task t was cancelled, saw a call fail, or lost a segment, in the first i steps. */
  ghost function HistoryOf(ss: seq<State>, ls: seq<Label>, i: nat, t: TaskId): History
    requires Behavior(ss, ls) && i < |ss|
  {
    if i == 0 then History(false, false, false)
    else Happens(ss[i - 1], ls[i - 1], t, HistoryOf(ss, ls, i - 1, t))
  }

  // ---------- what a task's state remembers of it ----------

  predicate CancelPending(task: Task) {
    match task
    case Op(_, Putting(_, _, call)) => call.cancelled
    case Op(_, Committing(_, _, call)) => call.cancelled
    case Op(_, Compensating(_, cancelled)) => cancelled
    case Op(_, Finalizing(call)) => call.cancelled
    case Delete(_, Erasing(call)) => call.cancelled
    case _ => false
  }

  /** A persist step that will not commit, or not go on to the segments after it. */
  predicate Broken(pc: OpPc) {
    match pc
    case Putting(_, _, call) => call.effect == NoEffect || call.cancelled
    case Committing(_, todo, call) => call.effect == NoEffect || (call.cancelled && todo > 0)
    case Compensating(_, _) => true
    case _ => false
  }

  predicate FailurePending(task: Task) {
    match task
    case Op(k, Putting(_, _, call)) => call.effect == NoEffect
    case Op(k, Committing(_, _, call)) => call.effect == NoEffect
    case Op(k, Compensating(_, _)) => true
    case Op(k, Finalizing(call)) => call.effect == NoEffect || k == FailUnflushed
    case Op(k, _) => k == FailUnflushed
    case Delete(_, Erasing(call)) => call.effect == NoEffect
    case Delete(_, _) => false
  }

  predicate TaskTells(task: Task, h: History) {
    && (h.cancelled <==> CancelPending(task))
    && (!h.cancelled ==> (h.failed <==> FailurePending(task)))
    && (h.lost <==> task.Op? && (Broken(task.pc) || task.kind == FailUnflushed))
    && (task.Op? && task.kind == FailUnflushed ==> task.pc == Next(0) || task.pc.Finalizing? || task.pc == Reading)
  }

  predicate OutcomeTells(o: Outcome, h: History) {
    && (o == Raised(Cancelled) <==> h.cancelled)
    && (!h.cancelled ==> (o == Raised(StorageFailure) <==> h.failed))
    && (!o.Raised? ==> !h.lost)
  }

  predicate Tells(s: State, t: TaskId, h: History) {
    if t in s.tasks then TaskTells(s.tasks[t], h)
    else if t in s.results then OutcomeTells(s.results[t], h)
    else t >= s.nextTask && h == History(false, false, false)
  }

  // ---------- steps ----------

  /** A task's own step changes its state, or gives its outcome, as its history changes. */
  ghost predicate StepTells(s: State, l: Label, h: History)
    requires Enabled(s, l) && Subject(l).Some?
  {
    match MoveOf(s, l)
    case To(task) => TaskTells(task, Happens(s, l, Subject(l).value, h))
    case Out(o) => OutcomeTells(o, Happens(s, l, Subject(l).value, h))
  }

  lemma OwnKind(s: State, l: Label)
    requires Enabled(s, l) && Subject(l).Some?
    ensures IsOp(s, Subject(l).value) || IsDelete(s, Subject(l).value)
  {
    hide EffectOf, MoveOf;
  }

  lemma OwnStep(s: State, l: Label, h: History)
    requires Enabled(s, l) && Subject(l).Some? && Subject(l).value in s.tasks
    requires TaskTells(s.tasks[Subject(l).value], h)
    ensures StepTells(s, l, h)
  {
    hide EffectOf, MoveOf, StepTells, TaskTells;
    OwnKind(s, l);
    if l.Resume? {
      ResumeTells(s, l.t, h);
    } else if l.Cancel? {
      CancelTells(s, l.t, h);
    } else if s.tasks[Subject(l).value].Delete? {
      DeleteTells(s, l, h);
    } else {
      OperationTells(s, l, h);
    }
  }

  lemma OperationTells(s: State, l: Label, h: History)
    requires Enabled(s, l) && Subject(l).Some? && IsOp(s, Subject(l).value) && !l.Resume? && !l.Cancel?
    requires TaskTells(s.tasks[Subject(l).value], h)
    ensures StepTells(s, l, h)
  {
    hide EffectOf, ResumeMove, CancelMove, RowKeys;
    if l.PutEffect? || l.CommitEffect? {
    } else if l.Compensate? || l.FinalizeEffect? {
    }
  }

  lemma DeleteTells(s: State, l: Label, h: History)
    requires Enabled(s, l) && Subject(l).Some? && IsDelete(s, Subject(l).value) && !l.Resume? && !l.Cancel?
    requires TaskTells(s.tasks[Subject(l).value], h)
    ensures StepTells(s, l, h)
  {
    hide EffectOf, ResumeMove, CancelMove;
  }

  lemma ResumeTells(s: State, t: TaskId, h: History)
    requires Enabled(s, Resume(t)) && TaskTells(s.tasks[t], h)
    ensures StepTells(s, Resume(t), h)
  {
    hide EffectOf, CancelMove, RowKeys;
    if s.tasks[t].Delete? {
    } else if s.tasks[t].pc.Finalizing? {
    } else if s.tasks[t].pc.Putting? {
    }
  }

  lemma CancelTells(s: State, t: TaskId, h: History)
    requires Enabled(s, Cancel(t)) && TaskTells(s.tasks[t], h)
    ensures StepTells(s, Cancel(t), h)
  {
    hide EffectOf, ResumeMove, RowKeys;
  }

  lemma MovedOwn(s: State, q: State, t: TaskId, m: Move)
    requires t in s.tasks && t < s.nextTask && q.tasks == s.tasks && q.results == s.results && q.nextTask == s.nextTask
    ensures var s' := Moved(q, t, m);
            && s'.nextTask == s.nextTask
            && (t in s'.tasks <==> m.To?)
            && (m.To? ==> s'.tasks[t] == m.task && s'.results == s.results)
            && (m.Out? ==> t in s'.results && s'.results[t] == m.outcome)
  {
  }

  /** A step of another task, or of none, adds nothing to this one's history. */
  lemma OtherHappens(s: State, l: Label, t: TaskId, h: History)
    requires Enabled(s, l) && Subject(l) != Some(t)
    ensures Happens(s, l, t, h) == h
  {
    hide Enabled, Loss;
  }

  predicate Fresh(task: Task) {
    match task
    case Op(k, pc) => pc == Waiting && k != FailUnflushed
    case Delete(_, dpc) => dpc == Queued
  }

  lemma Spawned(s: State, l: Label, t: TaskId)
    requires Enabled(s, l) && Subject(l).None? && t !in s.tasks && t in Background(s, l).tasks
    ensures Fresh(Background(s, l).tasks[t])
  {
    hide AtMostSpawns;
    match l {
      case SpawnOp(_) =>
      case SpawnDelete =>
      case HandlerCall(_) =>
      case HandlerExit =>
      case _ =>
    }
  }

  lemma NewTask(s: State, l: Label, t: TaskId)
    requires IdsOk(s) && Enabled(s, l) && Subject(l) != Some(t) && t >= s.nextTask
    ensures var s' := After(s, l);
            && t !in s'.results
            && (t in s'.tasks ==> t < s'.nextTask && Fresh(s'.tasks[t]))
            && (t !in s'.tasks ==> t >= s'.nextTask)
  {
    hide EffectOf, MoveOf, Enabled, Background;
    StepNeeds(s, l);
    if Subject(l).None? && t in Background(s, l).tasks { Spawned(s, l, t); }
  }

  lemma TellsStep(s: State, l: Label, t: TaskId, h: History)
    requires IdsOk(s) && Enabled(s, l) && Tells(s, t, h)
    ensures Tells(After(s, l), t, Happens(s, l, t, h))
  {
    hide EffectOf, MoveOf, Enabled, Background, Happens, TaskTells, OutcomeTells, Moved, IdsOk;
    if Subject(l) == Some(t) {
      StepNeeds(s, l);
      OwnStep(s, l, h);
      TaskIds(s, t);
      MovedOwn(s, EffectOf(s, l), t, MoveOf(s, l));
    } else {
      OtherHappens(s, l, t, h);
      if t < s.nextTask {
        OthersStay(s, l, t);
      } else {
        TaskIds(s, t);
        NewTask(s, l, t);
        FreshTells(After(s, l), t);
      }
    }
  }

  lemma TaskIds(s: State, t: TaskId)
    requires IdsOk(s)
    ensures t in s.tasks ==> t < s.nextTask && t !in s.results
    ensures t in s.results ==> t < s.nextTask
  {
  }

  lemma FreshTells(s: State, t: TaskId)
    ensures t in s.tasks && Fresh(s.tasks[t]) ==> TaskTells(s.tasks[t], History(false, false, false))
  {
  }

  lemma {:induction false} HistoryTells(ss: seq<State>, ls: seq<Label>, i: nat, t: TaskId)
    requires Behavior(ss, ls) && i < |ss|
    ensures Tells(ss[i], t, HistoryOf(ss, ls, i, t))
  {
    hide After, Enabled, Happens, TaskTells, OutcomeTells, IdsOk;
    hide Steady, LocksOk, TablesOk, Accounted, OutcomesOk, HandlerOk;
    if i > 0 {
      HistoryTells(ss, ls, i - 1, t);
      BehaviorInv(ss, ls, i - 1);
      TellsStep(ss[i - 1], ls[i - 1], t, HistoryOf(ss, ls, i - 1, t));
    }
  }

  // ---------- what an outcome says ----------

  /** What has happened to a task by step i is the label of some step before i. */
  lemma {:induction false} HistoryMeans(ss: seq<State>, ls: seq<Label>, i: nat, t: TaskId)
    requires Behavior(ss, ls) && i < |ss|
    ensures var h := HistoryOf(ss, ls, i, t);
            && (h.cancelled <==> exists j :: 0 <= j < i && ls[j] == Cancel(t))
            && (h.failed <==> exists j :: 0 <= j < i && CallFails(ls[j], t))
            && (h.lost <==> exists j :: 0 <= j < i && Subject(ls[j]) == Some(t) && Loss(ss[j], ls[j]) > 0)
  {
    hide After, Enabled, CallFails, Loss;
    if i > 0 { HistoryMeans(ss, ls, i - 1, t); }
  }

  /** An operation or delete that has ended was cancelled, if it raised that; otherwise one of its storage
      calls failed, if it raised that; and if it returned, it lost no segment. */
  lemma OutcomesTellAll(ss: seq<State>, ls: seq<Label>, i: nat, t: TaskId)
    requires Behavior(ss, ls) && i < |ss| && t in ss[i].results
    ensures var o := ss[i].results[t];
            var cancelled := exists j :: 0 <= j < i && ls[j] == Cancel(t);
            && (o == Raised(Cancelled) <==> cancelled)
            && (!cancelled ==> (o == Raised(StorageFailure) <==> exists j :: 0 <= j < i && CallFails(ls[j], t)))
            && (!o.Raised? ==> forall j :: 0 <= j < i && Subject(ls[j]) == Some(t) ==> Loss(ss[j], ls[j]) == 0)
  {
    hide After, Enabled, CallFails, Loss, HistoryOf;
    BehaviorInv(ss, ls, i);
    HistoryTells(ss, ls, i, t);
    HistoryMeans(ss, ls, i, t);
  }

  // ---------- what an operation was called for ----------

  /** What task t was spawned to do. */
  ghost function BornAs(ss: seq<State>, ls: seq<Label>, i: nat, t: TaskId): Option<Kind>
    requires Behavior(ss, ls) && i < |ss|
  {
    if i == 0 then None
    else if IsOp(ss[i], t) && t !in ss[i - 1].tasks then Some(ss[i].tasks[t].kind)
    else BornAs(ss, ls, i - 1, t)
  }

  /** An operation does what it was called for, except that a `fail` remembers a failed flush. */
  predicate Faithful(k: Kind, born: Option<Kind>) {
    born == Some(if k == FailUnflushed then Fail else k)
  }

  ghost predicate KeepsKind(s: State, t: TaskId, born: Option<Kind>) {
    && (IsOp(s, t) ==> Faithful(s.tasks[t].kind, born))
    && (t in s.results && s.results[t].Returned? ==> born == Some(s.results[t].kind))
  }

  lemma KindMoves(s: State, l: Label)
    requires Enabled(s, l) && Subject(l).Some? && Subject(l).value in s.tasks
    ensures var task, m := s.tasks[Subject(l).value], MoveOf(s, l);
            && (m.To? && m.task.Op? ==>
                  task.Op? && (m.task.kind == task.kind || (task.kind == Fail && m.task.kind == FailUnflushed)))
            && (m.Out? && m.outcome.Returned? ==> task.Op? && m.outcome.kind == task.kind != FailUnflushed)
  {
    hide EffectOf, RowKeys;
    if l.Resume? {
    } else if l.Cancel? {
    }
  }

  lemma KindStep(s: State, l: Label, t: TaskId, born: Option<Kind>)
    requires IdsOk(s) && Enabled(s, l) && KeepsKind(s, t, born)
    ensures var s' := After(s, l);
            KeepsKind(s', t, if IsOp(s', t) && t !in s.tasks then Some(s'.tasks[t].kind) else born)
  {
    hide EffectOf, MoveOf, Enabled, Background, Moved, IdsOk;
    TaskIds(s, t);
    if Subject(l) == Some(t) {
      StepNeeds(s, l);
      KindMoves(s, l);
      MovedOwn(s, EffectOf(s, l), t, MoveOf(s, l));
    } else if t < s.nextTask {
      OthersStay(s, l, t);
    } else {
      NewTask(s, l, t);
    }
  }

  lemma {:induction false} KindKept(ss: seq<State>, ls: seq<Label>, i: nat, t: TaskId)
    requires Behavior(ss, ls) && i < |ss|
    ensures KeepsKind(ss[i], t, BornAs(ss, ls, i, t))
  {
    hide After, Enabled, Faithful, Steady, LocksOk, TablesOk, Accounted, OutcomesOk, HandlerOk, IdsOk;
    if i > 0 {
      KindKept(ss, ls, i - 1, t);
      BehaviorInv(ss, ls, i - 1);
      KindStep(ss[i - 1], ls[i - 1], t, BornAs(ss, ls, i - 1, t));
    }
  }

  lemma FinalizeMarks(s: State, t: TaskId)
    requires Enabled(s, FinalizeEffect(t, true))
    ensures IsOp(s, t) && s.tasks[t].pc.Finalizing? && Finalizes(s.tasks[t].kind)
    ensures var row := After(s, FinalizeEffect(t, true)).row;
            row.Some? && row.value.status == if s.tasks[t].kind == Complete then Completed else Failed
  {
  }

  /** Only what was called as `complete`, and has lost nothing itself, marks the session completed; only
      what was called as `fail` marks it failed. */
  lemma CompleteIsWhole(ss: seq<State>, ls: seq<Label>, i: nat, t: TaskId)
    requires Behavior(ss, ls) && i < |ls| && ls[i] == FinalizeEffect(t, true)
    ensures ss[i + 1].row.Some? && ss[i + 1].row.value.status != Pending
    ensures ss[i + 1].row.value.status == Completed ==>
              && BornAs(ss, ls, i, t) == Some(Complete)
              && forall j :: 0 <= j < i && Subject(ls[j]) == Some(t) ==> Loss(ss[j], ls[j]) == 0
    ensures ss[i + 1].row.value.status == Failed ==> BornAs(ss, ls, i, t) == Some(Fail)
  {
    hide Loss, HistoryOf, EffectOf, After, Enabled, BornAs;
    FinalizeMarks(ss[i], t);
    KindKept(ss, ls, i, t);
    HistoryTells(ss, ls, i, t);
    HistoryMeans(ss, ls, i, t);
  }

  /** An operation that returns has done what it was called for. */
  lemma ReturnsAsCalled(ss: seq<State>, ls: seq<Label>, i: nat, t: TaskId)
    requires Behavior(ss, ls) && i < |ss| && t in ss[i].results && ss[i].results[t].Returned?
    ensures BornAs(ss, ls, i, t) == Some(ss[i].results[t].kind)
  {
    hide EffectOf, After, Enabled, BornAs;
    KindKept(ss, ls, i, t);
  }

  /** An operation that will finalize the row as failed, and has not come to that yet. */
  predicate Failing(s: State, t: TaskId) {
    && IsOp(s, t) && Active(s.tasks[t]) && !s.tasks[t].pc.Finalizing?
    && (s.tasks[t].kind == Fail || s.tasks[t] == Op(FailUnflushed, Next(0)))
  }

  lemma FailMoves(s: State, l: Label)
    requires Enabled(s, l) && Subject(l).Some? && Failing(s, Subject(l).value)
    requires !CancelPending(s.tasks[Subject(l).value]) && !l.StartFinalize?
    ensures var m := MoveOf(s, l);
            && m.To? && m.task.Op? && Active(m.task) && !m.task.pc.Finalizing?
            && (m.task.kind == Fail || m.task == Op(FailUnflushed, Next(0)))
  {
    hide EffectOf;
  }

  lemma FailStays(s: State, l: Label, t: TaskId)
    requires IdsOk(s) && Enabled(s, l) && Failing(s, t) && !CancelPending(s.tasks[t]) && l != StartFinalize(t)
    ensures Failing(After(s, l), t)
  {
    hide EffectOf, MoveOf, Enabled, Moved, Background;
    TaskIds(s, t);
    if Subject(l) == Some(t) {
      FailMoves(s, l);
      MovedOwn(s, EffectOf(s, l), t, MoveOf(s, l));
    } else {
      OthersStay(s, l, t);
    }
  }

  lemma {:induction false} FailGoesOn(ss: seq<State>, ls: seq<Label>, i: nat, j: nat, t: TaskId)
    requires Behavior(ss, ls) && i <= j < |ss| && Failing(ss[i], t)
    requires forall m :: 0 <= m < j ==> ls[m] != Cancel(t)
    ensures Failing(ss[j], t) || exists m :: i <= m < j && ls[m] == StartFinalize(t)
    decreases j
  {
    hide Loss, HistoryOf, CallFails, After, Enabled, Steady, LocksOk, TablesOk, Accounted, OutcomesOk, HandlerOk, IdsOk;
    if i < j {
      FailGoesOn(ss, ls, i, j - 1, t);
      BehaviorInv(ss, ls, j - 1);
      if Failing(ss[j - 1], t) && ls[j - 1] != StartFinalize(t) {
        HistoryTells(ss, ls, j - 1, t);
        HistoryMeans(ss, ls, j - 1, t);
        FailStays(ss[j - 1], ls[j - 1], t);
      }
    }
  }

  /** A `fail` that got the lock goes on to finalize the row, whatever becomes of its flush: it cannot
      have ended otherwise, unless it was cancelled. */
  lemma FailFinalizes(ss: seq<State>, ls: seq<Label>, i: nat, j: nat, t: TaskId)
    requires Behavior(ss, ls) && i <= j < |ss| && t in ss[j].results
    requires IsOp(ss[i], t) && Active(ss[i].tasks[t]) && ss[i].tasks[t].kind == Fail
    requires !ss[i].tasks[t].pc.Finalizing?
    ensures (exists m :: 0 <= m < j && ls[m] == Cancel(t)) || (exists m :: i <= m < j && ls[m] == StartFinalize(t))
  {
    hide After, Enabled;
    if forall m :: 0 <= m < j ==> ls[m] != Cancel(t) {
      FailGoesOn(ss, ls, i, j, t);
      BehaviorInv(ss, ls, j);
    }
  }

  // ---------- the handler stops at the first call that fails ----------

  predicate Going(h: Handler) {
    h.Serving? || h.Calling?
  }

  lemma ResultStays(s: State, l: Label, t: TaskId)
    requires IdsOk(s) && Enabled(s, l) && t in s.results
    ensures t in After(s, l).results && After(s, l).results[t] == s.results[t]
  {
    hide EffectOf, MoveOf, Enabled, Background, Moved, IdsOk;
    TaskIds(s, t);
    StepNeeds(s, l);
    OthersStay(s, l, t);
  }

  /** How the handler can be serving, or waiting for a call, after a step. */
  lemma HandlerTurn(s: State, l: Label)
    requires Enabled(s, l) && Going(After(s, l).handler)
    ensures Going(s.handler)
    ensures l.HandlerCall? ==> s.handler == Serving && After(s, l).handler == Calling(s.nextTask, l.kind)
    ensures l.HandlerReturn? ==>
              && s.handler.Calling? && s.handler.task in s.results
              && s.results[s.handler.task] == Returned(s.handler.kind)
    ensures !l.HandlerCall? && !l.HandlerReturn? ==> After(s, l).handler == s.handler
  {
    hide EffectOf, MoveOf;
    if l.HandlerCall? || l.HandlerReturn? || l.HandlerAbort? || l.HandlerExit? || l.HandlerClean? {
    } else {
      HandlerStays(s, l);
    }
  }

  /** The call the handler made in step j is the one it waits for, or has returned. */
  ghost predicate CallWent(ss: seq<State>, ls: seq<Label>, i: nat, j: nat)
    requires Behavior(ss, ls) && j < i < |ss| && ls[j].HandlerCall?
  {
    || ss[i].handler == Calling(ss[j].nextTask, ls[j].kind)
    || (ss[j].nextTask in ss[i].results && ss[i].results[ss[j].nextTask] == Returned(ls[j].kind))
  }

  lemma {:induction false} CallsWent(ss: seq<State>, ls: seq<Label>, i: nat, j: nat)
    requires Behavior(ss, ls) && j < i < |ss| && ls[j].HandlerCall? && Going(ss[i].handler)
    ensures CallWent(ss, ls, i, j)
    decreases i
  {
    hide After, Enabled, Steady, LocksOk, TablesOk, Accounted, OutcomesOk, HandlerOk, IdsOk;
    BehaviorInv(ss, ls, i - 1);
    HandlerTurn(ss[i - 1], ls[i - 1]);
    if j < i - 1 {
      CallsWent(ss, ls, i - 1, j);
      if ss[j].nextTask in ss[i - 1].results { ResultStays(ss[i - 1], ls[i - 1], ss[j].nextTask); }
    }
  }

  /** When the handler counts the session as completed, every call it has made has returned, and none of
      them lost a segment. */
  lemma CompletedWithoutLoss(ss: seq<State>, ls: seq<Label>, i: nat, j: nat, m: nat)
    requires Behavior(ss, ls) && i < |ls| && ls[i] == HandlerReturn(true) && ss[i + 1].handler == Serving
    requires j < i && ls[j].HandlerCall? && m < i && Subject(ls[m]) == Some(ss[j].nextTask)
    ensures ss[j].nextTask in ss[i].results && ss[i].results[ss[j].nextTask] == Returned(ls[j].kind)
    ensures Loss(ss[m], ls[m]) == 0
  {
    hide After, Enabled, Loss, CallFails;
    HandlerTurn(ss[i], ls[i]);
    CallsWent(ss, ls, i, j);
    OutcomesTellAll(ss, ls, i, ss[j].nextTask);
  }

  // ---------- a request's audio ----------

  predicate StoresRest(task: Task) {
    Active(task) && task.kind == StoreRest
  }

  ghost predicate RestOk(s: State) {
    && (forall t :: t in s.results && s.results[t] == Returned(StoreRest) ==> s.restWritten)
    && (forall t, u ::
          t in s.results && u in s.results && s.results[t] == s.results[u] == Returned(StoreRest) ==> t == u)
    && (forall t :: t in s.tasks && StoresRest(s.tasks[t]) ==> !s.restWritten)
  }

  lemma RestMoves(s: State, l: Label)
    requires Enabled(s, l) && Subject(l).Some? && Subject(l).value in s.tasks
    requires Steady(s, s.tasks[Subject(l).value])
    ensures var task, m := s.tasks[Subject(l).value], MoveOf(s, l);
            && (m.To? && StoresRest(m.task) ==> StoresRest(task) || !s.restWritten)
            && (m == Out(Returned(StoreRest)) <==> l.Finish? && StoresRest(task))
  {
    hide EffectOf, RowKeys;
  }

  lemma RestEffect(s: State, l: Label)
    requires Enabled(s, l) && Subject(l).Some? && Subject(l).value in s.tasks
    ensures EffectOf(s, l).restWritten == (s.restWritten || (l.Finish? && StoresRest(s.tasks[Subject(l).value])))
  {
    hide ResumeMove, RowKeys;
    if l.ReadSegments? || l.RemoveObjects? || l.EraseEffect? || l.Resume? {
    } else if l.CommitEffect? || l.Finish? || l.FinalizeEffect? {
    } else {
    }
  }

  lemma RestStep(s: State, l: Label)
    requires Core(s) && Enabled(s, l) && RestOk(s)
    ensures RestOk(After(s, l))
  {
    hide EffectOf, MoveOf, Enabled, Background, RestOk, Core;
    if Subject(l).Some? { RestOwnStep(s, l); } else { RestBackground(s, l); }
  }

  lemma RestOwnStep(s: State, l: Label)
    requires Core(s) && Enabled(s, l) && Subject(l).Some? && RestOk(s)
    ensures RestOk(After(s, l))
  {
    hide EffectOf, MoveOf, Enabled, Background, Steady, TablesOk, Accounted, OutcomesOk, LocksOk;
    StepNeeds(s, l);
    Alone(s, Subject(l).value);
    RestMoves(s, l);
    RestEffect(s, l);
  }

  lemma RestBackground(s: State, l: Label)
    requires Core(s) && Enabled(s, l) && Subject(l).None? && RestOk(s)
    ensures RestOk(After(s, l))
  {
    hide EffectOf, MoveOf, Enabled, Background, Steady, TablesOk, Accounted, OutcomesOk, LocksOk;
    BackgroundKeeps(s, l);
    forall t | t in Background(s, l).tasks && t !in s.tasks ensures Fresh(Background(s, l).tasks[t]) {
      Spawned(s, l, t);
    }
  }

  lemma {:induction false} RestRun(ss: seq<State>, ls: seq<Label>, i: nat)
    requires Behavior(ss, ls) && i < |ss|
    ensures RestOk(ss[i])
  {
    hide After, Enabled, Core, HandlerOk;
    if i == 0 {
    } else {
      RestRun(ss, ls, i - 1);
      BehaviorInv(ss, ls, i - 1);
      RestStep(ss[i - 1], ls[i - 1]);
    }
  }

  /** However often it is tried, and whatever happens in between, at most one store of a request's audio
      returns. */
  lemma RestOnce(ss: seq<State>, ls: seq<Label>, i: nat, t: TaskId, u: TaskId)
    requires Behavior(ss, ls) && i < |ss| && t in ss[i].results && u in ss[i].results
    requires ss[i].results[t] == ss[i].results[u] == Returned(StoreRest)
    ensures t == u
  {
    RestRun(ss, ls, i);
  }

  // ---------- no write outlives its caller ----------

  /** The task waits for a write whose effect decides what it must do next. */
  predicate Writing(task: Task) {
    match task
    case Op(_, Putting(_, _, call)) => call.effect == InFlight
    case Op(_, Committing(_, _, call)) => call.effect == InFlight
    case Op(_, Finalizing(call)) => call.effect == InFlight
    case Delete(_, Erasing(call)) => call.effect == InFlight
    case _ => false
  }

  lemma WritingStays(s: State, l: Label)
    requires Enabled(s, l) && Subject(l).Some? && Subject(l).value in s.tasks
    requires Writing(s.tasks[Subject(l).value])
    ensures MoveOf(s, l).To? && Holds(MoveOf(s, l).task)
  {
    hide EffectOf, ResumeMove;
  }

  /** However it ends, and also when it is cancelled, a task that waits for a put, a commit, the final
      status or the erasure of the row stays, and keeps the lock, until that has settled. */
  lemma NoWriteLeftBehind(ss: seq<State>, ls: seq<Label>, i: nat, t: TaskId)
    requires Behavior(ss, ls) && i < |ls| && t in ss[i].tasks && Writing(ss[i].tasks[t])
    ensures t in ss[i + 1].tasks && Holds(ss[i + 1].tasks[t])
  {
    hide EffectOf, MoveOf, Enabled, Moved, Background, Writing;
    hide Steady, LocksOk, TablesOk, Accounted, OutcomesOk, HandlerOk;
    BehaviorInv(ss, ls, i);
    if Subject(ls[i]) == Some(t) {
      WritingStays(ss[i], ls[i]);
      MovedOwn(ss[i], EffectOf(ss[i], ls[i]), t, MoveOf(ss[i], ls[i]));
    } else {
      OthersStay(ss[i], ls[i], t);
      WritingHolds(ss[i].tasks[t]);
    }
  }

  lemma WritingHolds(task: Task)
    requires Writing(task)
    ensures Holds(task)
  {
  }

  // ---------- nothing is ruled out ----------

  /** The task waits for an answer of one of the stores. */
  predicate AwaitsStorage(task: Task) {
    match task
    case Op(_, Putting(_, _, call)) => call.effect == InFlight
    case Op(_, Committing(_, _, call)) => call.effect == InFlight
    case Op(_, Finalizing(call)) => call.effect == InFlight
    case Op(_, Reading) => true
    case Op(_, _) => false
    case Delete(_, Erasing(call)) => call.effect == InFlight
    case Delete(_, dpc) => dpc != Queued
  }

  /** Wherever a task waits for a store the call may fail. */
  lemma CallsMayFail(s: State, t: TaskId) returns (l: Label)
    requires t in s.tasks && AwaitsStorage(s.tasks[t])
    ensures Enabled(s, l) && Subject(l) == Some(t) && CallFails(l, t)
  {
    match s.tasks[t] {
      case Op(_, Putting(_, _, _)) => l := PutEffect(t, false);
      case Op(_, Committing(_, _, _)) => l := CommitEffect(t, false);
      case Op(_, Finalizing(_)) => l := FinalizeEffect(t, false);
      case Op(_, Reading) => l := ReadManifest(t, false);
      case Delete(_, ReadingRow) => l := ReadRow(t, false);
      case Delete(_, ReadingSegments) => l := ReadSegments(t, false);
      case Delete(_, Removing(_)) => l := RemoveObjects(t, false);
      case Delete(_, Erasing(_)) => l := EraseEffect(t, false);
    }
  }

  /** And wherever it waits, for a store or for the lock, it may be cancelled unless the handler shields
      it; it then ends there, or once the write in flight has settled. */
  lemma MayBeCancelled(s: State, t: TaskId)
    requires t in s.tasks && s.handler != Cleaning(t)
    requires AwaitsStorage(s.tasks[t]) || !Holds(s.tasks[t])
    ensures Enabled(s, Cancel(t))
    ensures var s' := After(s, Cancel(t));
            if Writing(s.tasks[t]) then t in s'.tasks && CancelPending(s'.tasks[t])
            else t !in s'.tasks && t in s'.results && s'.results[t] == Raised(Cancelled)
  {
  }

  /** Any operation may be called while the session is registered, by whomever. */
  lemma MayBeCalled(s: State, k: Kind)
    requires s.registered && k != FailUnflushed
    ensures Enabled(s, SpawnOp(k))
    ensures After(s, SpawnOp(k)) == s.(tasks := s.tasks[s.nextTask := Op(k, Waiting)], nextTask := s.nextTask + 1)
  {
  }

  /** Once nothing refers to the indexed lock it may be forgotten, and the next delete gets a new one. */
  lemma IndexForgotten(s: State)
    requires s.index.Some? && !Referenced(s, s.index.value)
    ensures Enabled(s, Forget)
    ensures var q := After(s, Forget);
            Enabled(q, SpawnDelete) && After(q, SpawnDelete).index == Some(s.nextLock)
            && After(q, SpawnDelete).tasks == s.tasks[s.nextTask := Delete(s.nextLock, Queued)]
  {
  }
}

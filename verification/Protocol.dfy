/**
 One stored session as seen by every asyncio task that touches it: the object store, the metadata row, the
 runtime and lock index of the service, the tasks between two awaits, and the request handler that
 owns the session. Each await is a step boundary. Storage calls succeed or fail at will, a call that
 is awaited may be cancelled, and objects handed to a delete may disappear at any later time.
 */
module Protocol {
  import opened Bytes

  type TaskId = nat
  type LockId = nat
  type Key = nat

  datatype Status = Pending | Completed | Failed

  datatype Row = Row(status: Status, keys: set<Key>, segmentCount: nat)

  /** What an operation is for; `FailUnflushed` is a `fail` whose own flush has failed. */
  datatype Kind = StoreRest | StoreChunk | FlushAudio | Complete | Fail | FailUnflushed

  /** What an awaited storage call has done so far. */
  datatype Effect = InFlight | Done | NoEffect

  /** An awaited storage call, and whether its waiter has been cancelled meanwhile. */
  datatype Call = Call(effect: Effect, cancelled: bool)

  datatype OpPc =
    | Waiting                                                  // for the runtime lock
    | Next(todo: nat)                                          // segments left to persist
    | Putting(key: Key, todo: nat, call: Call)
    | Committing(key: Key, todo: nat, call: Call)
    | Compensating(key: Key, cancelled: bool)
    | Finalizing(call: Call)
    | Reading                                                  // the manifest, lock released

  datatype DeletePc =
    | Queued                                                   // for the indexed lock
    | ReadingRow
    | ReadingSegments
    | Removing(keys: set<Key>)
    | Erasing(call: Call)

  datatype Task = Op(kind: Kind, pc: OpPc) | Delete(lock: LockId, dpc: DeletePc)

  datatype Cause = Rejected | StorageFailure | Cancelled

  datatype Outcome = Returned(kind: Kind) | DeleteReturned(deleted: bool) | Raised(cause: Cause)

  datatype Handler =
    | Serving
    | Calling(task: TaskId, kind: Kind)
    | Aborting
    | Cleaning(task: TaskId)
    | Exited(cleanup: Option<Outcome>)

  datatype State = State(
    objects: set<Key>,
    row: Option<Row>,
    closed: bool,              // runtime.closed
    registered: bool,          // the runtime is in the service's table
    restWritten: bool,
    index: Option<LockId>,     // the weak lock index
    locked: map<LockId, TaskId>,
    tasks: map<TaskId, Task>,
    results: map<TaskId, Outcome>,
    handler: Handler,
    completed: bool,           // the handler's own flag
    doomed: set<Key>,          // handed to some delete's object removal
    leaked: set<Key>,          // whose compensation failed
    nextKey: Key,
    nextLock: LockId,
    nextTask: TaskId)

  const STARTED := Call(InFlight, false)

  const RUNTIME_LOCK: LockId := 0

  /** The session as `start_rest` or `start_ws` leaves it. */
  function Initial(): State {
    State({}, Some(Row(Pending, {}, 0)), false, true, false, Some(RUNTIME_LOCK), map[], map[], map[],
          Serving, false, {}, {}, 0, 1, 0)
  }

  function LockOf(t: Task): LockId {
    match t
    case Op(_, _) => RUNTIME_LOCK
    case Delete(l, _) => l
  }

  predicate Holds(t: Task) {
    match t
    case Op(_, pc) => !pc.Waiting? && !pc.Reading?
    case Delete(_, dpc) => !dpc.Queued?
  }

  /** An operation past its check that the runtime is open. */
  predicate Active(t: Task) {
    t.Op? && Holds(t)
  }

  predicate Referenced(s: State, l: LockId) {
    (s.registered && l == RUNTIME_LOCK) || exists t :: t in s.tasks && LockOf(s.tasks[t]) == l
  }

  // ---------- steps ----------

  datatype Label =
    | SpawnOp(kind: Kind)
    | SpawnDelete
    | HandlerCall(kind: Kind)
    | HandlerReturn(complete: bool)
    | HandlerAbort
    | HandlerExit
    | HandlerClean
    | Acquire(t: TaskId, accepted: bool, todo: nat)
    | StartPut(t: TaskId)
    | PutEffect(t: TaskId, ok: bool)
    | CommitEffect(t: TaskId, ok: bool)
    | Compensate(t: TaskId, ok: bool)
    | Finish(t: TaskId)
    | StartFinalize(t: TaskId)
    | FinalizeEffect(t: TaskId, ok: bool)
    | Resume(t: TaskId)
    | ReadManifest(t: TaskId, ok: bool)
    | ReadRow(t: TaskId, ok: bool)
    | ReadSegments(t: TaskId, ok: bool)
    | RemoveObjects(t: TaskId, ok: bool)
    | EraseEffect(t: TaskId, ok: bool)
    | Cancel(t: TaskId)
    | Vanish(key: Key)
    | Forget

  /** What a step does to the operation that takes it. */
  datatype Move = To(task: Task) | Out(outcome: Outcome)

  predicate HoldsAfter(m: Move) {
    m.To? && Holds(m.task)
  }

  /** Take a move: the lock is taken or released as the operation enters or leaves its `async with`. */
  function Moved(s: State, t: TaskId, m: Move): (q: State)
    requires t in s.tasks
    ensures q == s.(tasks := q.tasks, results := q.results, locked := q.locked)
  {
    var l := LockOf(s.tasks[t]);
    s.(tasks := if m.To? then s.tasks[t := m.task] else s.tasks - {t},
       results := if m.Out? then s.results[t := m.outcome] else s.results,
       locked := if HoldsAfter(m) then s.locked[l := t]
                 else if Holds(s.tasks[t]) then s.locked - {l} else s.locked)
  }

  /** A persist step raised: `fail` goes on to record the failure, the others propagate it. */
  function PersistRaised(k: Kind, cancelled: bool): Move {
    if cancelled then Out(Raised(Cancelled))
    else if k == Fail then To(Op(FailUnflushed, Next(0)))
    else Out(Raised(StorageFailure))
  }

  predicate Finalizes(k: Kind) {
    k == Complete || k == Fail || k == FailUnflushed
  }

  /** How many segments each operation may have to persist. */
  predicate Allows(k: Kind, todo: nat) {
    match k
    case StoreRest => todo == 1
    case StoreChunk => true
    case _ => todo <= 1
  }

  predicate IsOp(s: State, t: TaskId) {
    t in s.tasks && s.tasks[t].Op?
  }

  predicate IsDelete(s: State, t: TaskId) {
    t in s.tasks && s.tasks[t].Delete?
  }

  function RowKeys(s: State): set<Key> {
    if s.row.Some? then s.row.value.keys else {}
  }

  predicate RowPending(s: State) {
    s.row.Some? && s.row.value.status == Pending
  }

  predicate Enabled(s: State, l: Label) {
    match l
    case SpawnOp(k) => s.registered && k != FailUnflushed
    case SpawnDelete => true
    case HandlerCall(k) => s.handler == Serving && s.registered && k != FailUnflushed
    case HandlerReturn(_) => s.handler.Calling? && s.handler.task in s.results
    case HandlerAbort => s.handler == Serving
    case HandlerExit => s.handler == Aborting
    case HandlerClean => s.handler.Cleaning? && s.handler.task in s.results
    case Acquire(t, accepted, todo) =>
      && t in s.tasks && LockOf(s.tasks[t]) !in s.locked
      && (match s.tasks[t]
          case Op(k, pc) =>
            && pc == Waiting
            && (accepted ==> !s.closed && Allows(k, todo) && !(k == StoreRest && s.restWritten))
          case Delete(_, dpc) => dpc == Queued)
    case StartPut(t) => IsOp(s, t) && s.tasks[t].pc.Next? && s.tasks[t].pc.todo > 0
    case PutEffect(t, _) => IsOp(s, t) && s.tasks[t].pc.Putting? && s.tasks[t].pc.call.effect == InFlight
    case CommitEffect(t, ok) =>
      && IsOp(s, t) && s.tasks[t].pc.Committing? && s.tasks[t].pc.call.effect == InFlight
      && (ok ==> RowPending(s))
    case Compensate(t, _) => IsOp(s, t) && s.tasks[t].pc.Compensating?
    case Finish(t) => IsOp(s, t) && s.tasks[t].pc == Next(0) && !Finalizes(s.tasks[t].kind)
    case StartFinalize(t) => IsOp(s, t) && s.tasks[t].pc == Next(0) && Finalizes(s.tasks[t].kind)
    case FinalizeEffect(t, ok) =>
      && IsOp(s, t) && s.tasks[t].pc.Finalizing? && s.tasks[t].pc.call.effect == InFlight
      && (ok ==> RowPending(s) && Finalizes(s.tasks[t].kind))
    case Resume(t) =>
      && t in s.tasks
      && (match s.tasks[t]
          case Op(_, pc) => (pc.Putting? || pc.Committing? || pc.Finalizing?) && pc.call.effect != InFlight
          case Delete(_, dpc) => dpc.Erasing? && dpc.call.effect != InFlight)
    case ReadManifest(t, ok) =>                              // which then reports a failed flush
      IsOp(s, t) && s.tasks[t].pc == Reading && (ok ==> s.tasks[t].kind != FailUnflushed)
    case ReadRow(t, _) => IsDelete(s, t) && s.tasks[t].dpc == ReadingRow
    case ReadSegments(t, _) => IsDelete(s, t) && s.tasks[t].dpc == ReadingSegments
    case RemoveObjects(t, _) => IsDelete(s, t) && s.tasks[t].dpc.Removing?
    case EraseEffect(t, _) => IsDelete(s, t) && s.tasks[t].dpc.Erasing? && s.tasks[t].dpc.call.effect == InFlight
    case Cancel(t) =>
      && t in s.tasks
      && !(s.handler == Cleaning(t))                          // shielded by the handler
      && !(s.tasks[t].Op? && (s.tasks[t].pc.Next? || s.tasks[t].pc.Compensating?))
    case Vanish(k) => k in s.doomed
    case Forget => s.index.Some? && !Referenced(s, s.index.value)
  }

  function SpawnedOp(s: State, k: Kind): (q: State)
    ensures q == s.(tasks := q.tasks, nextTask := s.nextTask + 1)
  {
    s.(tasks := s.tasks[s.nextTask := Op(k, Waiting)], nextTask := s.nextTask + 1)
  }

  /** `setdefault` on the weak index: the indexed lock, or a new one that is indexed now. */
  function SpawnedDelete(s: State): (q: State)
    ensures q == s.(tasks := q.tasks, nextTask := s.nextTask + 1, index := q.index, nextLock := q.nextLock)
  {
    var l := if s.index.Some? then s.index.value else s.nextLock;
    s.(tasks := s.tasks[s.nextTask := Delete(l, Queued)], nextTask := s.nextTask + 1,
       index := Some(l), nextLock := if s.index.Some? then s.nextLock else s.nextLock + 1)
  }

  function Settled(c: Call, ok: bool): Call {
    c.(effect := if ok then Done else NoEffect)
  }

  /** The task whose step it is. */
  function Subject(l: Label): Option<TaskId> {
    match l
    case Acquire(t, _, _) => Some(t)
    case StartPut(t) => Some(t)
    case PutEffect(t, _) => Some(t)
    case CommitEffect(t, _) => Some(t)
    case Compensate(t, _) => Some(t)
    case Finish(t) => Some(t)
    case StartFinalize(t) => Some(t)
    case FinalizeEffect(t, _) => Some(t)
    case Resume(t) => Some(t)
    case ReadManifest(t, _) => Some(t)
    case ReadRow(t, _) => Some(t)
    case ReadSegments(t, _) => Some(t)
    case RemoveObjects(t, _) => Some(t)
    case EraseEffect(t, _) => Some(t)
    case Cancel(t) => Some(t)
    case _ => None
  }

  /** Control resumes after an awaited call has had its effect. */
  function ResumeMove(task: Task): Move {
    match task
    case Op(k, Putting(key, todo, Call(effect, cancelled))) =>
      if effect == NoEffect then PersistRaised(k, cancelled)
      else if cancelled then To(Op(k, Compensating(key, true)))
      else To(Op(k, Committing(key, todo, STARTED)))
    case Op(k, Committing(key, todo, Call(effect, cancelled))) =>
      if effect == NoEffect then To(Op(k, Compensating(key, cancelled)))
      else if cancelled then Out(Raised(Cancelled))
      else To(Op(k, Next(todo)))
    case Op(k, Finalizing(Call(effect, cancelled))) =>
      if cancelled then Out(Raised(Cancelled))
      else if effect == NoEffect then Out(Raised(StorageFailure))
      else To(Op(k, Reading))
    case Delete(_, Erasing(Call(effect, cancelled))) =>
      if cancelled then Out(Raised(Cancelled))
      else if effect == NoEffect then Out(Raised(StorageFailure))
      else Out(DeleteReturned(true))
    case _ => To(task)
  }

  /** Storage calls whose effect must be known before an operation can leave are joined first. */
  function CancelMove(task: Task): Move {
    match task
    case Op(k, Putting(key, todo, call)) => To(Op(k, Putting(key, todo, call.(cancelled := true))))
    case Op(k, Committing(key, todo, call)) => To(Op(k, Committing(key, todo, call.(cancelled := true))))
    case Op(k, Finalizing(call)) => To(Op(k, Finalizing(call.(cancelled := true))))
    case Delete(l, Erasing(call)) => To(Delete(l, Erasing(call.(cancelled := true))))
    case _ => Out(Raised(Cancelled))
  }

  function MoveOf(s: State, l: Label): Move
    requires Enabled(s, l) && Subject(l).Some?
  {
    var task := s.tasks[Subject(l).value];
    match l
    case Acquire(_, accepted, todo) =>
      (match task
       case Op(k, _) => if accepted then To(Op(k, Next(todo))) else Out(Raised(Rejected))
       case Delete(lock, _) => To(Delete(lock, ReadingRow)))
    case StartPut(_) => To(Op(task.kind, Putting(s.nextKey, task.pc.todo - 1, STARTED)))
    case PutEffect(_, ok) => To(Op(task.kind, Putting(task.pc.key, task.pc.todo, Settled(task.pc.call, ok))))
    case CommitEffect(_, ok) => To(Op(task.kind, Committing(task.pc.key, task.pc.todo, Settled(task.pc.call, ok))))
    case Compensate(_, _) => PersistRaised(task.kind, task.pc.cancelled)
    case Finish(_) => Out(Returned(task.kind))
    case StartFinalize(_) => To(Op(task.kind, Finalizing(STARTED)))
    case FinalizeEffect(_, ok) => To(Op(task.kind, Finalizing(Settled(task.pc.call, ok))))
    case ReadManifest(_, ok) => Out(if ok then Returned(task.kind) else Raised(StorageFailure))
    case ReadRow(_, ok) =>
      if !ok then Out(Raised(StorageFailure))
      else if s.row == None then Out(DeleteReturned(false))
      else To(Delete(task.lock, ReadingSegments))
    case ReadSegments(_, ok) =>
      if !ok then Out(Raised(StorageFailure))
      else if RowKeys(s) == {} then To(Delete(task.lock, Erasing(STARTED)))
      else To(Delete(task.lock, Removing(RowKeys(s))))
    case RemoveObjects(_, ok) =>
      if !ok then Out(Raised(StorageFailure)) else To(Delete(task.lock, Erasing(STARTED)))
    case EraseEffect(_, ok) => To(Delete(task.lock, Erasing(Settled(task.dpc.call, ok))))
    case Resume(_) => ResumeMove(task)
    case Cancel(_) => CancelMove(task)
  }

  /** What a persist step does to the objects. */
  function ObjectEffect(s: State, l: Label): (q: State)
    requires Enabled(s, l) && (l.StartPut? || l.PutEffect? || l.Compensate?)
    ensures q == s.(objects := q.objects, leaked := q.leaked, nextKey := q.nextKey)
  {
    var task := s.tasks[l.t];
    if l.StartPut? then s.(nextKey := s.nextKey + 1)
    else if l.PutEffect? then if l.ok then s.(objects := s.objects + {task.pc.key}) else s
    else if l.ok then s.(objects := s.objects - {task.pc.key})
    else s.(leaked := s.leaked + {task.pc.key})
  }

  /** What an operation's step does to the row, and to the runtime's own flags. */
  function RowEffect(s: State, l: Label): (q: State)
    requires Enabled(s, l) && (l.CommitEffect? || l.Finish? || l.FinalizeEffect?)
    ensures q == s.(row := q.row, restWritten := q.restWritten)
  {
    var task := s.tasks[l.t];
    if l.Finish? then s.(restWritten := s.restWritten || task.kind == StoreRest)
    else if !l.ok then s
    else if l.CommitEffect? then
      var r := s.row.value;
      s.(row := Some(Row(r.status, r.keys + {task.pc.key}, r.segmentCount + 1)))
    else s.(row := Some(s.row.value.(status := if task.kind == Complete then Completed else Failed)))
  }

  /** What an operation's step does to the stores and the service's own tables. */
  function OperationEffect(s: State, l: Label): (q: State)
    requires Enabled(s, l) && Subject(l).Some?
    ensures q.tasks == s.tasks && q.results == s.results && q.locked == s.locked && q.nextTask == s.nextTask
    ensures q.handler == s.handler && q.completed == s.completed
  {
    if l.StartPut? || l.PutEffect? || l.Compensate? then ObjectEffect(s, l)
    else if l.CommitEffect? || l.Finish? || l.FinalizeEffect? then RowEffect(s, l)
    else s
  }

  function EffectOf(s: State, l: Label): (q: State)
    requires Enabled(s, l) && Subject(l).Some?
    ensures q.tasks == s.tasks && q.results == s.results && q.locked == s.locked && q.nextTask == s.nextTask
    ensures q.handler == s.handler && q.completed == s.completed
  {
    var task := s.tasks[Subject(l).value];
    if l.ReadSegments? && l.ok then s.(closed := s.closed || s.registered, doomed := s.doomed + RowKeys(s))
    else if l.RemoveObjects? && l.ok then s.(objects := s.objects - task.dpc.keys)
    else if l.EraseEffect? && l.ok then s.(row := None)
    else if l.Resume? then
      if ResumeMove(task) == Out(DeleteReturned(true)) then s.(registered := false, index := None)
      else if task.Op? && task.pc.Finalizing? && ResumeMove(task).To? then s.(closed := true, registered := false)
      else s
    else OperationEffect(s, l)
  }

  /** Whether a step may have added one task, and left the others and all results alone. */
  predicate AtMostSpawns(s: State, q: State) {
    && q.results == s.results
    && (|| (q.tasks == s.tasks && q.nextTask == s.nextTask)
        || (q.tasks == s.tasks[s.nextTask := SpawnIn(q, s.nextTask)] && q.nextTask == s.nextTask + 1))
  }

  function SpawnIn(q: State, t: TaskId): Task {
    if t in q.tasks then q.tasks[t] else Delete(RUNTIME_LOCK, Queued)
  }

  /** New tasks, the handler's own control flow, late object loss and index clean-up: none of them
      changes the tables, beyond losing an object, or any task that is there. */
  function Background(s: State, l: Label): (q: State)
    requires Enabled(s, l) && Subject(l).None?
    ensures q.row == s.row && q.closed == s.closed && q.doomed == s.doomed && q.leaked == s.leaked
    ensures q.objects <= s.objects
    ensures AtMostSpawns(s, q)
  {
    match l
    case SpawnOp(k) => SpawnedOp(s, k)
    case SpawnDelete => SpawnedDelete(s)
    case HandlerCall(k) => SpawnedOp(s, k).(handler := Calling(s.nextTask, k))
    case HandlerReturn(complete) =>
      if s.results[s.handler.task] == Returned(s.handler.kind) then
        s.(handler := Serving, completed := s.completed || (complete && s.handler.kind == Complete))
      else s.(handler := Aborting)
    case HandlerAbort => s.(handler := Aborting)
    case HandlerExit =>
      if s.completed then s.(handler := Exited(None))
      else SpawnedDelete(s).(handler := Cleaning(s.nextTask))
    case HandlerClean => s.(handler := Exited(Some(s.results[s.handler.task])))
    case Vanish(k) => s.(objects := s.objects - {k})
    case Forget => s.(index := None)
  }

  function After(s: State, l: Label): State
    requires Enabled(s, l)
  {
    if Subject(l).Some? then Moved(EffectOf(s, l), Subject(l).value, MoveOf(s, l)) else Background(s, l)
  }
}

/**
 That the protocol can do what it is for: a session with any number of segments can be stored and
 completed, and one that is given up can be deleted without a trace.
 */
module ProtocolWitness {
  import opened Bytes
  import opened Protocol
  import opened ProtocolSafety
  import opened ProtocolTheorems

  // ---------- runs by their labels ----------

  /** These steps are possible in turn, and lead from s to s'. */
  ghost predicate Leads(s: State, ls: seq<Label>, s': State) {
    if ls == [] then s' == s
    else
      var n := |ls| - 1;
      exists q :: Leads(s, ls[..n], q) && Enabled(q, ls[n]) && s' == After(q, ls[n])
  }

  lemma LeadsNowhere(s: State)
    ensures Leads(s, [], s)
  {
  }

  lemma LeadsOn(s: State, ls: seq<Label>, q: State, l: Label)
    requires Leads(s, ls, q) && Enabled(q, l)
    ensures Leads(s, ls + [l], After(q, l))
  {
    hide Enabled, After;
    assert (ls + [l])[..|ls|] == ls;
  }

  /** Such steps from the initial state are a run. */
  lemma {:induction false} LeadsBehaves(ls: seq<Label>, s: State) returns (ss: seq<State>)
    requires Leads(Initial(), ls, s)
    ensures Behavior(ss, ls) && ss[|ls|] == s
  {
    hide Enabled, After;
    if ls == [] {
      ss := [Initial()];
    } else {
      var n := |ls| - 1;
      var q :| Leads(Initial(), ls[..n], q) && Enabled(q, ls[n]) && s == After(q, ls[n]);
      var init := LeadsBehaves(ls[..n], q);
      ss := init + [s];
    }
  }

  // ---------- one segment ----------

  /** Task t is an operation inside the runtime lock. */
  predicate Inside(s: State, t: TaskId, k: Kind, pc: OpPc) {
    && t in s.tasks && s.tasks[t] == Op(k, pc)
    && RUNTIME_LOCK in s.locked && s.locked[RUNTIME_LOCK] == t
  }

  function Turned(s: State, t: TaskId, k: Kind, pc: OpPc): State {
    s.(tasks := s.tasks[t := Op(k, pc)])
  }

  function Stored(s: State, t: TaskId, k: Kind, todo: nat): State
    requires s.row.Some?
  {
    var r := s.row.value;
    Turned(s, t, k, Next(todo)).(
      objects := s.objects + {s.nextKey},
      row := Some(Row(r.status, r.keys + {s.nextKey}, r.segmentCount + 1)),
      nextKey := s.nextKey + 1)
  }

  lemma Starts(s: State, t: TaskId, k: Kind, todo: nat)
    requires Inside(s, t, k, Next(todo + 1))
    ensures Enabled(s, StartPut(t))
    ensures After(s, StartPut(t)) == Turned(s, t, k, Putting(s.nextKey, todo, STARTED)).(nextKey := s.nextKey + 1)
  {
    assert s.locked[RUNTIME_LOCK := t] == s.locked;
  }

  lemma Puts(s: State, t: TaskId, k: Kind, key: Key, todo: nat)
    requires Inside(s, t, k, Putting(key, todo, STARTED))
    ensures Enabled(s, PutEffect(t, true))
    ensures After(s, PutEffect(t, true)) ==
              Turned(s, t, k, Putting(key, todo, Call(Done, false))).(objects := s.objects + {key})
  {
    assert s.locked[RUNTIME_LOCK := t] == s.locked;
  }

  lemma Commits(s: State, t: TaskId, k: Kind, key: Key, todo: nat)
    requires Inside(s, t, k, Committing(key, todo, STARTED)) && RowPending(s)
    ensures Enabled(s, CommitEffect(t, true))
    ensures var r := s.row.value;
            After(s, CommitEffect(t, true)) ==
              Turned(s, t, k, Committing(key, todo, Call(Done, false))).(
                row := Some(Row(r.status, r.keys + {key}, r.segmentCount + 1)))
  {
    assert s.locked[RUNTIME_LOCK := t] == s.locked;
  }

  lemma GoesOn(s: State, t: TaskId, k: Kind, key: Key, todo: nat)
    requires t in s.tasks && s.tasks[t].Op?
    requires var pc := s.tasks[t].pc;
             (pc == Putting(key, todo, Call(Done, false)) || pc == Committing(key, todo, Call(Done, false)))
             && Inside(s, t, k, pc)
    ensures Enabled(s, Resume(t))
    ensures After(s, Resume(t)) ==
              Turned(s, t, k, if s.tasks[t].pc.Putting? then Committing(key, todo, STARTED) else Next(todo))
  {
    assert s.locked[RUNTIME_LOCK := t] == s.locked;
  }

  lemma TurnedTwice(s: State, t: TaskId, k: Kind, a: OpPc, b: OpPc)
    ensures Turned(Turned(s, t, k, a), t, k, b) == Turned(s, t, k, b)
  {
    assert s.tasks[t := Op(k, a)][t := Op(k, b)] == s.tasks[t := Op(k, b)];
  }

  /** An operation inside the lock can store its next segment, put and commit both succeeding. */
  lemma StoreOne(base: State, ls: seq<Label>, s: State, t: TaskId, k: Kind, todo: nat) returns (more: seq<Label>)
    requires Leads(base, ls, s) && Inside(s, t, k, Next(todo + 1)) && RowPending(s)
    ensures Leads(base, more, Stored(s, t, k, todo))
    ensures Inside(Stored(s, t, k, todo), t, k, Next(todo)) && RowPending(Stored(s, t, k, todo))
  {
    hide After, Enabled, Leads;
    var key := s.nextKey;
    Starts(s, t, k, todo);
    LeadsOn(base, ls, s, StartPut(t));
    var s1 := After(s, StartPut(t));
    Puts(s1, t, k, key, todo);
    LeadsOn(base, ls + [StartPut(t)], s1, PutEffect(t, true));
    var s2 := After(s1, PutEffect(t, true));
    GoesOn(s2, t, k, key, todo);
    LeadsOn(base, ls + [StartPut(t)] + [PutEffect(t, true)], s2, Resume(t));
    var s3 := After(s2, Resume(t));
    Commits(s3, t, k, key, todo);
    LeadsOn(base, ls + [StartPut(t)] + [PutEffect(t, true)] + [Resume(t)], s3, CommitEffect(t, true));
    var s4 := After(s3, CommitEffect(t, true));
    GoesOn(s4, t, k, key, todo);
    LeadsOn(base, ls + [StartPut(t)] + [PutEffect(t, true)] + [Resume(t)] + [CommitEffect(t, true)], s4, Resume(t));
    more := ls + [StartPut(t)] + [PutEffect(t, true)] + [Resume(t)] + [CommitEffect(t, true)] + [Resume(t)];
    assert After(s4, Resume(t)).tasks == Stored(s, t, k, todo).tasks;
  }

  lemma {:induction false} StoreAll(base: State, ls: seq<Label>, s: State, t: TaskId, k: Kind, todo: nat)
    returns (more: seq<Label>, q: State)
    requires Leads(base, ls, s) && Inside(s, t, k, Next(todo)) && RowPending(s) && s.objects == RowKeys(s)
    ensures Leads(base, more, q) && Inside(q, t, k, Next(0))
    ensures q == Turned(s, t, k, Next(0)).(objects := q.objects, row := q.row, nextKey := q.nextKey)
    ensures q.row == Some(Row(Pending, q.objects, s.row.value.segmentCount + todo))
    decreases todo
  {
    hide Leads, Inside, Stored;
    if todo == 0 {
      more, q := ls, s;
      SameTask(s, t, k, 0);
    } else {
      more := StoreOne(base, ls, s, t, k, todo - 1);
      var s' := Stored(s, t, k, todo - 1);
      StoredFacts(s, t, k, todo - 1);
      more, q := StoreAll(base, more, s', t, k, todo - 1);
      TurnedTwice(s, t, k, Next(todo - 1), Next(0));
    }
  }

  lemma SameTask(s: State, t: TaskId, k: Kind, todo: nat)
    requires Inside(s, t, k, Next(todo))
    ensures Turned(s, t, k, Next(todo)) == s
  {
    assert s.tasks[t := Op(k, Next(todo))] == s.tasks;
  }

  lemma StoredFacts(s: State, t: TaskId, k: Kind, todo: nat)
    requires RowPending(s) && s.objects == RowKeys(s)
    ensures var q := Stored(s, t, k, todo);
            && q == Turned(s, t, k, Next(todo)).(objects := q.objects, row := q.row, nextKey := q.nextKey)
            && q.objects == RowKeys(q) && q.row.Some? && q.row.value.segmentCount == s.row.value.segmentCount + 1
  {
  }

  // ---------- whole sessions ----------

  /** A session whose handler is between two messages, nothing of it running. */
  ghost predicate Quiet(s: State, segments: nat) {
    && s.tasks == map[] && s.locked == map[] && s.handler == Serving && s.registered && !s.closed && !s.completed
    && s.row == Some(Row(Pending, s.objects, segments)) && s.index == Some(RUNTIME_LOCK)
    && s.nextTask !in s.results
  }

  lemma CallsStorage(s: State, k: Kind, segments: nat)
    requires Quiet(s, segments) && (k == StoreChunk || k == Complete)
    ensures Enabled(s, HandlerCall(k))
    ensures After(s, HandlerCall(k)) ==
              s.(tasks := map[s.nextTask := Op(k, Waiting)], handler := Calling(s.nextTask, k),
                 nextTask := s.nextTask + 1)
  {
    assert s.tasks[s.nextTask := Op(k, Waiting)] == map[s.nextTask := Op(k, Waiting)];
  }

  lemma GetsLock(s: State, t: TaskId, k: Kind, todo: nat)
    requires s.tasks == map[t := Op(k, Waiting)] && s.locked == map[] && !s.closed
    requires Allows(k, todo) && (k == StoreChunk || k == Complete)
    ensures Enabled(s, Acquire(t, true, todo))
    ensures After(s, Acquire(t, true, todo)) ==
              s.(tasks := map[t := Op(k, Next(todo))], locked := map[RUNTIME_LOCK := t])
  {
    assert s.tasks[t := Op(k, Next(todo))] == map[t := Op(k, Next(todo))];
    assert s.locked[RUNTIME_LOCK := t] == map[RUNTIME_LOCK := t];
  }

  /** The handler's storage call gets the lock. */
  lemma Calls(base: State, ls: seq<Label>, s: State, k: Kind, segments: nat, todo: nat)
    returns (more: seq<Label>, q: State)
    requires Leads(base, ls, s) && Quiet(s, segments) && Allows(k, todo) && (k == StoreChunk || k == Complete)
    ensures Leads(base, more, q) && Inside(q, s.nextTask, k, Next(todo))
    ensures q == s.(tasks := map[s.nextTask := Op(k, Next(todo))], locked := map[RUNTIME_LOCK := s.nextTask],
                    handler := Calling(s.nextTask, k), nextTask := s.nextTask + 1)
  {
    hide Leads, Enabled, After;
    var t := s.nextTask;
    CallsStorage(s, k, segments);
    LeadsOn(base, ls, s, HandlerCall(k));
    var s1 := After(s, HandlerCall(k));
    GetsLock(s1, t, k, todo);
    LeadsOn(base, ls + [HandlerCall(k)], s1, Acquire(t, true, todo));
    more := ls + [HandlerCall(k)] + [Acquire(t, true, todo)];
    q := After(s1, Acquire(t, true, todo));
  }

  /** A stored chunk is reported back, and the handler goes on. */
  lemma Returns(base: State, ls: seq<Label>, s: State, t: TaskId) returns (more: seq<Label>, q: State)
    requires Leads(base, ls, s) && Inside(s, t, StoreChunk, Next(0)) && s.handler == Calling(t, StoreChunk)
    ensures Leads(base, more, q)
    ensures q == s.(tasks := s.tasks - {t}, locked := s.locked - {RUNTIME_LOCK}, handler := Serving,
                    results := s.results[t := Returned(StoreChunk)])
  {
    hide Leads;
    LeadsOn(base, ls, s, Finish(t));
    var s1 := After(s, Finish(t));
    assert s1 == s.(tasks := s.tasks - {t}, locked := s.locked - {RUNTIME_LOCK},
                    results := s.results[t := Returned(StoreChunk)]);
    LeadsOn(base, ls + [Finish(t)], s1, HandlerReturn(false));
    more := ls + [Finish(t)] + [HandlerReturn(false)];
    q := After(s1, HandlerReturn(false));
  }

  /** Any number of segments can be stored in one call. */
  lemma StoresAny(n: nat) returns (ls: seq<Label>, s: State)
    ensures Leads(Initial(), ls, s) && Quiet(s, n) && s.doomed == s.leaked == {}
  {
    hide Leads;
    LeadsNowhere(Initial());
    var s1, s2;
    ls, s1 := Calls(Initial(), [], Initial(), StoreChunk, 0, n);
    ls, s2 := StoreAll(Initial(), ls, s1, 0, StoreChunk, n);
    ls, s := Returns(Initial(), ls, s2, 0);
    assert s.tasks == map[] && s.locked == map[];
  }

  lemma StartsFinal(s: State, t: TaskId)
    requires Inside(s, t, Complete, Next(0))
    ensures Enabled(s, StartFinalize(t)) && After(s, StartFinalize(t)) == Turned(s, t, Complete, Finalizing(STARTED))
  {
    assert s.locked[RUNTIME_LOCK := t] == s.locked;
  }

  /** The row is finalized and the runtime closed. */
  lemma Finalized(base: State, ls: seq<Label>, s: State, t: TaskId) returns (more: seq<Label>, q: State)
    requires Leads(base, ls, s) && Inside(s, t, Complete, Next(0)) && RowPending(s)
    ensures Leads(base, more, q)
    ensures q == Turned(s, t, Complete, Reading).(row := Some(s.row.value.(status := Completed)), closed := true,
                                                  registered := false, locked := s.locked - {RUNTIME_LOCK})
  {
    hide Leads, Enabled, After;
    StartsFinal(s, t);
    LeadsOn(base, ls, s, StartFinalize(t));
    var s1 := Turned(s, t, Complete, Finalizing(STARTED));
    var s2 := Settles(s1, t);
    LeadsOn(base, ls + [StartFinalize(t)], s1, FinalizeEffect(t, true));
    Closes(s2, t);
    LeadsOn(base, ls + [StartFinalize(t)] + [FinalizeEffect(t, true)], s2, Resume(t));
    more := ls + [StartFinalize(t)] + [FinalizeEffect(t, true)] + [Resume(t)];
    q := After(s2, Resume(t));
    assert q.tasks == s.tasks[t := Op(Complete, Reading)];
  }

  lemma Settles(s: State, t: TaskId) returns (q: State)
    requires Inside(s, t, Complete, Finalizing(STARTED)) && RowPending(s)
    ensures Enabled(s, FinalizeEffect(t, true)) && q == After(s, FinalizeEffect(t, true))
    ensures q == Turned(s, t, Complete, Finalizing(Call(Done, false))).(row := Some(s.row.value.(status := Completed)))
  {
    assert s.locked[RUNTIME_LOCK := t] == s.locked;
    q := After(s, FinalizeEffect(t, true));
  }

  lemma Closes(s: State, t: TaskId)
    requires Inside(s, t, Complete, Finalizing(Call(Done, false)))
    ensures Enabled(s, Resume(t))
    ensures After(s, Resume(t)) ==
              Turned(s, t, Complete, Reading).(closed := true, registered := false, locked := s.locked - {RUNTIME_LOCK})
  {
  }

  lemma ReadsBack(s: State, t: TaskId)
    requires t in s.tasks && s.tasks[t] == Op(Complete, Reading)
    ensures Enabled(s, ReadManifest(t, true))
    ensures After(s, ReadManifest(t, true)) ==
              s.(tasks := s.tasks - {t}, results := s.results[t := Returned(Complete)])
  {
  }

  lemma NotesCompletion(s: State, t: TaskId)
    requires s.handler == Calling(t, Complete) && t in s.results && s.results[t] == Returned(Complete)
    ensures Enabled(s, HandlerReturn(true))
    ensures After(s, HandlerReturn(true)) == s.(handler := Serving, completed := true)
  {
  }

  /** The manifest is read back, the handler notes it, and is done. */
  lemma Leaves(base: State, ls: seq<Label>, s: State, t: TaskId) returns (more: seq<Label>, q: State)
    requires Leads(base, ls, s) && t in s.tasks && s.tasks[t] == Op(Complete, Reading)
    requires s.handler == Calling(t, Complete)
    ensures Leads(base, more, q)
    ensures q == s.(tasks := s.tasks - {t}, results := s.results[t := Returned(Complete)], handler := Exited(None),
                    completed := true)
  {
    hide Leads, EffectOf, MoveOf, Moved;
    ReadsBack(s, t);
    LeadsOn(base, ls, s, ReadManifest(t, true));
    var s1 := s.(tasks := s.tasks - {t}, results := s.results[t := Returned(Complete)]);
    NotesCompletion(s1, t);
    LeadsOn(base, ls + [ReadManifest(t, true)], s1, HandlerReturn(true));
    var s2 := s1.(handler := Serving, completed := true);
    LeadsOn(base, ls + [ReadManifest(t, true)] + [HandlerReturn(true)], s2, HandlerAbort);
    var s3 := s2.(handler := Aborting);
    LeadsOn(base, ls + [ReadManifest(t, true)] + [HandlerReturn(true)] + [HandlerAbort], s3, HandlerExit);
    more := ls + [ReadManifest(t, true)] + [HandlerReturn(true)] + [HandlerAbort] + [HandlerExit];
    q := After(s3, HandlerExit);
  }

  /** A completed session, at rest. */
  ghost predicate AllStored(s: State, segments: nat) {
    && s.tasks == map[] && s.locked == map[] && s.handler == Exited(None) && s.index == Some(RUNTIME_LOCK)
    && s.doomed == {} && s.row == Some(Row(Completed, s.objects, segments))
  }

  lemma CompletesAny(n: nat, last: nat) returns (ls: seq<Label>, s: State)
    requires last <= 1
    ensures Leads(Initial(), ls, s) && AllStored(s, n + last)
  {
    hide Leads, Inside;
    ls, s := StoresAny(n);
    var t := s.nextTask;
    ls, s := Calls(Initial(), ls, s, Complete, n, last);
    ls, s := StoreAll(Initial(), ls, s, t, Complete, last);
    ls, s := Finalized(Initial(), ls, s, t);
    ls, s := Leaves(Initial(), ls, s, t);
    assert s.tasks == map[] && s.locked == map[];
  }

  /** It works: for any number of segments there is a run that stores them all, the last one with the
      `complete` if so wanted, and leaves a completed row and exactly its objects. */
  lemma SessionCompletes(n: nat, last: nat) returns (ss: seq<State>, ls: seq<Label>)
    requires last <= 1
    ensures Behavior(ss, ls)
    ensures var s := ss[|ls|];
            && s.handler == Exited(None)
            && s.row == Some(Row(Completed, s.objects, n + last)) && |s.objects| == n + last
  {
    hide Leads;
    var s;
    ls, s := CompletesAny(n, last);
    ss := LeadsBehaves(ls, s);
    TwoStoreSafety(ss, ls, |ls|, 0);
  }

  lemma QuietFacts(s: State, segments: nat)
    requires Quiet(s, segments)
    ensures RowPending(s) && s.objects == RowKeys(s) && s.row.value.segmentCount == segments
  {
  }

  // ---------- giving up ----------

  /** A delete inside the indexed lock, everything else at rest. */
  ghost predicate Deleting(s: State, t: TaskId, dpc: DeletePc) {
    s.tasks == map[t := Delete(RUNTIME_LOCK, dpc)] && s.locked == map[RUNTIME_LOCK := t]
  }

  function Deleted(s: State, t: TaskId, dpc: DeletePc): State {
    s.(tasks := map[t := Delete(RUNTIME_LOCK, dpc)])
  }

  /** The handler gives up and its clean-up gets the lock. */
  lemma CleansUp(base: State, ls: seq<Label>, s: State, segments: nat) returns (more: seq<Label>, q: State)
    requires Leads(base, ls, s) && Quiet(s, segments)
    ensures Leads(base, more, q) && Deleting(q, s.nextTask, ReadingRow) && q.handler == Cleaning(s.nextTask)
    ensures q.row == s.row && q.objects == s.objects && q.doomed == s.doomed
  {
    hide Leads;
    var t := s.nextTask;
    LeadsOn(base, ls, s, HandlerAbort);
    var s1 := s.(handler := Aborting);
    LeadsOn(base, ls + [HandlerAbort], s1, HandlerExit);
    var s2 := After(s1, HandlerExit);
    assert s2.tasks == map[t := Delete(RUNTIME_LOCK, Queued)];
    LeadsOn(base, ls + [HandlerAbort] + [HandlerExit], s2, Acquire(t, true, 0));
    more := ls + [HandlerAbort] + [HandlerExit] + [Acquire(t, true, 0)];
    q := After(s2, Acquire(t, true, 0));
    assert q.tasks == map[t := Delete(RUNTIME_LOCK, ReadingRow)] && q.locked == map[RUNTIME_LOCK := t];
  }

  lemma FindsRow(s: State, t: TaskId)
    requires Deleting(s, t, ReadingRow) && s.row.Some?
    ensures Enabled(s, ReadRow(t, true)) && After(s, ReadRow(t, true)) == Deleted(s, t, ReadingSegments)
  {
    assert s.locked[RUNTIME_LOCK := t] == s.locked;
  }

  lemma FindsSegments(s: State, t: TaskId)
    requires Deleting(s, t, ReadingSegments) && s.row.Some?
    ensures Enabled(s, ReadSegments(t, true))
    ensures After(s, ReadSegments(t, true)) ==
              Deleted(s, t, if RowKeys(s) == {} then Erasing(STARTED) else Removing(RowKeys(s))).(
                closed := s.closed || s.registered, doomed := s.doomed + RowKeys(s))
  {
    assert s.locked[RUNTIME_LOCK := t] == s.locked;
  }

  /** It reads the row and the segments, and takes the session over. */
  lemma TakesOver(base: State, ls: seq<Label>, s: State, t: TaskId) returns (more: seq<Label>, q: State)
    requires Leads(base, ls, s) && Deleting(s, t, ReadingRow) && s.row.Some?
    ensures Leads(base, more, q) && q.row == s.row && q.objects == s.objects && q.doomed == s.doomed + RowKeys(s)
    ensures q.handler == s.handler
    ensures Deleting(q, t, if RowKeys(s) == {} then Erasing(STARTED) else Removing(RowKeys(s)))
  {
    hide Leads, Enabled, After;
    FindsRow(s, t);
    LeadsOn(base, ls, s, ReadRow(t, true));
    var s1 := Deleted(s, t, ReadingSegments);
    FindsSegments(s1, t);
    LeadsOn(base, ls + [ReadRow(t, true)], s1, ReadSegments(t, true));
    more := ls + [ReadRow(t, true)] + [ReadSegments(t, true)];
    q := After(s1, ReadSegments(t, true));
  }

  lemma Removes(base: State, ls: seq<Label>, s: State, t: TaskId, keys: set<Key>) returns (more: seq<Label>, q: State)
    requires Leads(base, ls, s) && Deleting(s, t, Removing(keys))
    ensures Leads(base, more, q) && Deleting(q, t, Erasing(STARTED))
    ensures q.objects == s.objects - keys && q.doomed == s.doomed && q.handler == s.handler
  {
    hide Leads;
    assert s.locked[RUNTIME_LOCK := t] == s.locked;
    LeadsOn(base, ls, s, RemoveObjects(t, true));
    more := ls + [RemoveObjects(t, true)];
    q := After(s, RemoveObjects(t, true));
    assert q.tasks == map[t := Delete(RUNTIME_LOCK, Erasing(STARTED))];
  }

  lemma ErasesRow(s: State, t: TaskId)
    requires Deleting(s, t, Erasing(STARTED))
    ensures Enabled(s, EraseEffect(t, true))
    ensures After(s, EraseEffect(t, true)) == Deleted(s, t, Erasing(Call(Done, false))).(row := None)
  {
    assert s.locked[RUNTIME_LOCK := t] == s.locked;
  }

  lemma Forgets(s: State, t: TaskId)
    requires Deleting(s, t, Erasing(Call(Done, false)))
    ensures Enabled(s, Resume(t))
    ensures After(s, Resume(t)) ==
              s.(tasks := map[], locked := map[], registered := false, index := None,
                 results := s.results[t := DeleteReturned(true)])
  {
    assert s.tasks - {t} == map[] && s.locked - {RUNTIME_LOCK} == map[];
  }

  /** The row goes last. */
  lemma Erases(base: State, ls: seq<Label>, s: State, t: TaskId) returns (more: seq<Label>, q: State)
    requires Leads(base, ls, s) && Deleting(s, t, Erasing(STARTED))
    ensures Leads(base, more, q) && q.objects == s.objects && q.row == None && q.doomed == s.doomed
    ensures q.handler == s.handler && t in q.results && q.results[t] == DeleteReturned(true)
  {
    hide Leads, Enabled, After;
    ErasesRow(s, t);
    LeadsOn(base, ls, s, EraseEffect(t, true));
    var s1 := Deleted(s, t, Erasing(Call(Done, false))).(row := None);
    Forgets(s1, t);
    LeadsOn(base, ls + [EraseEffect(t, true)], s1, Resume(t));
    more := ls + [EraseEffect(t, true)] + [Resume(t)];
    q := After(s1, Resume(t));
  }

  /** Everything a delete does once it has the lock. */
  lemma DeletesAll(base: State, ls: seq<Label>, s: State, t: TaskId) returns (more: seq<Label>, q: State)
    requires Leads(base, ls, s) && Deleting(s, t, ReadingRow) && s.row.Some? && s.objects == RowKeys(s)
    ensures Leads(base, more, q) && q.objects == {} && q.row == None && q.doomed == s.doomed + s.objects
    ensures q.handler == s.handler && t in q.results && q.results[t] == DeleteReturned(true)
  {
    hide Leads, Deleting;
    more, q := TakesOver(base, ls, s, t);
    if RowKeys(s) != {} { more, q := Removes(base, more, q, t, RowKeys(s)); }
    more, q := Erases(base, more, q, t);
  }

  lemma Cleaned(base: State, ls: seq<Label>, s: State, t: TaskId) returns (more: seq<Label>, q: State)
    requires Leads(base, ls, s) && s.handler == Cleaning(t) && t in s.results
    ensures Leads(base, more, q) && q == s.(handler := Exited(Some(s.results[t])))
  {
    hide Leads;
    LeadsOn(base, ls, s, HandlerClean);
    more := ls + [HandlerClean];
    q := After(s, HandlerClean);
  }

  /** And a session given up after any number of segments can be deleted, with every one of them. */
  lemma SessionDeleted(n: nat) returns (ss: seq<State>, ls: seq<Label>)
    ensures Behavior(ss, ls)
    ensures var s := ss[|ls|];
            s.handler == Exited(Some(DeleteReturned(true))) && s.row == None && s.objects == {} && |s.doomed| == n
  {
    hide Leads, Quiet, Deleting;
    var s;
    ls, s := StoresAny(n);
    var t, keys := s.nextTask, s.objects;
    QuietFacts(s, n);
    var all := LeadsBehaves(ls, s);
    TwoStoreSafety(all, ls, |ls|, 0);
    assert |keys| == n && {} + keys == keys;
    ls, s := CleansUp(Initial(), ls, s, n);
    ls, s := DeletesAll(Initial(), ls, s, t);
    ls, s := Cleaned(Initial(), ls, s, t);
    ss := LeadsBehaves(ls, s);
  }

  /** A completed session can be deleted later just as well. */
  lemma SessionPurged(n: nat, last: nat) returns (ss: seq<State>, ls: seq<Label>)
    requires last <= 1
    ensures Behavior(ss, ls)
    ensures var s := ss[|ls|]; s.handler == Exited(None) && s.row == None && s.objects == {} && |s.doomed| == n + last
  {
    hide Leads, Deleting;
    var s;
    ls, s := CompletesAny(n, last);
    var t, keys := s.nextTask, s.objects;
    var all := LeadsBehaves(ls, s);
    TwoStoreSafety(all, ls, |ls|, 0);
    assert |keys| == n + last && {} + keys == keys;
    ls, s := Purges(Initial(), ls, s, n + last);
    ls, s := DeletesAll(Initial(), ls, s, t);
    ss := LeadsBehaves(ls, s);
  }

  lemma Purges(base: State, ls: seq<Label>, s: State, segments: nat) returns (more: seq<Label>, q: State)
    requires Leads(base, ls, s) && AllStored(s, segments)
    ensures Leads(base, more, q) && Deleting(q, s.nextTask, ReadingRow)
    ensures q.row == s.row && q.objects == s.objects && q.doomed == s.doomed && q.handler == s.handler
  {
    hide Leads;
    var t := s.nextTask;
    LeadsOn(base, ls, s, SpawnDelete);
    var s1 := After(s, SpawnDelete);
    assert s1.tasks == map[t := Delete(RUNTIME_LOCK, Queued)];
    LeadsOn(base, ls + [SpawnDelete], s1, Acquire(t, true, 0));
    more := ls + [SpawnDelete] + [Acquire(t, true, 0)];
    q := After(s1, Acquire(t, true, 0));
    assert q.tasks == map[t := Delete(RUNTIME_LOCK, ReadingRow)] && q.locked == map[RUNTIME_LOCK := t];
  }

  /** A removal that fails part-way loses some object, and the delete says so. */
  lemma RemovesPart(base: State, ls: seq<Label>, s: State, t: TaskId, keys: set<Key>, key: Key)
    returns (more: seq<Label>, q: State)
    requires Leads(base, ls, s) && Deleting(s, t, Removing(keys)) && key in s.doomed
    ensures Leads(base, more, q) && q.row == s.row && q.objects == s.objects - {key}
    ensures t in q.results && q.results[t] == Raised(StorageFailure)
  {
    hide Leads;
    LeadsOn(base, ls, s, RemoveObjects(t, false));
    var s1 := After(s, RemoveObjects(t, false));
    LeadsOn(base, ls + [RemoveObjects(t, false)], s1, Vanish(key));
    more := ls + [RemoveObjects(t, false)] + [Vanish(key)];
    q := After(s1, Vanish(key));
  }

  /** The exception in two-store safety is real: a delete that fails while removing objects leaves a
      completed row that lists an object which is gone. */
  lemma RowWithoutObject() returns (ss: seq<State>, ls: seq<Label>, key: Key)
    ensures Behavior(ss, ls)
    ensures var s := ss[|ls|];
            s.row.Some? && s.row.value.status == Completed && key in RowKeys(s) && key !in s.objects
  {
    hide Leads, Deleting, AllStored;
    var s;
    ls, s := CompletesAny(1, 0);
    var all := LeadsBehaves(ls, s);
    TwoStoreSafety(all, ls, |ls|, 0);
    AllStoredFacts(s, 1);
    key :| key in s.objects;
    var t, row := s.nextTask, s.row;
    ls, s := Purges(Initial(), ls, s, 1);
    ls, s := TakesOver(Initial(), ls, s, t);
    ls, s := RemovesPart(Initial(), ls, s, t, RowKeys(s), key);
    ss := LeadsBehaves(ls, s);
  }

  lemma AllStoredFacts(s: State, segments: nat)
    requires AllStored(s, segments)
    ensures s.row == Some(Row(Completed, s.objects, segments))
  {
  }
}

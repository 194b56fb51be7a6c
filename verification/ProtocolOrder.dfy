/**
 What a row ends up holding. Operations persist the segments they cut one by one under the runtime
 lock, and each persist step takes the next key. Every segment cut is committed, still to be
 persisted by the operation in the lock, or lost in a step that failed or was cancelled; so a
 finalized row holds every segment cut, under keys in cutting order, exactly when no step lost one.
 */
module ProtocolOrder {
  import opened Bytes
  import opened Manifest
  import opened Protocol
  import opened ProtocolSafety
  import opened ProtocolTheorems

  // ---------- the operation in the lock ----------

  /** Where the operation inside the runtime lock is, if one is inside. */
  function InHand(s: State): Option<OpPc> {
    if RUNTIME_LOCK in s.locked && s.locked[RUNTIME_LOCK] in s.tasks && Active(s.tasks[s.locked[RUNTIME_LOCK]])
    then Some(s.tasks[s.locked[RUNTIME_LOCK]].pc) else None
  }

  lemma HolderInHand(s: State, t: TaskId)
    requires LocksOk(s) && t in s.tasks && LockOf(s.tasks[t]) == RUNTIME_LOCK && Holds(s.tasks[t])
    ensures InHand(s) == if s.tasks[t].Op? then Some(s.tasks[t].pc) else None
  {
  }

  lemma MovedInHand(s: State, q: State, t: TaskId, m: Move)
    requires LocksOk(s) && t in s.tasks && q.tasks == s.tasks && q.locked == s.locked
    requires m.To? ==> LockOf(m.task) == LockOf(s.tasks[t])
    requires HoldsAfter(m) && !Holds(s.tasks[t]) ==> LockOf(s.tasks[t]) !in s.locked
    ensures InHand(Moved(q, t, m)) ==
              if LockOf(s.tasks[t]) != RUNTIME_LOCK then InHand(s)
              else if HoldsAfter(m) then if m.task.Op? then Some(m.task.pc) else None
              else if Holds(s.tasks[t]) then None
              else InHand(s)
  {
  }

  // ---------- segments cut, owed and lost ----------

  /** The segments the operation in the lock has yet to commit, if nothing more goes wrong. */
  function Owing(hand: Option<OpPc>): nat {
    match hand
    case Some(Next(todo)) => todo
    case Some(Putting(_, todo, call)) => if call.cancelled || call.effect == NoEffect then 0 else todo + 1
    case Some(Committing(_, todo, call)) =>
      (if call.effect == InFlight then 1 else 0)
      + if call.cancelled || call.effect == NoEffect then 0 else todo
    case _ => 0
  }

  /** Those of them that have no key yet. */
  function Keyless(hand: Option<OpPc>): nat {
    match hand
    case Some(Next(todo)) => todo
    case Some(Putting(_, todo, _)) => todo
    case Some(Committing(_, todo, _)) => todo
    case _ => 0
  }

  /** The segments an operation brings along when it gets the lock. */
  function Cut(s: State, l: Label): nat {
    match l
    case Acquire(t, accepted, todo) => if IsOp(s, t) && accepted then todo else 0
    case _ => 0
  }

  /** The segments given up when a put or a commit fails, or is cancelled: the one in hand, unless it
      is committed or its commit may still come, and all that were to follow. */
  function Loss(s: State, l: Label): nat
    requires Enabled(s, l)
  {
    match l
    case PutEffect(t, ok) =>
      var Putting(_, todo, call) := s.tasks[t].pc;
      if ok || call.cancelled then 0 else todo + 1
    case CommitEffect(t, ok) =>
      var Committing(_, todo, call) := s.tasks[t].pc;
      if ok then 0 else if call.cancelled then 1 else todo + 1
    case Cancel(t) =>
      (match s.tasks[t]
       case Op(_, Putting(_, todo, call)) => if call.cancelled || call.effect == NoEffect then 0 else todo + 1
       case Op(_, Committing(_, todo, call)) => if call.cancelled || call.effect == NoEffect then 0 else todo
       case _ => 0)
    case _ => 0
  }

  /** The books: every segment cut is in the row, owed or lost, and no key went to anything else. */
  ghost predicate Balanced(s: State, cut: nat, lost: nat) {
    && (s.row.Some? ==> s.row.value.segmentCount + Owing(InHand(s)) + lost == cut)
    && s.nextKey + Keyless(InHand(s)) <= cut
  }

  // ---------- steps ----------

  /** Where a task's step leaves it, if that is inside the lock as an operation. */
  function HandAfter(m: Move): Option<OpPc> {
    if HoldsAfter(m) && m.task.Op? then Some(m.task.pc) else None
  }

  /** The move of a step takes or leaves the lock as `Moved` expects. */
  lemma MoveLocks(s: State, l: Label)
    requires Enabled(s, l) && Subject(l).Some?
    ensures var t, m := Subject(l).value, MoveOf(s, l);
            && t in s.tasks
            && (m.To? ==> LockOf(m.task) == LockOf(s.tasks[t]))
            && (HoldsAfter(m) && !Holds(s.tasks[t]) ==> LockOf(s.tasks[t]) !in s.locked)
  {
    hide EffectOf;
  }

  lemma AfterInHand(s: State, l: Label)
    requires Core(s) && Enabled(s, l) && Subject(l).Some?
    ensures var t, m := Subject(l).value, MoveOf(s, l);
            && t in s.tasks
            && InHand(After(s, l)) ==
                 if LockOf(s.tasks[t]) != RUNTIME_LOCK then InHand(s)
                 else if HoldsAfter(m) then if m.task.Op? then Some(m.task.pc) else None
                 else if Holds(s.tasks[t]) then None
                 else InHand(s)
  {
    hide Enabled, EffectOf, MoveOf, Moved, Background, InHand, Steady, TablesOk, Accounted, OutcomesOk, IdsOk;
    MoveLocks(s, l);
    MovedInHand(s, EffectOf(s, l), Subject(l).value, MoveOf(s, l));
  }

  lemma BackgroundKeeps(s: State, l: Label)
    requires Enabled(s, l) && Subject(l).None?
    ensures var q := Background(s, l);
            q.locked == s.locked && q.nextKey == s.nextKey && q.restWritten == s.restWritten
  {
    hide Enabled, SpawnedOp, SpawnedDelete, AtMostSpawns, SpawnIn, Referenced;
    match l {
      case SpawnOp(_) =>
      case SpawnDelete =>
      case HandlerCall(_) =>
      case HandlerExit =>
      case HandlerReturn(_) =>
      case HandlerClean =>
      case _ =>
    }
  }

  lemma BackgroundInHand(s: State, l: Label)
    requires LocksOk(s) && IdsOk(s) && Enabled(s, l) && Subject(l).None?
    ensures InHand(After(s, l)) == InHand(s)
  {
    hide Enabled, EffectOf, MoveOf, Moved, Background;
    BackgroundKeeps(s, l);
  }

  /** What a step leaves of the row and of the keys. */
  ghost predicate Books(s: State, q: State, l: Label) {
    && q.nextKey == s.nextKey + (if l.StartPut? then 1 else 0)
    && (q.row.Some? ==>
          && s.row.Some?
          && q.row.value.segmentCount == s.row.value.segmentCount + if l.CommitEffect? && l.ok then 1 else 0)
  }

  lemma OperationBooks(s: State, l: Label)
    requires Enabled(s, l) && Subject(l).Some?
    ensures Books(s, OperationEffect(s, l), l)
  {
  }

  /** A step that is not an operation's own touches no books, or erases the row. */
  lemma SharedBooks(s: State, l: Label)
    requires Enabled(s, l) && Subject(l).Some?
    ensures EffectOf(s, l) == OperationEffect(s, l)
            || (!l.StartPut? && !l.CommitEffect? && EffectOf(s, l).nextKey == s.nextKey
                && (EffectOf(s, l).row == s.row || EffectOf(s, l).row == None))
  {
    hide OperationEffect, ResumeMove, Enabled, RowKeys;
    if l.ReadSegments? || l.RemoveObjects? || l.EraseEffect? {
    } else if l.Resume? {
    }
  }

  lemma EffectBooks(s: State, l: Label)
    requires Enabled(s, l) && Subject(l).Some?
    ensures Books(s, EffectOf(s, l), l)
  {
    hide OperationEffect, EffectOf, Enabled;
    SharedBooks(s, l);
    OperationBooks(s, l);
  }

  lemma StepBooks(s: State, l: Label)
    requires Enabled(s, l)
    ensures Books(s, After(s, l), l)
  {
    hide EffectOf, Enabled, MoveOf, Background;
    if Subject(l).Some? {
      MoveLocks(s, l);
      EffectBooks(s, l);
    } else {
      BackgroundKeeps(s, l);
    }
  }

  /** A step of the operation in the lock commits a segment, loses some, or passes them on. */
  lemma HolderOwes(s: State, l: Label)
    requires Enabled(s, l) && Subject(l).Some?
    requires Subject(l).value in s.tasks && Active(s.tasks[Subject(l).value])
    ensures var before, after := Some(s.tasks[Subject(l).value].pc), HandAfter(MoveOf(s, l));
            && Owing(after) + Loss(s, l) + (if l.CommitEffect? && l.ok then 1 else 0) == Owing(before)
            && Keyless(after) + (if l.StartPut? then 1 else 0) <= Keyless(before)
            && Cut(s, l) == 0
  {
    hide EffectOf;
  }

  /** A task outside the lock brings its segments in, and loses none. */
  lemma EnteringOwes(s: State, l: Label)
    requires Enabled(s, l) && Subject(l).Some?
    requires Subject(l).value in s.tasks && !Active(s.tasks[Subject(l).value])
    ensures Loss(s, l) == 0 && !l.StartPut? && !l.CommitEffect?
    ensures var after := HandAfter(MoveOf(s, l)); Owing(after) == Keyless(after) == Cut(s, l)
  {
    hide EffectOf;
  }

  /** A step of the operation in the lock moves that operation; any other step leaves it, or lets an
      operation in when none was there. */
  lemma StepInHand(s: State, l: Label)
    requires Core(s) && Enabled(s, l) && Subject(l).Some?
    ensures var t, after := Subject(l).value, HandAfter(MoveOf(s, l));
            && t in s.tasks
            && if Active(s.tasks[t]) then InHand(s) == Some(s.tasks[t].pc) && InHand(After(s, l)) == after
               else if after.Some? then InHand(s) == None && InHand(After(s, l)) == after
               else InHand(After(s, l)) == InHand(s)
  {
    hide Enabled, After, MoveOf, Steady, TablesOk, Accounted, OutcomesOk, IdsOk;
    var t := Subject(l).value;
    MoveLocks(s, l);
    AfterInHand(s, l);
    if LockOf(s.tasks[t]) == RUNTIME_LOCK && Holds(s.tasks[t]) { HolderInHand(s, t); }
  }

  lemma BalancedStep(s: State, l: Label, cut: nat, lost: nat)
    requires Core(s) && Enabled(s, l) && Balanced(s, cut, lost)
    ensures Balanced(After(s, l), cut + Cut(s, l), lost + Loss(s, l))
  {
    hide Enabled, After, MoveOf, InHand, Steady, TablesOk, Accounted, OutcomesOk, LocksOk, IdsOk;
    StepBooks(s, l);
    if Subject(l).None? {
      BackgroundInHand(s, l);
    } else {
      StepInHand(s, l);
      if Active(s.tasks[Subject(l).value]) { HolderOwes(s, l); } else { EnteringOwes(s, l); }
    }
  }

  // ---------- runs ----------

  /** The segments cut in the first i steps. */
  ghost function CutBy(ss: seq<State>, ls: seq<Label>, i: nat): nat
    requires Behavior(ss, ls) && i < |ss|
  {
    if i == 0 then 0 else CutBy(ss, ls, i - 1) + Cut(ss[i - 1], ls[i - 1])
  }

  /** The segments lost in the first i steps. */
  ghost function LostBy(ss: seq<State>, ls: seq<Label>, i: nat): nat
    requires Behavior(ss, ls) && i < |ss|
  {
    if i == 0 then 0 else LostBy(ss, ls, i - 1) + Loss(ss[i - 1], ls[i - 1])
  }

  /** The number, in cutting order, of the segment each key went to. */
  ghost function Given(ss: seq<State>, ls: seq<Label>, i: nat): seq<int>
    requires Behavior(ss, ls) && i < |ss|
  {
    if i == 0 then []
    else if ls[i - 1].StartPut? then
      Given(ss, ls, i - 1) + [CutBy(ss, ls, i - 1) - ss[i - 1].tasks[ls[i - 1].t].pc.todo]
    else Given(ss, ls, i - 1)
  }

  lemma InitialBalanced()
    ensures Balanced(Initial(), 0, 0)
  {
  }

  /** Segments cut are committed, owed by the operation in the lock, or lost: in every run. */
  lemma {:induction false} Ledger(ss: seq<State>, ls: seq<Label>, i: nat)
    requires Behavior(ss, ls) && i < |ss|
    ensures Balanced(ss[i], CutBy(ss, ls, i), LostBy(ss, ls, i))
  {
    hide After, Enabled, Core, HandlerOk, Balanced, Cut, Loss;
    if i == 0 {
      InitialBalanced();
    } else {
      Ledger(ss, ls, i - 1);
      BehaviorInv(ss, ls, i - 1);
      BalancedStep(ss[i - 1], ls[i - 1], CutBy(ss, ls, i - 1), LostBy(ss, ls, i - 1));
    }
  }

  // ---------- keys follow the cutting order ----------

  /** Keys and segment numbers rise together, and no segment has two keys. */
  ghost predicate InOrder(s: State, given: seq<int>, cut: nat) {
    && |given| == s.nextKey
    && (forall k :: 0 <= k < |given| ==> k <= given[k] <= cut - Keyless(InHand(s)) - (|given| - k))
    && (forall j, k :: 0 <= j < k < |given| ==> given[j] < given[k])
  }

  lemma KeylessStep(s: State, l: Label)
    requires Core(s) && Enabled(s, l)
    ensures Keyless(InHand(After(s, l))) + (if l.StartPut? then 1 else 0) <= Keyless(InHand(s)) + Cut(s, l)
    ensures After(s, l).nextKey == s.nextKey + if l.StartPut? then 1 else 0
    ensures l.StartPut? ==> IsOp(s, l.t) && s.tasks[l.t].pc.Next? && Keyless(InHand(s)) == s.tasks[l.t].pc.todo
  {
    hide Enabled, After, MoveOf, InHand, Steady, TablesOk, Accounted, OutcomesOk, LocksOk, IdsOk;
    StepBooks(s, l);
    if Subject(l).None? {
      BackgroundInHand(s, l);
    } else {
      StepInHand(s, l);
      StartsFromNext(s, l);
      if Active(s.tasks[Subject(l).value]) { HolderOwes(s, l); } else { EnteringOwes(s, l); }
    }
  }

  lemma StartsFromNext(s: State, l: Label)
    requires Enabled(s, l)
    ensures l.StartPut? ==> IsOp(s, l.t) && s.tasks[l.t].pc.Next? && Active(s.tasks[l.t])
  {
  }

  lemma InOrderStep(s: State, l: Label, given: seq<int>, cut: nat, lost: nat)
    requires Core(s) && Enabled(s, l) && InOrder(s, given, cut) && Balanced(s, cut, lost)
    ensures l.StartPut? ==> IsOp(s, l.t) && s.tasks[l.t].pc.Next?
    ensures InOrder(After(s, l), if l.StartPut? then given + [cut - s.tasks[l.t].pc.todo] else given, cut + Cut(s, l))
  {
    hide Enabled, After, InHand, Core, Cut, Keyless, Owing;
    KeylessStep(s, l);
  }

  lemma InitialInOrder()
    ensures InOrder(Initial(), [], 0)
  {
  }

  lemma Ascending(s: State, given: seq<int>, cut: nat)
    requires InOrder(s, given, cut)
    ensures forall j, k :: 0 <= j < k < |given| ==> given[j] < given[k]
  {
  }

  /** In every run the keys were given out in cutting order, one segment each. */
  lemma {:induction false} KeysInOrder(ss: seq<State>, ls: seq<Label>, i: nat)
    requires Behavior(ss, ls) && i < |ss|
    ensures InOrder(ss[i], Given(ss, ls, i), CutBy(ss, ls, i))
  {
    hide After, Enabled, Core, HandlerOk, InOrder, Balanced, Cut, Loss, LostBy;
    if i == 0 {
      InitialInOrder();
    } else {
      KeysInOrder(ss, ls, i - 1);
      Ledger(ss, ls, i - 1);
      BehaviorInv(ss, ls, i - 1);
      InOrderStep(ss[i - 1], ls[i - 1], Given(ss, ls, i - 1), CutBy(ss, ls, i - 1), LostBy(ss, ls, i - 1));
    }
  }

  // ---------- what a finalized row holds ----------

  lemma FrozenStep(s: State, l: Label)
    requires Enabled(s, l) && s.row.Some? && s.row.value.status != Pending
    ensures After(s, l).row == s.row || After(s, l).row == None
  {
    hide EffectOf, OperationEffect, Background, Moved, MoveOf, Enabled;
    if Subject(l).Some? {
      TaskStepTables(s, l);
      EffectRow(s, l);
      OperationRow(s, l);
    }
  }

  lemma FinalizeRow(s: State, t: TaskId)
    requires Core(s) && Enabled(s, FinalizeEffect(t, true))
    ensures s.row.Some? && InHand(s).Some? && InHand(s).value.Finalizing?
    ensures var q := After(s, FinalizeEffect(t, true));
            q.row.Some? && q.row.value.status != Pending && RowKeys(q) == RowKeys(s)
            && q.row.value.segmentCount == s.row.value.segmentCount
  {
    hide Steady, TablesOk, Accounted, OutcomesOk, IdsOk;
    HolderInHand(s, t);
  }

  /** A finalized row keeps its segments for as long as it exists. */
  lemma {:induction false} FinalizedRow(ss: seq<State>, ls: seq<Label>, i: nat, j: nat)
    requires Behavior(ss, ls) && i < j < |ss| && ls[i].FinalizeEffect? && ls[i].ok
    ensures ss[j].row.Some? ==>
              && ss[i].row.Some? && ss[j].row.value.status != Pending
              && RowKeys(ss[j]) == RowKeys(ss[i])
              && ss[j].row.value.segmentCount == ss[i].row.value.segmentCount
    decreases j
  {
    hide After, Enabled, Core, HandlerOk;
    BehaviorInv(ss, ls, j - 1);
    if j == i + 1 {
      FinalizeRow(ss[i], ls[i].t);
    } else {
      FinalizedRow(ss, ls, i, j - 1);
      RowStable(ss[j - 1], ls[j - 1], Pending);
      if ss[j].row.Some? { FrozenStep(ss[j - 1], ls[j - 1]); }
    }
  }

  /** The keys below n. */
  function Below(n: nat): (keys: set<Key>)
    ensures forall k: Key :: k in keys <==> k < n
    ensures |keys| == n
  {
    if n == 0 then {} else Below(n - 1) + {n - 1}
  }

  lemma SubsetSize(a: set<nat>, b: set<nat>)
    requires a <= b
    ensures |a| <= |b| && (|a| == |b| ==> a == b)
  {
    assert b == a + (b - a);
  }

  /** The segments under the keys, read in the order of the keys: what a manifest lists. */
  function InKeyOrder(keys: set<Key>, given: seq<int>, segments: seq<Segment>): seq<Bytes>
    requires forall k :: 0 <= k < |given| ==> 0 <= given[k] < |segments|
  {
    if given == [] then []
    else
      var n := |given| - 1;
      InKeyOrder(keys, given[..n], segments) + if n in keys then [segments[given[n]].payload] else []
  }

  lemma {:induction false} InKeyOrderSize(keys: set<Key>, given: seq<int>, segments: seq<Segment>)
    requires forall k :: 0 <= k < |given| ==> 0 <= given[k] < |segments|
    ensures |InKeyOrder(keys, given, segments)| == |keys * Below(|given|)|
  {
    if given == [] {
      assert keys * Below(0) == {};
    } else {
      var n := |given| - 1;
      InKeyOrderSize(keys, given[..n], segments);
      assert keys * Below(n + 1) == keys * Below(n) + if n in keys then {n} else {};
    }
  }

  lemma {:induction false} InKeyOrderAll(keys: set<Key>, given: seq<int>, segments: seq<Segment>)
    requires |given| <= |segments| && forall k :: 0 <= k < |given| ==> given[k] == k && k in keys
    ensures InKeyOrder(keys, given, segments) == Payloads(segments[..|given|])
  {
    if given == [] {
    } else {
      var n := |given| - 1;
      InKeyOrderAll(keys, given[..n], segments);
      assert Payloads(segments[..n + 1]) == Payloads(segments[..n]) + [segments[n].payload];
    }
  }

  /** With nothing owed, the row holds every key up to the last segment cut exactly when none was lost. */
  lemma NothingOwed(s: State, given: seq<int>, cut: nat, lost: nat)
    requires Core(s) && Balanced(s, cut, lost) && InOrder(s, given, cut)
    requires s.row.Some? && InHand(s).Some? && InHand(s).value.Finalizing?
    ensures |RowKeys(s)| + lost == cut && RowKeys(s) <= Below(|given|)
    ensures forall k :: 0 <= k < |given| ==> 0 <= given[k] < cut
    ensures lost == 0 ==> RowKeys(s) == Below(cut) && |given| == cut && forall k :: 0 <= k < cut ==> given[k] == k
  {
    hide Steady, LocksOk, Accounted, OutcomesOk, IdsOk, InHand;
    SubsetSize(RowKeys(s), Below(|given|));
  }

  /** As many segments are listed as there are keys, and all of them exactly when there is a key for each. */
  lemma ListsAllExactly(keys: set<Key>, given: seq<int>, segments: seq<Segment>, chunks: seq<Bytes>, lost: nat)
    requires Covers(segments, chunks, Length(chunks))
    requires |keys| + lost == |segments| && keys <= Below(|given|)
    requires forall k :: 0 <= k < |given| ==> 0 <= given[k] < |segments|
    requires lost == 0 ==>
               keys == Below(|segments|) && |given| == |segments| && forall k :: 0 <= k < |given| ==> given[k] == k
    ensures InKeyOrder(keys, given, segments) == Payloads(segments) <==> lost == 0
    ensures lost == 0 ==> Concat(InKeyOrder(keys, given, segments)) == Concat(chunks)
  {
    InKeyOrderSize(keys, given, segments);
    assert keys * Below(|given|) == keys;
    if lost == 0 {
      InKeyOrderAll(keys, given, segments);
      assert segments[..|given|] == segments;
      PayloadsAreStream(segments, chunks, Length(chunks));
    }
  }

  /** What a finalized session's manifest reads back, in any run: as many segments fewer than were cut
      as were lost, and the whole stream, in order and once, exactly when none was. */
  lemma FinalizedIsStream(ss: seq<State>, ls: seq<Label>, i: nat, j: nat,
                          segments: seq<Segment>, chunks: seq<Bytes>)
    requires Behavior(ss, ls) && i < j < |ss| && ls[i].FinalizeEffect? && ls[i].ok && ss[j].row.Some?
    requires Covers(segments, chunks, Length(chunks)) && |segments| == CutBy(ss, ls, i)
    ensures ss[j].row.value.segmentCount + LostBy(ss, ls, i) == |segments|
    ensures forall k :: k in RowKeys(ss[j]) ==> k in ss[j].objects || RemovalBegan(ss, ls, j, k)
    ensures var given := Given(ss, ls, i);
            && (forall k :: k in RowKeys(ss[j]) ==> k < |given|)
            && (forall k :: 0 <= k < |given| ==> 0 <= given[k] < |segments|)
            && (forall a, b :: 0 <= a < b < |given| ==> given[a] < given[b])
            && (InKeyOrder(RowKeys(ss[j]), given, segments) == Payloads(segments) <==> LostBy(ss, ls, i) == 0)
            && (LostBy(ss, ls, i) == 0 ==>
                  Concat(InKeyOrder(RowKeys(ss[j]), given, segments)) == Concat(chunks))
  {
    hide After, Enabled, HandlerOk, Core, Balanced, InOrder, CutBy, LostBy, Given, InHand, RemovalBegan;
    var given, cut, lost := Given(ss, ls, i), CutBy(ss, ls, i), LostBy(ss, ls, i);
    BehaviorInv(ss, ls, i);
    FinalizeRow(ss[i], ls[i].t);
    FinalizedRow(ss, ls, i, j);
    Ledger(ss, ls, i);
    KeysInOrder(ss, ls, i);
    NothingOwed(ss[i], given, cut, lost);
    ListsAllExactly(RowKeys(ss[i]), given, segments, chunks, lost);
    TwoStoreSafety(ss, ls, j, 0);
    assert forall a, b :: 0 <= a < b < |given| ==> given[a] < given[b] by { Ascending(ss[i], given, cut); }
    forall k | k in RowKeys(ss[j]) ensures k in ss[j].objects || RemovalBegan(ss, ls, j, k) {
      TwoStoreSafety(ss, ls, j, k);
    }
  }
}

/** The rate limiter over whole request histories. */
module LimiterTheorems {
  import opened RateLimiter

  datatype Poll = Poll(key: Key, now: real)

  function Run(c: Config, polls: seq<Poll>): Table {
    if polls == [] then EMPTY
    else
      var n := |polls| - 1;
      Decide(c, Run(c, polls[..n]), polls[n].key, polls[n].now).0
  }

  /** The table never exceeds its cap: a new client first evicts a batch when it is full. */
  lemma DecideFits(c: Config, t: Table, key: Key, now: real)
    requires Sane(c) && WellFormed(t) && |t.buckets| <= c.maxClients
    ensures WellFormed(Decide(c, t, key, now).0) && |Decide(c, t, key, now).0.buckets| <= c.maxClients
    ensures |Decide(c, t, key, now).0.buckets| ==
              |t.buckets| + (if key in t.buckets then 0 else 1)
              - if key !in t.buckets && |t.buckets| == c.maxClients then EvictionBatch(c) else 0
  {
    hide WellFormed, Spend, Victims, DropAll;
    if key in t.buckets {
      UpdateFits(t, key, Spend(c, t.buckets[key], now).0);
    } else {
      if |t.buckets| == c.maxClients { EvictionFits(c, t); }
      InsertionFits(Evicted(c, t), key, FirstSeen(c, now));
    }
  }

  /** So it never does, on any run. */
  lemma {:induction false} RunFits(c: Config, polls: seq<Poll>)
    requires Sane(c)
    ensures WellFormed(Run(c, polls)) && |Run(c, polls).buckets| <= c.maxClients
  {
    hide Decide, WellFormed;
    if polls == [] {
      EmptyFits();
    } else {
      var n := |polls| - 1;
      RunFits(c, polls[..n]);
      DecideFits(c, Run(c, polls[..n]), polls[n].key, polls[n].now);
    }
  }

  lemma EmptyFits()
    ensures WellFormed(EMPTY)
  {
  }

  /** A check changes its own client's bucket, and may drop others but not alter them. */
  lemma DecideFacts(c: Config, t: Table, key: Key, now: real)
    ensures var (t', v) := Decide(c, t, key, now);
            && key in t'.buckets
            && (t'.buckets[key], v) == (if key in t.buckets then Spend(c, t.buckets[key], now)
                                        else (FirstSeen(c, now), Allowed))
            && (forall k :: k in t'.buckets && k != key ==> k in t.buckets && t'.buckets[k] == t.buckets[k])
  {
    hide DropAll, Victims, WellFormed, Refilled;
  }

  function VerdictAt(c: Config, polls: seq<Poll>, i: nat): Verdict
    requires i < |polls|
  {
    Decide(c, Run(c, polls[..i]), polls[i].key, polls[i].now).1
  }

  // ---------- the limiter without eviction ----------

  function FreeDecide(c: Config, m: map<Key, Bucket>, key: Key, now: real): (map<Key, Bucket>, Verdict) {
    if key in m then
      var (b, v) := Spend(c, m[key], now);
      (m[key := b], v)
    else (m[key := FirstSeen(c, now)], Allowed)
  }

  function FreeRun(c: Config, polls: seq<Poll>): map<Key, Bucket> {
    if polls == [] then map[]
    else
      var n := |polls| - 1;
      FreeDecide(c, FreeRun(c, polls[..n]), polls[n].key, polls[n].now).0
  }

  function FreeVerdictAt(c: Config, polls: seq<Poll>, i: nat): Verdict
    requires i < |polls|
  {
    FreeDecide(c, FreeRun(c, polls[..i]), polls[i].key, polls[i].now).1
  }

  /** Poll i comes from a client that was evicted since its last check. */
  predicate Returns(c: Config, polls: seq<Poll>, i: nat)
    requires i < |polls|
  {
    polls[i].key !in Run(c, polls[..i]).buckets && polls[i].key in FreeRun(c, polls[..i])
  }

  /** Had it not been evicted, its bucket would be full again by now. */
  predicate FullAgain(c: Config, polls: seq<Poll>, i: nat)
    requires i < |polls| && polls[i].key in FreeRun(c, polls[..i])
  {
    Refilled(c, FreeRun(c, polls[..i])[polls[i].key], polls[i].now) == c.capacity
  }

  ghost predicate Mirrors(t: Table, m: map<Key, Bucket>) {
    forall k :: k in t.buckets ==> k in m && t.buckets[k] == m[k]
  }

  lemma MirrorsStep(c: Config, t: Table, m: map<Key, Bucket>, key: Key, now: real)
    requires Mirrors(t, m) && c.capacity >= 1.0
    requires key !in t.buckets && key in m ==> Refilled(c, m[key], now) == c.capacity
    ensures Mirrors(Decide(c, t, key, now).0, FreeDecide(c, m, key, now).0)
    ensures Decide(c, t, key, now).1 == FreeDecide(c, m, key, now).1
  {
    DecideFacts(c, t, key, now);
    hide Decide, Refilled;
    if key !in t.buckets && key in m { FullSpend(c, m[key], now); }
  }

  lemma FullSpend(c: Config, b: Bucket, now: real)
    requires c.capacity >= 1.0 && Refilled(c, b, now) == c.capacity
    ensures Spend(c, b, now) == (FirstSeen(c, now), Allowed)
  {
  }

  /** The evicting limiter refines the unbounded one: if every client that returns after an eviction
      would have had a full bucket, all decisions and returned delays are the same. */
  lemma {:induction false} EvictionRefines(c: Config, polls: seq<Poll>)
    requires Sane(c)
    requires forall i: nat :: i < |polls| && Returns(c, polls, i) ==> FullAgain(c, polls, i)
    ensures Mirrors(Run(c, polls), FreeRun(c, polls))
    ensures forall i: nat :: i < |polls| ==> VerdictAt(c, polls, i) == FreeVerdictAt(c, polls, i)
  {
    hide Decide, FreeDecide, WellFormed, Refilled;
    if polls != [] {
      var n := |polls| - 1;
      var init := polls[..n];
      forall i: nat | i < n
        ensures polls[..i] == init[..i] && polls[i] == init[i]
      {
      }
      forall i: nat | i < n && Returns(c, init, i) ensures FullAgain(c, init, i) {
        assert Returns(c, polls, i);
      }
      EvictionRefines(c, init);
      if Returns(c, polls, n) { assert FullAgain(c, polls, n); }
      MirrorsStep(c, Run(c, init), FreeRun(c, init), polls[n].key, polls[n].now);
      forall i: nat | i < |polls| ensures VerdictAt(c, polls, i) == FreeVerdictAt(c, polls, i) {
        if i < n { assert VerdictAt(c, init, i) == FreeVerdictAt(c, init, i); }
      }
    }
  }

  // ---------- bounds on one bucket ----------

  lemma MulPositive(a: real, b: real)
    requires a >= 0.0 && b >= 0.0
    ensures a * b >= 0.0
  {
  }

  lemma SpendBounds(c: Config, b: Bucket, now: real)
    requires Sane(c) && 0.0 <= b.tokens <= c.capacity
    ensures 0.0 <= Refilled(c, b, now) <= c.capacity
    ensures 0.0 <= Spend(c, b, now).0.tokens <= c.capacity && Spend(c, b, now).0.lastSeen == now
    ensures Spend(c, b, now).1.Allowed? <==> Refilled(c, b, now) >= 1.0
  {
    MulPositive(Elapsed(b, now), c.refill);
  }

  ghost predicate Bounded(c: Config, m: map<Key, Bucket>) {
    forall k :: k in m ==> 0.0 <= m[k].tokens <= c.capacity
  }

  lemma {:induction false} RunsBounded(c: Config, polls: seq<Poll>)
    requires Sane(c)
    ensures Bounded(c, Run(c, polls).buckets) && Bounded(c, FreeRun(c, polls))
  {
    hide WellFormed, Decide, Spend, Refilled;
    if polls != [] {
      var n := |polls| - 1;
      var init := polls[..n];
      RunsBounded(c, init);
      var t, m, k := Run(c, init), FreeRun(c, init), polls[n].key;
      DecideFacts(c, t, k, polls[n].now);
      if k in t.buckets { SpendBounds(c, t.buckets[k], polls[n].now); }
      if k in m { SpendBounds(c, m[k], polls[n].now); }
    }
  }

  /** A bucket idle for as long as a whole refill takes is full again. */
  lemma IdleLongEnough(c: Config, b: Bucket, now: real)
    requires Sane(c) && 0.0 <= b.tokens && now - b.lastSeen >= c.capacity / c.refill
    ensures Refilled(c, b, now) == c.capacity
  {
    var e := Elapsed(b, now);
    assert c.capacity / c.refill > 0.0;
    assert (e - c.capacity / c.refill) * c.refill >= 0.0;
    assert c.capacity / c.refill * c.refill == c.capacity;
  }

  // ---------- the condition is exact ----------

  ghost predicate SameInstant(c: Config, polls: seq<Poll>, key: Key, now: real)
  {
    && key in Run(c, polls).buckets && key in FreeRun(c, polls)
    && Run(c, polls).buckets[key].lastSeen == now == FreeRun(c, polls)[key].lastSeen
  }

  lemma RunSnoc(c: Config, polls: seq<Poll>, p: Poll)
    ensures Run(c, polls + [p]) == Decide(c, Run(c, polls), p.key, p.now).0
    ensures FreeRun(c, polls + [p]) == FreeDecide(c, FreeRun(c, polls), p.key, p.now).0
    ensures VerdictAt(c, polls + [p], |polls|) == Decide(c, Run(c, polls), p.key, p.now).1
    ensures FreeVerdictAt(c, polls + [p], |polls|) == FreeDecide(c, FreeRun(c, polls), p.key, p.now).1
  {
    assert (polls + [p])[..|polls|] == polls;
  }

  lemma SnocFacts(c: Config, polls: seq<Poll>, p: Poll)
    requires Sane(c) && p.key in FreeRun(c, polls)
    ensures var t, m := Run(c, polls + [p]), FreeRun(c, polls + [p]);
            && p.key in t.buckets && p.key in m
            && (t.buckets[p.key], VerdictAt(c, polls + [p], |polls|)) ==
                 (if p.key in Run(c, polls).buckets then Spend(c, Run(c, polls).buckets[p.key], p.now)
                  else (FirstSeen(c, p.now), Allowed))
            && (m[p.key], FreeVerdictAt(c, polls + [p], |polls|)) == Spend(c, FreeRun(c, polls)[p.key], p.now)
  {
    RunSnoc(c, polls, p);
    DecideFacts(c, Run(c, polls), p.key, p.now);
    hide Decide, Run, FreeRun, VerdictAt, FreeVerdictAt, Spend;
  }

  /** Two buckets for one client that hold different token counts are told apart by polling on. */
  lemma {:induction false} TellApart(c: Config, polls: seq<Poll>, key: Key, now: real) returns (more: seq<Poll>)
    requires Sane(c) && SameInstant(c, polls, key, now)
    requires Run(c, polls).buckets[key].tokens > FreeRun(c, polls)[key].tokens
    ensures polls < more && forall i :: |polls| <= i < |more| ==> more[i] == Poll(key, now)
    ensures VerdictAt(c, more, |more| - 1) != FreeVerdictAt(c, more, |more| - 1)
    decreases FreeRun(c, polls)[key].tokens.Floor + 1
  {
    hide Run, FreeRun, VerdictAt, FreeVerdictAt, WellFormed, Spend;
    RunsBounded(c, polls);
    var p := Poll(key, now);
    SnocFacts(c, polls, p);
    var a, b := Run(c, polls).buckets[key], FreeRun(c, polls)[key];
    SpendAtOnce(c, a);
    SpendAtOnce(c, b);
    if b.tokens >= 1.0 {
      more := TellApart(c, polls + [p], key, now);
    } else {
      more := polls + [p];
      if a.tokens < 1.0 { DelaysDiffer(c, a.tokens, b.tokens); }
    }
  }

  lemma SpendAtOnce(c: Config, b: Bucket)
    requires Sane(c) && 0.0 <= b.tokens <= c.capacity
    ensures Spend(c, b, b.lastSeen) ==
              if b.tokens >= 1.0 then (b.(tokens := b.tokens - 1.0), Allowed)
              else (b, RetryAfter((1.0 - b.tokens) / c.refill))
  {
  }

  lemma DelaysDiffer(c: Config, a: real, b: real)
    requires c.refill > 0.0 && a != b
    ensures (1.0 - a) / c.refill != (1.0 - b) / c.refill
  {
    var x, y := (1.0 - a) / c.refill, (1.0 - b) / c.refill;
    assert x * c.refill == 1.0 - a && y * c.refill == 1.0 - b;
  }

  /** The condition is exact: a client that returns before its bucket would be full is, at once or
      by polling on at the same instant, treated differently from the unbounded limiter. */
  lemma EarlyReturnShows(c: Config, polls: seq<Poll>, i: nat) returns (more: seq<Poll>)
    requires Sane(c) && i < |polls| && Returns(c, polls, i) && !FullAgain(c, polls, i)
    ensures polls[..i + 1] <= more && forall j :: i <= j < |more| ==> more[j] == polls[i]
    ensures VerdictAt(c, more, |more| - 1) != FreeVerdictAt(c, more, |more| - 1)
  {
    hide Run, FreeRun, VerdictAt, FreeVerdictAt, WellFormed, Refilled;
    var past, p := polls[..i], polls[i];
    assert polls[..i + 1] == past + [p];
    SnocFacts(c, past, p);
    RunsBounded(c, past);
    var b := FreeRun(c, past)[p.key];
    SpendBounds(c, b, p.now);
    if Refilled(c, b, p.now) >= 1.0 {
      more := TellApart(c, past + [p], p.key, p.now);
    } else {
      more := past + [p];
    }
  }

  /** It happens: with room for one client, a client that comes back after a single check by another
      finds a full bucket where its own would not have been. */
  lemma EarlyReturnHappens(a: Key, b: Key, now: real) returns (c: Config, polls: seq<Poll>, more: seq<Poll>)
    requires a != b
    ensures Sane(c) && polls == [Poll(a, now), Poll(b, now), Poll(a, now)]
    ensures Returns(c, polls, 2) && !FullAgain(c, polls, 2)
    ensures polls <= more && VerdictAt(c, more, |more| - 1) != FreeVerdictAt(c, more, |more| - 1)
  {
    hide Run, FreeRun, VerdictAt, FreeVerdictAt, WellFormed;
    c := Config(2.0, 1.0, 1);
    polls := [Poll(a, now), Poll(b, now), Poll(a, now)];
    assert polls[..2] == [Poll(a, now), Poll(b, now)];
    OneClientEvicted(c, a, b, now);
    FreshBucket(c, now);
    assert polls[..3] == polls;
    more := EarlyReturnShows(c, polls, 2);
  }

  lemma FreshBucket(c: Config, now: real)
    ensures Refilled(c, FirstSeen(c, now), now) == c.capacity - 1.0
  {
  }

  /** With room for one, the second client takes the first one's place. */
  lemma OneClientEvicted(c: Config, a: Key, b: Key, now: real)
    requires c.maxClients == 1 && a != b
    ensures Run(c, [Poll(a, now), Poll(b, now)]).buckets == map[b := FirstSeen(c, now)]
    ensures FreeRun(c, [Poll(a, now), Poll(b, now)]) == map[a := FirstSeen(c, now), b := FirstSeen(c, now)]
  {
    hide Run, FreeRun, Decide, VerdictAt, FreeVerdictAt;
    NothingPolled(c);
    RunSnoc(c, [], Poll(a, now));
    assert [] + [Poll(a, now)] == [Poll(a, now)];
    DecideFirst(c, a, now);
    RunSnoc(c, [Poll(a, now)], Poll(b, now));
    assert [Poll(a, now)] + [Poll(b, now)] == [Poll(a, now), Poll(b, now)];
    DecideSecond(c, a, b, now);
  }

  lemma NothingPolled(c: Config)
    ensures Run(c, []) == EMPTY && FreeRun(c, []) == map[]
  {
  }

  lemma DecideFirst(c: Config, a: Key, now: real)
    requires c.maxClients >= 1
    ensures Decide(c, EMPTY, a, now).0 == Table([a], map[a := FirstSeen(c, now)])
  {
  }

  lemma DecideSecond(c: Config, a: Key, b: Key, now: real)
    requires c.maxClients == 1 && a != b
    ensures var t := Table([a], map[a := FirstSeen(c, now)]);
            Decide(c, t, b, now).0.buckets == map[b := FirstSeen(c, now)]
  {
    hide Drop, DropAll;
    var t := Table([a], map[a := FirstSeen(c, now)]);
    assert [a][..0] == [] && SortedByLastSeen([], t.buckets) == [];
    assert Victims(c, t) == [a];
    assert Evicted(c, t).buckets == map[];
  }

  // ---------- eviction is amortised over new clients ----------

  function NewClients(c: Config, polls: seq<Poll>): nat
  {
    if polls == [] then 0
    else
      var n := |polls| - 1;
      NewClients(c, polls[..n]) + if polls[n].key in Run(c, polls[..n]).buckets then 0 else 1
  }

  function EvictionPasses(c: Config, polls: seq<Poll>): nat
  {
    if polls == [] then 0
    else
      var n := |polls| - 1;
      var t := Run(c, polls[..n]);
      EvictionPasses(c, polls[..n]) +
      if polls[n].key !in t.buckets && |t.buckets| == c.maxClients then 1 else 0
  }

  lemma MulSucc(e: int, b: int)
    ensures (e + 1) * b == e * b + b
  {
  }

  /** Scans of the whole table are amortised: each pass is paid for by a batch of new clients. */
  lemma {:induction false} EvictionsAmortised(c: Config, polls: seq<Poll>)
    requires Sane(c)
    ensures EvictionPasses(c, polls) * EvictionBatch(c) + |Run(c, polls).buckets| == NewClients(c, polls)
    ensures |Run(c, polls).buckets| <= c.maxClients
  {
    hide Decide, WellFormed, EvictionBatch;
    if polls != [] {
      var n := |polls| - 1;
      EvictionsAmortised(c, polls[..n]);
      RunFits(c, polls[..n]);
      DecideFits(c, Run(c, polls[..n]), polls[n].key, polls[n].now);
      MulSucc(EvictionPasses(c, polls[..n]), EvictionBatch(c));
    }
  }

  // ---------- admission bound ----------

  ghost predicate ClockMoves(polls: seq<Poll>) {
    forall i, j :: 0 <= i <= j < |polls| ==> polls[i].now <= polls[j].now
  }

  /** Client k is tracked throughout the polls i .. j - 1: after each of them it has a bucket. */
  ghost predicate Tracked(c: Config, polls: seq<Poll>, k: Key, i: nat, j: nat)
  {
    i < j <= |polls| && forall m: nat :: i < m <= j ==> k in Run(c, polls[..m]).buckets
  }

  function Admitted(c: Config, polls: seq<Poll>, k: Key, i: nat, j: nat): nat
    requires i <= j <= |polls|
    decreases j
  {
    if i == j then 0
    else Admitted(c, polls, k, i, j - 1)
         + if polls[j - 1].key == k && VerdictAt(c, polls, j - 1) == Allowed then 1 else 0
  }

  /** What poll j does to client k's bucket. */
  lemma RunAt(c: Config, polls: seq<Poll>, j: nat, k: Key)
    requires Sane(c) && j < |polls|
    ensures var t, t', p := Run(c, polls[..j]), Run(c, polls[..j + 1]), polls[j];
            && (k in t'.buckets && k != p.key ==> k in t.buckets && t'.buckets[k] == t.buckets[k])
            && (k == p.key ==>
                  && k in t'.buckets
                  && (t'.buckets[k], VerdictAt(c, polls, j)) ==
                       (if k in t.buckets then Spend(c, t.buckets[k], p.now) else (FirstSeen(c, p.now), Allowed)))
  {
    hide Decide, Spend, FirstSeen, WellFormed;
    assert polls[..j + 1][..j] == polls[..j];
    DecideFacts(c, Run(c, polls[..j]), polls[j].key, polls[j].now);
  }

  /** The same in numbers: a poll refills, and spends one token if it is admitted. */
  lemma OnePoll(c: Config, polls: seq<Poll>, j: nat, k: Key)
    requires Sane(c) && j < |polls|
    ensures var t, t', p := Run(c, polls[..j]), Run(c, polls[..j + 1]), polls[j];
            && (k in t.buckets ==> 0.0 <= t.buckets[k].tokens <= c.capacity)
            && (k in t'.buckets && k != p.key ==> k in t.buckets && t'.buckets[k] == t.buckets[k])
            && (k == p.key ==>
                  && k in t'.buckets
                  && t'.buckets[k].lastSeen == p.now && 0.0 <= t'.buckets[k].tokens
                  && t'.buckets[k].tokens + (if VerdictAt(c, polls, j) == Allowed then 1.0 else 0.0)
                     == if k in t.buckets then Refilled(c, t.buckets[k], p.now) else c.capacity)
  {
    hide Run, VerdictAt, Spend, Refilled, WellFormed;
    RunAt(c, polls, j, k);
    var t := Run(c, polls[..j]);
    RunsBounded(c, polls[..j]);
    if k == polls[j].key && k in t.buckets {
      SpendBounds(c, t.buckets[k], polls[j].now);
      SpendCost(c, t.buckets[k], polls[j].now);
    }
  }

  lemma SpendCost(c: Config, b: Bucket, now: real)
    ensures var (b', v) := Spend(c, b, now);
            b'.tokens + (if v == Allowed then 1.0 else 0.0) == Refilled(c, b, now)
  {
    hide Refilled;
  }

  lemma {:induction false} SeenInThePast(c: Config, polls: seq<Poll>, j: nat, k: Key)
    requires Sane(c) && ClockMoves(polls) && j <= |polls| && k in Run(c, polls[..j]).buckets
    ensures j > 0 && Run(c, polls[..j]).buckets[k].lastSeen <= polls[j - 1].now
  {
    hide Run, VerdictAt, Refilled, WellFormed;
    RunStarts(c, polls);
    if j > 0 {
      OnePoll(c, polls, j - 1, k);
      if k != polls[j - 1].key { SeenInThePast(c, polls, j - 1, k); }
    }
  }

  lemma RunStarts(c: Config, polls: seq<Poll>)
    requires Sane(c)
    ensures Run(c, polls[..0]).buckets == map[]
  {
  }

  /** Tokens held plus requests admitted never exceed the capacity plus what has been refilled. */
  ghost predicate InBudget(c: Config, b: Bucket, admitted: nat, start: real) {
    && 0.0 <= b.tokens <= c.capacity
    && (start <= b.lastSeen ==> admitted as real + b.tokens <= c.capacity + c.refill * (b.lastSeen - start))
    && (b.lastSeen < start ==> admitted == 0)
  }

  lemma {:induction false} Budget(c: Config, polls: seq<Poll>, k: Key, i: nat, j: nat)
    requires Sane(c) && ClockMoves(polls) && Tracked(c, polls, k, i, j)
    ensures var b := Run(c, polls[..j]).buckets[k];
            b.lastSeen <= polls[j - 1].now && InBudget(c, b, Admitted(c, polls, k, i, j), polls[i].now)
    decreases j
  {
    hide Run, VerdictAt, Refilled, WellFormed, InBudget;
    assert k in Run(c, polls[..j]).buckets;
    SeenInThePast(c, polls, j, k);
    OnePoll(c, polls, j - 1, k);
    var before, after := Run(c, polls[..j - 1]), Run(c, polls[..j]);
    var now := polls[j - 1].now;
    if i == j - 1 {
      if polls[i].key == k {
        BudgetOpens(c, before, after.buckets[k], k, now, if VerdictAt(c, polls, i) == Allowed then 1 else 0);
      } else {
        SeenInThePast(c, polls, i, k);
        BudgetIdle(c, after.buckets[k], now);
      }
    } else {
      assert Tracked(c, polls, k, i, j - 1);
      Budget(c, polls, k, i, j - 1);
      if polls[j - 1].key == k {
        BudgetSpends(c, before.buckets[k], after.buckets[k], now, polls[i].now,
                     Admitted(c, polls, k, i, j - 1), if VerdictAt(c, polls, j - 1) == Allowed then 1 else 0);
      }
    }
  }

  lemma BudgetOpens(c: Config, before: Table, b: Bucket, k: Key, now: real, admitted: nat)
    requires Sane(c) && b.lastSeen == now && 0.0 <= b.tokens
    requires k in before.buckets ==> 0.0 <= before.buckets[k].tokens <= c.capacity
    requires b.tokens + admitted as real ==
               if k in before.buckets then Refilled(c, before.buckets[k], now) else c.capacity
    ensures InBudget(c, b, admitted, now)
  {
    hide Spend;
    MulZero(c.refill, b.lastSeen - now);
    if k in before.buckets { SpendBounds(c, before.buckets[k], now); }
  }

  lemma BudgetIdle(c: Config, b: Bucket, now: real)
    requires 0.0 <= b.tokens <= c.capacity && b.lastSeen <= now
    ensures InBudget(c, b, 0, now)
  {
    if now <= b.lastSeen { MulZero(c.refill, b.lastSeen - now); }
  }

  lemma MulZero(a: real, b: real)
    requires b == 0.0
    ensures a * b == 0.0
  {
  }

  lemma BudgetSpends(c: Config, b: Bucket, b': Bucket, now: real, start: real, admitted: nat, one: nat)
    requires Sane(c) && InBudget(c, b, admitted, start) && b.lastSeen <= now && start <= now
    requires b'.lastSeen == now && 0.0 <= b'.tokens && b'.tokens + one as real == Refilled(c, b, now)
    ensures InBudget(c, b', admitted + one, start)
  {
    hide Refilled, Spend;
    SpendBounds(c, b, now);
    BudgetStep(c, b, now, start, admitted as real);
  }

  lemma BudgetStep(c: Config, b: Bucket, now: real, start: real, admitted: real)
    requires Sane(c) && 0.0 <= b.tokens <= c.capacity && b.lastSeen <= now && start <= now
    requires start <= b.lastSeen ==> admitted + b.tokens <= c.capacity + c.refill * (b.lastSeen - start)
    requires b.lastSeen < start ==> admitted == 0.0
    ensures admitted + Refilled(c, b, now) <= c.capacity + c.refill * (now - start)
  {
    SpendBounds(c, b, now);
    MulPositive(now - start, c.refill);
    if start <= b.lastSeen {
      assert c.refill * (now - start) == c.refill * (b.lastSeen - start) + (now - b.lastSeen) * c.refill;
    }
  }

  /** Admission bound: a client not evicted meanwhile is admitted at most capacity + refill * span
      times over any span of polls. */
  lemma AdmissionBound(c: Config, polls: seq<Poll>, k: Key, i: nat, j: nat)
    requires Sane(c) && ClockMoves(polls) && Tracked(c, polls, k, i, j)
    ensures Admitted(c, polls, k, i, j) as real <= c.capacity + c.refill * (polls[j - 1].now - polls[i].now)
  {
    hide Run, VerdictAt, WellFormed;
    Budget(c, polls, k, i, j);
    assert Tracked(c, polls, k, i, j);
    var b := Run(c, polls[..j]).buckets[k];
    BudgetEnds(c.capacity, c.refill, Admitted(c, polls, k, i, j) as real, b.tokens,
               b.lastSeen, polls[i].now, polls[j - 1].now);
  }

  lemma BudgetEnds(capacity: real, refill: real, admitted: real, tokens: real, seen: real, start: real, end: real)
    requires capacity >= 1.0 && refill > 0.0 && tokens >= 0.0 && seen <= end && start <= end
    requires start <= seen ==> admitted + tokens <= capacity + refill * (seen - start)
    requires seen < start ==> admitted == 0.0
    ensures admitted <= capacity + refill * (end - start)
  {
    MulPositive(end - start, refill);
    MulPositive(end - seen, refill);
    assert refill * (end - start) == refill * (seen - start) + (end - seen) * refill;
  }

  // ---------- honest retry ----------

  /** A bucket that has less than a token, and will have one at `deadline`. */
  ghost predicate Waiting(c: Config, b: Bucket, deadline: real)
    requires c.refill > 0.0
  {
    0.0 <= b.tokens < 1.0 && b.tokens + (deadline - b.lastSeen) * c.refill == 1.0
  }

  lemma WaitingPoll(c: Config, b: Bucket, deadline: real, now: real)
    requires Sane(c) && Waiting(c, b, deadline) && b.lastSeen <= now
    ensures var (b', v) := Spend(c, b, now);
            && (v == Allowed <==> now >= deadline)
            && (now < deadline ==> Waiting(c, b', deadline) && v.RetryAfter? && now + v.seconds == deadline)
  {
    hide Waiting;
    var tokens := b.tokens + (now - b.lastSeen) * c.refill;
    WaitingMeans(c, b, deadline);
    assert (now - b.lastSeen) + (deadline - now) == deadline - b.lastSeen;
    TokensAt(b.tokens, now - b.lastSeen, deadline - now, c.refill);
    assert Refilled(c, b, now) == if now < deadline then tokens else MinReal(c.capacity, tokens);
    if now < deadline {
      WaitingMeans(c, Bucket(tokens, now), deadline);
    }
  }

  lemma WaitingMeans(c: Config, b: Bucket, deadline: real)
    requires c.refill > 0.0
    ensures Waiting(c, b, deadline) <==> 0.0 <= b.tokens < 1.0 && b.tokens + (deadline - b.lastSeen) * c.refill == 1.0
  {
  }

  /** Tokens after `a` seconds, for a bucket that has a whole one `b` seconds later. */
  lemma TokensAt(held: real, a: real, b: real, refill: real)
    requires refill > 0.0 && held + (a + b) * refill == 1.0 && a >= 0.0 && held >= 0.0
    ensures var tokens := held + a * refill;
            && tokens >= 0.0
            && tokens + b * refill == 1.0
            && (tokens >= 1.0 <==> b <= 0.0)
            && (1.0 - tokens) / refill == b
  {
    MulPositive(a, refill);
    assert b * refill == 1.0 - (held + a * refill);
    if b <= 0.0 {
      MulPositive(-b, refill);
    } else {
      StrictlyPositive(b, refill);
    }
    DivMul(b, refill);
  }

  lemma StrictlyPositive(a: real, b: real)
    requires a > 0.0 && b > 0.0
    ensures a * b > 0.0
  {
  }

  lemma DivMul(a: real, b: real)
    requires b > 0.0
    ensures (a * b) / b == a
  {
  }

  lemma RejectionWaits(c: Config, b: Bucket, now: real)
    requires Sane(c) && 0.0 <= b.tokens <= c.capacity && Spend(c, b, now).1 != Allowed
    ensures var (b', v) := Spend(c, b, now);
            v.RetryAfter? && v.seconds > 0.0 && Waiting(c, b', now + v.seconds)
  {
    SpendBounds(c, b, now);
    var tokens := Refilled(c, b, now);
    var d := (1.0 - tokens) / c.refill;
    assert d * c.refill == 1.0 - tokens;
    assert d > 0.0;
  }

  lemma {:induction false} StillWaiting(c: Config, polls: seq<Poll>, k: Key, i: nat, j: nat)
    requires Sane(c) && ClockMoves(polls) && Tracked(c, polls, k, i, j)
    requires polls[i].key == k && VerdictAt(c, polls, i) != Allowed
    requires forall m: nat :: i < m < j && polls[m].key == k ==> VerdictAt(c, polls, m) != Allowed
    ensures VerdictAt(c, polls, i).RetryAfter? && VerdictAt(c, polls, i).seconds > 0.0
    ensures Waiting(c, Run(c, polls[..j]).buckets[k], polls[i].now + VerdictAt(c, polls, i).seconds)
    decreases j
  {
    hide Run, VerdictAt, Spend, Waiting, WellFormed, Refilled;
    RunAt(c, polls, j - 1, k);
    RunsBounded(c, polls[..j - 1]);
    assert k in Run(c, polls[..j]).buckets;
    var before := Run(c, polls[..j - 1]);
    if i == j - 1 {
      RejectionWaits(c, before.buckets[k], polls[i].now);
    } else {
      assert Tracked(c, polls, k, i, j - 1);
      StillWaiting(c, polls, k, i, j - 1);
      if polls[j - 1].key == k {
        SeenInThePast(c, polls, j - 1, k);
        WaitingPoll(c, before.buckets[k], polls[i].now + VerdictAt(c, polls, i).seconds, polls[j - 1].now);
      }
    }
  }

  /** Honest retry, exactly: after a rejection, and whatever rejected polls come in between, a poll
      is admitted if and only if the announced delay has passed, and every further rejection
      announces the same deadline. */
  lemma HonestRetry(c: Config, polls: seq<Poll>, k: Key, i: nat, j: nat)
    requires Sane(c) && ClockMoves(polls) && j < |polls| && Tracked(c, polls, k, i, j)
    requires polls[i].key == k == polls[j].key && VerdictAt(c, polls, i) != Allowed
    requires forall m: nat :: i < m < j && polls[m].key == k ==> VerdictAt(c, polls, m) != Allowed
    ensures VerdictAt(c, polls, i).RetryAfter?
    ensures var deadline := polls[i].now + VerdictAt(c, polls, i).seconds;
            && deadline > polls[i].now
            && (VerdictAt(c, polls, j) == Allowed <==> polls[j].now >= deadline)
            && (polls[j].now < deadline ==>
                  VerdictAt(c, polls, j).RetryAfter?
                  && polls[j].now + VerdictAt(c, polls, j).seconds == deadline)
  {
    hide Run, WellFormed, Spend, Waiting;
    StillWaiting(c, polls, k, i, j);
    SeenInThePast(c, polls, j, k);
    WaitingPoll(c, Run(c, polls[..j]).buckets[k],
                polls[i].now + VerdictAt(c, polls, i).seconds, polls[j].now);
  }
}

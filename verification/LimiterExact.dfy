/**
 Exactly which polls are rejected. A client's bucket is as full as its worst stretch of polls allows:
 a poll is rejected if and only if admitting it would exceed, over the stretch since some earlier poll
 of that client, the burst plus what has been refilled meanwhile.
 */
module LimiterExact {
  import opened RateLimiter
  import opened LimiterTheorems

  // ---------- time as a client's polls see it ----------

  /** When client k polled last before poll j. */
  function PolledAt(polls: seq<Poll>, k: Key, j: nat): real
    requires j <= |polls|
  {
    if j == 0 then 0.0 else if polls[j - 1].key == k then polls[j - 1].now else PolledAt(polls, k, j - 1)
  }

  function Forward(x: real): real { if x > 0.0 then x else 0.0 }

  /** The time that passed from client k's poll m on, as its polls before j saw it: a clock that is set
      back counts for nothing. */
  function Passed(polls: seq<Poll>, k: Key, m: nat, j: nat): real
    requires m < j <= |polls|
    decreases j
  {
    if j == m + 1 then 0.0
    else Passed(polls, k, m, j - 1)
         + if polls[j - 1].key == k then Forward(polls[j - 1].now - PolledAt(polls, k, j - 1)) else 0.0
  }

  // ---------- what a bucket holds ----------

  /** Client k is new at poll i and has a bucket from then on. */
  ghost predicate Joined(c: Config, polls: seq<Poll>, k: Key, i: nat, j: nat) {
    && Tracked(c, polls, k, i, j)
    && polls[i].key == k && k !in Run(c, polls[..i]).buckets
  }

  lemma JoinedBefore(c: Config, polls: seq<Poll>, k: Key, i: nat, j: nat)
    requires Joined(c, polls, k, i, j) && i + 1 < j
    ensures Joined(c, polls, k, i, j - 1) && k in Run(c, polls[..j - 1]).buckets
  {
    hide Run;
  }

  lemma JoinedHas(c: Config, polls: seq<Poll>, k: Key, i: nat, j: nat)
    requires Joined(c, polls, k, i, j)
    ensures k in Run(c, polls[..j]).buckets
  {
    hide Run;
  }

  lemma {:induction false} LastSeenAt(c: Config, polls: seq<Poll>, k: Key, i: nat, j: nat)
    requires Sane(c) && Joined(c, polls, k, i, j)
    ensures k in Run(c, polls[..j]).buckets && Run(c, polls[..j]).buckets[k].lastSeen == PolledAt(polls, k, j)
    decreases j
  {
    hide Run, VerdictAt, Refilled, WellFormed;
    JoinedHas(c, polls, k, i, j);
    OnePoll(c, polls, j - 1, k);
    if i + 1 < j {
      JoinedBefore(c, polls, k, i, j);
      LastSeenAt(c, polls, k, i, j - 1);
    }
  }

  // ---------- the account of a stretch ----------

  lemma RefilledAfter(c: Config, b: Bucket, now: real, d: real)
    requires d == Forward(now - b.lastSeen)
    ensures Refilled(c, b, now) == MinReal(c.capacity, b.tokens + c.refill * d)
  {
    assert Elapsed(b, now) == d;
  }

  lemma AdmittedStep(c: Config, polls: seq<Poll>, k: Key, m: nat, j: nat)
    requires m < j <= |polls|
    ensures Admitted(c, polls, k, m, j) as real == Admitted(c, polls, k, m, j - 1) as real
              + if polls[j - 1].key == k && VerdictAt(c, polls, j - 1) == Allowed then 1.0 else 0.0
  {
    hide VerdictAt;
  }

  /** One side of the account: tokens held and requests admitted, and the time passed. */
  datatype Account = Account(tokens: real, admitted: real, passed: real)

  ghost function AccountAt(c: Config, polls: seq<Poll>, k: Key, m: nat, j: nat): Account
    requires m < j <= |polls| && k in Run(c, polls[..j]).buckets
  {
    Account(Run(c, polls[..j]).buckets[k].tokens, Admitted(c, polls, k, m, j) as real, Passed(polls, k, m, j))
  }

  /** A poll of the client's own refills its bucket, up to full, and may take a token. */
  ghost predicate Moves(c: Config, a: Account, b: Account, own: bool) {
    if own then b.tokens + b.admitted == MinReal(c.capacity, a.tokens + c.refill * (b.passed - a.passed)) + a.admitted
    else b == a
  }

  /** What poll j - 1 does to the account since poll m. */
  lemma AccountStep(c: Config, polls: seq<Poll>, k: Key, i: nat, m: nat, j: nat)
    requires Sane(c) && Joined(c, polls, k, i, j) && i <= m && m + 1 < j
    ensures Joined(c, polls, k, i, j - 1)
    ensures k in Run(c, polls[..j - 1]).buckets && k in Run(c, polls[..j]).buckets
    ensures Moves(c, AccountAt(c, polls, k, m, j - 1), AccountAt(c, polls, k, m, j), polls[j - 1].key == k)
  {
    hide Run, VerdictAt, WellFormed, Refilled, Admitted;
    JoinedBefore(c, polls, k, i, j);
    JoinedHas(c, polls, k, i, j);
    LastSeenAt(c, polls, k, i, j - 1);
    OnePoll(c, polls, j - 1, k);
    AdmittedStep(c, polls, k, m, j);
    if polls[j - 1].key == k {
      RefilledAfter(c, Run(c, polls[..j - 1]).buckets[k], polls[j - 1].now,
                    Passed(polls, k, m, j) - Passed(polls, k, m, j - 1));
    }
  }

  /** Never overdrawn: the burst and what was refilled cover what was admitted and what is left. */
  ghost predicate Covered(c: Config, a: Account) {
    a.tokens + a.admitted <= c.capacity + c.refill * a.passed
  }

  ghost predicate UsedUp(c: Config, a: Account) {
    a.tokens + a.admitted == c.capacity + c.refill * a.passed
  }

  lemma MoveCovered(c: Config, a: Account, b: Account, own: bool)
    requires Covered(c, a) && Moves(c, a, b, own)
    ensures Covered(c, b)
  {
    assert c.refill * b.passed == c.refill * a.passed + c.refill * (b.passed - a.passed);
  }

  lemma MoveUsedUp(c: Config, a: Account, b: Account, own: bool)
    requires UsedUp(c, a) && Moves(c, a, b, own)
    ensures UsedUp(c, b) || (own && b.tokens + b.admitted == c.capacity + a.admitted)
  {
    assert c.refill * b.passed == c.refill * a.passed + c.refill * (b.passed - a.passed);
  }

  /** The first poll of a stretch: the bucket was no fuller than full, and exactly full if it was new. */
  lemma AccountOpens(c: Config, polls: seq<Poll>, k: Key, i: nat, m: nat)
    requires Sane(c) && Joined(c, polls, k, i, m + 1) && i <= m && polls[m].key == k
    ensures k in Run(c, polls[..m + 1]).buckets
    ensures var a := AccountAt(c, polls, k, m, m + 1);
            && Covered(c, a)
            && (m == i ==> UsedUp(c, a))
            && (var t := Run(c, polls[..m]);
                k in t.buckets && Refilled(c, t.buckets[k], polls[m].now) == c.capacity ==> UsedUp(c, a))
  {
    hide Run, VerdictAt, WellFormed, Refilled, Admitted;
    OnePoll(c, polls, m, k);
    AdmittedStep(c, polls, k, m, m + 1);
    AdmittedNone(c, polls, k, m);
    if k in Run(c, polls[..m]).buckets { SpendBounds(c, Run(c, polls[..m]).buckets[k], polls[m].now); }
  }

  lemma AdmittedNone(c: Config, polls: seq<Poll>, k: Key, m: nat)
    requires m <= |polls|
    ensures Admitted(c, polls, k, m, m) == 0
  {
  }

  /** No stretch is ever overdrawn. */
  lemma {:induction false} StretchCovered(c: Config, polls: seq<Poll>, k: Key, i: nat, m: nat, j: nat)
    requires Sane(c) && Joined(c, polls, k, i, j) && i <= m < j && polls[m].key == k
    ensures k in Run(c, polls[..j]).buckets && Covered(c, AccountAt(c, polls, k, m, j))
    decreases j
  {
    hide Run, VerdictAt, WellFormed, Refilled, Admitted, Covered, Moves, AccountAt;
    if m + 1 == j {
      AccountOpens(c, polls, k, i, m);
    } else {
      AccountStep(c, polls, k, i, m, j);
      StretchCovered(c, polls, k, i, m, j - 1);
      MoveCovered(c, AccountAt(c, polls, k, m, j - 1), AccountAt(c, polls, k, m, j), polls[j - 1].key == k);
    }
  }

  /** And some stretch is always used up, but for what the bucket still holds. */
  lemma {:induction false} SomeStretchUsedUp(c: Config, polls: seq<Poll>, k: Key, i: nat, j: nat) returns (m: nat)
    requires Sane(c) && Joined(c, polls, k, i, j)
    ensures i <= m < j && polls[m].key == k
    ensures k in Run(c, polls[..j]).buckets && UsedUp(c, AccountAt(c, polls, k, m, j))
    decreases j
  {
    hide Run, VerdictAt, WellFormed, Refilled, Admitted, UsedUp, Moves, Covered;
    if i + 1 == j {
      m := i;
      AccountOpens(c, polls, k, i, i);
    } else {
      JoinedBefore(c, polls, k, i, j);
      m := SomeStretchUsedUp(c, polls, k, i, j - 1);
      AccountStep(c, polls, k, i, m, j);
      var a, b, own := AccountAt(c, polls, k, m, j - 1), AccountAt(c, polls, k, m, j), polls[j - 1].key == k;
      MoveUsedUp(c, a, b, own);
      if !UsedUp(c, b) {
        OnePoll(c, polls, j - 1, k);
        AdmittedStep(c, polls, k, m, j);
        AccountOpens(c, polls, k, i, j - 1);
        m := j - 1;
      }
    }
  }

  // ---------- exactly which polls are rejected ----------

  /** Admitting poll j as well would overdraw the stretch since poll m. */
  ghost predicate Overdraws(c: Config, polls: seq<Poll>, k: Key, m: nat, j: nat)
    requires m < j < |polls|
  {
    Admitted(c, polls, k, m, j) as real + 1.0 > c.capacity + c.refill * Passed(polls, k, m, j + 1)
  }

  /** What the bucket offers poll j, as an account since poll m. */
  lemma Offer(c: Config, polls: seq<Poll>, k: Key, i: nat, m: nat, j: nat) returns (tokens: real)
    requires Sane(c) && Joined(c, polls, k, i, j) && i <= m < j < |polls| && polls[m].key == polls[j].key == k
    ensures VerdictAt(c, polls, j) == Allowed <==> tokens >= 1.0
    ensures k in Run(c, polls[..j]).buckets
    ensures Moves(c, AccountAt(c, polls, k, m, j),
                  Account(tokens, Admitted(c, polls, k, m, j) as real, Passed(polls, k, m, j + 1)), true)
  {
    hide Run, WellFormed, Admitted, VerdictAt, Spend;
    LastSeenAt(c, polls, k, i, j);
    RunsBounded(c, polls[..j]);
    RunAt(c, polls, j, k);
    var b := Run(c, polls[..j]).buckets[k];
    SpendBounds(c, b, polls[j].now);
    tokens := Refilled(c, b, polls[j].now);
    assert Passed(polls, k, m, j + 1) - Passed(polls, k, m, j) == Forward(polls[j].now - b.lastSeen);
    RefilledAfter(c, b, polls[j].now, Passed(polls, k, m, j + 1) - Passed(polls, k, m, j));
  }

  /** Exactly: a poll of a client that has been tracked since it was new is rejected if and only if
      admitting it would overdraw the stretch since one of that client's polls, whatever the clock did. */
  lemma RejectedIff(c: Config, polls: seq<Poll>, k: Key, i: nat, j: nat)
    requires Sane(c) && Joined(c, polls, k, i, j) && j < |polls| && polls[j].key == k
    ensures VerdictAt(c, polls, j) != Allowed <==>
              exists m :: i <= m < j && polls[m].key == k && Overdraws(c, polls, k, m, j)
  {
    hide Run, WellFormed, Admitted, VerdictAt, Moves, Joined;
    if m :| i <= m < j && polls[m].key == k && Overdraws(c, polls, k, m, j) {
      var tokens := Offer(c, polls, k, i, m, j);
      StretchCovered(c, polls, k, i, m, j);
      MoveCovered(c, AccountAt(c, polls, k, m, j),
                  Account(tokens, Admitted(c, polls, k, m, j) as real, Passed(polls, k, m, j + 1)), true);
    } else {
      var m := SomeStretchUsedUp(c, polls, k, i, j);
      var tokens := Offer(c, polls, k, i, m, j);
      MoveUsedUp(c, AccountAt(c, polls, k, m, j),
                 Account(tokens, Admitted(c, polls, k, m, j) as real, Passed(polls, k, m, j + 1)), true);
      assert !Overdraws(c, polls, k, m, j);
    }
  }

  // ---------- with a clock that is not set back ----------

  lemma {:induction false} PassedIsTime(polls: seq<Poll>, k: Key, m: nat, j: nat)
    requires ClockMoves(polls) && m < j <= |polls| && polls[m].key == k
    ensures Passed(polls, k, m, j) == PolledAt(polls, k, j) - polls[m].now
    ensures polls[m].now <= PolledAt(polls, k, j) <= polls[j - 1].now
    decreases j
  {
    if m + 1 < j { PassedIsTime(polls, k, m, j - 1); }
  }

  /** Admitting poll j as well would exceed, over the time since poll m, the burst plus the refill. */
  ghost predicate Exceeds(c: Config, polls: seq<Poll>, k: Key, m: nat, j: nat)
    requires m < j < |polls|
  {
    Admitted(c, polls, k, m, j) as real + 1.0 > c.capacity + c.refill * (polls[j].now - polls[m].now)
  }

  /** A stretch that is exceeded holds a poll of the client's, and is exceeded from its first one on. */
  lemma {:induction false} FirstOwn(c: Config, polls: seq<Poll>, k: Key, m: nat, j: nat) returns (n: nat)
    requires Sane(c) && ClockMoves(polls) && m < j < |polls| && Exceeds(c, polls, k, m, j)
    ensures m <= n < j && polls[n].key == k && Exceeds(c, polls, k, n, j)
    decreases j - m
  {
    hide VerdictAt;
    if polls[m].key == k {
      n := m;
    } else {
      AdmittedLater(c, polls, k, m, j);
      MulPositive(polls[j].now - polls[m].now, c.refill);
      if m + 1 == j {
        AdmittedNone(c, polls, k, j);
        assert false;
      }
      Later(c.refill, polls[m].now, polls[m + 1].now, polls[j].now);
      n := FirstOwn(c, polls, k, m + 1, j);
    }
  }

  lemma Later(refill: real, early: real, late: real, end: real)
    requires refill > 0.0 && early <= late
    ensures refill * (end - late) <= refill * (end - early)
  {
    MulPositive(late - early, refill);
    assert refill * (end - early) == refill * (end - late) + (late - early) * refill;
  }

  lemma {:induction false} AdmittedLater(c: Config, polls: seq<Poll>, k: Key, m: nat, j: nat)
    requires m < j <= |polls| && polls[m].key != k
    ensures Admitted(c, polls, k, m, j) == Admitted(c, polls, k, m + 1, j)
    decreases j
  {
    hide VerdictAt;
    if m + 1 < j { AdmittedLater(c, polls, k, m, j - 1); }
  }

  /** The converse of the admission bound: under a clock that is not set back, a client tracked since
      it was new is rejected if and only if, over the time since some earlier poll, one admission more
      would exceed the burst plus the refill. A client within its budget is never turned away. */
  lemma RejectionExact(c: Config, polls: seq<Poll>, k: Key, i: nat, j: nat)
    requires Sane(c) && ClockMoves(polls) && Joined(c, polls, k, i, j) && j < |polls| && polls[j].key == k
    ensures VerdictAt(c, polls, j) != Allowed <==> exists m :: i <= m < j && Exceeds(c, polls, k, m, j)
  {
    hide Run, VerdictAt, Admitted, Joined;
    RejectedIff(c, polls, k, i, j);
    forall m | i <= m < j && polls[m].key == k
      ensures Overdraws(c, polls, k, m, j) <==> Exceeds(c, polls, k, m, j)
    {
      PassedIsTime(polls, k, m, j + 1);
    }
    if m :| i <= m < j && Exceeds(c, polls, k, m, j) {
      var n := FirstOwn(c, polls, k, m, j);
      assert Overdraws(c, polls, k, n, j);
    }
  }

  /** And every client with a bucket has been tracked since it was new; one without is admitted. */
  lemma {:induction false} EveryPoll(c: Config, polls: seq<Poll>, k: Key, j: nat) returns (i: nat)
    requires Sane(c) && j <= |polls|
    ensures k in Run(c, polls[..j]).buckets ==> Joined(c, polls, k, i, j)
    ensures j < |polls| && polls[j].key == k && k !in Run(c, polls[..j]).buckets ==> VerdictAt(c, polls, j) == Allowed
  {
    hide Run, VerdictAt, WellFormed;
    i := 0;
    RunStarts(c, polls);
    if j < |polls| { RunAt(c, polls, j, k); }
    if k in Run(c, polls[..j]).buckets {
      OnePoll(c, polls, j - 1, k);
      if k in Run(c, polls[..j - 1]).buckets {
        i := EveryPoll(c, polls, k, j - 1);
      } else {
        i := j - 1;
      }
    }
  }

  // ---------- without a refill ----------

  /** A limiter that never refills tells a rejected client so, and keeps to it; one that does never
      says it. */
  lemma NeverMeansNever(c: Config, b: Bucket, now: real, later: real)
    ensures Spend(c, b, now).1 == Never <==> c.refill <= 0.0 && Spend(c, b, now).1 != Allowed
    ensures Spend(c, b, now).1 == Never ==> Spend(c, Spend(c, b, now).0, later).1 == Never
  {
    NoGain(Elapsed(Spend(c, b, now).0, later), c.refill);
  }

  lemma NoGain(elapsed: real, refill: real)
    requires elapsed >= 0.0
    ensures refill <= 0.0 ==> elapsed * refill <= 0.0
  {
  }
}

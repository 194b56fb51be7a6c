/** Exactly who is evicted: the stalest clients, and among equally stale ones those tracked longest. */
module LimiterEviction {
  import opened RateLimiter
  import opened LimiterTheorems

  ghost predicate Precedes(keys: seq<Key>, x: Key, y: Key) {
    exists i, j :: 0 <= i < j < |keys| && keys[i] == x && keys[j] == y
  }

  lemma PrecedesSnoc(keys: seq<Key>, z: Key, x: Key, y: Key)
    ensures Precedes(keys + [z], x, y) <==> Precedes(keys, x, y) || (x in keys && y == z)
  {
    var more := keys + [z];
    if Precedes(keys, x, y) {
      var i, j :| 0 <= i < j < |keys| && keys[i] == x && keys[j] == y;
      assert more[i] == x && more[j] == y;
    }
    if x in keys && y == z {
      var i :| 0 <= i < |keys| && keys[i] == x;
      assert more[i] == x && more[|keys|] == y;
    }
    if Precedes(more, x, y) {
      var i, j :| 0 <= i < j < |more| && more[i] == x && more[j] == y;
      assert keys[i] == x;
      if j < |keys| { assert keys[j] == y; }
    }
  }

  lemma PrecedesNone(x: Key, y: Key)
    ensures !Precedes([], x, y)
  {
  }

  lemma SplitLast(keys: seq<Key>)
    requires keys != []
    ensures keys == keys[..|keys| - 1] + [keys[|keys| - 1]]
  {
  }

  // ---------- the sort is stable ----------

  lemma {:induction false} InsertHas(sorted: seq<Key>, k: Key, at: map<Key, Bucket>, x: Key)
    ensures x in Insert(sorted, k, at) <==> x in sorted || x == k
  {
    if sorted != [] {
      SplitLast(sorted);
      InsertHas(sorted[..|sorted| - 1], k, at, x);
    }
  }

  /** Inserting disturbs no pair, and puts k behind every key that is not fresher. */
  lemma {:induction false} InsertStable(sorted: seq<Key>, k: Key, at: map<Key, Bucket>, x: Key, y: Key)
    ensures Precedes(sorted, x, y) ==> Precedes(Insert(sorted, k, at), x, y)
    ensures x in sorted && SeenAt(at, x) <= SeenAt(at, k) ==> Precedes(Insert(sorted, k, at), x, k)
  {
    hide Precedes;
    PrecedesSnoc(sorted, k, x, y);
    PrecedesSnoc(sorted, k, x, k);
    PrecedesNone(x, y);
    if sorted != [] {
      var n := |sorted| - 1;
      SplitLast(sorted);
      PrecedesSnoc(sorted[..n], sorted[n], x, y);
      InsertStable(sorted[..n], k, at, x, y);
      InsertHas(sorted[..n], k, at, x);
      PrecedesSnoc(Insert(sorted[..n], k, at), sorted[n], x, y);
      PrecedesSnoc(Insert(sorted[..n], k, at), sorted[n], x, k);
    }
  }

  lemma SameKeys(a: seq<Key>, b: seq<Key>, x: Key)
    requires Elements(a) == Elements(b)
    ensures x in a <==> x in b
  {
    assert x in Elements(a) <==> x in a;
  }

  lemma {:induction false} SortStable(order: seq<Key>, at: map<Key, Bucket>, x: Key, y: Key)
    requires Distinct(order) && Precedes(order, x, y) && SeenAt(at, x) <= SeenAt(at, y)
    ensures Precedes(SortedByLastSeen(order, at), x, y)
  {
    hide Precedes, Distinct, Insert, Elements;
    PrecedesNone(x, y);
    if order != [] {
      var n := |order| - 1;
      SplitLast(order);
      DistinctTail(order);
      PrecedesSnoc(order[..n], order[n], x, y);
      SortSorts(order[..n], at);
      SameKeys(SortedByLastSeen(order[..n], at), order[..n], x);
      InsertStable(SortedByLastSeen(order[..n], at), order[n], at, x, y);
      if Precedes(order[..n], x, y) { SortStable(order[..n], at, x, y); }
    }
  }

  // ---------- the table lists its clients by how long they have been tracked ----------

  /** The number of polls up to the one that client k has been tracked since. */
  function Since(c: Config, polls: seq<Poll>, k: Key): (n: nat)
    ensures n <= |polls|
  {
    if polls == [] then 0
    else
      var n := |polls| - 1;
      if polls[n].key == k && k !in Run(c, polls[..n]).buckets then |polls| else Since(c, polls[..n], k)
  }

  lemma {:induction false} DropKeepsOrder(order: seq<Key>, k: Key, x: Key, y: Key)
    ensures x in Drop(order, k) ==> x in order
    ensures Precedes(Drop(order, k), x, y) ==> Precedes(order, x, y)
  {
    hide Precedes;
    PrecedesNone(x, y);
    if order != [] {
      var n := |order| - 1;
      SplitLast(order);
      DropKeepsOrder(order[..n], k, x, y);
      PrecedesSnoc(order[..n], order[n], x, y);
      PrecedesSnoc(Drop(order[..n], k), order[n], x, y);
      DropLast(order, k);
    }
  }

  lemma {:induction false} DropAllKeepsOrder(order: seq<Key>, gone: seq<Key>, x: Key, y: Key)
    ensures x in DropAll(order, gone) ==> x in order
    ensures Precedes(DropAll(order, gone), x, y) ==> Precedes(order, x, y)
  {
    hide Precedes, Drop;
    if gone != [] {
      var n := |gone| - 1;
      DropAllKeepsOrder(order, gone[..n], x, y);
      DropKeepsOrder(DropAll(order, gone[..n]), gone[n], x, y);
    }
  }

  lemma EvictedKeepsOrder(c: Config, t: Table, x: Key, y: Key)
    ensures x in Evicted(c, t).order ==> x in t.order
    ensures Precedes(Evicted(c, t).order, x, y) ==> Precedes(t.order, x, y)
  {
    hide Precedes, DropAll, Victims;
    if |t.buckets| >= c.maxClients { DropAllKeepsOrder(t.order, Victims(c, t), x, y); }
  }

  lemma HasBucket(t: Table, x: Key)
    requires WellFormed(t)
    ensures x in t.order <==> x in t.buckets
  {
    assert x in Elements(t.order) <==> x in t.order;
  }

  lemma {:induction false} OrderIsSeniority(c: Config, polls: seq<Poll>, x: Key, y: Key)
    requires Sane(c) && Precedes(Run(c, polls).order, x, y)
    ensures Since(c, polls, x) < Since(c, polls, y)
  {
    hide Precedes, WellFormed, Evicted, Spend;
    PrecedesNone(x, y);
    if polls != [] {
      var n := |polls| - 1;
      var t, k := Run(c, polls[..n]), polls[n].key;
      RunFits(c, polls[..n]);
      HasBucket(t, x);
      HasBucket(t, y);
      HasBucket(t, k);
      if k in t.buckets {
        OrderIsSeniority(c, polls[..n], x, y);
      } else {
        PrecedesSnoc(Evicted(c, t).order, k, x, y);
        EvictedKeepsOrder(c, t, x, y);
        if Precedes(t.order, x, y) {
          OrderIsSeniority(c, polls[..n], x, y);
          PrecedesHas(t.order, x, y);
        }
      }
    }
  }

  lemma PrecedesHas(keys: seq<Key>, x: Key, y: Key)
    requires Precedes(keys, x, y)
    ensures x in keys && y in keys
  {
  }

  /** In a list of distinct keys one of two precedes the other. */
  lemma OneFirst(keys: seq<Key>, x: Key, y: Key)
    requires x in keys && y in keys && x != y && Distinct(keys)
    ensures Precedes(keys, x, y) <==> !Precedes(keys, y, x)
  {
    var i :| 0 <= i < |keys| && keys[i] == x;
    var j :| 0 <= j < |keys| && keys[j] == y;
    assert i < j ==> Precedes(keys, x, y);
    assert j < i ==> Precedes(keys, y, x);
  }

  lemma FrontPrecedes(s: seq<Key>, n: nat, v: Key, k: Key)
    requires n <= |s| && v in s[..n] && k in s && k !in s[..n]
    ensures Precedes(s, v, k)
  {
    var i :| 0 <= i < n && s[..n][i] == v;
    var j :| 0 <= j < |s| && s[j] == k;
    assert forall m :: 0 <= m < n ==> s[m] in s[..n];
  }

  /** When the table is full, each of its victims was seen before every survivor, or at the same time and
      has been tracked for longer. */
  lemma StalestFirst(c: Config, polls: seq<Poll>, v: Key, k: Key)
    requires Sane(c) && |Run(c, polls).buckets| == c.maxClients
    requires v in Victims(c, Run(c, polls)) && k in Run(c, polls).buckets && k !in Victims(c, Run(c, polls))
    ensures v in Run(c, polls).buckets
    ensures var b := Run(c, polls).buckets;
            || b[v].lastSeen < b[k].lastSeen
            || (b[v].lastSeen == b[k].lastSeen && Since(c, polls, v) < Since(c, polls, k))
  {
    hide Precedes, WellFormed, Run, SortedByLastSeen, Ascending, Distinct;
    var t := Run(c, polls);
    RunFits(c, polls);
    VictimsFit(c, t);
    assert v in Elements(Victims(c, t)) && k !in Elements(Victims(c, t));
    HasBucket(t, v);
    HasBucket(t, k);
    if t.buckets[v].lastSeen == t.buckets[k].lastSeen {
      TieBreak(c, t, v, k);
      OrderIsSeniority(c, polls, v, k);
    }
  }

  lemma TieBreak(c: Config, t: Table, v: Key, k: Key)
    requires WellFormed(t) && c.maxClients >= 1 && |t.buckets| == c.maxClients
    requires v in Victims(c, t) && k in t.order && k !in Victims(c, t) && v in t.order
    requires SeenAt(t.buckets, v) == SeenAt(t.buckets, k)
    ensures Precedes(t.order, v, k)
  {
    hide Precedes, SortedByLastSeen, Ascending, Distinct;
    var s := SortedByLastSeen(t.order, t.buckets);
    SortSorts(t.order, t.buckets);
    SameKeys(s, t.order, k);
    FrontPrecedes(s, |Victims(c, t)|, v, k);
    SameKeys(s, t.order, v);
    OneFirst(t.order, v, k);
    OneFirst(s, v, k);
    if Precedes(t.order, k, v) { SortStable(t.order, t.buckets, k, v); }
  }
}

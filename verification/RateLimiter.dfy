/** The token bucket with an evicting client table. Times and tokens are reals. */
module RateLimiter {

  datatype Key = Client(address: string)

  datatype Bucket = Bucket(tokens: real, lastSeen: real)

  datatype Verdict = Allowed | RetryAfter(seconds: real) | Never

  datatype Config = Config(capacity: real, refill: real, maxClients: nat)

  /** The settings the service's configuration admits. */
  predicate Sane(c: Config) {
    c.capacity >= 1.0 && c.refill > 0.0 && c.maxClients >= 1
  }

  /** A client table: buckets, and the keys in insertion order. */
  datatype Table = Table(order: seq<Key>, buckets: map<Key, Bucket>)

  const EMPTY := Table([], map[])

  // ---------- one bucket ----------

  function MinReal(a: real, b: real): real { if a <= b then a else b }

  function Elapsed(b: Bucket, now: real): real {
    if now - b.lastSeen > 0.0 then now - b.lastSeen else 0.0
  }

  function Refilled(c: Config, b: Bucket, now: real): real {
    MinReal(c.capacity, b.tokens + Elapsed(b, now) * c.refill)
  }

  function Spend(c: Config, b: Bucket, now: real): (Bucket, Verdict) {
    var tokens := Refilled(c, b, now);
    if tokens >= 1.0 then (Bucket(tokens - 1.0, now), Allowed)
    else if c.refill <= 0.0 then (Bucket(tokens, now), Never)
    else (Bucket(tokens, now), RetryAfter((1.0 - tokens) / c.refill))
  }

  function FirstSeen(c: Config, now: real): Bucket {
    Bucket(c.capacity - 1.0, now)
  }

  // ---------- eviction ----------

  function SeenAt(at: map<Key, Bucket>, k: Key): real {
    if k in at then at[k].lastSeen else 0.0
  }

  /** Insert into a list sorted by `lastSeen`, after the entries that are not fresher. */
  function Insert(sorted: seq<Key>, k: Key, at: map<Key, Bucket>): seq<Key> {
    if sorted == [] then [k]
    else
      var n := |sorted| - 1;
      if SeenAt(at, sorted[n]) <= SeenAt(at, k) then sorted + [k]
      else Insert(sorted[..n], k, at) + [sorted[n]]
  }

  /** Python's stable `sorted(keys, key=last_seen)`. */
  function SortedByLastSeen(order: seq<Key>, at: map<Key, Bucket>): seq<Key> {
    if order == [] then []
    else
      var n := |order| - 1;
      Insert(SortedByLastSeen(order[..n], at), order[n], at)
  }

  ghost predicate Distinct(keys: seq<Key>) {
    forall i, j :: 0 <= i < j < |keys| ==> keys[i] != keys[j]
  }

  ghost predicate Ascending(keys: seq<Key>, at: map<Key, Bucket>) {
    forall i, j :: 0 <= i < j < |keys| ==> SeenAt(at, keys[i]) <= SeenAt(at, keys[j])
  }

  lemma {:induction false} InsertAdds(sorted: seq<Key>, k: Key, at: map<Key, Bucket>)
    ensures |Insert(sorted, k, at)| == |sorted| + 1
    ensures Elements(Insert(sorted, k, at)) == Elements(sorted) + {k}
  {
    if sorted != [] {
      var n := |sorted| - 1;
      InsertAdds(sorted[..n], k, at);
      ElementsLast(sorted);
      ElementsSnoc(sorted, k);
      ElementsSnoc(Insert(sorted[..n], k, at), sorted[n]);
    }
  }

  lemma {:induction false} InsertSorts(sorted: seq<Key>, k: Key, at: map<Key, Bucket>)
    requires Ascending(sorted, at) && Distinct(sorted) && k !in sorted
    ensures Ascending(Insert(sorted, k, at), at) && Distinct(Insert(sorted, k, at))
  {
    if sorted != [] {
      var n := |sorted| - 1;
      if SeenAt(at, sorted[n]) > SeenAt(at, k) {
        InsertSorts(sorted[..n], k, at);
        InsertAdds(sorted[..n], k, at);
        AppendSorts(Insert(sorted[..n], k, at), sorted[n], at);
      } else {
        AppendSorts(sorted, k, at);
      }
    }
  }

  lemma AppendSorts(sorted: seq<Key>, x: Key, at: map<Key, Bucket>)
    requires forall y :: y in Elements(sorted) ==> y != x && SeenAt(at, y) <= SeenAt(at, x)
    requires Ascending(sorted, at) && Distinct(sorted)
    ensures Ascending(sorted + [x], at) && Distinct(sorted + [x])
  {
    assert forall i :: 0 <= i < |sorted| ==> sorted[i] in Elements(sorted);
  }

  /** Sorting orders the keys and neither adds, loses nor repeats one. */
  lemma {:induction false} SortSorts(order: seq<Key>, at: map<Key, Bucket>)
    requires Distinct(order)
    ensures var s := SortedByLastSeen(order, at);
            Ascending(s, at) && Distinct(s) && |s| == |order| && Elements(s) == Elements(order)
  {
    hide Ascending, Insert;
    if order == [] {
      AscendingNone(at);
    } else {
      var n := |order| - 1;
      var init := SortedByLastSeen(order[..n], at);
      DistinctTail(order);
      ElementsLast(order);
      SortSorts(order[..n], at);
      assert order[n] in init <==> order[n] in Elements(init);
      InsertSorts(init, order[n], at);
      InsertAdds(init, order[n], at);
    }
  }

  lemma AscendingNone(at: map<Key, Bucket>)
    ensures Ascending([], at)
  {
  }

  /** The insertion order after `del buckets[k]`. */
  function Drop(order: seq<Key>, k: Key): seq<Key> {
    if order == [] then []
    else
      var n := |order| - 1;
      Drop(order[..n], k) + if order[n] == k then [] else [order[n]]
  }

  function DropAll(order: seq<Key>, gone: seq<Key>): seq<Key> {
    if gone == [] then order
    else
      var n := |gone| - 1;
      Drop(DropAll(order, gone[..n]), gone[n])
  }

  function EvictionBatch(c: Config): nat {
    if c.maxClients / 10 >= 1 then c.maxClients / 10 else 1
  }

  ghost predicate WellFormed(t: Table) {
    && Elements(t.order) == t.buckets.Keys
    && |t.order| == |t.buckets|
    && Distinct(t.order)
  }

  function Victims(c: Config, t: Table): seq<Key> {
    var s := SortedByLastSeen(t.order, t.buckets);
    s[..if EvictionBatch(c) <= |s| then EvictionBatch(c) else |s|]
  }

  function Elements(keys: seq<Key>): set<Key> {
    set k | k in keys
  }

  function Evicted(c: Config, t: Table): Table {
    if |t.buckets| < c.maxClients then t
    else Table(DropAll(t.order, Victims(c, t)), t.buckets - Elements(Victims(c, t)))
  }

  // ---------- one check ----------

  function Decide(c: Config, t: Table, key: Key, now: real): (Table, Verdict) {
    if key in t.buckets then
      var (b, v) := Spend(c, t.buckets[key], now);
      (t.(buckets := t.buckets[key := b]), v)
    else
      var e := Evicted(c, t);
      (Table(e.order + [key], e.buckets[key := FirstSeen(c, now)]), Allowed)
  }

  class RateLimiter {
    const config: Config
    var order: seq<Key>
    var buckets: map<Key, Bucket>

    ghost predicate Valid()
      reads this
    {
      config.maxClients >= 1 && WellFormed(View()) && |buckets| <= config.maxClients
    }

    function View(): Table
      reads this
    {
      Table(order, buckets)
    }

    constructor (config: Config)
      requires config.maxClients >= 1
      ensures Valid() && View() == EMPTY && this.config == config
    {
      this.config := config;
      order, buckets := [], map[];
    }

    method Check(key: Key, now: real) returns (verdict: Verdict)
      requires Valid()
      modifies this
      ensures Valid()
      ensures (View(), verdict) == Decide(config, old(View()), key, now)
    {
      hide WellFormed, Evicted;
      if key !in buckets {
        EvictIfFull();
        InsertionFits(View(), key, FirstSeen(config, now));
        order := order + [key];
        buckets := buckets[key := Bucket(config.capacity - 1.0, now)];
        return Allowed;
      }
      ghost var spent := Spend(config, buckets[key], now).0;
      UpdateFits(View(), key, spent);
      var bucket := buckets[key];
      var elapsed := if now - bucket.lastSeen > 0.0 then now - bucket.lastSeen else 0.0;
      var tokens := MinReal(config.capacity, bucket.tokens + elapsed * config.refill);
      assert tokens == Refilled(config, bucket, now);
      if tokens >= 1.0 {
        assert spent == Bucket(tokens - 1.0, now);
        buckets := buckets[key := Bucket(tokens - 1.0, now)];
        return Allowed;
      }
      buckets := buckets[key := Bucket(tokens, now)];
      if config.refill <= 0.0 {
        return Never;
      }
      return RetryAfter((1.0 - tokens) / config.refill);
    }

    method EvictIfFull()
      requires Valid()
      modifies this
      ensures Valid() && |buckets| < config.maxClients
      ensures View() == Evicted(config, old(View())) && buckets.Keys <= old(buckets).Keys
    {
      if |buckets| < config.maxClients {
        return;
      }
      var victims := Victims(config, View());
      EvictionFits(config, View());
      hide DropAll, Victims, Elements, WellFormed, Evicted, EvictionBatch;
      DeleteAll(victims);
    }

    /** Delete the victims one by one. */
    method DeleteAll(victims: seq<Key>)
      modifies this
      ensures View() == Table(DropAll(old(order), victims), old(buckets) - Elements(victims))
    {
      ghost var t := View();
      DropNone(t);
      assert victims[..0] == [];
      hide DropAll, Drop, Elements;
      var i := 0;
      while i < |victims|
        invariant 0 <= i <= |victims|
        invariant order == DropAll(t.order, victims[..i])
        invariant buckets == t.buckets - Elements(victims[..i])
      {
        DropOneMore(t, victims, i);
        order := Drop(order, victims[i]);
        buckets := buckets - {victims[i]};
        i := i + 1;
      }
      assert victims[..i] == victims;
    }
  }

  // ---------- facts about the table ----------

  lemma UpdateFits(t: Table, key: Key, b: Bucket)
    requires WellFormed(t) && key in t.buckets
    ensures WellFormed(t.(buckets := t.buckets[key := b])) && |t.buckets[key := b]| == |t.buckets|
  {
  }

  lemma InsertionFits(t: Table, key: Key, b: Bucket)
    requires WellFormed(t) && key !in t.buckets
    ensures WellFormed(Table(t.order + [key], t.buckets[key := b]))
    ensures |t.buckets[key := b]| == |t.buckets| + 1
  {
    hide Distinct, Elements;
    ElementsSnoc(t.order, key);
    DistinctSnoc(t.order, key);
  }

  lemma DropNone(t: Table)
    ensures DropAll(t.order, []) == t.order
    ensures Elements([]) == {} && t.buckets - Elements([]) == t.buckets
  {
  }

  lemma DropOneMore(t: Table, victims: seq<Key>, i: nat)
    requires i < |victims|
    ensures DropAll(t.order, victims[..i + 1]) == Drop(DropAll(t.order, victims[..i]), victims[i])
    ensures t.buckets - Elements(victims[..i + 1]) == (t.buckets - Elements(victims[..i])) - {victims[i]}
  {
    assert victims[..i + 1][..i] == victims[..i];
    ElementsLast(victims[..i + 1]);
  }

  lemma DistinctTail(s: seq<Key>)
    requires Distinct(s) && s != []
    ensures var n := |s| - 1; Distinct(s[..n]) && s[n] !in Elements(s[..n])
  {
  }

  lemma DistinctSnoc(s: seq<Key>, x: Key)
    requires Distinct(s) && x !in Elements(s)
    ensures Distinct(s + [x])
  {
  }

  lemma DropLast(order: seq<Key>, k: Key)
    requires order != []
    ensures var n := |order| - 1;
            Drop(order, k) == if order[n] == k then Drop(order[..n], k) else Drop(order[..n], k) + [order[n]]
  {
  }

  lemma {:induction false} DropDrops(order: seq<Key>, k: Key)
    requires Distinct(order)
    ensures Distinct(Drop(order, k))
    ensures Elements(Drop(order, k)) == Elements(order) - {k}
    ensures |Drop(order, k)| == |order| - if k in Elements(order) then 1 else 0
  {
    hide Distinct, Elements;
    if order == [] {
      ElementsNone();
    } else {
      var n := |order| - 1;
      DistinctTail(order);
      DropLast(order, k);
      ElementsLast(order);
      DropDrops(order[..n], k);
      if order[n] != k {
        DistinctSnoc(Drop(order[..n], k), order[n]);
        ElementsSnoc(Drop(order[..n], k), order[n]);
      }
    }
  }

  lemma {:induction false} DropAllDrops(order: seq<Key>, gone: seq<Key>)
    requires Distinct(order) && Distinct(gone) && Elements(gone) <= Elements(order)
    ensures Distinct(DropAll(order, gone))
    ensures Elements(DropAll(order, gone)) == Elements(order) - Elements(gone)
    ensures |DropAll(order, gone)| == |order| - |gone|
  {
    hide Distinct, Elements, Drop;
    if gone == [] {
      ElementsNone();
    } else {
      var n := |gone| - 1;
      DistinctTail(gone);
      ElementsLast(gone);
      DropAllDrops(order, gone[..n]);
      DropDrops(DropAll(order, gone[..n]), gone[n]);
    }
  }

  lemma ElementsNone()
    ensures Elements([]) == {}
  {
  }

  lemma ElementsSnoc(keys: seq<Key>, k: Key)
    ensures Elements(keys + [k]) == Elements(keys) + {k}
  {
  }

  lemma ElementsLast(keys: seq<Key>)
    requires keys != []
    ensures Elements(keys) == Elements(keys[..|keys| - 1]) + {keys[|keys| - 1]}
  {
    assert keys == keys[..|keys| - 1] + [keys[|keys| - 1]];
    ElementsSnoc(keys[..|keys| - 1], keys[|keys| - 1]);
  }

  lemma {:induction false} ElementsCount(keys: seq<Key>)
    requires Distinct(keys)
    ensures |Elements(keys)| == |keys|
  {
    hide Distinct, Elements;
    if keys == [] {
      ElementsNone();
    } else {
      DistinctTail(keys);
      ElementsCount(keys[..|keys| - 1]);
      ElementsLast(keys);
    }
  }

  lemma FrontIsOldest(s: seq<Key>, at: map<Key, Bucket>, n: nat, v: Key, k: Key)
    requires n <= |s| && Ascending(s, at)
    requires v in s[..n] && k in s && k !in s[..n]
    ensures SeenAt(at, v) <= SeenAt(at, k)
  {
    assert forall j :: 0 <= j < n ==> s[j] in s[..n];
    var i :| 0 <= i < n && s[..n][i] == v;
    var j :| 0 <= j < |s| && s[j] == k;
  }

  lemma FrontFits(s: seq<Key>, n: nat)
    requires n <= |s| && Distinct(s)
    ensures Distinct(s[..n]) && Elements(s[..n]) <= Elements(s)
  {
  }

  /** The victims are distinct tracked clients, a tenth of the table or one, none seen later than a survivor. */
  lemma VictimsFit(c: Config, t: Table)
    requires c.maxClients >= 1 && WellFormed(t) && |t.buckets| >= c.maxClients
    ensures var v := Victims(c, t);
            |v| == EvictionBatch(c) == |Elements(v)| && Distinct(v) && Elements(v) <= t.buckets.Keys
    ensures var n := |Victims(c, t)|;
            if c.maxClients < 10 then n == 1 else 10 * n <= c.maxClients < 10 * n + 10
    ensures forall v, k :: v in Elements(Victims(c, t)) && k in t.buckets && k !in Elements(Victims(c, t)) ==>
                             t.buckets[v].lastSeen <= t.buckets[k].lastSeen
  {
    hide SortedByLastSeen, Ascending, Distinct;
    var s := SortedByLastSeen(t.order, t.buckets);
    SortSorts(t.order, t.buckets);
    var n := EvictionBatch(c);
    FrontFits(s, n);
    ElementsCount(s[..n]);
    forall v, k | v in Elements(s[..n]) && k in t.buckets && k !in Elements(s[..n])
      ensures t.buckets[v].lastSeen <= t.buckets[k].lastSeen
    {
      assert k in Elements(s) && v in Elements(s);
      FrontIsOldest(s, t.buckets, n, v, k);
    }
  }

  lemma EvictionFits(c: Config, t: Table)
    requires c.maxClients >= 1 && WellFormed(t) && |t.buckets| == c.maxClients
    ensures WellFormed(Evicted(c, t))
    ensures Evicted(c, t) == Table(DropAll(t.order, Victims(c, t)), t.buckets - Elements(Victims(c, t)))
    ensures |Evicted(c, t).buckets| == |t.buckets| - EvictionBatch(c) < c.maxClients
  {
    hide Victims, Elements, Distinct, DropAll;
    VictimsFit(c, t);
    var victims := Victims(c, t);
    DropAllDrops(t.order, victims);
    assert (t.buckets - Elements(victims)).Keys == t.buckets.Keys - Elements(victims);
  }
}

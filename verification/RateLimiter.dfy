/** The in-process token-bucket limiter of one Ahub worker: an ordered
    dictionary of buckets, pruned from its oldest end and bounded in size.

    The limiter is specified by pure functions over `Lru`; `AhubRateLimiter`
    is the mutable object, proved to compute them.  Clock readings and token
    counts are reals. */
module RateLimiter {

  const MAX_BUCKETS := 10000

  /** The operator's configuration. */
  datatype Config = Config(requestsPerMinute: int, burst: int, maxBuckets: int) {
    predicate Valid() {
      requestsPerMinute > 0 && burst > 0 && 0 < maxBuckets <= MAX_BUCKETS
    }

    /** The quantities the limiter computes with. */
    function Tune(): Tuning
      requires Valid()
    {
      var rate := requestsPerMinute as real / 60.0;
      Tuning(rate, (elapsed: real) => elapsed * rate, burst as real, Max(60.0, burst as real / rate * 2.0), maxBuckets)
    }
  }

  /** `earn` is multiplication by `rate`, kept as a function of its own so that
      proofs meet a product only where `EarnIs` spells it out. */
  datatype Tuning = Tuning(rate: real, earn: real -> real, burst: real, staleAfter: real, maxBuckets: nat) {
    ghost predicate Valid() {
      && rate > 0.0 && burst >= 1.0 && maxBuckets > 0
      && (forall x {:trigger Seconds(x)} :: earn(x) == Seconds(x) * rate)
      && staleAfter >= 60.0 && staleAfter * rate >= 2.0 * burst
    }
  }

  ghost function Seconds(x: real): real {
    x
  }

  lemma EarnIs(cfg: Tuning, x: real)
    requires cfg.Valid()
    ensures cfg.earn(x) == x * cfg.rate
  {
    assert Seconds(x) == x;
  }

  lemma EarnNothing(cfg: Tuning)
    requires cfg.Valid()
    ensures cfg.earn(0.0) == 0.0
  {
    EarnIs(cfg, 0.0);
  }

  lemma EarnGrows(cfg: Tuning, x: real, y: real)
    requires cfg.Valid() && x <= y
    ensures cfg.earn(x) <= cfg.earn(y)
    ensures 0.0 <= x ==> 0.0 <= cfg.earn(x)
  {
    EarnIs(cfg, x);
    EarnIs(cfg, y);
  }

  lemma EarnAdds(cfg: Tuning, x: real, y: real)
    requires cfg.Valid()
    ensures cfg.earn(x + y) == cfg.earn(x) + cfg.earn(y)
  {
    EarnIs(cfg, x);
    EarnIs(cfg, y);
    EarnIs(cfg, x + y);
  }

  /** An accepted configuration earns its requests per minute, holds its burst and
      its number of buckets, and keeps a bucket for a minute or for twice the time
      of a whole refill, whichever is longer. */
  lemma TuningIsValid(config: Config)
    requires config.Valid()
    ensures var t := config.Tune();
      && t.Valid()
      && t.earn(60.0) == config.requestsPerMinute as real && t.burst == config.burst as real && t.maxBuckets == config.maxBuckets
      && (t.staleAfter == 60.0 || t.earn(t.staleAfter) == 2.0 * config.burst as real)
  {
    var t := config.Tune();
    var refillTime := t.burst / t.rate;
    assert refillTime * t.rate == t.burst;
    assert refillTime * 2.0 * t.rate == 2.0 * t.burst;
    assert refillTime * 2.0 <= t.staleAfter;
    assert refillTime * 2.0 * t.rate <= t.staleAfter * t.rate;
  }

  function Max(x: real, y: real): real {
    if x < y then y else x
  }

  function Min(x: real, y: real): real {
    if x < y then x else y
  }

  function Ceil(x: real): int {
    -((-x).Floor)
  }

  /** `str(key)[:512] or "unknown"` */
  function Normalize(key: string): string {
    if key == "" then "unknown" else if |key| > 512 then key[..512] else key
  }

  /** Who shares a bucket: peers whose keys begin with the same 512 characters, and
      those without a key with the one called unknown. */
  lemma SharesBucketIff(a: string, b: string)
    ensures Normalize(a) == Normalize(b)
            <==> || (a == b)
                 || (|a| >= 512 && |b| >= 512 && forall i :: 0 <= i < 512 ==> a[i] == b[i])
                 || (a == "" && b == "unknown") || (a == "unknown" && b == "")
  {
    var x, y := Normalize(a), Normalize(b);
    assert |"unknown"| == 7;
    if |a| >= 512 && |b| >= 512 {
      assert forall i :: 0 <= i < 512 ==> x[i] == a[i] && y[i] == b[i];
    }
  }

  datatype Bucket = Bucket(tokens: real, updated: real)

  /** An ordered dictionary: `order` lists the keys of `buckets`, oldest first. */
  datatype Lru = Lru(order: seq<string>, buckets: map<string, Bucket>) {
    ghost predicate WellFormed() {
      && (forall i, j :: 0 <= i < j < |order| ==> order[i] != order[j])
      && (forall k :: k in order <==> k in buckets)
    }

    function PopOldest(): Lru
      requires order != []
    {
      Lru(order[1..], buckets - {order[0]})
    }

    /** Stores a bucket and moves its key to the newest end. */
    function Touch(key: string, bucket: Bucket): Lru {
      Lru(Remove(order, key) + [key], buckets[key := bucket])
    }
  }

  const EMPTY := Lru([], map[])

  function Remove(s: seq<string>, key: string): seq<string> {
    if s == [] then []
    else if s[0] == key then Remove(s[1..], key)
    else [s[0]] + Remove(s[1..], key)
  }

  predicate IsStale(cfg: Tuning, bucket: Bucket, now: real) {
    now - bucket.updated > cfg.staleAfter
  }

  /** Pops stale buckets from the oldest end and stops at the first fresh one. */
  function Prune(cfg: Tuning, l: Lru, now: real): Lru
    decreases |l.order|
  {
    if l.order == [] || l.order[0] !in l.buckets then l
    else if !IsStale(cfg, l.buckets[l.order[0]], now) then l
    else Prune(cfg, l.PopOldest(), now)
  }

  /** Makes room for one more bucket. */
  function Evict(cfg: Tuning, l: Lru): Lru
    requires cfg.Valid()
    decreases |l.order|
  {
    if |l.order| < cfg.maxBuckets then l else Evict(cfg, l.PopOldest())
  }

  function Refill(cfg: Tuning, bucket: Bucket, now: real): Bucket {
    Bucket(Min(cfg.burst, bucket.tokens + cfg.earn(Max(0.0, now - bucket.updated))), now)
  }

  function Fresh(cfg: Tuning, now: real): Bucket {
    Bucket(cfg.burst, now)
  }

  datatype Answer = Answer(allowed: bool, retryAfter: int)

  /** The verdict on a bucket that has just been refilled. */
  function Decide(cfg: Tuning, bucket: Bucket): Answer
    requires cfg.Valid()
  {
    if bucket.tokens < 1.0 then
      var wait := Ceil((1.0 - bucket.tokens) / cfg.rate);
      Answer(false, if wait < 1 then 1 else wait)
    else
      Answer(true, 0)
  }

  function Spend(bucket: Bucket): Bucket {
    if bucket.tokens < 1.0 then bucket else bucket.(tokens := bucket.tokens - 1.0)
  }

  /** The state and the refilled bucket on which a request of `key` is decided. */
  function Admit(cfg: Tuning, l: Lru, key: string, now: real): (Lru, Bucket)
    requires cfg.Valid()
  {
    var pruned := Prune(cfg, l, now);
    if key in pruned.buckets then (pruned, Refill(cfg, pruned.buckets[key], now))
    else (Evict(cfg, pruned), Fresh(cfg, now))
  }

  function AllowState(cfg: Tuning, l: Lru, key: string, now: real): Lru
    requires cfg.Valid()
  {
    var (room, bucket) := Admit(cfg, l, Normalize(key), now);
    room.Touch(Normalize(key), Spend(bucket))
  }

  function AllowAnswer(cfg: Tuning, l: Lru, key: string, now: real): Answer
    requires cfg.Valid()
  {
    Decide(cfg, Admit(cfg, l, Normalize(key), now).1)
  }

  // ----- The reference limiter: one bucket per key, nothing ever forgotten -----

  function SimpleBucket(cfg: Tuning, m: map<string, Bucket>, key: string, now: real): Bucket {
    if key in m then Refill(cfg, m[key], now) else Fresh(cfg, now)
  }

  function SimpleState(cfg: Tuning, m: map<string, Bucket>, key: string, now: real): map<string, Bucket> {
    m[Normalize(key) := Spend(SimpleBucket(cfg, m, Normalize(key), now))]
  }

  function SimpleAnswer(cfg: Tuning, m: map<string, Bucket>, key: string, now: real): Answer
    requires cfg.Valid()
  {
    Decide(cfg, SimpleBucket(cfg, m, Normalize(key), now))
  }

  // ----- Request traces -----

  datatype Request = Request(key: string, at: real)

  ghost predicate Monotone(since: real, trace: seq<Request>)
    decreases |trace|
  {
    trace != [] ==> since <= trace[0].at && Monotone(trace[0].at, trace[1..])
  }

  ghost function Run(cfg: Tuning, l: Lru, trace: seq<Request>): Lru
    requires cfg.Valid()
    decreases |trace|
  {
    if trace == [] then l else Run(cfg, AllowState(cfg, l, trace[0].key, trace[0].at), trace[1..])
  }

  ghost function Answers(cfg: Tuning, l: Lru, trace: seq<Request>): seq<Answer>
    requires cfg.Valid()
    decreases |trace|
  {
    if trace == [] then []
    else [AllowAnswer(cfg, l, trace[0].key, trace[0].at)]
         + Answers(cfg, AllowState(cfg, l, trace[0].key, trace[0].at), trace[1..])
  }

  ghost function SimpleAnswers(cfg: Tuning, m: map<string, Bucket>, trace: seq<Request>): seq<Answer>
    requires cfg.Valid()
    decreases |trace|
  {
    if trace == [] then []
    else [SimpleAnswer(cfg, m, trace[0].key, trace[0].at)]
         + SimpleAnswers(cfg, SimpleState(cfg, m, trace[0].key, trace[0].at), trace[1..])
  }

  /** The request drops `victim`'s bucket to make room for another key. */
  ghost predicate Evicts(cfg: Tuning, l: Lru, r: Request, victim: string)
    requires cfg.Valid()
  {
    && victim in Prune(cfg, l, r.at).buckets
    && victim !in Admit(cfg, l, Normalize(r.key), r.at).0.buckets
  }

  ghost predicate NoEviction(cfg: Tuning, l: Lru, trace: seq<Request>)
    requires cfg.Valid()
    decreases |trace|
  {
    trace != [] ==>
      && (forall victim :: !Evicts(cfg, l, trace[0], victim))
      && NoEviction(cfg, AllowState(cfg, l, trace[0].key, trace[0].at), trace[1..])
  }

  ghost function Admits(cfg: Tuning, l: Lru, r: Request, key: string): nat
    requires cfg.Valid()
  {
    if Normalize(r.key) == key && AllowAnswer(cfg, l, r.key, r.at).allowed then 1 else 0
  }

  /** How many requests of a (normalized) key the trace admits. */
  ghost function Admitted(cfg: Tuning, l: Lru, trace: seq<Request>, key: string): nat
    requires cfg.Valid()
    decreases |trace|
  {
    if trace == [] then 0
    else Admits(cfg, l, trace[0], key)
         + Admitted(cfg, AllowState(cfg, l, trace[0].key, trace[0].at), trace[1..], key)
  }

  ghost function Evicted(cfg: Tuning, l: Lru, r: Request, key: string): nat
    requires cfg.Valid()
  {
    if Evicts(cfg, l, r, key) then 1 else 0
  }

  /** How often the trace evicts the key for lack of room. */
  ghost function Evictions(cfg: Tuning, l: Lru, trace: seq<Request>, key: string): nat
    requires cfg.Valid()
    decreases |trace|
  {
    if trace == [] then 0
    else Evicted(cfg, l, trace[0], key)
         + Evictions(cfg, AllowState(cfg, l, trace[0].key, trace[0].at), trace[1..], key)
  }

  // ----- The invariant -----

  ghost predicate Sorted(l: Lru)
    requires l.WellFormed()
  {
    forall i, j :: 0 <= i < j < |l.order| ==> l.buckets[l.order[i]].updated <= l.buckets[l.order[j]].updated
  }

  ghost predicate Healthy(cfg: Tuning, l: Lru, now: real) {
    && l.WellFormed()
    && Sorted(l)
    && forall k :: k in l.buckets ==> l.buckets[k].updated <= now && 0.0 <= l.buckets[k].tokens <= cfg.burst
  }

  /** Healthy, and within the configured number of buckets. */
  ghost predicate Valid(cfg: Tuning, l: Lru, now: real) {
    Healthy(cfg, l, now) && |l.order| <= cfg.maxBuckets
  }

  lemma PopKeepsWellFormed(l: Lru)
    requires l.WellFormed() && l.order != []
    ensures l.PopOldest().WellFormed()
  {
    var p := l.PopOldest();
    forall k | k in p.buckets ensures k in p.order {
      var i :| 0 <= i < |l.order| && l.order[i] == k;
      assert p.order[i - 1] == k;
    }
    forall k | k in p.order ensures k in p.buckets {
      var i :| 0 <= i < |p.order| && p.order[i] == k;
      assert l.order[i + 1] == k;
    }
  }

  lemma PopKeepsHealthy(cfg: Tuning, l: Lru, now: real)
    requires Healthy(cfg, l, now) && l.order != []
    ensures Healthy(cfg, l.PopOldest(), now)
  {
    PopKeepsWellFormed(l);
  }

  /** The early exit misses nothing: exactly the stale buckets are dropped. */
  lemma {:induction false} PruneDropsExactlyStale(cfg: Tuning, l: Lru, now: real)
    requires Healthy(cfg, l, now)
    ensures Healthy(cfg, Prune(cfg, l, now), now)
    ensures forall k :: k in Prune(cfg, l, now).buckets <==> k in l.buckets && !IsStale(cfg, l.buckets[k], now)
    ensures forall k :: k in Prune(cfg, l, now).buckets ==> Prune(cfg, l, now).buckets[k] == l.buckets[k]
    ensures |Prune(cfg, l, now).order| <= |l.order|
    decreases |l.order|
  {
    if l.order == [] {
      assert Prune(cfg, l, now) == l;
    } else if IsStale(cfg, l.buckets[l.order[0]], now) {
      PopKeepsHealthy(cfg, l, now);
      PruneDropsExactlyStale(cfg, l.PopOldest(), now);
    } else {
      assert Prune(cfg, l, now) == l;
      forall k | k in l.buckets ensures !IsStale(cfg, l.buckets[k], now) {
        var i :| 0 <= i < |l.order| && l.order[i] == k;
        assert l.buckets[l.order[0]].updated <= l.buckets[l.order[i]].updated;
      }
    }
  }

  lemma {:induction false} EvictMakesRoom(cfg: Tuning, l: Lru, now: real)
    requires cfg.Valid() && Healthy(cfg, l, now)
    ensures Healthy(cfg, Evict(cfg, l), now)
    ensures |Evict(cfg, l).order| < cfg.maxBuckets
    ensures forall k :: k in Evict(cfg, l).buckets ==> k in l.buckets && Evict(cfg, l).buckets[k] == l.buckets[k]
    decreases |l.order|
  {
    if |l.order| < cfg.maxBuckets {
    } else {
      PopKeepsHealthy(cfg, l, now);
      EvictMakesRoom(cfg, l.PopOldest(), now);
    }
  }

  lemma {:induction false} RemoveSpec(s: seq<string>, key: string)
    requires forall i, j :: 0 <= i < j < |s| ==> s[i] != s[j]
    ensures var r := Remove(s, key);
      && (forall k :: k in r <==> k in s && k != key)
      && (forall i, j :: 0 <= i < j < |r| ==> r[i] != r[j])
      && |r| == (if key in s then |s| - 1 else |s|)
  {
    if s == [] {
    } else {
      var tail := s[1..];
      RemoveSpec(tail, key);
      assert s == [s[0]] + tail;
      assert s[0] !in tail;
    }
  }

  lemma {:induction false} RemoveKeepsSorted(s: seq<string>, key: string, b: map<string, Bucket>)
    requires forall k :: k in s ==> k in b
    requires forall i, j :: 0 <= i < j < |s| ==> s[i] != s[j] && b[s[i]].updated <= b[s[j]].updated
    ensures forall k :: k in Remove(s, key) ==> k in s
    ensures forall i, j :: 0 <= i < j < |Remove(s, key)| ==> b[Remove(s, key)[i]].updated <= b[Remove(s, key)[j]].updated
  {
    RemoveSpec(s, key);
    if s == [] {
    } else {
      var tail := s[1..];
      RemoveKeepsSorted(tail, key, b);
      forall k | k in tail ensures b[s[0]].updated <= b[k].updated {
        var i :| 0 <= i < |tail| && tail[i] == k;
        assert s[i + 1] == k;
      }
    }
  }

  lemma TouchKeepsSorted(l: Lru, key: string, bucket: Bucket)
    requires l.WellFormed() && Sorted(l)
    requires forall k :: k in l.buckets ==> l.buckets[k].updated <= bucket.updated
    ensures l.Touch(key, bucket).WellFormed() && Sorted(l.Touch(key, bucket))
  {
    TouchKeepsWellFormed(l, key, bucket);
    RemoveSpec(l.order, key);
    RemoveKeepsSorted(l.order, key, l.buckets);
    var t, r := l.Touch(key, bucket), Remove(l.order, key);
    hide Remove;
    forall i, j | 0 <= i < j < |t.order| ensures t.buckets[t.order[i]].updated <= t.buckets[t.order[j]].updated {
      assert t.order[i] == r[i] && r[i] in l.order;
      if j < |r| {
        assert t.order[j] == r[j] && r[j] in l.order;
      }
    }
  }

  lemma TouchKeepsHealthy(cfg: Tuning, l: Lru, key: string, bucket: Bucket, now: real)
    requires Healthy(cfg, l, now)
    requires bucket.updated == now && 0.0 <= bucket.tokens <= cfg.burst
    ensures Healthy(cfg, l.Touch(key, bucket), now)
    ensures |l.Touch(key, bucket).order| == if key in l.buckets then |l.order| else |l.order| + 1
  {
    TouchKeepsSorted(l, key, bucket);
    RemoveSpec(l.order, key);
    hide Remove, Sorted;
  }

  lemma TouchKeepsWellFormed(l: Lru, key: string, bucket: Bucket)
    requires l.WellFormed()
    ensures l.Touch(key, bucket).WellFormed()
  {
    RemoveSpec(l.order, key);
  }

  lemma RefillBounds(cfg: Tuning, bucket: Bucket, now: real)
    requires cfg.Valid() && 0.0 <= bucket.tokens <= cfg.burst
    ensures bucket.tokens <= Refill(cfg, bucket, now).tokens <= cfg.burst
  {
    EarnGrows(cfg, 0.0, Max(0.0, now - bucket.updated));
    EarnNothing(cfg);
  }

  /** What `Admit` hands to the decision, in a valid state. */
  lemma AdmitSpec(cfg: Tuning, l: Lru, key: string, since: real, now: real)
    requires cfg.Valid() && Valid(cfg, l, since) && since <= now
    ensures var (room, bucket) := Admit(cfg, l, key, now);
      && Healthy(cfg, room, now)
      && bucket.updated == now && 0.0 <= bucket.tokens <= cfg.burst
      && (if key in room.buckets then |room.order| <= cfg.maxBuckets else |room.order| < cfg.maxBuckets)
      && (forall k :: k in room.buckets ==> k in l.buckets && room.buckets[k] == l.buckets[k])
      && (forall k :: k in l.buckets && k !in room.buckets ==>
            IsStale(cfg, l.buckets[k], now) || (k in Prune(cfg, l, now).buckets && key !in Prune(cfg, l, now).buckets))
  {
    PruneDropsExactlyStale(cfg, l, now);
    var pruned := Prune(cfg, l, now);
    if key in pruned.buckets {
      RefillBounds(cfg, pruned.buckets[key], now);
    } else {
      EvictMakesRoom(cfg, pruned, now);
    }
  }

  /** Every request keeps tokens in [0, burst], the order sorted and the size bounded. */
  lemma AllowKeepsValid(cfg: Tuning, l: Lru, key: string, since: real, now: real)
    requires cfg.Valid() && Valid(cfg, l, since) && since <= now
    ensures Valid(cfg, AllowState(cfg, l, key, now), now)
  {
    AdmitSpec(cfg, l, Normalize(key), since, now);
    var (room, bucket) := Admit(cfg, l, Normalize(key), now);
    TouchKeepsHealthy(cfg, room, Normalize(key), Spend(bucket), now);
  }

  // ----- The tokens a key can count on -----

  /** Tokens available to a key at `now`; an absent key starts full. */
  ghost function Credit(cfg: Tuning, l: Lru, key: string, now: real): real {
    if key in l.buckets then Refill(cfg, l.buckets[key], now).tokens else cfg.burst
  }

  /** A stale bucket has been full again for at least one whole refill time. */
  lemma StaleIsFull(cfg: Tuning, bucket: Bucket, now: real)
    requires cfg.Valid() && 0.0 <= bucket.tokens <= cfg.burst && IsStale(cfg, bucket, now)
    ensures Refill(cfg, bucket, now).tokens == cfg.burst
  {
    var elapsed := now - bucket.updated;
    EarnGrows(cfg, cfg.staleAfter, elapsed);
    EarnIs(cfg, cfg.staleAfter);
  }

  /** A request is admitted exactly when its key has a whole token of credit. */
  lemma AdmittedIffCredit(cfg: Tuning, l: Lru, key: string, since: real, now: real)
    requires cfg.Valid() && Valid(cfg, l, since) && since <= now
    ensures Admit(cfg, l, key, now).1.tokens == Credit(cfg, l, key, now)
    ensures Normalize(key) == key ==> (AllowAnswer(cfg, l, key, now).allowed <==> Credit(cfg, l, key, now) >= 1.0)
  {
    PruneDropsExactlyStale(cfg, l, now);
    if key in l.buckets && IsStale(cfg, l.buckets[key], now) {
      StaleIsFull(cfg, l.buckets[key], now);
    }
  }

  lemma CreditGrowth(cfg: Tuning, bucket: Bucket, t0: real, t1: real)
    requires cfg.Valid() && bucket.updated <= t0 <= t1
    ensures Refill(cfg, bucket, t0).tokens <= Refill(cfg, bucket, t1).tokens
    ensures Refill(cfg, bucket, t1).tokens <= Refill(cfg, bucket, t0).tokens + cfg.earn(t1 - t0)
  {
    EarnAdds(cfg, t0 - bucket.updated, t1 - t0);
    assert t0 - bucket.updated + (t1 - t0) == t1 - bucket.updated;
    EarnGrows(cfg, 0.0, t1 - t0);
    EarnNothing(cfg);
  }

  lemma RefillNow(cfg: Tuning, bucket: Bucket)
    requires cfg.Valid() && 0.0 <= bucket.tokens <= cfg.burst
    ensures Refill(cfg, bucket, bucket.updated).tokens == bucket.tokens
  {
    EarnNothing(cfg);
  }

  /** What time earns, and at most: the credit of a key between two readings. */
  lemma CreditOverTime(cfg: Tuning, l: Lru, key: string, since: real, t0: real, t1: real)
    requires cfg.Valid() && Valid(cfg, l, since) && since <= t0 <= t1
    ensures 0.0 <= Credit(cfg, l, key, t0) <= Credit(cfg, l, key, t1) <= cfg.burst
    ensures Credit(cfg, l, key, t1) <= Credit(cfg, l, key, t0) + cfg.earn(t1 - t0)
  {
    EarnGrows(cfg, 0.0, t1 - t0);
    EarnNothing(cfg);
    if key in l.buckets {
      CreditGrowth(cfg, l.buckets[key], t0, t1);
      RefillBounds(cfg, l.buckets[key], t0);
      RefillBounds(cfg, l.buckets[key], t1);
    }
  }

  /** A request leaves the credit of every other key alone, except that a key
      evicted for lack of room starts full again. */
  lemma CreditOfOthers(cfg: Tuning, l: Lru, r: Request, since: real, key: string, at: real)
    requires cfg.Valid() && Valid(cfg, l, since) && since <= r.at <= at
    requires Normalize(r.key) != key
    ensures Credit(cfg, AllowState(cfg, l, r.key, r.at), key, at)
            == if Evicts(cfg, l, r, key) then cfg.burst else Credit(cfg, l, key, at)
  {
    var k := Normalize(r.key);
    AdmitSpec(cfg, l, k, since, r.at);
    PruneDropsExactlyStale(cfg, l, r.at);
    var (room, bucket) := Admit(cfg, l, k, r.at);
    var next := AllowState(cfg, l, r.key, r.at);
    assert key in next.buckets <==> key in room.buckets;
    if key in room.buckets {
      assert next.buckets[key] == l.buckets[key];
    } else if key in l.buckets && IsStale(cfg, l.buckets[key], r.at) {
      StaleIsFull(cfg, l.buckets[key], at);
    }
  }

  lemma RequesterBucket(cfg: Tuning, l: Lru, key: string, now: real)
    requires cfg.Valid()
    ensures var k := Normalize(key);
      && k in AllowState(cfg, l, key, now).buckets
      && AllowState(cfg, l, key, now).buckets[k] == Spend(Admit(cfg, l, k, now).1)
  {
  }

  /** A request of the key itself spends one token exactly when it is admitted. */
  lemma CreditOfRequester(cfg: Tuning, l: Lru, r: Request, since: real)
    requires cfg.Valid() && Valid(cfg, l, since) && since <= r.at
    ensures var key := Normalize(r.key);
      Credit(cfg, AllowState(cfg, l, r.key, r.at), key, r.at)
      == Credit(cfg, l, key, r.at) - (if AllowAnswer(cfg, l, r.key, r.at).allowed then 1.0 else 0.0)
  {
    var key := Normalize(r.key);
    AdmitSpec(cfg, l, key, since, r.at);
    AdmittedIffCredit(cfg, l, key, since, r.at);
    RefillNow(cfg, Spend(Admit(cfg, l, key, r.at).1));
  }

  /** What that many evictions put back. */
  ghost function Refills(cfg: Tuning, evictions: nat): real {
    if evictions == 0 then 0.0 else cfg.burst + Refills(cfg, evictions - 1)
  }

  lemma {:induction false} RefillsIs(cfg: Tuning, evictions: nat)
    ensures Refills(cfg, evictions) == evictions as real * cfg.burst
  {
    if evictions == 0 {
    } else {
      RefillsIs(cfg, evictions - 1);
      assert evictions as real * cfg.burst == (evictions - 1) as real * cfg.burst + cfg.burst;
    }
  }

  /** One request moves a key's credit by at most what time earns, one token
      spent if admitted, and a full bucket if the key is evicted. */
  lemma CreditStep(cfg: Tuning, l: Lru, r: Request, since: real, key: string)
    requires cfg.Valid() && Valid(cfg, l, since) && since <= r.at
    ensures Admits(cfg, l, r, key) as real
            + Credit(cfg, AllowState(cfg, l, r.key, r.at), key, r.at)
            <= Credit(cfg, l, key, since) + cfg.earn(r.at - since) + Refills(cfg, Evicted(cfg, l, r, key))
  {
    CreditOverTime(cfg, l, key, since, since, r.at);
    if Normalize(r.key) == key {
      CreditOfRequester(cfg, l, r, since);
    } else {
      CreditOfOthers(cfg, l, r, since, key, r.at);
    }
  }

  lemma BudgetsAddUp(cfg: Tuning, spent: nat, credit: real, t1: real, e1: nat, rest: nat, next: real, t2: real, e2: nat)
    requires cfg.Valid() && e1 <= 1
    requires spent as real + next <= credit + cfg.earn(t1) + Refills(cfg, e1)
    requires rest as real <= next + cfg.earn(t2) + Refills(cfg, e2)
    ensures (spent + rest) as real <= credit + cfg.earn(t1 + t2) + Refills(cfg, e1 + e2)
  {
    EarnAdds(cfg, t1, t2);
  }

  ghost function EndTime(since: real, trace: seq<Request>): real
    decreases |trace|
  {
    if trace == [] then since else EndTime(trace[0].at, trace[1..])
  }

  lemma {:induction false} EndTimeIsLast(since: real, trace: seq<Request>)
    requires trace != []
    ensures EndTime(since, trace) == trace[|trace| - 1].at
    decreases |trace|
  {
    if |trace| == 1 {
    } else {
      EndTimeIsLast(trace[0].at, trace[1..]);
    }
  }

  /** The counts of a trace, one request at a time. */
  lemma CountsUnfold(cfg: Tuning, l: Lru, trace: seq<Request>, since: real, key: string)
    requires cfg.Valid() && trace != []
    ensures var r, rest := trace[0], trace[1..];
      var next := AllowState(cfg, l, r.key, r.at);
      && Admitted(cfg, l, trace, key) == Admits(cfg, l, r, key) + Admitted(cfg, next, rest, key)
      && Evictions(cfg, l, trace, key) == Evicted(cfg, l, r, key) + Evictions(cfg, next, rest, key)
      && Evicted(cfg, l, r, key) <= 1
      && EndTime(since, trace) == EndTime(r.at, rest)
  {
    hide AllowState, Admits, Evicts;
  }

  lemma {:induction false} CreditConserved(cfg: Tuning, l: Lru, trace: seq<Request>, since: real, key: string)
    requires cfg.Valid() && Valid(cfg, l, since) && Monotone(since, trace)
    ensures Admitted(cfg, l, trace, key) as real
            <= Credit(cfg, l, key, since) + cfg.earn(EndTime(since, trace) - since)
               + Refills(cfg, Evictions(cfg, l, trace, key))
    decreases |trace|
  {
    if trace == [] {
      NothingConserved(cfg, l, since, key);
    } else {
      var r, rest := trace[0], trace[1..];
      assert since <= r.at && Monotone(r.at, rest);
      hide *;
      var next := AllowState(cfg, l, r.key, r.at);
      AllowKeepsValid(cfg, l, r.key, since, r.at);
      CreditConserved(cfg, next, rest, r.at, key);
      RequestConserved(cfg, l, trace, since, key);
    }
  }

  lemma NothingConserved(cfg: Tuning, l: Lru, since: real, key: string)
    requires cfg.Valid() && Valid(cfg, l, since)
    ensures 0.0 <= Credit(cfg, l, key, since) + cfg.earn(since - since) + Refills(cfg, 0)
  {
    CreditOverTime(cfg, l, key, since, since, since);
    EarnNothing(cfg);
  }

  /** The budget of a trace follows from the budget of its tail. */
  lemma RequestConserved(cfg: Tuning, l: Lru, trace: seq<Request>, since: real, key: string)
    requires cfg.Valid() && Valid(cfg, l, since) && trace != [] && since <= trace[0].at
    requires var next := AllowState(cfg, l, trace[0].key, trace[0].at);
      Admitted(cfg, next, trace[1..], key) as real
      <= Credit(cfg, next, key, trace[0].at) + cfg.earn(EndTime(trace[0].at, trace[1..]) - trace[0].at)
         + Refills(cfg, Evictions(cfg, next, trace[1..], key))
    ensures Admitted(cfg, l, trace, key) as real
            <= Credit(cfg, l, key, since) + cfg.earn(EndTime(since, trace) - since)
               + Refills(cfg, Evictions(cfg, l, trace, key))
  {
    hide *;
    var r, rest := trace[0], trace[1..];
    var next := AllowState(cfg, l, r.key, r.at);
    CreditStep(cfg, l, r, since, key);
    CountsUnfold(cfg, l, trace, since, key);
    var t1, t2 := r.at - since, EndTime(r.at, rest) - r.at;
    BudgetsAddUp(cfg, Admits(cfg, l, r, key), Credit(cfg, l, key, since), t1, Evicted(cfg, l, r, key),
                 Admitted(cfg, next, rest, key), Credit(cfg, next, key, r.at), t2, Evictions(cfg, next, rest, key));
    assert t1 + t2 == EndTime(since, trace) - since;
  }

  /** `Refills` and `earn` in closed form. */
  lemma BudgetIs(cfg: Tuning, evictions: nat, elapsed: real)
    requires cfg.Valid()
    ensures Refills(cfg, evictions) + cfg.earn(elapsed) == evictions as real * cfg.burst + cfg.rate * elapsed
  {
    EarnIs(cfg, elapsed);
    RefillsIs(cfg, evictions);
  }

  lemma AdmissionBudget(cfg: Tuning, l: Lru, trace: seq<Request>, since: real, key: string)
    requires cfg.Valid() && Valid(cfg, l, since) && Monotone(since, trace) && trace != []
    ensures Admitted(cfg, l, trace, key) as real
            <= Refills(cfg, 1 + Evictions(cfg, l, trace, key)) + cfg.earn(trace[|trace| - 1].at - trace[0].at)
  {
    var first := trace[0].at;
    CreditConserved(cfg, l, trace, first, key);
    EndTimeIsLast(first, trace);
    CreditOverTime(cfg, l, key, first, first, first);
  }

  /** Admission bound: over any window of a monotone trace, starting in any valid
      state, a key gets at most one burst, one more per eviction, and what the
      rate earns over the length of the window. */
  lemma AdmissionBound(cfg: Tuning, l: Lru, window: seq<Request>, since: real, key: string)
    requires cfg.Valid() && Valid(cfg, l, since) && Monotone(since, window) && window != []
    ensures Admitted(cfg, l, window, key) as real
            <= (1 + Evictions(cfg, l, window, key)) as real * cfg.burst + cfg.rate * (window[|window| - 1].at - window[0].at)
  {
    hide Admitted, Evictions, Refills, Monotone;
    AdmissionBudget(cfg, l, window, since, key);
    hide Valid, Tuning.Valid;
    BudgetIs(cfg, 1 + Evictions(cfg, l, window, key), window[|window| - 1].at - window[0].at);
  }

  /** Every monotone trace, from the empty limiter on, keeps it valid: sorted by
      age, within its bounds, tokens between zero and one burst. */
  lemma {:induction false} ReachableIsValid(cfg: Tuning, l: Lru, trace: seq<Request>, since: real)
    requires cfg.Valid() && Valid(cfg, l, since) && Monotone(since, trace)
    ensures Valid(cfg, Run(cfg, l, trace), EndTime(since, trace))
    decreases |trace|
  {
    if trace == [] {
    } else {
      AllowKeepsValid(cfg, l, trace[0].key, since, trace[0].at);
      ReachableIsValid(cfg, AllowState(cfg, l, trace[0].key, trace[0].at), trace[1..], trace[0].at);
    }
  }

  /** Requests of other keys never lower a key's credit. */
  lemma {:induction false} OthersKeepCredit(cfg: Tuning, l: Lru, trace: seq<Request>, since: real, key: string, at: real)
    requires cfg.Valid() && Valid(cfg, l, since) && Monotone(since, trace)
    requires forall r :: r in trace ==> Normalize(r.key) != key && r.at <= at
    requires since <= at
    ensures Credit(cfg, Run(cfg, l, trace), key, at) >= Credit(cfg, l, key, at)
    ensures Valid(cfg, Run(cfg, l, trace), at)
    decreases |trace|
  {
    if trace == [] {
    } else {
      var r := trace[0];
      assert r in trace;
      assert forall q :: q in trace[1..] ==> q in trace;
      AllowKeepsValid(cfg, l, r.key, since, r.at);
      CreditOfOthers(cfg, l, r, since, key, at);
      CreditOverTime(cfg, l, key, since, at, at);
      OthersKeepCredit(cfg, AllowState(cfg, l, r.key, r.at), trace[1..], r.at, key, at);
    }
  }

  lemma WaitEarnsAToken(cfg: Tuning, bucket: Bucket, at: real)
    requires cfg.Valid() && !Decide(cfg, bucket).allowed
    requires bucket.updated + Decide(cfg, bucket).retryAfter as real <= at
    ensures Refill(cfg, bucket, at).tokens >= 1.0
  {
    var due := (1.0 - bucket.tokens) / cfg.rate;
    assert Decide(cfg, bucket).retryAfter as real >= due;
    EarnGrows(cfg, due, at - bucket.updated);
    EarnIs(cfg, due);
  }

  lemma DeniedBucketRecovers(cfg: Tuning, l: Lru, key: string, since: real, now: real, at: real)
    requires cfg.Valid() && Valid(cfg, l, since) && since <= now
    requires Normalize(key) == key && !AllowAnswer(cfg, l, key, now).allowed
    requires now + AllowAnswer(cfg, l, key, now).retryAfter as real <= at
    ensures Credit(cfg, AllowState(cfg, l, key, now), key, at) >= 1.0
  {
    AdmitSpec(cfg, l, key, since, now);
    RequesterBucket(cfg, l, key, now);
    WaitEarnsAToken(cfg, Admit(cfg, l, key, now).1, at);
  }

  lemma DeniedKeyRecovers(cfg: Tuning, l: Lru, key: string, since: real, now: real, trace: seq<Request>, at: real)
    requires cfg.Valid() && Valid(cfg, l, since) && since <= now
    requires Normalize(key) == key && !AllowAnswer(cfg, l, key, now).allowed
    requires Monotone(now, trace)
    requires forall r :: r in trace ==> Normalize(r.key) != key && r.at <= at
    requires now + AllowAnswer(cfg, l, key, now).retryAfter as real <= at
    ensures AllowAnswer(cfg, Run(cfg, AllowState(cfg, l, key, now), trace), key, at).allowed
  {
    var bucket := Admit(cfg, l, key, now).1;
    var denied := AllowState(cfg, l, key, now);
    DeniedBucketRecovers(cfg, l, key, since, now, at);
    AllowKeepsValid(cfg, l, key, since, now);
    OthersKeepCredit(cfg, denied, trace, now, key, at);
    AdmittedIffCredit(cfg, Run(cfg, denied, trace), key, at, at);
  }

  lemma NormalizeTwice(key: string)
    ensures Normalize(Normalize(key)) == Normalize(key)
  {
  }

  /** The advice is sound: a denied key that waits `retryAfter` seconds is
      admitted, whatever other keys do in the meantime. */
  lemma RetryAfterIsEnough(cfg: Tuning, l: Lru, key: string, since: real, now: real, trace: seq<Request>, at: real)
    requires cfg.Valid() && Valid(cfg, l, since) && since <= now
    requires !AllowAnswer(cfg, l, key, now).allowed
    requires Monotone(now, trace)
    requires forall r :: r in trace ==> Normalize(r.key) != Normalize(key) && r.at <= at
    requires now + AllowAnswer(cfg, l, key, now).retryAfter as real <= at
    ensures AllowAnswer(cfg, Run(cfg, AllowState(cfg, l, key, now), trace), key, at).allowed
  {
    NormalizeTwice(key);
    DeniedKeyRecovers(cfg, l, Normalize(key), since, now, trace, at);
  }

  /** And it is the least such number of whole seconds: any earlier than one
      second before, the key is still denied. */
  lemma RetryAfterIsLeast(cfg: Tuning, l: Lru, key: string, since: real, now: real, at: real)
    requires cfg.Valid() && Valid(cfg, l, since) && since <= now <= at
    requires !AllowAnswer(cfg, l, key, now).allowed
    requires at <= now + (AllowAnswer(cfg, l, key, now).retryAfter - 1) as real
    ensures !AllowAnswer(cfg, AllowState(cfg, l, key, now), key, at).allowed
  {
    var k := Normalize(key);
    var bucket := Admit(cfg, l, k, now).1;
    AdmitSpec(cfg, l, k, since, now);
    RequesterBucket(cfg, l, key, now);
    NormalizeTwice(key);
    AllowKeepsValid(cfg, l, key, since, now);
    AdmittedIffCredit(cfg, AllowState(cfg, l, key, now), k, now, at);
    WaitIsNeeded(cfg, bucket, at);
  }

  lemma WaitIsNeeded(cfg: Tuning, bucket: Bucket, at: real)
    requires cfg.Valid() && !Decide(cfg, bucket).allowed
    requires bucket.updated <= at <= bucket.updated + (Decide(cfg, bucket).retryAfter - 1) as real
    ensures Refill(cfg, bucket, at).tokens < 1.0
  {
    var due := (1.0 - bucket.tokens) / cfg.rate;
    EarnIs(cfg, due);
    EarnIs(cfg, at - bucket.updated);
    assert due > 0.0 && Ceil(due) as real < due + 1.0;
    var short := due - (at - bucket.updated);
    EarnIs(cfg, short);
    EarnAdds(cfg, at - bucket.updated, short);
    assert short * cfg.rate > 0.0;
    assert at - bucket.updated + short == due;
    assert cfg.earn(due) == 1.0 - bucket.tokens;
    assert cfg.earn(at - bucket.updated) < 1.0 - bucket.tokens;
  }

  // ----- Pruning is unobservable -----

  /** The simple limiter remembers every live bucket, and knows more only about
      keys whose bucket had gone stale. */
  ghost predicate Simulates(cfg: Tuning, l: Lru, m: map<string, Bucket>, now: real)
    requires cfg.Valid()
  {
    && (forall k :: k in l.buckets ==> k in m && m[k] == l.buckets[k])
    && (forall k :: k in m ==> 0.0 <= m[k].tokens <= cfg.burst)
    && (forall k :: k in m && k !in l.buckets ==> IsStale(cfg, m[k], now))
  }

  lemma SimulationAnswer(cfg: Tuning, l: Lru, m: map<string, Bucket>, key: string, since: real, now: real)
    requires cfg.Valid() && Valid(cfg, l, since) && since <= now
    requires Simulates(cfg, l, m, since)
    ensures Admit(cfg, l, key, now).1 == SimpleBucket(cfg, m, key, now)
  {
    PruneDropsExactlyStale(cfg, l, now);
    if key in m && key !in Prune(cfg, l, now).buckets {
      StaleIsFull(cfg, m[key], now);
    }
  }

  lemma SimulationStep(cfg: Tuning, l: Lru, m: map<string, Bucket>, r: Request, since: real)
    requires cfg.Valid() && Valid(cfg, l, since) && since <= r.at
    requires Simulates(cfg, l, m, since)
    requires forall victim :: !Evicts(cfg, l, r, victim)
    ensures AllowAnswer(cfg, l, r.key, r.at) == SimpleAnswer(cfg, m, r.key, r.at)
    ensures Simulates(cfg, AllowState(cfg, l, r.key, r.at), SimpleState(cfg, m, r.key, r.at), r.at)
  {
    var k := Normalize(r.key);
    SimulationAnswer(cfg, l, m, k, since, r.at);
    AdmitSpec(cfg, l, k, since, r.at);
    var (room, bucket) := Admit(cfg, l, k, r.at);
    var next, simple := AllowState(cfg, l, r.key, r.at), SimpleState(cfg, m, r.key, r.at);
    assert next.buckets == room.buckets[k := Spend(bucket)] && simple == m[k := Spend(bucket)];
    forall x | x in simple && x !in next.buckets ensures IsStale(cfg, simple[x], r.at) {
      assert x in m && simple[x] == m[x];
      assert !Evicts(cfg, l, r, x);
    }
  }

  lemma {:induction false} SimulationRun(cfg: Tuning, l: Lru, m: map<string, Bucket>, trace: seq<Request>, since: real)
    requires cfg.Valid() && Valid(cfg, l, since) && Simulates(cfg, l, m, since)
    requires Monotone(since, trace) && NoEviction(cfg, l, trace)
    ensures Answers(cfg, l, trace) == SimpleAnswers(cfg, m, trace)
    decreases |trace|
  {
    if trace == [] {
    } else {
      var r := trace[0];
      SimulationStep(cfg, l, m, r, since);
      AllowKeepsValid(cfg, l, r.key, since, r.at);
      SimulationRun(cfg, AllowState(cfg, l, r.key, r.at), SimpleState(cfg, m, r.key, r.at), trace[1..], r.at);
    }
  }

  /** With a monotone clock and no capacity eviction, the bounded limiter answers
      every trace exactly as one that never forgets a key. */
  lemma PruningIsUnobservable(cfg: Tuning, trace: seq<Request>, since: real)
    requires cfg.Valid() && Monotone(since, trace) && NoEviction(cfg, EMPTY, trace)
    ensures Answers(cfg, EMPTY, trace) == SimpleAnswers(cfg, map[], trace)
  {
    SimulationRun(cfg, EMPTY, map[], trace, since);
  }

  // ----- The object -----

  class AhubRateLimiter {
    const config: Config
    const tuning: Tuning
    var order: seq<string>
    var buckets: map<string, Bucket>
    var limitedRequests: nat

    ghost function State(): Lru
      reads this
    {
      Lru(order, buckets)
    }

    constructor (config: Config)
      requires config.Valid()
      ensures this.config == config && tuning == config.Tune() && tuning.Valid()
      ensures State() == EMPTY && limitedRequests == 0
    {
      TuningIsValid(config);
      this.config, this.tuning := config, config.Tune();
      order, buckets, limitedRequests := [], map[], 0;
    }

    method PruneStale(now: real)
      requires tuning.Valid() && State().WellFormed()
      modifies this`order, this`buckets
      ensures State() == Prune(tuning, old(State()), now)
      ensures State().WellFormed()
    {
      while order != []
        invariant State().WellFormed()
        invariant Prune(tuning, State(), now) == Prune(tuning, old(State()), now)
        decreases |order|
      {
        var key := order[0];
        if now - buckets[key].updated <= tuning.staleAfter {
          break;
        }
        PopKeepsWellFormed(State());
        order, buckets := order[1..], buckets - {key};
      }
    }

    method MakeRoom()
      requires tuning.Valid() && State().WellFormed()
      modifies this`order, this`buckets
      ensures State() == Evict(tuning, old(State()))
      ensures State().WellFormed()
    {
      while |order| >= tuning.maxBuckets
        invariant State().WellFormed()
        invariant Evict(tuning, State()) == Evict(tuning, old(State()))
        decreases |order|
      {
        PopKeepsWellFormed(State());
        order, buckets := order[1..], buckets - {order[0]};
      }
    }

    /** The refilled bucket of a key, and room for it. */
    method Enter(normalized: string, now: real) returns (bucket: Bucket)
      requires tuning.Valid() && State().WellFormed()
      modifies this`order, this`buckets
      ensures State() == Admit(tuning, old(State()), normalized, now).0
      ensures bucket == Admit(tuning, old(State()), normalized, now).1
      ensures State().WellFormed()
    {
      PruneStale(now);
      assert State() == Prune(tuning, old(State()), now);
      if normalized !in buckets {
        MakeRoom();
        bucket := Bucket(tuning.burst, now);
      } else {
        bucket := buckets[normalized];
        var elapsed := Max(0.0, now - bucket.updated);
        EarnIs(tuning, elapsed);
        bucket := bucket.(tokens := Min(tuning.burst, bucket.tokens + elapsed * tuning.rate));
        bucket := bucket.(updated := now);
      }
    }

    method Allow(key: string, now: real) returns (allowed: bool, retryAfter: int)
      requires tuning.Valid() && State().WellFormed()
      modifies this
      ensures State() == AllowState(tuning, old(State()), key, now)
      ensures Answer(allowed, retryAfter) == AllowAnswer(tuning, old(State()), key, now)
      ensures limitedRequests == old(limitedRequests) + if allowed then 0 else 1
      ensures State().WellFormed()
    {
      var normalized := Normalize(key);
      var bucket := Enter(normalized, now);
      TouchKeepsWellFormed(State(), normalized, Spend(bucket));
      if bucket.tokens < 1.0 {
        retryAfter := Ceil((1.0 - bucket.tokens) / tuning.rate);
        if retryAfter < 1 {
          retryAfter := 1;
        }
        limitedRequests := limitedRequests + 1;
        buckets := buckets[normalized := bucket];
        order := Remove(order, normalized) + [normalized];
        return false, retryAfter;
      }
      bucket := bucket.(tokens := bucket.tokens - 1.0);
      buckets := buckets[normalized := bucket];
      order := Remove(order, normalized) + [normalized];
      return true, 0;
    }
  }
}

/** The fixed-window rate limiter: one counter per key, restarted by the first request at or after its expiry. */
module RateLimit {

  /** Times and windows are in nanoseconds. */
  const MINUTE := 60_000_000_000

  datatype Bucket = Bucket(count: nat, exp: int)

  datatype Decision = Allowed | Limited

  datatype Call = Call(key: string, limit: int, window: int, now: int)

  type Buckets = map<string, Bucket>

  /** A non-positive window means one minute. */
  function Window(c: Call): (w: int)
    ensures w > 0
  {
    if c.window <= 0 then MINUTE else c.window
  }

  /** Whether a call finds no live bucket and so starts one. */
  predicate Opens(buckets: Buckets, c: Call) {
    c.limit > 0 && (c.key !in buckets || c.now >= buckets[c.key].exp)
  }

  /** The counters after one call, and the answer. */
  function Hit(buckets: Buckets, c: Call): (Buckets, Decision) {
    if c.limit <= 0 then (buckets, Allowed)
    else if Opens(buckets, c) then (buckets[c.key := Bucket(1, c.now + Window(c))], Allowed)
    else
      var count := buckets[c.key].count + 1;
      (buckets[c.key := Bucket(count, buckets[c.key].exp)], if count > c.limit then Limited else Allowed)
  }

  class MemoryLimiter {
    var buckets: Buckets

    constructor ()
      ensures buckets == map[]
    {
      buckets := map[];
    }

    method Allow(key: string, limit: int, window: int, now: int) returns (decision: Decision)
      modifies this
      ensures (buckets, decision) == Hit(old(buckets), Call(key, limit, window, now))
    {
      if limit <= 0 {
        return Allowed;
      }
      var length := if window <= 0 then MINUTE else window;
      if key !in buckets || now >= buckets[key].exp {
        buckets := buckets[key := Bucket(1, now + length)];
        return Allowed;
      }
      var bucket := buckets[key].(count := buckets[key].count + 1);
      buckets := buckets[key := bucket];
      if bucket.count > limit {
        return Limited;
      }
      return Allowed;
    }
  }

  /** The Redis form, its INCR and EXPIRE taken as one step: a key past its expiry is gone, INCR then yields 1, and only
      that first increment sets the expiry. */
  class RedisLimiter {
    var counters: Buckets

    ghost predicate Valid()
      reads this
    {
      forall key :: key in counters ==> counters[key].count >= 1
    }

    constructor ()
      ensures Valid() && counters == map[]
    {
      counters := map[];
    }

    method Allow(key: string, limit: int, window: int, now: int) returns (decision: Decision)
      requires Valid()
      modifies this
      ensures Valid()
      ensures (counters, decision) == Hit(old(counters), Call(key, limit, window, now))
    {
      if limit <= 0 {
        return Allowed;
      }
      var length := if window <= 0 then MINUTE else window;
      var live := key in counters && now < counters[key].exp;
      var count := if live then counters[key].count + 1 else 1;
      var exp := if live then counters[key].exp else now;
      if count == 1 {
        exp := now + length;
      }
      counters := counters[key := Bucket(count, exp)];
      if count > limit {
        return Limited;
      }
      return Allowed;
    }
  }

  // ----- Runs -----

  /** The counters after a run of calls from a fresh limiter. */
  function After(calls: seq<Call>): Buckets {
    if calls == [] then map[] else Hit(After(calls[..|calls| - 1]), calls[|calls| - 1]).0
  }

  predicate Counted(c: Call, key: string, from: int, until: int) { c.key == key && from <= c.now < until }

  function Arrivals(calls: seq<Call>, key: string, from: int, until: int): nat {
    if calls == [] then 0
    else
      var front, c := calls[..|calls| - 1], calls[|calls| - 1];
      Arrivals(front, key, from, until) + if Counted(c, key, from, until) then 1 else 0
  }

  /** How many of the calls on a key with times in [from, until) were allowed. */
  function Admissions(calls: seq<Call>, key: string, from: int, until: int): nat {
    if calls == [] then 0
    else
      var front, c := calls[..|calls| - 1], calls[|calls| - 1];
      Admissions(front, key, from, until)
      + if Counted(c, key, from, until) && Hit(After(front), c).1 == Allowed then 1 else 0
  }

  /** Every call on the key uses one limit and one window, and their times do not decrease. */
  ghost predicate Steady(calls: seq<Call>, key: string, limit: int, window: int) {
    && limit >= 1
    && (forall i :: 0 <= i < |calls| && calls[i].key == key ==> calls[i].limit == limit && Window(calls[i]) == window)
    && (forall i, j :: 0 <= i < j < |calls| && calls[i].key == key && calls[j].key == key ==> calls[i].now <= calls[j].now)
  }

  function Min(a: int, b: int): int { if a < b then a else b }

  /** The calls on the key all lie before the expiry of its bucket. */
  ghost predicate Within(calls: seq<Call>, key: string, exp: int) {
    forall i :: 0 <= i < |calls| && calls[i].key == key ==> calls[i].now < exp
  }

  lemma {:induction false} NoneLater(calls: seq<Call>, key: string, from: int, until: int)
    requires Within(calls, key, from)
    ensures Arrivals(calls, key, from, until) == 0 && Admissions(calls, key, from, until) == 0
  {
    if calls != [] { NoneLater(calls[..|calls| - 1], key, from, until); }
  }

  /** The state of the live bucket, which began at exp - window, and what an interval one window long can contain. */
  ghost predicate Accounted(calls: seq<Call>, key: string, limit: int, window: int, from: int) {
    var buckets := After(calls);
    if key !in buckets then
      forall i :: 0 <= i < |calls| ==> calls[i].key != key
    else
      var b := buckets[key];
      var start := b.exp - window;
      var admitted := Admissions(calls, key, from, from + window);
      && b.count >= 1
      && Within(calls, key, b.exp)
      && (exists i :: 0 <= i < |calls| && calls[i].key == key && start <= calls[i].now)
      && Arrivals(calls, key, start, b.exp) == b.count
      && Admissions(calls, key, start, b.exp) == Min(limit, b.count)
      && (start < from ==> admitted <= Min(limit, b.count) - 1)
      && (from <= start < from + window ==> admitted <= limit - 1 + Min(limit, b.count))
      && admitted <= 2 * limit - 1
  }

  lemma {:induction false} RunIsAccounted(calls: seq<Call>, key: string, limit: int, window: int, from: int)
    requires Steady(calls, key, limit, window)
    ensures Accounted(calls, key, limit, window, from)
  {
    if calls != [] {
      var front, c := calls[..|calls| - 1], calls[|calls| - 1];
      RunIsAccounted(front, key, limit, window, from);
      if c.key != key {
        OtherKey(calls, key, limit, window, from);
      } else if Opens(After(front), c) {
        NewBucket(calls, key, limit, window, from);
      } else {
        SameBucket(calls, key, limit, window, from);
      }
    }
  }

  lemma OtherKey(calls: seq<Call>, key: string, limit: int, window: int, from: int)
    requires calls != [] && calls[|calls| - 1].key != key
    requires Accounted(calls[..|calls| - 1], key, limit, window, from)
    ensures Accounted(calls, key, limit, window, from)
  {
    var front := calls[..|calls| - 1];
    if key in After(front) {
      var i :| 0 <= i < |front| && front[i].key == key && After(front)[key].exp - window <= front[i].now;
      assert calls[i] == front[i];
    }
  }

  lemma NewBucket(calls: seq<Call>, key: string, limit: int, window: int, from: int)
    requires calls != [] && calls[|calls| - 1].key == key && Opens(After(calls[..|calls| - 1]), calls[|calls| - 1])
    requires Steady(calls, key, limit, window)
    requires Accounted(calls[..|calls| - 1], key, limit, window, from)
    ensures Accounted(calls, key, limit, window, from)
  {
    var front, c := calls[..|calls| - 1], calls[|calls| - 1];
    assert Within(front, key, c.now);
    NoneLater(front, key, c.now, c.now + window);
    if c.now < from || key !in After(front) {
      NoneLater(front, key, from, from + window) by { if key !in After(front) { assert Within(front, key, from); } }
    }
  }

  lemma SameBucket(calls: seq<Call>, key: string, limit: int, window: int, from: int)
    requires calls != [] && calls[|calls| - 1].key == key && !Opens(After(calls[..|calls| - 1]), calls[|calls| - 1])
    requires Steady(calls, key, limit, window)
    requires Accounted(calls[..|calls| - 1], key, limit, window, from)
    ensures Accounted(calls, key, limit, window, from)
  {
    var front, c := calls[..|calls| - 1], calls[|calls| - 1];
    var i :| 0 <= i < |front| && front[i].key == key && After(front)[key].exp - window <= front[i].now;
    assert calls[i] == front[i] && calls[i].now <= c.now;
  }

  /** For every run of calls on a key with one limit and one window at nondecreasing times, whatever happens on other
      keys, an interval one window long never contains more than 2 * limit - 1 admissions: the first admission of a
      bucket and the start of the next are at least a window apart. */
  lemma WindowBound(calls: seq<Call>, key: string, limit: int, window: int, from: int)
    requires Steady(calls, key, limit, window)
    ensures Admissions(calls, key, from, from + window) <= 2 * limit - 1
  {
    RunIsAccounted(calls, key, limit, window, from);
    if key !in After(calls) { NoneLater(calls, key, from, from + window); }
  }

  /** Every bucket, live or past, admits exactly min(limit, arrivals) of the requests in its window. */
  lemma {:induction false} BucketAdmits(calls: seq<Call>, i: nat, limit: int, window: int)
    requires i < |calls| && Steady(calls, calls[i].key, limit, window)
    requires Opens(After(calls[..i]), calls[i])
    ensures var key, start := calls[i].key, calls[i].now;
            && Admissions(calls, key, start, start + window) == Min(limit, Arrivals(calls, key, start, start + window))
            && key in After(calls)
            && (After(calls)[key].exp == start + window || start + 2 * window <= After(calls)[key].exp)
  {
    var key, start := calls[i].key, calls[i].now;
    var front, c := calls[..|calls| - 1], calls[|calls| - 1];
    RunIsAccounted(calls, key, limit, window, start);
    if i < |front| {
      assert front[..i] == calls[..i];
      BucketAdmits(front, i, limit, window);
    } else {
      assert front == calls[..i];
    }
  }

  /** A limit that is not positive allows every call and counts none. */
  lemma UnlimitedIsAllowed(calls: seq<Call>, c: Call)
    requires c.limit <= 0
    ensures Hit(After(calls), c) == (After(calls), Allowed) && After(calls + [c]) == After(calls)
  {
    assert (calls + [c])[..|calls|] == calls;
  }

  /** The first call of a bucket is allowed, and the bucket lasts for the call's window, or a minute if that is not
      positive: until then no call starts another one, and from then on the next one does. */
  lemma BucketLasts(calls: seq<Call>, c: Call, later: Call)
    requires Opens(After(calls), c) && later.key == c.key && later.limit > 0
    ensures Hit(After(calls), c).1 == Allowed
    ensures var length := if c.window > 0 then c.window else 60 * 1_000_000_000;
            Opens(After(calls + [c]), later) <==> later.now >= c.now + length
  {
    assert (calls + [c])[..|calls|] == calls;
  }

  // ----- Independence of keys -----

  function OnKey(calls: seq<Call>, key: string): seq<Call> {
    if calls == [] then []
    else
      var front, c := calls[..|calls| - 1], calls[|calls| - 1];
      if c.key == key then OnKey(front, key) + [c] else OnKey(front, key)
  }

  /** A key's counter depends on the calls on that key alone, so its answers do too. */
  lemma {:induction false} KeysIndependent(calls: seq<Call>, key: string)
    ensures var all, own := After(calls), After(OnKey(calls, key));
            (key in all <==> key in own) && (key in all ==> all[key] == own[key])
    ensures calls != [] && calls[|calls| - 1].key == key ==>
              Hit(After(calls[..|calls| - 1]), calls[|calls| - 1]).1
              == Hit(After(OnKey(calls[..|calls| - 1], key)), calls[|calls| - 1]).1
  {
    if calls != [] {
      var front, c := calls[..|calls| - 1], calls[|calls| - 1];
      KeysIndependent(front, key);
      var own := OnKey(front, key);
      if c.key == key {
        assert (own + [c])[..|own + [c]| - 1] == own;
      }
    }
  }

  // ----- The bound is attained -----

  function Repeat(c: Call, n: nat): seq<Call> { seq(n, i => c) }

  /** n equal calls in the live bucket: the first limit - count of them are allowed. */
  lemma {:induction false} Burst(calls: seq<Call>, c: Call, n: nat, from: int, until: int)
    requires c.limit >= 1 && c.key in After(calls) && c.now < After(calls)[c.key].exp
    requires Counted(c, c.key, from, until)
    ensures var b, b' := After(calls)[c.key], After(calls + Repeat(c, n));
            && c.key in b' && b'[c.key] == Bucket(b.count + n, b.exp)
            && (b.count + n <= c.limit ==>
                  Admissions(calls + Repeat(c, n), c.key, from, until) == Admissions(calls, c.key, from, until) + n)
  {
    var longer := calls + Repeat(c, n);
    if n == 0 {
      assert longer == calls;
    } else {
      var shorter := calls + Repeat(c, n - 1);
      assert longer[..|longer| - 1] == shorter && longer[|longer| - 1] == c;
      Burst(calls, c, n - 1, from, until);
      assert !Opens(After(shorter), c);
    }
  }

  /** One early request, limit - 1 at the end of the window and limit at the start of the next one. */
  function Crowd(key: string, limit: int, window: int): seq<Call>
    requires limit >= 1
  {
    var late, next := Call(key, limit, window, window - 1), Call(key, limit, window, window);
    [Call(key, limit, window, 0)] + Repeat(late, limit - 1) + [next] + Repeat(next, limit - 1)
  }

  lemma CrowdTimes(key: string, limit: int, window: int, i: nat)
    requires limit >= 1 && i < |Crowd(key, limit, window)|
    ensures Crowd(key, limit, window)[i]
         == Call(key, limit, window, if i == 0 then 0 else if i < limit then window - 1 else window)
  {
  }

  lemma CrowdIsSteady(key: string, limit: int, window: int)
    requires limit >= 1 && window >= 2
    ensures Steady(Crowd(key, limit, window), key, limit, window)
  {
    var calls := Crowd(key, limit, window);
    forall i | 0 <= i < |calls|
      ensures calls[i] == Call(key, limit, window, if i == 0 then 0 else if i < limit then window - 1 else window)
    {
      CrowdTimes(key, limit, window, i);
    }
  }

  lemma FirstBucket(key: string, limit: int, window: int)
    requires limit >= 1 && window >= 2
    ensures var one := [Call(key, limit, window, 0)] + Repeat(Call(key, limit, window, window - 1), limit - 1);
            && key in After(one) && After(one)[key] == Bucket(limit, window)
            && Admissions(one, key, 1, 1 + window) == limit - 1
  {
    var first := [Call(key, limit, window, 0)];
    assert first[..0] == [] && After([]) == map[];
    assert After(first) == map[key := Bucket(1, window)] && Admissions(first, key, 1, 1 + window) == 0;
    Burst(first, Call(key, limit, window, window - 1), limit - 1, 1, 1 + window);
  }

  /** A run with as many admissions in one interval as the bound allows. */
  ghost predicate Attains(calls: seq<Call>, key: string, limit: int, window: int, from: int) {
    Steady(calls, key, limit, window) && Admissions(calls, key, from, from + window) == 2 * limit - 1
  }

  /** The first call after a bucket's expiry is admitted and starts a bucket that outlasts it. */
  lemma Reopened(calls: seq<Call>, c: Call, from: int, until: int)
    requires Opens(After(calls), c) && Counted(c, c.key, from, until)
    ensures var two := calls + [c];
            && c.key in After(two) && After(two)[c.key] == Bucket(1, c.now + Window(c))
            && Admissions(two, c.key, from, until) == Admissions(calls, c.key, from, until) + 1
  {
    assert (calls + [c])[..|calls|] == calls;
  }

  lemma CrowdAttains(key: string, limit: int, window: int)
    requires limit >= 1 && window >= 2
    ensures Admissions(Crowd(key, limit, window), key, 1, 1 + window) == 2 * limit - 1
  {
    FirstBucket(key, limit, window);
    var late, next := Call(key, limit, window, window - 1), Call(key, limit, window, window);
    var one := [Call(key, limit, window, 0)] + Repeat(late, limit - 1);
    Reopened(one, next, 1, 1 + window);
    Burst(one + [next], next, limit - 1, 1, 1 + window);
  }

  /** A window of one tick holds the calls of one instant, all in one bucket. */
  lemma {:induction false} OneTick(calls: seq<Call>, key: string, limit: int, from: int)
    requires Steady(calls, key, limit, 1)
    ensures Admissions(calls, key, from, from + 1) <= limit
  {
    if calls != [] {
      var front, c := calls[..|calls| - 1], calls[|calls| - 1];
      if Counted(c, key, from, from + 1) {
        RunIsAccounted(calls, key, limit, 1, from);
        assert After(calls)[key].exp == from + 1;
      } else {
        OneTick(front, key, limit, from);
      }
    }
  }

  /** The bound is attained for every limit and every window, except that a window of a single tick attains it for a
      limit of 1 only. */
  lemma WindowBoundAttained(key: string, limit: int, window: int)
    requires limit >= 1 && window >= 1
    ensures (exists calls, from :: Attains(calls, key, limit, window, from)) <==> limit == 1 || window >= 2
  {
    if window >= 2 {
      CrowdIsSteady(key, limit, window);
      CrowdAttains(key, limit, window);
      assert Attains(Crowd(key, limit, window), key, limit, window, 1);
    } else if limit == 1 {
      var one := [Call(key, limit, window, 0)];
      assert one[..0] == [];
      assert Attains(one, key, limit, window, 0);
    } else {
      forall calls, from | Attains(calls, key, limit, window, from)
        ensures false
      {
        OneTick(calls, key, limit, from);
      }
    }
  }
}

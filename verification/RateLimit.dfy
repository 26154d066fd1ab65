/**
 The fixed-window limiter: a counter per key that is created with its first request and
 disappears `window` later. The counter store answers every command, and the expiry is set
 together with the first increment.
 */
module RateLimit {
  import opened Common
  import opened SeedLabels

  type Positive = n: int | n >= 1 witness 1

  datatype Counter = Counter(count: Positive, expires: int)

  /** One increment at time `now`; an expired counter starts over. */
  function Hit(c: Option<Counter>, now: int, window: int): Counter {
    if c.Some? && now < c.value.expires then Counter(c.value.count + 1, c.value.expires)
    else Counter(1, now + window)
  }

  /** The counter after requests at the given times. */
  function After(times: seq<int>, window: int): Option<Counter> {
    if times == [] then None
    else Some(Hit(After(times[..|times| - 1], window), times[|times| - 1], window))
  }

  function Admits(times: seq<int>, window: int, budget: int): bool
    requires times != []
  {
    After(times, window).value.count <= budget
  }

  ghost predicate Ordered(times: seq<int>) {
    forall i, j :: 0 <= i <= j < |times| ==> times[i] <= times[j]
  }

  /** How many of the requests between `lo` and `hi`, both included, are admitted. */
  function AdmittedIn(times: seq<int>, window: int, budget: int, lo: int, hi: int): nat {
    if times == [] then 0
    else
      AdmittedIn(times[..|times| - 1], window, budget, lo, hi)
      + if lo <= times[|times| - 1] <= hi && Admits(times, window, budget) then 1 else 0
  }

  function Min(a: int, b: int): int {
    if a < b then a else b
  }

  /** Bounds on the admissions so far, by where the counter's lifetime started. */
  ghost predicate Bounded(c: Option<Counter>, admitted: nat, window: int, budget: int, lo: int, hi: int) {
    match c
    case None => admitted == 0
    case Some(Counter(count, expires)) =>
      var start, used := expires - window, Min(count, budget);
      var carried := if hi < lo + window then budget - 1 else budget;
      && (expires <= lo ==> admitted == 0)
      && (start < lo ==> admitted <= used - 1)
      && (start == lo ==> admitted <= used)
      && (lo < start <= hi ==> admitted <= carried + used)
      && admitted <= carried + budget
  }

  lemma {:induction false} RunIsBounded(times: seq<int>, window: int, budget: int, lo: int, hi: int)
    requires Ordered(times) && window > 0 && budget >= 1 && lo <= hi <= lo + window
    ensures Bounded(After(times, window), AdmittedIn(times, window, budget, lo, hi), window, budget, lo, hi)
    ensures times != [] ==> After(times, window).value.expires - window <= times[|times| - 1]
  {
    if times != [] {
      var before := times[..|times| - 1];
      RunIsBounded(before, window, budget, lo, hi);
      HitKeepsBounded(After(before, window), times[|times| - 1], AdmittedIn(before, window, budget, lo, hi), window,
          budget, lo, hi);
    }
  }

  lemma HitKeepsBounded(c: Option<Counter>, now: int, admitted: nat, window: int, budget: int, lo: int, hi: int)
    requires window > 0 && budget >= 1 && lo <= hi <= lo + window
    requires Bounded(c, admitted, window, budget, lo, hi)
    requires c.Some? ==> c.value.expires - window <= now
    ensures var next := Hit(c, now, window);
            var more := if lo <= now <= hi && next.count <= budget then 1 else 0;
            Bounded(Some(next), admitted + more, window, budget, lo, hi)
  {
  }

  /**
   No interval shorter than the window admits more than 2 * budget - 1 requests, and none of
   exactly the window's length, both ends included, more than 2 * budget.
   */
  lemma WindowBound(times: seq<int>, window: int, budget: int, lo: int, hi: int)
    requires Ordered(times) && window > 0 && budget >= 1 && lo <= hi <= lo + window
    ensures AdmittedIn(times, window, budget, lo, hi) <= if hi < lo + window then 2 * budget - 1 else 2 * budget
  {
    RunIsBounded(times, window, budget, lo, hi);
  }

  /** The admissions since the counter was last created. */
  function AdmittedInLife(times: seq<int>, window: int, budget: int): nat {
    if times == [] then 0
    else
      (if After(times, window).value.count == 1 then 0 else AdmittedInLife(times[..|times| - 1], window, budget))
      + if Admits(times, window, budget) then 1 else 0
  }

  /** A lifetime admits its first `budget` requests and no other. */
  lemma {:induction false} LifeAdmitsBudget(times: seq<int>, window: int, budget: int)
    requires times != [] && budget >= 0
    ensures AdmittedInLife(times, window, budget) == Min(After(times, window).value.count, budget)
  {
    if After(times, window).value.count > 1 {
      assert times[..|times| - 1] != [] by {
        assert After([], window).None?;
      }
      LifeAdmitsBudget(times[..|times| - 1], window, budget);
    }
  }

  // ---- both bounds are reached ----

  function Burst(at: int, n: nat): (times: seq<int>)
    ensures |times| == n
  {
    seq(n, _ => at)
  }

  /** A burst of `n` requests within one lifetime. */
  lemma {:induction false} BurstAdmits(times: seq<int>, at: int, n: nat, window: int, budget: int, lo: int, hi: int)
    requires n >= 1 && window > 0 && lo <= at <= hi
    ensures var first := Hit(After(times, window), at, window);
            && After(times + Burst(at, n), window) == Some(Counter(first.count + n - 1, first.expires))
            && (first.count + n - 1 <= budget ==>
                  AdmittedIn(times + Burst(at, n), window, budget, lo, hi)
                      == AdmittedIn(times, window, budget, lo, hi) + n)
  {
    var all := times + Burst(at, n);
    assert all[..|all| - 1] == times + Burst(at, n - 1);
    if n > 1 {
      BurstAdmits(times, at, n - 1, window, budget, lo, hi);
      assert at < Hit(After(times, window), at, window).expires;
    } else {
      assert times + Burst(at, 0) == times;
    }
  }

  /** A burst at each end of the window: 2 * budget admissions. */
  lemma ClosedBoundIsReached(window: int, budget: int)
    requires window > 0 && budget >= 1
    ensures Ordered(Burst(0, budget) + Burst(window, budget))
    ensures AdmittedIn(Burst(0, budget) + Burst(window, budget), window, budget, 0, window) == 2 * budget
  {
    BurstAdmits([], 0, budget, window, budget, 0, window);
    assert [] + Burst(0, budget) == Burst(0, budget);
    BurstAdmits(Burst(0, budget), window, budget, window, budget, 0, window);
  }

  /** One early request, then the rest of its lifetime and a whole new one just within the window. */
  lemma OpenBoundIsReached(window: int, budget: int)
    requires window >= 2 && budget >= 2
    ensures var times := [0] + Burst(window - 1, budget - 1) + Burst(window, budget);
            Ordered(times) && AdmittedIn(times, window, budget, 1, window) == 2 * budget - 1
  {
    assert After([0], window) == Some(Counter(1, window)) && AdmittedIn([0], window, budget, 1, window) == 0 by {
      assert [0][..0] == [];
    }
    BurstAdmits([0], window - 1, budget - 1, window, budget, 1, window);
    BurstAdmits([0] + Burst(window - 1, budget - 1), window, budget, window, budget, 1, window);
  }

  // ---- the counter store ----

  datatype Key = UserKey(bucket: string, user: nat) | IpKey(bucket: string, address: string)

  class RateLimiter {
    var counters: map<Key, Counter>

    ghost function CounterOf(key: Key): Option<Counter>
      reads this
    {
      if key in counters then Some(counters[key]) else None
    }

    method Incr(key: Key, window: int, now: int) returns (count: nat)
      modifies this
      ensures CounterOf(key) == Some(Hit(old(CounterOf(key)), now, window)) && count == counters[key].count
      ensures forall k :: k != key ==> CounterOf(k) == old(CounterOf(k))
    {
      count := if key in counters && now < counters[key].expires then counters[key].count + 1 else 1;
      var expires := if count == 1 then now + window else counters[key].expires;
      counters := counters[key := Counter(count, expires)];
    }

    /** A request without a user id is never limited. */
    method CheckUserRateLimit(user: nat, bucket: string, budget: int, window: int, now: int) returns (allowed: bool)
      modifies this
      ensures user == 0 ==> allowed && counters == old(counters)
      ensures user != 0 ==>
                var key := UserKey(bucket, user);
                && CounterOf(key) == Some(Hit(old(CounterOf(key)), now, window))
                && (allowed <==> counters[key].count <= budget)
                && forall k :: k != key ==> CounterOf(k) == old(CounterOf(k))
    {
      if user == 0 {
        return true;
      }
      var count := Incr(UserKey(bucket, user), window, now);
      return !(count > budget);
    }

    /** The address is trimmed first; a request without one is never limited. */
    method CheckIPRateLimit(ip: string, bucket: string, budget: int, window: int, now: int) returns (allowed: bool)
      modifies this
      ensures TrimSpace(ip) == "" ==> allowed && counters == old(counters)
      ensures TrimSpace(ip) != "" ==>
                var key := IpKey(bucket, TrimSpace(ip));
                && CounterOf(key) == Some(Hit(old(CounterOf(key)), now, window))
                && (allowed <==> counters[key].count <= budget)
                && forall k :: k != key ==> CounterOf(k) == old(CounterOf(k))
    {
      var address := TrimSpace(ip);
      if address == "" {
        return true;
      }
      var count := Incr(IpKey(bucket, address), window, now);
      return count <= budget;
    }
  }
}

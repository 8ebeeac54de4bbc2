/** The sliding-window rate limiter on a pruned, expiring sorted set.

    Clock readings are exact non-negative integers that strictly increase from call to call on a
    key, member and score of an entry are the reading itself, and a pipeline is one step. */
module RateLimiting {
  import opened Common

  datatype ZSet = ZSet(members: set<int>, expiresAt: int)

  /** What Redis still has of a key at a given time.  An expired key may or may not be gone. */
  function Visible(z: Option<ZSet>, now: int, reaped: bool): set<int> {
    if z.None? || (reaped && now >= z.value.expiresAt) then {} else z.value.members
  }

  /** ZREMRANGEBYSCORE key 0 (now - window) */
  function Pruned(members: set<int>, now: int, window: int): set<int> {
    set s | s in members && !(0 <= s <= now - window)
  }

  /** The key after one Allow. */
  function Touched(z: Option<ZSet>, now: int, window: int, ttl: int, reaped: bool): ZSet {
    ZSet(Pruned(Visible(z, now, reaped), now, window) + {now}, now + ttl)
  }

  /** ZCOUNT key (now - window) +inf; unlike the pruning it keeps the left edge of the window. */
  function Counted(z: Option<ZSet>, now: int, window: int, reaped: bool): set<int> {
    set s | s in Visible(z, now, reaped) && s >= now - window
  }

  function AtLeastZero(n: int): nat {
    if n < 0 then 0 else n
  }

  datatype BlockAnswer = NotBlocked | Until(at: int) | IndexPanic

  class RateLimiter {
    var keys: map<string, ZSet>

    constructor ()
      ensures keys == map[]
    {
      keys := map[];
    }

    function Key(key: string): Option<ZSet>
      reads this
    {
      if key in keys then Some(keys[key]) else None
    }

    method Allow(key: string, limit: int, window: int, now: int, reaped: bool) returns (allowed: bool, remaining: nat)
      modifies this
      ensures keys == old(keys)[key := Touched(old(Key(key)), now, window, window, reaped)]
      ensures keys - {key} == old(keys) - {key} && key in keys && keys[key].expiresAt == now + window
      ensures forall s :: s in keys[key].members <==>
                || s == now
                || (&& key in old(keys) && s in old(keys)[key].members
                    && !(reaped && old(keys)[key].expiresAt <= now) && !(0 <= s <= now - window))
      ensures allowed <==> |keys[key].members| <= limit
      ensures remaining == if |keys[key].members| <= limit then limit - |keys[key].members| else 0
    {
      var members := Visible(Key(key), now, reaped);
      members := Pruned(members, now, window);
      members := members + {now};
      var count := |members|;
      keys := keys[key := ZSet(members, now + window)];
      remaining := if limit - count < 0 then 0 else limit - count;
      allowed := count <= limit;
    }

    method RemainingRequests(key: string, limit: int, window: int, now: int, reaped: bool) returns (remaining: nat)
      ensures remaining == AtLeastZero(limit - |Counted(Key(key), now, window, reaped)|)
      ensures if key !in keys || (reaped && keys[key].expiresAt <= now) then remaining == if limit < 0 then 0 else limit
              else
                var count := |set s | s in keys[key].members && s >= now - window|;
                remaining == if count <= limit then limit - count else 0
    {
      var windowStart := now - window;
      var count := |set s | s in Visible(Key(key), now, reaped) && s >= windowStart|;
      assert key in keys && !(reaped && keys[key].expiresAt <= now) ==>
          (set s | s in Visible(Key(key), now, reaped) && s >= windowStart)
          == (set s | s in keys[key].members && s >= now - window);
      remaining := if limit - count < 0 then 0 else limit - count;
    }

    method Reset(key: string)
      modifies this
      ensures keys == old(keys) - {key} && Key(key) == None
    {
      keys := keys - {key};
    }

    /** Reads the oldest limit + 1 entries of the window.  Redis takes a count that is not positive
        as no bound, so that a negative limit reads the whole window, and panics if it is empty. */
    method BlockedUntil(key: string, limit: int, window: int, now: int, reaped: bool) returns (answer: BlockAnswer)
      ensures answer == NotBlocked <==> |Counted(Key(key), now, window, reaped)| <= limit
      ensures answer == IndexPanic <==> limit < 0 && Counted(Key(key), now, window, reaped) == {}
      ensures answer.Until? ==>
                && answer.at - window in Counted(Key(key), now, window, reaped)
                && forall s :: s in Counted(Key(key), now, window, reaped) ==> answer.at - window <= s
    {
      var members := set s | s in Visible(Key(key), now, reaped) && s >= now - window;
      if |members| <= limit {
        return NotBlocked;
      }
      if members == {} {
        return IndexPanic;
      }
      LeastExists(members);
      var oldest :| oldest in members && forall s :: s in members ==> oldest <= s;
      answer := Until(oldest + window);
    }
  }

  // ----- Histories of one key -----

  /** One Allow on the key; reaped says whether Redis had dropped an expired key just before. */
  datatype Call = Call(at: int, reaped: bool)

  /** The clock readings of all calls, served or rejected. */
  function Times(calls: seq<Call>): set<int> {
    if calls == [] then {} else Times(calls[..|calls| - 1]) + {calls[|calls| - 1].at}
  }

  ghost predicate Ordered(calls: seq<Call>) {
    calls == [] ||
    var init, last := calls[..|calls| - 1], calls[|calls| - 1];
    Ordered(init) && last.at >= 0 && forall t :: t in Times(init) ==> 0 <= t < last.at
  }

  function KeyAfter(calls: seq<Call>, window: int, ttl: int): Option<ZSet> {
    if calls == [] then None
    else
      var last := calls[|calls| - 1];
      Some(Touched(KeyAfter(calls[..|calls| - 1], window, ttl), last.at, window, ttl, last.reaped))
  }

  /** What the ZCARD of the call next answers after the calls before. */
  function Count(before: seq<Call>, next: Call, window: int): nat {
    |Touched(KeyAfter(before, window, window), next.at, window, window, next.reaped).members|
  }

  /** The call next is served after the calls before: its own entry included, the set then holds at
      most limit entries. */
  predicate Served(before: seq<Call>, next: Call, window: int, limit: int) {
    Count(before, next, window) <= limit
  }

  /** The part of a set of readings that lies in the half-open window (now - window, now]. */
  function InWindow(times: set<int>, window: int, now: int): set<int> {
    set t | t in times && now - window < t <= now
  }

  lemma TimesSnoc(calls: seq<Call>, next: Call)
    ensures Times(calls + [next]) == Times(calls) + {next.at}
    ensures Ordered(calls + [next]) <==>
              Ordered(calls) && next.at >= 0 && forall t :: t in Times(calls) ==> 0 <= t < next.at
  {
    var all := calls + [next];
    assert all[..|all| - 1] == calls && all[|all| - 1] == next;
  }

  lemma {:induction false} TimesJoin(a: seq<Call>, b: seq<Call>)
    ensures Times(a + b) == Times(a) + Times(b)
    ensures Ordered(a + b) ==> Ordered(a)
    decreases |b|
  {
    if b == [] {
      assert a + b == a;
    } else {
      var init, last := b[..|b| - 1], b[|b| - 1];
      TimesJoin(a, init);
      TimesSnoc(a + init, last);
      TimesSnoc(init, last);
      assert a + b == (a + init) + [last] && b == init + [last];
    }
  }

  /** The readings are those of the calls. */
  lemma {:induction false} TimesAre(calls: seq<Call>, t: int)
    ensures t in Times(calls) <==> exists k :: 0 <= k < |calls| && calls[k].at == t
  {
    if calls != [] {
      var init, last := calls[..|calls| - 1], calls[|calls| - 1];
      TimesAre(init, t);
      if t in Times(init) {
        var k :| 0 <= k < |init| && init[k].at == t;
        assert calls[k].at == t;
      } else if k :| 0 <= k < |calls| && calls[k].at == t {
        assert k < |init| ==> init[k].at == t;
      }
    }
  }

  lemma {:induction false} TimesSize(calls: seq<Call>)
    ensures |Times(calls)| <= |calls|
  {
    if calls != [] {
      var init, last := calls[..|calls| - 1], calls[|calls| - 1];
      TimesSize(init);
      TimesSnoc(init, last);
      assert calls == init + [last];
    }
  }

  /** One Allow on a key whose set is the window of the calls so far. */
  lemma TouchedIsWindow(z: Option<ZSet>, times: set<int>, prev: int, now: int, window: int, ttl: int, reaped: bool)
    requires 0 < window <= ttl && forall t :: t in times ==> 0 <= t <= prev < now
    requires if z.None? then times == {} else z.value == ZSet(InWindow(times, window, prev), prev + ttl)
    ensures Touched(z, now, window, ttl, reaped) == ZSet(InWindow(times + {now}, window, now), now + ttl)
  {
    forall t ensures t in Touched(z, now, window, ttl, reaped).members <==> t in InWindow(times + {now}, window, now) {
    }
  }

  /** Refinement: as long as keys live at least as long as the window, the set after a call is
      exactly the window of the full history, whatever was reaped on the way. */
  lemma {:induction false} SetIsWindow(before: seq<Call>, next: Call, window: int, ttl: int)
    requires Ordered(before + [next]) && 0 < window <= ttl
    ensures Touched(KeyAfter(before, window, ttl), next.at, window, ttl, next.reaped)
            == ZSet(InWindow(Times(before) + {next.at}, window, next.at), next.at + ttl)
    decreases |before|
  {
    TimesSnoc(before, next);
    if before != [] {
      var init, last := before[..|before| - 1], before[|before| - 1];
      assert before == init + [last];
      TimesSnoc(init, last);
      SetIsWindow(init, last, window, ttl);
      TouchedIsWindow(KeyAfter(before, window, ttl), Times(before), last.at, next.at, window, ttl, next.reaped);
    } else {
      TouchedIsWindow(None, {}, 0, next.at, window, ttl, next.reaped);
    }
  }

  /** A call is served if and only if its window, itself included, holds at most limit calls of the
      full history, rejected ones included. */
  lemma ServedByHistory(before: seq<Call>, next: Call, window: int, limit: int)
    requires Ordered(before + [next]) && window > 0
    ensures Served(before, next, window, limit) <==> |InWindow(Times(before) + {next.at}, window, next.at)| <= limit
    ensures Count(before, next, window) == |InWindow(Times(before) + {next.at}, window, next.at)|
    ensures Served(before, next, window, limit) <==>
              1 + |set t | t in Times(before) && next.at - window < t| <= limit
  {
    TimesSnoc(before, next);
    var earlier := set t | t in Times(before) && next.at - window < t;
    assert InWindow(Times(before) + {next.at}, window, next.at) == earlier + {next.at};
    SetIsWindow(before, next, window, window);
  }

  /** Keys that expire before the window is over forget calls: with an admissible history the set
      differs from the window exactly when the time to live is shorter than the window. */
  lemma ExpiryHarmlessExactlyWhen(window: int, ttl: int)
    requires window > 0 && ttl > 0
    ensures (forall before: seq<Call>, next: Call :: Ordered(before + [next]) ==>
              Touched(KeyAfter(before, window, ttl), next.at, window, ttl, next.reaped).members
              == InWindow(Times(before) + {next.at}, window, next.at)) <==> ttl >= window
  {
    if ttl >= window {
      forall before: seq<Call>, next: Call | Ordered(before + [next])
        ensures Touched(KeyAfter(before, window, ttl), next.at, window, ttl, next.reaped).members
                == InWindow(Times(before) + {next.at}, window, next.at)
      {
        SetIsWindow(before, next, window, ttl);
      }
    } else {
      var first, next := Call(0, false), Call(ttl, true);
      TimesSnoc([], first);
      TimesSnoc([first], next);
      assert [] + [first] == [first];
      assert Ordered([first] + [next]);
      assert 0 in InWindow(Times([first]) + {next.at}, window, next.at);
      assert KeyAfter([first], window, ttl).value.expiresAt == ttl;
      assert 0 !in Touched(KeyAfter([first], window, ttl), next.at, window, ttl, next.reaped).members;
    }
  }

  /** The readings of the calls that are picked, knowing the calls before them. */
  function Picked(calls: seq<Call>, pick: (seq<Call>, Call) -> bool): set<int> {
    if calls == [] then {}
    else
      var init, last := calls[..|calls| - 1], calls[|calls| - 1];
      Picked(init, pick) + if pick(init, last) then {last.at} else {}
  }

  function ServedTimes(calls: seq<Call>, window: int, limit: int): set<int> {
    Picked(calls, (before, next) => Served(before, next, window, limit))
  }

  lemma {:induction false} PickedHold(calls: seq<Call>, pick: (seq<Call>, Call) -> bool, k: nat)
    requires k < |calls| && pick(calls[..k], calls[k])
    ensures calls[k].at in Picked(calls, pick)
    decreases |calls|
  {
    var n := |calls| - 1;
    if k < n {
      assert calls[..n][..k] == calls[..k];
      PickedHold(calls[..n], pick, k);
    }
  }

  lemma {:induction false} PickedOnly(calls: seq<Call>, pick: (seq<Call>, Call) -> bool, t: int) returns (k: nat)
    requires t in Picked(calls, pick)
    ensures k < |calls| && calls[k].at == t && pick(calls[..k], calls[k])
    decreases |calls|
  {
    k := |calls| - 1;
    if t in Picked(calls[..k], pick) {
      var n := k;
      k := PickedOnly(calls[..n], pick, t);
      assert calls[..n][..k] == calls[..k];
    }
  }

  /** The served times are those of the calls that are served, and of no others. */
  lemma ServedTimesAre(calls: seq<Call>, window: int, limit: int, t: int)
    ensures t in ServedTimes(calls, window, limit) <==>
              exists k :: 0 <= k < |calls| && calls[k].at == t && Served(calls[..k], calls[k], window, limit)
  {
    if t in ServedTimes(calls, window, limit) {
      var k := PickedOnly(calls, (before, next) => Served(before, next, window, limit), t);
    }
    forall k | 0 <= k < |calls| && calls[k].at == t && Served(calls[..k], calls[k], window, limit)
      ensures t in ServedTimes(calls, window, limit)
    {
      PickedHold(calls, (before, next) => Served(before, next, window, limit), k);
    }
  }

  lemma {:induction false} ServedAreCalls(calls: seq<Call>, window: int, limit: int)
    ensures ServedTimes(calls, window, limit) <= Times(calls)
  {
    if calls != [] {
      ServedAreCalls(calls[..|calls| - 1], window, limit);
    }
  }

  lemma OutsideWindow(times: set<int>, t: int, window: int, end: int)
    ensures !(end - window < t <= end) ==> InWindow(times + {t}, window, end) == InWindow(times, window, end)
    ensures times + {} == times
  {
  }

  lemma EarlierWindow(served: set<int>, times: set<int>, window: int, last: int, end: int)
    requires served <= times && last <= end && forall t :: t in times ==> t <= last
    ensures |InWindow(served, window, end)| <= |InWindow(times, window, last)|
  {
    SubsetSize(InWindow(served, window, end), InWindow(times, window, last));
  }

  /** A window that ends with or after a served call. */
  lemma ServedBound(init: seq<Call>, last: Call, window: int, limit: int, end: int)
    requires Ordered(init + [last]) && window > 0 && Served(init, last, window, limit) && last.at <= end
    ensures |InWindow(ServedTimes(init, window, limit) + {last.at}, window, end)| <= AtLeastZero(limit)
  {
    TimesSnoc(init, last);
    ServedByHistory(init, last, window, limit);
    ServedAreCalls(init, window, limit);
    EarlierWindow(ServedTimes(init, window, limit) + {last.at}, Times(init) + {last.at}, window, last.at, end);
  }

  /** Any half-open window of the configured length holds at most limit served calls; with a negative
      limit, none. */
  lemma {:induction false} WindowBound(calls: seq<Call>, window: int, limit: int, end: int)
    requires Ordered(calls) && window > 0
    ensures |InWindow(ServedTimes(calls, window, limit), window, end)| <= AtLeastZero(limit)
    decreases |calls|
  {
    if calls != [] {
      var init, last := calls[..|calls| - 1], calls[|calls| - 1];
      if Served(init, last, window, limit) && last.at <= end {
        assert calls == init + [last];
        ServedBound(init, last, window, limit, end);
      } else {
        WindowBound(init, window, limit, end);
        OutsideWindow(ServedTimes(init, window, limit), last.at, window, end);
      }
    }
  }

  // ----- Promises -----

  /** When the answer to call was remaining = r, the next r calls are all served, whatever their
      spacing: here next is the one that comes after fewer than r others. */
  lemma RemainingIsKept(before: seq<Call>, call: Call, others: seq<Call>, next: Call, window: int, limit: int)
    requires Ordered(before + [call] + others + [next]) && window > 0
    requires |others| < AtLeastZero(limit - Count(before, call, window))
    ensures Served(before + [call] + others, next, window, limit)
  {
    var h := before + [call];
    TimesSnoc(h + others, next);
    TimesJoin(h, others);
    TimesSnoc(before, call);
    ServedByHistory(before, call, window, limit);
    ServedByHistory(h + others, next, window, limit);
    TimesSize(others);
    WindowGrowth(Times(h), Times(others), window, call.at, next.at);
  }

  lemma WindowGrowth(times: set<int>, later: set<int>, window: int, prev: int, now: int)
    requires prev < now && forall t :: t in times ==> t <= prev
    ensures |InWindow(times + later + {now}, window, now)| <= |InWindow(times, window, prev)| + |later| + 1
  {
    SubsetSize(InWindow(times + later + {now}, window, now), InWindow(times, window, prev) + later + {now});
    UnionSize(InWindow(times, window, prev) + later, {now});
    UnionSize(InWindow(times, window, prev), later);
  }

  lemma UnionSize<T>(a: set<T>, b: set<T>)
    ensures |a + b| <= |a| + |b|
  {
    assert a + b == a + (b - a);
    SubsetSize(b - a, b);
  }

  /** What the read-only queries count at time now, after the calls so far: every call of the
      history that is still in the window, and at most the one on its left edge besides. */
  lemma CountedIsHistory(calls: seq<Call>, window: int, now: int, reaped: bool)
    requires Ordered(calls) && window > 0 && forall t :: t in Times(calls) ==> t < now
    ensures Counted(KeyAfter(calls, window, window), now, window, reaped) <= Times(calls)
    ensures InWindow(Times(calls), window, now) <= Counted(KeyAfter(calls, window, window), now, window, reaped)
    ensures forall s :: s in Counted(KeyAfter(calls, window, window), now, window, reaped) ==> s >= now - window
  {
    if calls != [] {
      var init, last := calls[..|calls| - 1], calls[|calls| - 1];
      assert calls == init + [last];
      TimesSnoc(init, last);
      SetIsWindow(init, last, window, window);
    }
  }

  /** A positive RemainingRequests at time now means that the next call is served. */
  lemma PositiveRemainingServes(calls: seq<Call>, next: Call, window: int, limit: int, now: int, reaped: bool)
    requires Ordered(calls + [next]) && window > 0 && now <= next.at && forall t :: t in Times(calls) ==> t < now
    requires AtLeastZero(limit - |Counted(KeyAfter(calls, window, window), now, window, reaped)|) > 0
    ensures Served(calls, next, window, limit)
  {
    TimesSnoc(calls, next);
    CountedIsHistory(calls, window, now, reaped);
    var counted := Counted(KeyAfter(calls, window, window), now, window, reaped);
    NoMoreThanLimit(counted, Times(calls), window, limit, now, next.at);
    ServedByHistory(calls, next, window, limit);
  }

  lemma NoMoreThanLimit(counted: set<int>, times: set<int>, window: int, limit: int, now: int, at: int)
    requires InWindow(times, window, now) <= counted && now <= at && forall t :: t in times ==> t < now
    requires AtLeastZero(limit - |counted|) > 0
    ensures |InWindow(times + {at}, window, at)| <= limit
  {
    SubsetSize(InWindow(times + {at}, window, at), counted + {at});
    UnionSize(counted, {at});
  }

  /** BlockedUntil at time now answered oldest + window, because more than limit entries were
      counted.  Every call made up to and including that instant is rejected.  So the documented
      promise that the caller will next be allowed at the answered instant is kept by no answer at
      all; what holds is that no earlier call is served. */
  lemma BlockedCallsRejected(calls: seq<Call>, others: seq<Call>, next: Call, window: int, limit: int,
                             now: int, reaped: bool, oldest: int)
    requires Ordered(calls + others + [next]) && window > 0
    requires forall t :: t in Times(calls) ==> t < now
    requires |Counted(KeyAfter(calls, window, window), now, window, reaped)| > limit
    requires forall s :: s in Counted(KeyAfter(calls, window, window), now, window, reaped) ==> oldest <= s
    requires now <= next.at <= oldest + window
    ensures !Served(calls + others, next, window, limit)
  {
    var counted := Counted(KeyAfter(calls, window, window), now, window, reaped);
    TimesSnoc(calls + others, next);
    TimesJoin(calls, others);
    CountedIsHistory(calls, window, now, reaped);
    ServedByHistory(calls + others, next, window, limit);
    MoreThanLimit(counted, Times(calls), Times(others), window, limit, oldest, next.at);
  }

  lemma MoreThanLimit(counted: set<int>, times: set<int>, later: set<int>, window: int, limit: int, oldest: int,
                      at: int)
    requires window > 0 && |counted| > limit && counted <= times && at <= oldest + window
    requires forall t :: t in counted ==> oldest <= t < at
    ensures |InWindow(times + later + {at}, window, at)| > limit
  {
    SubsetSize(counted - {oldest} + {at}, InWindow(times + later + {at}, window, at));
  }

  /** A "not blocked" answer does not mean that the next call is served: the call that comes next is
      rejected exactly when limit calls are still in its window. */
  lemma UnblockedButRejectedExactlyWhen(calls: seq<Call>, next: Call, window: int, limit: int, now: int, reaped: bool)
    requires Ordered(calls + [next]) && window > 0 && now <= next.at && forall t :: t in Times(calls) ==> t < now
    requires |Counted(KeyAfter(calls, window, window), now, window, reaped)| <= limit
    ensures !Served(calls, next, window, limit) <==> |InWindow(Times(calls), window, next.at)| == limit
  {
    var live := InWindow(Times(calls), window, next.at);
    TimesSnoc(calls, next);
    CountedIsHistory(calls, window, now, reaped);
    ServedByHistory(calls, next, window, limit);
    assert InWindow(Times(calls) + {next.at}, window, next.at) == live + {next.at};
    SubsetSize(live, Counted(KeyAfter(calls, window, window), now, window, reaped));
  }
}

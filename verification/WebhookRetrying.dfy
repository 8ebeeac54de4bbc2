/** The webhook retry ladder and its time budget.  Durations are whole nanoseconds and the backoff
    factor is an exact real; a factor times a duration is rounded down. */
module WebhookRetrying {
  import opened Common
  import opened BatchRows
  import Reconciling

  const MARGIN := 30 * SECOND

  datatype RetryConfig = RetryConfig(maxRetries: int, delay: int, backoff: real, maxDelay: int, timeout: int) {
    predicate Valid() {
      maxRetries >= 0 && delay > 0 && backoff >= 1.0 && maxDelay > 0 && timeout > 0
    }
  }

  function DefaultRetryConfig(): RetryConfig {
    RetryConfig(3, 10 * SECOND, 2.0, 300 * SECOND, 10 * SECOND)
  }

  function Normalised(c: RetryConfig): (n: RetryConfig)
    ensures n.Valid()
    ensures n.maxRetries == c.maxRetries || (c.maxRetries < 0 && n.maxRetries == 0)
    ensures n.delay == c.delay || (c.delay <= 0 && n.delay == 10_000_000_000)
    ensures n.backoff == c.backoff || (c.backoff < 1.0 && n.backoff == 1.0)
    ensures n.maxDelay == c.maxDelay || (c.maxDelay <= 0 && n.maxDelay == 300_000_000_000)
    ensures n.timeout == c.timeout || (c.timeout <= 0 && n.timeout == 10_000_000_000)
  {
    RetryConfig(
      if c.maxRetries < 0 then 0 else c.maxRetries,
      if c.delay <= 0 then 10 * SECOND else c.delay,
      if c.backoff < 1.0 then 1.0 else c.backoff,
      if c.maxDelay <= 0 then 300 * SECOND else c.maxDelay,
      if c.timeout <= 0 then 10 * SECOND else c.timeout)
  }

  /** A factor above 1 gives the greatest whole delay that exceeds neither the product nor the
      maximum; any other factor a fixed delay. */
  function NextDelay(cur: int, backoff: real, maxDelay: int): (r: int)
    ensures backoff <= 1.0 ==> r == cur
    ensures backoff > 1.0 ==> r <= maxDelay && r as real <= cur as real * backoff
    ensures backoff > 1.0 && r < maxDelay ==> cur as real * backoff < (r + 1) as real
  {
    if backoff <= 1.0 then cur
    else
      var next := (cur as real * backoff).Floor;
      if next > maxDelay then maxDelay else next
  }

  // ----- The ladder -----

  /** The wait before retry n, counted from 1. */
  function Wait(c: RetryConfig, n: nat): int
    requires n > 0
  {
    if n == 1 then c.delay else NextDelay(Wait(c, n - 1), c.backoff, c.maxDelay)
  }

  /** The first n waits together. */
  function Waits(c: RetryConfig, n: nat): int {
    if n == 0 then 0 else Waits(c, n - 1) + Wait(c, n)
  }

  function Budget(c: RetryConfig): int
    requires c.maxRetries >= 0
  {
    (c.maxRetries + 1) * c.timeout + Waits(c, c.maxRetries) + MARGIN
  }

  lemma {:induction false} WaitsArePositive(c: RetryConfig, n: nat)
    requires c.Valid() && n > 0
    ensures Wait(c, n) > 0
    decreases n
  {
    if n > 1 {
      WaitsArePositive(c, n - 1);
      var w := Wait(c, n - 1);
      Grows(w, c.backoff);
    }
  }

  lemma Grows(w: int, backoff: real)
    requires w >= 0 && backoff >= 1.0
    ensures (w as real * backoff).Floor >= w
  {
    assert w as real * backoff >= w as real;
  }

  /** From the second retry on a growing wait is capped. */
  lemma CappedFromSecond(c: RetryConfig, n: nat)
    requires c.backoff > 1.0 && n > 1
    ensures Wait(c, n) <= c.maxDelay
  {
  }

  lemma {:induction false} FixedWithoutBackoff(c: RetryConfig, n: nat)
    requires c.backoff <= 1.0 && n > 0
    ensures Wait(c, n) == c.delay
    decreases n
  {
    if n > 1 {
      FixedWithoutBackoff(c, n - 1);
    }
  }

  /** The configuration is documented to cap every wait at its maximum.  It does so exactly when
      there is no retry at all or the first wait already respects the maximum: neither the first
      wait nor a fixed one is capped. */
  lemma EveryWaitCappedExactlyWhen(c: RetryConfig)
    requires c.Valid()
    ensures (forall n: nat :: 0 < n <= c.maxRetries ==> Wait(c, n) <= c.maxDelay)
            <==> c.maxRetries == 0 || c.delay <= c.maxDelay
  {
    if c.maxRetries > 0 {
      assert Wait(c, 1) == c.delay;
      forall n: nat | 0 < n <= c.maxRetries
        ensures c.delay <= c.maxDelay ==> Wait(c, n) <= c.maxDelay
      {
        if c.backoff <= 1.0 {
          FixedWithoutBackoff(c, n);
        } else if n > 1 {
          CappedFromSecond(c, n);
        }
      }
    }
  }

  lemma NextGrows(cur: int, backoff: real, maxDelay: int)
    requires 0 <= cur <= maxDelay && backoff >= 1.0
    ensures cur <= NextDelay(cur, backoff, maxDelay)
  {
    Grows(cur, backoff);
  }

  /** Waits never shrink, as long as the first respects the maximum. */
  lemma WaitsGrow(c: RetryConfig, n: nat)
    requires c.Valid() && n > 0 && c.delay <= c.maxDelay
    ensures Wait(c, n) <= Wait(c, n + 1)
  {
    WaitsArePositive(c, n);
    if c.backoff > 1.0 && n > 1 {
      CappedFromSecond(c, n);
    } else if n > 1 {
      FixedWithoutBackoff(c, n);
    }
    NextGrows(Wait(c, n), c.backoff, c.maxDelay);
  }

  // ----- Delivery -----

  /** One POST: whether the receiver accepted, and how long it took. */
  datatype Post = Post(accepted: bool, took: nat)

  /** One wait: it elapses, or the context ends that long after its beginning. */
  datatype Pause = Elapses | Interrupted(after: nat)

  datatype Delivery = Delivered | Exhausted | Cancelled

  /** Every attempt is bounded by the timeout of the HTTP client, an interrupted wait by its length. */
  ghost predicate Bounded(c: RetryConfig, posts: nat -> Post, pauses: nat -> Pause) {
    && (forall k :: posts(k).took <= c.timeout)
    && (forall k: nat :: k > 0 && pauses(k).Interrupted? ==> pauses(k).after <= Wait(c, k))
  }

  /** The ladder ends with the first accepted attempt, the last one allowed, or the first wait that
      is interrupted.  Attempt k is posts(k) and the wait after it is pauses(k). */
  ghost predicate Ladder(c: RetryConfig, posts: nat -> Post, pauses: nat -> Pause, made: nat, result: Delivery) {
    && 1 <= made <= c.maxRetries + 1
    && (forall k :: 1 <= k < made ==> !posts(k).accepted && pauses(k) == Elapses)
    && (result == Delivered <==> posts(made).accepted)
    && (result == Exhausted <==> !posts(made).accepted && made == c.maxRetries + 1)
    && (result == Cancelled <==> !posts(made).accepted && made <= c.maxRetries && pauses(made).Interrupted?)
  }

  /** The time the first n attempts take. */
  function Busy(posts: nat -> Post, n: nat): nat {
    if n == 0 then 0 else Busy(posts, n - 1) + posts(n).took
  }

  function Elapsed(c: RetryConfig, posts: nat -> Post, pauses: nat -> Pause, made: nat, result: Delivery): int
    requires made > 0
  {
    Busy(posts, made) + Waits(c, made - 1)
    + if result == Cancelled && pauses(made).Interrupted? then pauses(made).after else 0
  }

  lemma LadderIsUnique(c: RetryConfig, posts: nat -> Post, pauses: nat -> Pause, m: nat, r: Delivery, n: nat,
                       q: Delivery)
    requires Ladder(c, posts, pauses, m, r) && Ladder(c, posts, pauses, n, q)
    ensures m == n && r == q
  {
    assert m < n ==> !posts(m).accepted && pauses(m) == Elapses;
    assert n < m ==> !posts(n).accepted && pauses(n) == Elapses;
  }

  /** A ladder that is never interrupted delivers exactly when one of the attempts it is allowed is
      accepted. */
  lemma DeliversExactlyWhen(c: RetryConfig, posts: nat -> Post, pauses: nat -> Pause, made: nat, result: Delivery)
    requires Ladder(c, posts, pauses, made, result) && forall k :: pauses(k) == Elapses
    ensures result == Delivered <==> exists k: nat :: 1 <= k <= c.maxRetries + 1 && posts(k).accepted
  {
    if k: nat :| 1 <= k <= c.maxRetries + 1 && posts(k).accepted {
      assert k >= made;
      assert pauses(made) == Elapses;
    }
  }

  lemma {:induction false} BusyBound(c: RetryConfig, posts: nat -> Post, n: nat)
    requires c.Valid() && forall k :: posts(k).took <= c.timeout
    ensures Busy(posts, n) <= n * c.timeout
    ensures (forall k :: posts(k).took == c.timeout) ==> Busy(posts, n) == n * c.timeout
  {
    if n > 0 {
      BusyBound(c, posts, n - 1);
      assert n * c.timeout == (n - 1) * c.timeout + c.timeout;
    }
  }

  lemma {:induction false} WaitsMonotone(c: RetryConfig, m: nat, n: nat)
    requires c.Valid() && m <= n
    ensures Waits(c, m) <= Waits(c, n)
    ensures m < n ==> Waits(c, m) + Wait(c, m + 1) <= Waits(c, n)
    decreases n
  {
    if m < n {
      WaitsMonotone(c, m, n - 1);
      WaitsArePositive(c, n);
    }
  }

  lemma Times(a: nat, b: nat, t: nat)
    requires a <= b
    ensures a * t <= b * t
  {
  }

  /** The budget is sound: whatever the attempts do, the ladder is over with the margin to spare. */
  lemma WithinBudget(c: RetryConfig, posts: nat -> Post, pauses: nat -> Pause, made: nat, result: Delivery)
    requires c.Valid() && Bounded(c, posts, pauses) && Ladder(c, posts, pauses, made, result)
    ensures Elapsed(c, posts, pauses, made, result) <= Budget(c) - 30_000_000_000
  {
    BusyBound(c, posts, made);
    Times(made, c.maxRetries + 1, c.timeout);
    WaitsMonotone(c, made - 1, c.maxRetries);
  }

  /** The budget is tight: attempts that all time out use it up, but for the margin. */
  lemma BudgetIsReached(c: RetryConfig)
    requires c.Valid()
    ensures var posts: nat -> Post := k => Post(false, c.timeout);
            var pauses: nat -> Pause := k => Elapses;
      && Bounded(c, posts, pauses) && Ladder(c, posts, pauses, c.maxRetries + 1, Exhausted)
      && Elapsed(c, posts, pauses, c.maxRetries + 1, Exhausted) == Budget(c) - 30_000_000_000
  {
    BusyBound(c, k => Post(false, c.timeout), c.maxRetries + 1);
  }

  /** By default three retries wait 10, 20 and 40 seconds. */
  lemma DefaultBudget()
    ensures DefaultRetryConfig().Valid() && Budget(DefaultRetryConfig()) == 140_000_000_000
  {
    var c := DefaultRetryConfig();
    assert Wait(c, 1) == 10 * SECOND && Wait(c, 2) == 20 * SECOND && Wait(c, 3) == 40 * SECOND;
    assert Waits(c, 1) == Wait(c, 1);
    assert Waits(c, 2) == Waits(c, 1) + Wait(c, 2);
    assert Waits(c, 3) == Waits(c, 2) + Wait(c, 3);
  }

  /** Without a growing factor the ladder waits the same time before every retry. */
  lemma {:induction false} FixedWaits(c: RetryConfig, n: nat)
    requires c.backoff <= 1.0
    ensures Waits(c, n) == n * c.delay
  {
    if n > 0 {
      FixedWaits(c, n - 1);
      FixedWithoutBackoff(c, n);
    }
  }

  // ----- The dispatcher -----

  datatype DispatchError = NotLoaded | NoWebhook | Undelivered

  /** The row after a dispatch whose ladder made that many attempts: the stored retry count is the
      number of attempts beyond the first. */
  function RowAfter(b: Batch, made: nat, result: Delivery, now: int): Batch
    requires made > 0
  {
    if result == Delivered then b.WebhookMarked(WebhookSent, Some(now), made - 1, now)
    else b.WebhookMarked(WebhookFailed, None, made - 1, now)
  }

  class Dispatcher {
    const batches: BatchRepository
    const retry: RetryConfig

    constructor (batches: BatchRepository, retry: RetryConfig)
      ensures this.batches == batches && this.retry == Normalised(retry)
    {
      this.batches, this.retry := batches, Normalised(retry);
    }

    method RetryBudget() returns (total: int)
      requires retry.Valid()
      ensures total == Budget(retry) == (retry.maxRetries + 1) * retry.timeout + Waits(retry, retry.maxRetries)
                                        + 30_000_000_000
      ensures retry.backoff <= 1.0 ==>
                total == (retry.maxRetries + 1) * retry.timeout + retry.maxRetries * retry.delay + 30_000_000_000
    {
      total := (retry.maxRetries + 1) * retry.timeout;
      var delay := retry.delay;
      for i := 0 to retry.maxRetries
        invariant total == (retry.maxRetries + 1) * retry.timeout + Waits(retry, i)
        invariant delay == Wait(retry, i + 1)
      {
        total := total + delay;
        delay := NextDelay(delay, retry.backoff, retry.maxDelay);
      }
      total := total + MARGIN;
      if retry.backoff <= 1.0 {
        FixedWaits(retry, retry.maxRetries);
      }
    }

    method DeliverWithRetry(posts: nat -> Post, pauses: nat -> Pause)
      returns (made: nat, result: Delivery, elapsed: int)
      requires retry.Valid()
      ensures Ladder(retry, posts, pauses, made, result)
      ensures elapsed == Elapsed(retry, posts, pauses, made, result)
              == Busy(posts, made) + Waits(retry, made - 1) + if result == Cancelled then pauses(made).after else 0
    {
      var maxAttempts := retry.maxRetries + 1;
      var delay, attempt: nat := retry.delay, 1;
      elapsed := 0;
      while attempt <= maxAttempts
        invariant 1 <= attempt <= maxAttempts + 1
        invariant forall k :: 1 <= k < attempt ==> !posts(k).accepted
        invariant forall k :: 1 <= k < attempt - 1 ==> pauses(k) == Elapses
        invariant delay == Wait(retry, if attempt == 1 then 1 else attempt - 1)
        invariant elapsed == Busy(posts, attempt - 1) + Waits(retry, if attempt == 1 then 0 else attempt - 2)
      {
        if attempt > 1 {
          var pause := pauses(attempt - 1);
          if pause.Interrupted? {
            return attempt - 1, Cancelled, elapsed + pause.after;
          }
          elapsed := elapsed + delay;
          delay := NextDelay(delay, retry.backoff, retry.maxDelay);
        }
        var post := posts(attempt);
        elapsed := elapsed + post.took;
        if post.accepted {
          return attempt, Delivered, elapsed;
        }
        attempt := attempt + 1;
      }
      return maxAttempts, Exhausted, elapsed;
    }

    /** loaded says whether the hook and the submissions can be read, marked whether the outcome
        can be written. */
    method DispatchBatchWithRetry(id: string, loaded: bool, posts: nat -> Post, pauses: nat -> Pause, marked: bool,
                                  now: int)
      returns (r: Result<(), DispatchError>, ghost made: nat, ghost result: Delivery)
      requires retry.Valid()
      modifies batches
      ensures r == Failure(NotLoaded) <==> id !in old(batches.rows) || (old(batches.rows)[id].Linked() && !loaded)
      ensures r == Failure(NoWebhook) <==> id in old(batches.rows) && !old(batches.rows)[id].Linked()
      ensures r in {Failure(NotLoaded), Failure(NoWebhook)} ==> batches.rows == old(batches.rows)
      ensures r !in {Failure(NotLoaded), Failure(NoWebhook)} ==>
                && Ladder(retry, posts, pauses, made, result)
                && (r == Success(()) <==> result == Delivered)
                && batches.rows
                   == (if marked then old(batches.rows)[id := RowAfter(old(batches.rows)[id], made, result, now)]
                       else old(batches.rows))
                && (marked ==>
                      var b, b' := old(batches.rows)[id], batches.rows[id];
                      && (result == Delivered ==>
                            b' == b.(webhookStatus := WebhookSent, webhookSentAt := Some(now),
                                     webhookRetryCount := made - 1, updatedAt := now))
                      && (result != Delivered ==>
                            b' == b.(webhookStatus := WebhookFailed, webhookRetryCount := made - 1, updatedAt := now))
                      && (Reconciling.Undelivered(b) ==> (Reconciling.Undelivered(b') <==> result != Delivered)))
    {
      made, result := 0, Cancelled;
      if id !in batches.rows {
        return Failure(NotLoaded), made, result;
      }
      if !batches.rows[id].Linked() {
        return Failure(NoWebhook), made, result;
      }
      if !loaded {
        return Failure(NotLoaded), made, result;
      }
      var attempts, how, _ := DeliverWithRetry(posts, pauses);
      made, result := attempts, how;
      var retries := attempts - 1;
      if marked {
        if how == Delivered {
          var _ := batches.MarkWebhook(id, WebhookSent, Some(now), retries, now);
        } else {
          var _ := batches.MarkWebhook(id, WebhookFailed, None, retries, now);
        }
      }
      r := if how == Delivered then Success(()) else Failure(Undelivered);
    }
  }
}

/** The queue-manager's reconciler: every sweep re-delivers the webhooks of at most 25 completed
    batches, those whose row has gone untouched the longest. */
module Reconciling {
  import opened Common
  import opened BatchRows

  const GRACE := 120 * SECOND
  const MAX_AGE := 86400 * SECOND
  const SWEEP_LIMIT: nat := 25

  type Rows = map<string, Batch>

  /** A finished batch with a linked webhook that is still pending or failed. */
  predicate Undelivered(b: Batch) {
    b.status == Completed && b.webhookStatus in {WebhookPending, WebhookFailed} && b.Linked()
  }

  predicate Eligible(b: Batch, now: int) {
    Undelivered(b) && b.updatedAt <= now - GRACE && b.createdAt >= now - MAX_AGE
  }

  predicate Distinct(page: seq<string>) {
    forall i, j :: 0 <= i < j < |page| ==> page[i] != page[j]
  }

  /** The answers ListReconcilableBatches may give: the first SWEEP_LIMIT eligible rows ordered by
      updated_at, ties broken in any way. */
  ghost predicate IsPage(rows: Rows, now: int, page: seq<string>) {
    && Distinct(page) && |page| <= SWEEP_LIMIT
    && (forall id :: id in page ==> id in rows && Eligible(rows[id], now))
    && (forall i, j :: 0 <= i < j < |page| ==> rows[page[i]].updatedAt <= rows[page[j]].updatedAt)
    && (forall id :: id in rows && Eligible(rows[id], now) && id !in page ==>
          |page| == SWEEP_LIMIT && forall p :: p in page ==> rows[p].updatedAt <= rows[id].updatedAt)
  }

  /** The row that has gone untouched the longest. */
  lemma StalestExists(rows: Rows, ids: set<string>)
    requires ids != {} && ids <= rows.Keys
    ensures exists m :: m in ids && forall id :: id in ids ==> rows[m].updatedAt <= rows[id].updatedAt
  {
    var stamps := set id | id in ids :: rows[id].updatedAt;
    var some := Pick(ids);
    assert rows[some].updatedAt in stamps;
    LeastExists(stamps);
    var least :| least in stamps && forall t :: t in stamps ==> least <= t;
    var m :| m in ids && rows[m].updatedAt == least;
    assert forall id :: id in ids ==> rows[id].updatedAt in stamps;
  }

  /** The eligible rows are those of page, the longest untouched first, and those of rest. */
  ghost predicate Listing(rows: Rows, now: int, page: seq<string>, rest: set<string>) {
    && Distinct(page) && (forall id :: id in page ==> id !in rest)
    && (forall id :: id in page || id in rest <==> id in rows && Eligible(rows[id], now))
    && (forall i, j :: 0 <= i < j < |page| ==> rows[page[i]].updatedAt <= rows[page[j]].updatedAt)
    && (forall p, id :: p in page && id in rest ==> rows[p].updatedAt <= rows[id].updatedAt)
  }

  lemma ListNext(rows: Rows, now: int, page: seq<string>, rest: set<string>, next: string)
    requires Listing(rows, now, page, rest)
    requires next in rest && forall id :: id in rest ==> rows[next].updatedAt <= rows[id].updatedAt
    ensures Listing(rows, now, page + [next], rest - {next})
  {
    var longer := page + [next];
    assert forall id :: id in longer <==> id in page || id == next;
    assert forall i :: 0 <= i < |page| ==> longer[i] in page;
  }

  /** At most 25 finished batches with a linked webhook that is pending or failed, untouched for two
      minutes and not older than a day; the longest untouched come first, and none that meets these
      conditions is passed over for one stamped later. */
  method ListReconcilableBatches(rows: Rows, now: int) returns (page: seq<string>)
    ensures IsPage(rows, now, page) && |page| <= 25
    ensures forall id :: id in page ==>
              && id in rows && rows[id].status == Completed && rows[id].webhookStatus != WebhookSent
              && rows[id].webhookId.Some? && rows[id].webhookId.value != ""
              && rows[id].updatedAt <= now - 120_000_000_000 && rows[id].createdAt >= now - 86_400_000_000_000
    ensures forall id ::
              (&& id in rows && id !in page && rows[id].status == Completed && rows[id].webhookStatus != WebhookSent
               && rows[id].webhookId.Some? && rows[id].webhookId.value != ""
               && rows[id].updatedAt <= now - 120_000_000_000 && rows[id].createdAt >= now - 86_400_000_000_000)
              ==> |page| == 25 && forall p :: p in page ==> rows[p].updatedAt <= rows[id].updatedAt
  {
    var rest := set id | id in rows && Eligible(rows[id], now);
    page := [];
    while rest != {} && |page| < SWEEP_LIMIT
      invariant |page| <= SWEEP_LIMIT && Listing(rows, now, page, rest)
      decreases |rest|
    {
      StalestExists(rows, rest);
      var next :| next in rest && forall id :: id in rest ==> rows[next].updatedAt <= rows[id].updatedAt;
      ListNext(rows, now, page, rest, next);
      page := page + [next];
      rest := rest - {next};
    }
  }

  /** How one delivery attempt ends: the batch, hook or submissions cannot be loaded; the receiver
      accepts; the receiver rejects.  marked says whether the outcome could be recorded. */
  datatype Attempt = PrepareFails | Accepted(marked: bool) | Rejected(marked: bool)

  predicate Recorded(a: Attempt) {
    a == Accepted(true) || a == Rejected(true)
  }

  /** A batch without a webhook is not attempted at all. */
  function Attempted(b: Batch, a: Attempt, now: int): Batch {
    if !b.Linked() then b
    else if a == Accepted(true) then b.WebhookMarked(WebhookSent, Some(now), 0, now)
    else if a == Rejected(true) then b.WebhookMarked(WebhookFailed, None, 0, now)
    else b
  }

  /** Dispatcher.DispatchBatch: one attempt, its outcome recorded on the row. */
  method DispatchBatch(batches: BatchRepository, id: string, a: Attempt, now: int) returns (ok: bool)
    modifies batches
    ensures id !in old(batches.rows) ==> batches.rows == old(batches.rows)
    ensures id in old(batches.rows) ==>
        batches.rows == old(batches.rows)[id := Attempted(old(batches.rows)[id], a, now)]
    ensures a !in {Accepted(true), Rejected(true)} ==> batches.rows == old(batches.rows)
    ensures id in old(batches.rows) ==>
              var b, b' := old(batches.rows)[id], batches.rows[id];
              if b.webhookId.None? || b.webhookId.value == "" then b' == b
              else
                && (a == Accepted(true) ==>
                      b' == b.(webhookStatus := WebhookSent, webhookRetryCount := 0, webhookSentAt := Some(now),
                               updatedAt := now))
                && (a == Rejected(true) ==>
                      b' == b.(webhookStatus := WebhookFailed, webhookRetryCount := 0, updatedAt := now))
                && (Undelivered(b) ==> (Undelivered(b') <==> a != Accepted(true)))
    ensures ok <==> id in old(batches.rows) && old(batches.rows)[id].Linked() && a.Accepted?
  {
    assert id in batches.rows ==> batches.rows == batches.rows[id := batches.rows[id]];
    if id !in batches.rows || !batches.rows[id].Linked() || a.PrepareFails? {
      return false;
    }
    if a.Rejected? {
      if a.marked {
        var _ := batches.MarkWebhook(id, WebhookFailed, None, 0, now);
      }
      return false;
    }
    if a.marked {
      var _ := batches.MarkWebhook(id, WebhookSent, Some(now), 0, now);
    }
    ok := true;
  }

  /** The rows after the attempts on page, in page order; times[k] is when attempt k ends. */
  function Swept(rows: Rows, page: seq<string>, attempts: seq<Attempt>, times: seq<int>): Rows
    requires |page| == |attempts| == |times|
  {
    if page == [] then rows
    else
      var last := |page| - 1;
      var before := Swept(rows, page[..last], attempts[..last], times[..last]);
      if page[last] in before then before[page[last] := Attempted(before[page[last]], attempts[last], times[last])]
      else before
  }

  method ReconcileWebhooksOnce(batches: BatchRepository, now: int, page: seq<string>, attempts: seq<Attempt>,
                               times: seq<int>)
    requires IsPage(batches.rows, now, page) && |page| == |attempts| == |times|
    modifies batches
    ensures batches.rows == Swept(old(batches.rows), page, attempts, times)
    ensures batches.rows.Keys == old(batches.rows).Keys
    ensures forall id :: id in batches.rows && id !in page ==> batches.rows[id] == old(batches.rows)[id]
    ensures forall i :: 0 <= i < |page| ==>
              && page[i] in batches.rows
              && var b, b' := old(batches.rows)[page[i]], batches.rows[page[i]];
                 && (attempts[i] == Accepted(true) ==>
                       b' == b.(webhookStatus := WebhookSent, webhookRetryCount := 0, webhookSentAt := Some(times[i]),
                                updatedAt := times[i]))
                 && (attempts[i] == Rejected(true) ==>
                       b' == b.(webhookStatus := WebhookFailed, webhookRetryCount := 0, updatedAt := times[i]))
                 && (attempts[i] !in {Accepted(true), Rejected(true)} ==> b' == b)
  {
    for k := 0 to |page|
      invariant batches.rows == Swept(old(batches.rows), page[..k], attempts[..k], times[..k])
      invariant batches.rows.Keys == old(batches.rows).Keys
    {
      assert page[..k + 1][..k] == page[..k] && attempts[..k + 1][..k] == attempts[..k]
          && times[..k + 1][..k] == times[..k];
      assert page[k] in page;
      var _ := DispatchBatch(batches, page[k], attempts[k], times[k]);
    }
    assert page[..|page|] == page && attempts[..|page|] == attempts && times[..|page|] == times;
    forall id | id in batches.rows && id !in page
      ensures batches.rows[id] == old(batches.rows)[id]
    {
      SweptOthers(old(batches.rows), page, attempts, times, id);
    }
    forall i | 0 <= i < |page|
      ensures page[i] in batches.rows && page[i] in old(batches.rows) && old(batches.rows)[page[i]].Linked()
      ensures batches.rows[page[i]] == Attempted(old(batches.rows)[page[i]], attempts[i], times[i])
    {
      assert page[i] in page;
      SweptAt(old(batches.rows), page, attempts, times, i);
    }
  }

  // ----- Waiting -----

  /** The eligible batches that may come before target in the order of a sweep at time now. */
  function Ahead(rows: Rows, now: int, target: string): set<string>
    requires target in rows
  {
    set id | id in rows && id != target && Eligible(rows[id], now) && rows[id].updatedAt <= rows[target].updatedAt
  }

  datatype Round = Round(rows: Rows, now: int, page: seq<string>, attempts: seq<Attempt>, times: seq<int>)

  ghost predicate IsRound(r: Round) {
    && IsPage(r.rows, r.now, r.page)
    && |r.page| == |r.attempts| == |r.times|
    && forall k :: 0 <= k < |r.times| ==> r.times[k] >= r.now
  }

  function End(r: Round): Rows
    requires |r.page| == |r.attempts| == |r.times|
  {
    Swept(r.rows, r.page, r.attempts, r.times)
  }

  /** What the rest of the system does between two sweeps: rows may be written, which stamps them
      later than target, or appear and vanish; target itself is left alone. */
  ghost predicate Meanwhile(before: Rows, after: Rows, target: string) {
    && target in before && target in after && after[target] == before[target]
    && forall id :: id in after && id != target ==>
         (id in before && after[id] == before[id]) || after[id].updatedAt > after[target].updatedAt
  }

  /** Consecutive sweeps while target waits in the table. */
  ghost predicate Waits(rounds: seq<Round>, target: string) {
    && (forall k :: 0 <= k < |rounds| ==>
          IsRound(rounds[k]) && target in rounds[k].rows && Eligible(rounds[k].rows[target], rounds[k].now))
    && (forall k :: 0 < k < |rounds| ==> rounds[k - 1].now <= rounds[k].now)
    && (forall k :: 0 < k < |rounds| && target !in rounds[k - 1].page ==>
          Meanwhile(End(rounds[k - 1]), rounds[k].rows, target))
  }

  /** In these rounds every attempt outside broken reaches the receiver and is recorded. */
  ghost predicate OnlyTheseBreak(rounds: seq<Round>, broken: set<string>) {
    forall k, i :: 0 <= k < |rounds| && 0 <= i < |rounds[k].page| && i < |rounds[k].attempts| ==>
      rounds[k].page[i] in broken || Recorded(rounds[k].attempts[i])
  }

  lemma {:induction false} SweptOthers(rows: Rows, page: seq<string>, attempts: seq<Attempt>, times: seq<int>,
                                       id: string)
    requires |page| == |attempts| == |times|
    ensures Swept(rows, page, attempts, times).Keys == rows.Keys
    ensures id in rows && id !in page ==> Swept(rows, page, attempts, times)[id] == rows[id]
    decreases |page|
  {
    if page != [] {
      var last := |page| - 1;
      SweptOthers(rows, page[..last], attempts[..last], times[..last], id);
    }
  }

  lemma {:induction false} SweptAt(rows: Rows, page: seq<string>, attempts: seq<Attempt>, times: seq<int>, i: nat)
    requires |page| == |attempts| == |times| && i < |page| && Distinct(page) && page[i] in rows
    ensures page[i] in Swept(rows, page, attempts, times)
    ensures Swept(rows, page, attempts, times)[page[i]] == Attempted(rows[page[i]], attempts[i], times[i])
    decreases |page|
  {
    var last := |page| - 1;
    SweptOthers(rows, page[..last], attempts[..last], times[..last], page[i]);
    if i < last {
      SweptAt(rows, page[..last], attempts[..last], times[..last], i);
    } else {
      assert page[last] !in page[..last];
    }
  }

  /** An attempt that fails to prepare, or whose outcome is not recorded, leaves the row where it
      was; every other one moves it behind every row of the past, and only an accepted one takes the
      batch out of the set. */
  lemma AttemptMovesExactlyWhenRecorded(b: Batch, a: Attempt, now: int, latest: int)
    requires Undelivered(b) && b.updatedAt <= latest < now
    ensures Attempted(b, a, now).updatedAt > latest <==> Recorded(a)
    ensures Undelivered(Attempted(b, a, now)) <==> a != Accepted(true)
  {
  }

  /** A recorded attempt takes its batch out of the way of target. */
  lemma RecordedLeaves(r: Round, target: string, i: nat, later: int)
    requires IsRound(r) && target in r.rows && Eligible(r.rows[target], r.now) && target !in r.page
    requires i < |r.page| && Recorded(r.attempts[i])
    requires target in End(r) && End(r)[target] == r.rows[target]
    ensures r.page[i] !in Ahead(End(r), later, target)
  {
    var id := r.page[i];
    SweptAt(r.rows, r.page, r.attempts, r.times, i);
    assert r.times[i] >= r.now;
    AttemptMovesExactlyWhenRecorded(r.rows[id], r.attempts[i], r.times[i], r.rows[target].updatedAt);
  }

  /** A sweep that leaves target out works on SWEEP_LIMIT batches ahead of it, and those it can
      record are ahead no longer. */
  lemma SweepAdvances(r: Round, target: string, broken: set<string>, later: int)
    requires IsRound(r) && target in r.rows && Eligible(r.rows[target], r.now) && target !in r.page
    requires OnlyTheseBreak([r], broken) && later >= r.now
    ensures target in End(r) && End(r)[target] == r.rows[target]
    ensures |r.page| == SWEEP_LIMIT
    ensures forall id :: id in r.page ==> id in Ahead(r.rows, r.now, target)
    ensures Ahead(End(r), later, target) - broken <= Ahead(r.rows, r.now, target) - broken - (set id | id in r.page)
  {
    SweptOthers(r.rows, r.page, r.attempts, r.times, target);
    forall i | 0 <= i < |r.page| && r.page[i] !in broken
      ensures r.page[i] !in Ahead(End(r), later, target)
    {
      assert Recorded([r][0].attempts[i]);
      RecordedLeaves(r, target, i, later);
    }
    forall id | id in Ahead(End(r), later, target) - broken
      ensures id in Ahead(r.rows, r.now, target) && id !in r.page
    {
      SweptOthers(r.rows, r.page, r.attempts, r.times, id);
    }
  }

  lemma PageOutside(page: seq<string>, broken: set<string>)
    requires Distinct(page)
    ensures |(set id | id in page) - broken| >= |page| - |broken|
  {
    var ids := set id | id in page;
    DistinctSize(page);
    SplitSize(ids, ids * broken);
    SubsetSize(ids * broken, broken);
    assert ids - broken == ids - ids * broken;
  }

  lemma AheadShrinks(r: Round, next: Rows, later: int, target: string, broken: set<string>)
    requires IsRound(r) && target in r.rows && Eligible(r.rows[target], r.now) && target !in r.page
    requires OnlyTheseBreak([r], broken) && Meanwhile(End(r), next, target) && later >= r.now
    ensures |Ahead(next, later, target) - broken| + SWEEP_LIMIT <= |Ahead(r.rows, r.now, target) - broken| + |broken|
  {
    SweepAdvances(r, target, broken, later);
    var before, ids := Ahead(r.rows, r.now, target) - broken, set id | id in r.page;
    assert Ahead(next, later, target) - broken <= Ahead(End(r), later, target) - broken;
    SubsetSize(Ahead(next, later, target) - broken, before - (ids - broken));
    assert ids - broken <= before;
    SplitSize(before, ids - broken);
    PageOutside(r.page, broken);
  }

  lemma FullSweep(r: Round, target: string, broken: set<string>)
    requires IsRound(r) && target in r.rows && Eligible(r.rows[target], r.now) && target !in r.page
    requires OnlyTheseBreak([r], broken) && |broken| < SWEEP_LIMIT
    ensures |Ahead(r.rows, r.now, target) - broken| >= SWEEP_LIMIT - |broken|
  {
    SweepAdvances(r, target, broken, r.now);
    PageOutside(r.page, broken);
    SubsetSize((set id | id in r.page) - broken, Ahead(r.rows, r.now, target) - broken);
  }

  /** One sweep without target leaves a shorter wait of the same kind. */
  lemma OneSweepOn(rounds: seq<Round>, target: string, broken: set<string>)
    requires Waits(rounds, target) && OnlyTheseBreak(rounds, broken)
    requires |broken| < SWEEP_LIMIT && rounds != [] && target !in rounds[0].page
    requires |rounds| * (SWEEP_LIMIT - |broken|) > |Ahead(rounds[0].rows, rounds[0].now, target) - broken|
    ensures |rounds| >= 2 && Waits(rounds[1..], target) && OnlyTheseBreak(rounds[1..], broken)
    ensures |rounds[1..]| * (SWEEP_LIMIT - |broken|) > |Ahead(rounds[1].rows, rounds[1].now, target) - broken|
  {
    var r, room := rounds[0], SWEEP_LIMIT - |broken|;
    FirstRound(rounds, target, broken);
    FullSweep(r, target, broken);
    RoomForOne(|rounds|, room, |Ahead(r.rows, r.now, target) - broken|);
    assert Meanwhile(End(rounds[0]), rounds[1].rows, target);
    AheadShrinks(r, rounds[1].rows, rounds[1].now, target, broken);
  }

  /** Bounded waiting.  Let fewer than 25 batches be broken, in the sense that their attempts never
      get past loading or are never recorded.  A waiting batch with w other eligible batches
      ahead of it, not counting the broken ones, is attempted within n sweeps as soon as
      n * (25 - broken) > w. */
  lemma {:induction false} BoundedWaiting(rounds: seq<Round>, target: string, broken: set<string>)
    requires Waits(rounds, target) && OnlyTheseBreak(rounds, broken)
    requires |broken| < 25 && rounds != []
    requires |rounds| * (25 - |broken|) > |Ahead(rounds[0].rows, rounds[0].now, target) - broken|
    ensures exists k :: 0 <= k < |rounds| && target in rounds[k].page
    decreases |rounds|
  {
    if target !in rounds[0].page {
      OneSweepOn(rounds, target, broken);
      var rest := rounds[1..];
      BoundedWaiting(rest, target, broken);
      var k :| 0 <= k < |rest| && target in rest[k].page;
      assert target in rounds[k + 1].page;
    }
  }

  lemma RoomForOne(n: nat, room: nat, waiting: nat)
    requires n * room > waiting >= room
    ensures n >= 2 && (n - 1) * room > waiting - room
  {
    assert (n - 1) * room == n * room - room;
  }

  lemma FirstRound(rounds: seq<Round>, target: string, broken: set<string>)
    requires Waits(rounds, target) && OnlyTheseBreak(rounds, broken) && rounds != []
    ensures OnlyTheseBreak([rounds[0]], broken) && OnlyTheseBreak(rounds[1..], broken) && Waits(rounds[1..], target)
  {
    var rest := rounds[1..];
    forall k, i | 0 <= k < |rest| && 0 <= i < |rest[k].page| && i < |rest[k].attempts| && rest[k].page[i] !in broken
      ensures Recorded(rest[k].attempts[i])
    {
      assert rounds[k + 1].page[i] !in broken;
    }
    forall k, i | 0 <= k < 1 && 0 <= i < |[rounds[0]][k].page| && i < |[rounds[0]][k].attempts|
        && [rounds[0]][k].page[i] !in broken
      ensures Recorded([rounds[0]][k].attempts[i])
    {
      assert rounds[0].page[i] !in broken;
    }
    forall k | 0 < k < |rest| && target !in rest[k - 1].page
      ensures Meanwhile(End(rest[k - 1]), rest[k].rows, target)
    {
      assert rest[k - 1] == rounds[k] && rest[k] == rounds[k + 1];
    }
  }

  /** With every attempt recorded, a batch with w eligible ones ahead of it is attempted within
      w / 25 + 1 sweeps. */
  lemma BoundedWaitingWhenNoneBreaks(rounds: seq<Round>, target: string)
    requires Waits(rounds, target) && OnlyTheseBreak(rounds, {}) && rounds != []
    requires |rounds| >= |Ahead(rounds[0].rows, rounds[0].now, target)| / 25 + 1
    ensures exists k :: 0 <= k < |rounds| && target in rounds[k].page
  {
    assert Ahead(rounds[0].rows, rounds[0].now, target) - {} == Ahead(rounds[0].rows, rounds[0].now, target);
    BoundedWaiting(rounds, target, {});
  }

  /** The broken batches are never recorded, nothing else writes them, and they do not age out. */
  ghost predicate StayBroken(rounds: seq<Round>, broken: set<string>) {
    && (forall k :: 0 <= k < |rounds| ==> IsRound(rounds[k]))
    && (forall k, i :: 0 <= k < |rounds| && 0 <= i < |rounds[k].page| && i < |rounds[k].attempts| ==>
          rounds[k].page[i] in broken ==> !Recorded(rounds[k].attempts[i]))
    && (forall k, id :: 0 < k < |rounds| && id in broken && id in End(rounds[k - 1]) ==>
          id in rounds[k].rows && rounds[k].rows[id] == End(rounds[k - 1])[id])
    && (forall k, id :: 0 <= k < |rounds| && id in broken && id in rounds[k].rows ==>
          rounds[0].now <= rounds[k].now && rounds[k].rows[id].createdAt >= rounds[k].now - MAX_AGE)
  }

  lemma SweepKeepsUnrecorded(r: Round, id: string)
    requires IsRound(r) && id in r.rows
    requires forall i :: 0 <= i < |r.page| && r.page[i] == id ==> !Recorded(r.attempts[i])
    ensures id in End(r) && End(r)[id] == r.rows[id]
  {
    SweptOthers(r.rows, r.page, r.attempts, r.times, id);
    if id in r.page {
      var i :| 0 <= i < |r.page| && r.page[i] == id;
      SweptAt(r.rows, r.page, r.attempts, r.times, i);
    }
  }

  lemma {:induction false} BrokenRowsStay(rounds: seq<Round>, broken: set<string>, id: string, k: nat)
    requires StayBroken(rounds, broken) && id in broken && k < |rounds| && id in rounds[0].rows
    ensures id in rounds[k].rows && rounds[k].rows[id] == rounds[0].rows[id]
  {
    if k > 0 {
      BrokenRowsStay(rounds, broken, id, k - 1);
      SweepKeepsUnrecorded(rounds[k - 1], id);
    }
  }

  /** The broken batches are eligible and come before target. */
  ghost predicate Blocked(r: Round, target: string, broken: set<string>)
    requires target in r.rows
  {
    forall id :: id in broken ==>
        id in r.rows && Eligible(r.rows[id], r.now) && r.rows[id].updatedAt < r.rows[target].updatedAt
  }

  lemma NotBehindBroken(r: Round, target: string, broken: set<string>)
    requires IsRound(r) && target in r.rows && |broken| >= SWEEP_LIMIT && Blocked(r, target, broken)
    ensures target !in r.page
  {
    if target in r.page {
      var ids := set id | id in r.page;
      assert broken + {target} <= ids;
      SubsetSize(broken + {target}, ids);
      DistinctSize(r.page);
    }
  }

  lemma StillBlocked(rounds: seq<Round>, target: string, broken: set<string>, k: nat)
    requires StayBroken(rounds, broken) && k < |rounds| && target in rounds[0].rows
        && Blocked(rounds[0], target, broken)
    requires target in rounds[k].rows && rounds[k].rows[target] == rounds[0].rows[target]
    ensures Blocked(rounds[k], target, broken)
  {
    forall id | id in broken
      ensures id in rounds[k].rows && rounds[k].rows[id] == rounds[0].rows[id]
    {
      BrokenRowsStay(rounds, broken, id, k);
    }
  }

  lemma {:induction false} WaitingRowStays(rounds: seq<Round>, target: string, broken: set<string>, k: nat)
    requires Waits(rounds, target) && StayBroken(rounds, broken) && |broken| >= SWEEP_LIMIT && k < |rounds|
    requires Blocked(rounds[0], target, broken)
    ensures rounds[k].rows[target] == rounds[0].rows[target] && target !in rounds[k].page
  {
    if k > 0 {
      var p := rounds[k - 1];
      WaitingRowStays(rounds, target, broken, k - 1);
      SweptOthers(p.rows, p.page, p.attempts, p.times, target);
      assert Meanwhile(End(rounds[k - 1]), rounds[k].rows, target);
    }
    StillBlocked(rounds, target, broken, k);
    NotBehindBroken(rounds[k], target, broken);
  }

  /** Starvation: 25 broken batches before target in the first sweep keep it out of every sweep. */
  lemma StarvedBehindBroken(rounds: seq<Round>, target: string, broken: set<string>)
    requires Waits(rounds, target) && StayBroken(rounds, broken) && |broken| >= 25 && rounds != []
    requires Blocked(rounds[0], target, broken)
    ensures forall k :: 0 <= k < |rounds| ==> target !in rounds[k].page
  {
    forall k | 0 <= k < |rounds| ensures target !in rounds[k].page {
      WaitingRowStays(rounds, target, broken, k);
    }
  }

  // ----- Starvation happens -----

  /** Twenty-five batches whose deliveries cannot be prepared, stamped 1 to 25, and one stamped 26. */
  function Id(stamp: nat): (id: string)
    ensures |id| == stamp
  {
    seq(stamp, _ => 'b')
  }

  function Stuck(): Rows {
    map id | id in set k: nat | 1 <= k <= SWEEP_LIMIT + 1 :: Id(k) ::
      Batch(Some("hook"), Completed, 1, 1, WebhookPending, 0, None, 0, |id|)
  }

  function OldestPage(): seq<string> {
    seq(SWEEP_LIMIT, i requires 0 <= i < SWEEP_LIMIT => Id(i + 1))
  }

  function StuckRound(): Round {
    Round(Stuck(), GRACE + SECOND, OldestPage(),
          seq(SWEEP_LIMIT, _ => PrepareFails), seq(SWEEP_LIMIT, _ => GRACE + SECOND))
  }

  lemma StuckRows()
    ensures forall id :: id in Stuck() <==> exists k: nat :: 1 <= k <= SWEEP_LIMIT + 1 && id == Id(k)
    ensures forall id :: id in Stuck() ==> Eligible(Stuck()[id], GRACE + SECOND) && Stuck()[id].updatedAt == |id|
  {
  }

  /** The page holds the ids up to the twenty-fifth, in order. */
  lemma OldestIds(page: seq<string>)
    requires page == OldestPage()
    ensures |page| == SWEEP_LIMIT && Distinct(page) && forall i :: 0 <= i < SWEEP_LIMIT ==> |page[i]| == i + 1
    ensures forall k: nat :: 1 <= k <= SWEEP_LIMIT ==> Id(k) in page
    ensures forall id :: id in page ==> id in Stuck() && |id| <= SWEEP_LIMIT
  {
    assert forall i :: 0 <= i < SWEEP_LIMIT ==> |page[i]| == i + 1;
    forall k: nat | 1 <= k <= SWEEP_LIMIT
      ensures Id(k) in page
    {
      assert page[k - 1] == Id(k);
    }
    forall id | id in page
      ensures id in Stuck() && |id| <= SWEEP_LIMIT
    {
      var i :| 0 <= i < SWEEP_LIMIT && page[i] == id;
      assert id == Id(i + 1);
    }
  }

  lemma StuckPage()
    ensures IsRound(StuckRound())
  {
    StuckRows();
    OldestIds(OldestPage());
  }

  lemma StuckStays()
    requires IsRound(StuckRound())
    ensures End(StuckRound()) == Stuck()
  {
    var r := StuckRound();
    SweptOthers(r.rows, r.page, r.attempts, r.times, "");
    forall id | id in r.rows
      ensures id in End(r) && End(r)[id] == r.rows[id]
    {
      SweepKeepsUnrecorded(r, id);
    }
  }

  /** A sweep that changes nothing and leaves nobody too old. */
  ghost predicate Repeatable(r: Round, target: string, broken: set<string>) {
    && IsRound(r) && End(r) == r.rows && target in r.rows && Eligible(r.rows[target], r.now)
    && (forall i :: 0 <= i < |r.attempts| ==> !Recorded(r.attempts[i]))
    && forall id :: id in broken && id in r.rows ==> r.rows[id].createdAt >= r.now - MAX_AGE
  }

  lemma Repeats(r: Round, n: nat, target: string, broken: set<string>) returns (rounds: seq<Round>)
    requires Repeatable(r, target, broken)
    ensures |rounds| == n && (forall k :: 0 <= k < n ==> rounds[k] == r)
    ensures Waits(rounds, target) && StayBroken(rounds, broken)
  {
    rounds := seq(n, _ => r);
    assert Meanwhile(End(r), r.rows, target);
  }

  lemma StuckRepeats(target: string, broken: set<string>)
    requires target == Id(SWEEP_LIMIT + 1)
    ensures Repeatable(StuckRound(), target, broken)
  {
    StuckRows();
    StuckPage();
    StuckStays();
    assert target in Stuck();
  }

  lemma StuckBlocks(target: string, broken: set<string>)
    requires target == Id(SWEEP_LIMIT + 1) && broken == set id | id in OldestPage()
    ensures target in Stuck() && |broken| == SWEEP_LIMIT && Blocked(StuckRound(), target, broken)
  {
    StuckRows();
    OldestIds(OldestPage());
    DistinctSize(OldestPage());
    assert target in Stuck();
  }

  /** However many sweeps there are, the batch stamped last is in none of them. */
  lemma StarvationHappens(n: nat) returns (rounds: seq<Round>, target: string)
    requires n > 0
    ensures |rounds| == n && Waits(rounds, target)
    ensures forall k :: 0 <= k < n ==> target !in rounds[k].page
  {
    var broken := set id | id in OldestPage();
    target := Id(SWEEP_LIMIT + 1);
    StuckRepeats(target, broken);
    StuckBlocks(target, broken);
    rounds := Repeats(StuckRound(), n, target, broken);
    assert rounds[0] == StuckRound();
    StarvedBehindBroken(rounds, target, broken);
  }
}

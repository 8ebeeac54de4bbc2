/** One row of the batches table and the SQL statements that change it.

    Each statement is one atomic step.  IncrementCompleted is read as the repository's interface
    promises it: both assigned columns are computed from the row as it was before the statement. */
module BatchRows {
  import opened Common

  datatype BatchStatus = Pending | Processing | Completed

  datatype WebhookStatus = WebhookPending | WebhookSent | WebhookFailed

  datatype Batch = Batch(
    webhookId: Option<string>,
    status: BatchStatus,
    total: nat,
    completed: nat,
    webhookStatus: WebhookStatus,
    webhookRetryCount: nat,
    webhookSentAt: Option<int>,
    createdAt: int,
    updatedAt: int)
  {
    predicate IsComplete() {
      total > 0 && completed >= total
    }

    predicate Linked() {
      webhookId.Some? && webhookId.value != ""
    }

    /** The stored status tells the truth about the counters. */
    predicate Coherent() {
      status == Completed <==> IsComplete()
    }

    function MarkedProcessing(now: int): Batch {
      if status == Pending then this.(status := Processing, updatedAt := now) else this
    }

    function MarkedPending(now: int): Batch {
      if status == Processing then this.(status := Pending, updatedAt := now) else this
    }

    function Incremented(now: int): Batch {
      this.(completed := completed + 1,
            status := if completed + 1 >= total then Completed else Processing,
            updatedAt := now)
    }

    /** The same UPDATE evaluated as MySQL documents it, column by column from left to right:
        the CASE sees a counter that has already been bumped. */
    function IncrementedLeftToRight(now: int): Batch {
      var bumped := this.(completed := completed + 1);
      bumped.(status := if bumped.completed + 1 >= total then Completed else Processing,
              updatedAt := now)
    }

    function WebhookMarked(outcome: WebhookStatus, sentAt: Option<int>, retries: nat, now: int): Batch {
      this.(webhookStatus := outcome,
            webhookRetryCount := retries,
            webhookSentAt := if sentAt.Some? then sentAt else webhookSentAt,
            updatedAt := now)
    }
  }

  /** A batch as POST /batches persists it. */
  function Created(submissions: nat, webhookId: Option<string>, now: int): Batch {
    Batch(webhookId, Pending, submissions, 0, WebhookPending, 0, None, now, now)
  }

  datatype RepoError = NotFound

  /** The batches table, keyed by batch id. */
  class BatchRepository {
    var rows: map<string, Batch>

    constructor ()
      ensures rows == map[]
    {
      rows := map[];
    }

    method Create(id: string, submissions: nat, webhookId: Option<string>, now: int)
      modifies this
      ensures rows == old(rows)[id := Batch(webhookId, Pending, submissions, 0, WebhookPending, 0, None, now, now)]
    {
      rows := rows[id := Created(submissions, webhookId, now)];
    }

    /** UPDATE ... SET status = processing WHERE id = ? AND status = pending; the caller has
        started the batch when exactly one row was affected. */
    method MarkProcessing(id: string, now: int) returns (started: bool)
      modifies this
      ensures started <==> id in old(rows) && old(rows)[id].status == Pending
      ensures rows == if started then old(rows)[id := old(rows)[id].(status := Processing, updatedAt := now)]
              else old(rows)
      ensures rows == if id in old(rows) then old(rows)[id := old(rows)[id].MarkedProcessing(now)] else old(rows)
    {
      var affected := 0;
      if id in rows && rows[id].status == Pending {
        rows := rows[id := rows[id].(status := Processing, updatedAt := now)];
        affected := affected + 1;
      }
      assert id in old(rows) ==> rows == old(rows)[id := old(rows)[id].MarkedProcessing(now)];
      started := affected == 1;
    }

    method MarkPending(id: string, now: int)
      modifies this
      ensures rows == if id in old(rows) && old(rows)[id].status == Processing
              then old(rows)[id := old(rows)[id].(status := Pending, updatedAt := now)] else old(rows)
      ensures rows == if id in old(rows) then old(rows)[id := old(rows)[id].MarkedPending(now)] else old(rows)
    {
      if id in rows && rows[id].status == Processing {
        rows := rows[id := rows[id].(status := Pending, updatedAt := now)];
      }
      assert id in old(rows) ==> rows == old(rows)[id := old(rows)[id].MarkedPending(now)];
    }

    /** The transaction of an UPDATE and a re-read; an unknown id rolls it back. */
    method IncrementCompleted(id: string, now: int) returns (r: Result<Batch, RepoError>)
      modifies this
      ensures id !in old(rows) ==> r == Failure(NotFound) && rows == old(rows)
      ensures id in old(rows) ==> rows == old(rows)[id := old(rows)[id].Incremented(now)] && r == Success(rows[id])
      ensures r.Success? ==>
                && r.value.completed == old(rows)[id].completed + 1 && r.value.total == old(rows)[id].total
                && r.value.status == (if r.value.completed >= r.value.total then Completed else Processing)
                && r.value.updatedAt == now
                && r.value == old(rows)[id].(completed := r.value.completed, status := r.value.status, updatedAt := now)
                && (r.value.total > 0 ==> r.value.Coherent())
    {
      if id !in rows {
        return Failure(NotFound);
      }
      var b := rows[id];
      var status := if b.completed + 1 >= b.total then Completed else Processing;
      rows := rows[id := b.(completed := b.completed + 1, status := status, updatedAt := now)];
      r := Success(rows[id]);
    }

    method MarkWebhook(id: string, outcome: WebhookStatus, sentAt: Option<int>, retries: nat, now: int)
      returns (r: Result<(), RepoError>)
      modifies this
      ensures id !in old(rows) ==> r == Failure(NotFound) && rows == old(rows)
      ensures id in old(rows) ==>
          r == Success(()) && rows == old(rows)[id := old(rows)[id].WebhookMarked(outcome, sentAt, retries, now)]
      ensures r.Success? ==>
                && rows[id].webhookStatus == outcome && rows[id].webhookRetryCount == retries
                && rows[id].webhookSentAt == (if sentAt.Some? then sentAt else old(rows)[id].webhookSentAt)
                && rows[id].updatedAt == now
                && rows[id].webhookId == old(rows)[id].webhookId && rows[id].status == old(rows)[id].status
                && rows[id].total == old(rows)[id].total && rows[id].completed == old(rows)[id].completed
                && rows[id].createdAt == old(rows)[id].createdAt
    {
      if id !in rows {
        return Failure(NotFound);
      }
      var b := rows[id].(webhookStatus := outcome, webhookRetryCount := retries, updatedAt := now);
      if sentAt.Some? {
        b := b.(webhookSentAt := sentAt);
      }
      rows := rows[id := b];
      r := Success(());
    }

    /** Worker.advanceBatch: count one finished submission and say whether this finisher launches
        the webhook.  Empty and unknown batch ids are silent no-ops. */
    method AdvanceBatch(batchId: string, now: int) returns (launch: bool)
      modifies this
      ensures batchId == "" || batchId !in old(rows) ==> !launch && rows == old(rows)
      ensures batchId != "" && batchId in old(rows) ==>
                && rows == old(rows)[batchId := old(rows)[batchId].Incremented(now)]
                && rows[batchId].completed == old(rows)[batchId].completed + 1
                && var b := rows[batchId];
                   launch <==> b.completed >= b.total > 0 && b.webhookId.Some? && b.webhookId.value != ""
    {
      launch := false;
      if batchId == "" {
        return;
      }
      var r := IncrementCompleted(batchId, now);
      if r.Failure? {
        return;
      }
      if !r.value.IsComplete() {
        return;
      }
      if r.value.webhookId == None || r.value.webhookId.value == "" {
        return;
      }
      launch := true;
    }
  }

  // ----- What the order of evaluation inside the UPDATE decides -----

  function Finishes(b: Batch, k: nat, now: int): Batch {
    if k == 0 then b else Finishes(b, k - 1, now).Incremented(now)
  }

  function FinishesLeftToRight(b: Batch, k: nat, now: int): Batch {
    if k == 0 then b else FinishesLeftToRight(b, k - 1, now).IncrementedLeftToRight(now)
  }

  /** With simultaneous assignment the row of a batch is coherent after any number of finishes. */
  lemma {:induction false} SimultaneousSetIsCoherent(n: nat, hook: Option<string>, k: nat, now: int)
    requires n >= 1
    ensures Finishes(Created(n, hook, now), k, now).completed == k
    ensures Finishes(Created(n, hook, now), k, now).total == n
    ensures Finishes(Created(n, hook, now), k, now).Coherent()
  {
    if k > 0 {
      SimultaneousSetIsCoherent(n, hook, k - 1, now);
    }
  }

  lemma {:induction false} LeftToRightStatus(n: nat, hook: Option<string>, k: nat, now: int)
    requires n >= 1
    ensures var b := FinishesLeftToRight(Created(n, hook, now), k, now);
            && b.completed == k
            && b.total == n
            && (b.status == Completed <==> k >= 1 && k + 1 >= n)
  {
    if k > 0 {
      LeftToRightStatus(n, hook, k - 1, now);
    }
  }

  /** Read left to right, the status is wrong for exactly one value of the counter: a batch of at
      least two submissions says "completed" while its last submission is still running. */
  lemma LeftToRightIsCoherentExactlyWhen(n: nat, hook: Option<string>, k: nat, now: int)
    requires n >= 1
    ensures FinishesLeftToRight(Created(n, hook, now), k, now).Coherent() <==> k == 0 || k != n - 1
  {
    LeftToRightStatus(n, hook, k, now);
  }
}

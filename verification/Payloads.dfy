/** The body delivered to a webhook. */
module Payloads {
  import opened Common
  import opened BatchRows

  datatype SubmissionView = SubmissionView(submission: nat, status: int)

  datatype Payload = Payload(
    status: BatchStatus,
    total: nat,
    completed: nat,
    webhookId: Option<string>,
    webhookStatus: WebhookStatus,
    webhookRetryCount: nat,
    webhookSentAt: Option<int>,
    createdAt: int,
    submissions: seq<SubmissionView>)

  /** Submission k of the batch has the status statuses[k]. */
  function Assembled(b: Batch, statuses: seq<int>): Payload {
    Payload(b.status, b.total, b.completed, b.webhookId, b.webhookStatus, b.webhookRetryCount, b.webhookSentAt,
            b.createdAt, seq(|statuses|, k requires 0 <= k < |statuses| => SubmissionView(k, statuses[k])))
  }

  method BatchToResponse(b: Batch, statuses: seq<int>) returns (r: Payload)
    ensures r == Assembled(b, statuses)
    ensures r.status == b.status && r.total == b.total && r.completed == b.completed
    ensures r.webhookId == b.webhookId && r.webhookStatus == b.webhookStatus
    ensures r.webhookRetryCount == b.webhookRetryCount && r.webhookSentAt == b.webhookSentAt
    ensures r.createdAt == b.createdAt && |r.submissions| == |statuses|
    ensures forall k :: 0 <= k < |statuses| ==> r.submissions[k] == SubmissionView(k, statuses[k])
  {
    var responses: seq<SubmissionView> := [];
    for i := 0 to |statuses|
      invariant |responses| == i
      invariant forall k :: 0 <= k < i ==> responses[k] == SubmissionView(k, statuses[k])
    {
      responses := responses + [SubmissionView(i, statuses[i])];
    }
    r := Payload(b.status, b.total, b.completed, b.webhookId, b.webhookStatus, b.webhookRetryCount, b.webhookSentAt,
                 b.createdAt, responses);
  }
}

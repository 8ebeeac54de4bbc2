/** The reconciler leaves a finished batch to the retry ladder its last finisher started. */
module Handover {
  import opened Common
  import opened BatchRows
  import Reconciling
  import Retry = WebhookRetrying

  /** No sweep can pick a batch whose ladder, begun some time after the row was stamped, is still
      running. */
  ghost predicate LadderFirst(c: Retry.RetryConfig, late: nat) {
    forall b: Batch, now: int, posts: nat -> Retry.Post, pauses: nat -> Retry.Pause,
      made: nat, result: Retry.Delivery ::
      Reconciling.Eligible(b, now) && Retry.Bounded(c, posts, pauses) && Retry.Ladder(c, posts, pauses, made, result)
      ==> now >= b.updatedAt + late + Retry.Elapsed(c, posts, pauses, made, result)
  }

  /** That holds for all outcomes of the attempts exactly when the budget less its margin, begun that
      late, fits into the grace period. */
  lemma LadderFirstExactlyWhen(c: Retry.RetryConfig, late: nat)
    requires c.Valid()
    ensures LadderFirst(c, late) <==> late + Retry.Budget(c) - 30_000_000_000 <= 120_000_000_000
  {
    if late + Retry.Budget(c) - Retry.MARGIN <= Reconciling.GRACE {
      forall b: Batch, now: int, posts: nat -> Retry.Post, pauses: nat -> Retry.Pause, made: nat, result: Retry.Delivery
        | Reconciling.Eligible(b, now) && Retry.Bounded(c, posts, pauses)
            && Retry.Ladder(c, posts, pauses, made, result)
        ensures now >= b.updatedAt + late + Retry.Elapsed(c, posts, pauses, made, result)
      {
        Retry.WithinBudget(c, posts, pauses, made, result);
      }
    } else {
      Retry.BudgetIsReached(c);
      var b := Batch(Some("hook"), Completed, 1, 1, WebhookPending, 0, None, 0, 0);
      assert Reconciling.Eligible(b, Reconciling.GRACE);
    }
  }

  /** With the default configuration a ladder that begins within ten seconds comes first. */
  lemma DefaultsFit(late: nat)
    ensures LadderFirst(Retry.DefaultRetryConfig(), late) <==> late <= 10_000_000_000
  {
    Retry.DefaultBudget();
    LadderFirstExactlyWhen(Retry.DefaultRetryConfig(), late);
  }
}

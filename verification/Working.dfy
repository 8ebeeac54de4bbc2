/** The order in which a worker makes a result known: row, cache, notification, batch counter. */
module Working {
  import opened Common
  import opened Statuses
  import Lifecycle = BatchLifecycle
  import Waiting = ResultWaiting

  datatype Job = Job(token: string, expectedOutput: string, callbackUrl: string, batchId: string)

  /** The effects of one run on the outside, in order; the flag says whether the write went through. */
  datatype Effect =
    | MarkFailed(applied: bool)      // marking as processing answered with an error
    | RowWritten(status: int, ok: bool)
    | CellSet(status: int, ok: bool)
    | DoneSent(ok: bool)
    | LogWritten
    | CalledBack(status: int)
    | BatchAdvanced(id: string)

  /** What the outside answers during one run.  result is None when the sandbox or the database
      container hands nothing back. */
  datatype Answers = Answers(marked: bool, markApplied: bool, processingSet: bool, languageFound: bool,
                             result: Option<ExecutionResult>,
                             persisted: bool, stored: bool, sent: bool)

  /** The two ways a run can end early: with the job untouched, or failed as an internal error. */
  predicate Fails(a: Answers) {
    a.marked && (!a.languageFound || a.result.None?)
  }

  /** The status a run ends with. */
  function FinalStatus(job: Job, a: Answers): int {
    if Fails(a) || a.result.None? then INTERNAL_ERROR else MapSandboxStatus(a.result.value, job.expectedOutput)
  }

  /** Everything a run tells the outside. */
  function Telling(job: Job, a: Answers): seq<Effect> {
    if !a.marked then [MarkFailed(a.markApplied)]
    else
      var status := FinalStatus(job, a);
      [RowWritten(PROCESSING, true), CellSet(PROCESSING, a.processingSet)]
      + [RowWritten(status, a.persisted), CellSet(status, a.stored), DoneSent(a.sent)]
      + (if Fails(a) then [] else [LogWritten] + if job.callbackUrl == "" then [] else [CalledBack(status)])
      + Counting(job.batchId)
  }

  function Counting(batchId: string): seq<Effect> {
    if batchId == "" then [] else [BatchAdvanced(batchId)]
  }

  class Worker {
    var effects: seq<Effect>

    constructor ()
      ensures effects == []
    {
      effects := [];
    }

    method AdvanceBatch(id: string)
      modifies this
      ensures effects == old(effects) + if id == "" then [] else [BatchAdvanced(id)]
    {
      if id == "" {
        return;
      }
      effects := effects + [BatchAdvanced(id)];
    }

    method FailJob(job: Job, status: int, a: Answers) returns (ok: bool)
      modifies this
      ensures !ok
      ensures effects == old(effects) + [RowWritten(status, a.persisted), CellSet(status, a.stored), DoneSent(a.sent)]
                         + if job.batchId == "" then [] else [BatchAdvanced(job.batchId)]
    {
      effects := effects + [RowWritten(status, a.persisted)];
      effects := effects + [CellSet(status, a.stored)];
      effects := effects + [DoneSent(a.sent)];
      AdvanceBatch(job.batchId);
      ok := false;
    }

    /** One status goes to the row, the cache and the receiver of the callback: an internal error
        without a language or a result, and otherwise what the outcome, the exit code and the output
        the job itself expects make of it.  ok is false when the job is handed back to the queue with
        an error, which no branch marks as permanent. */
    method ProcessJob(job: Job, a: Answers) returns (ok: bool, ghost status: int)
      modifies this
      ensures effects == old(effects) + Telling(job, a)
      ensures ok <==> a.marked && a.languageFound && a.result.Some?
      ensures !a.marked ==> effects == old(effects) + [MarkFailed(a.markApplied)]
      ensures a.marked ==>
                effects == old(effects)
                           + [RowWritten(2, true), CellSet(2, a.processingSet)]
                           + [RowWritten(status, a.persisted), CellSet(status, a.stored), DoneSent(a.sent)]
                           + (if !ok then [] else [LogWritten])
                           + (if !ok || job.callbackUrl == "" then [] else [CalledBack(status)])
                           + (if job.batchId == "" then [] else [BatchAdvanced(job.batchId)])
      ensures a.marked && !ok ==> status == 8
      ensures ok ==>
                var res := a.result.value;
                && status in {3, 4, 5, 6, 7, 8}
                && (status == 3 <==>
                    && res.status !in {5, 6, 7, 8} && res.exitCode == 0
                    && (job.expectedOutput == "" || TrimRight(res.stdout) == TrimRight(job.expectedOutput)))
                && (status == 4 <==>
                    && res.status !in {5, 6, 7, 8} && res.exitCode == 0
                    && job.expectedOutput != "" && TrimRight(res.stdout) != TrimRight(job.expectedOutput))
                && (status == 7 <==> res.status == 7 || (res.status !in {5, 6, 8} && res.exitCode != 0))
                && (res.status in {5, 6, 8} ==> status == res.status)
    {
      status := FinalStatus(job, a);
      if !a.marked {
        effects := effects + [MarkFailed(a.markApplied)];
        return false, status;
      }
      effects := effects + [RowWritten(PROCESSING, true), CellSet(PROCESSING, a.processingSet)];
      if !a.languageFound || a.result.None? {
        ok := FailJob(job, INTERNAL_ERROR, a);
      } else {
        var final := MapSandboxStatus(a.result.value, job.expectedOutput);
        effects := effects + [RowWritten(final, a.persisted)];
        effects := effects + [CellSet(final, a.stored)];
        effects := effects + [DoneSent(a.sent)];
        effects := effects + [LogWritten];
        if job.callbackUrl != "" {
          effects := effects + [CalledBack(final)];
        }
        AdvanceBatch(job.batchId);
        ok := true;
      }
    }
  }

  // ----- A run as the batch and as a waiter see it -----

  /** The step of the batch protocol that an effect of run w on submission sub is, if any. */
  function BatchStep(e: Effect, w: nat, sub: nat, now: int): seq<Lifecycle.Step> {
    match e
    case MarkFailed(applied) => [Lifecycle.DeliverFails(sub, applied)]
    case RowWritten(status, ok) =>
      if IsTerminal(status) then [Lifecycle.Persist(w, status, ok)] else [Lifecycle.Deliver(w, sub)]
    case BatchAdvanced(_) => [Lifecycle.Advance(w, now)]
    case _ => []
  }

  function BatchSteps(told: seq<Effect>, w: nat, sub: nat, now: int): seq<Lifecycle.Step> {
    if told == [] then [] else BatchStep(told[0], w, sub, now) + BatchSteps(told[1..], w, sub, now)
  }

  /** The step of the wait protocol that an effect of run w is, if any. */
  function CellStep(e: Effect, w: nat): seq<Waiting.Step> {
    match e
    case CellSet(status, ok) =>
      if IsTerminal(status) then [Waiting.RunStores(w, status, ok)] else [Waiting.RunBegins(w, ok)]
    case DoneSent(ok) => [Waiting.RunPublishes(w, ok)]
    case _ => []
  }

  function CellSteps(told: seq<Effect>, w: nat): seq<Waiting.Step> {
    if told == [] then [] else CellStep(told[0], w) + CellSteps(told[1..], w)
  }

  lemma TellOne(e: Effect, rest: seq<Effect>, w: nat, sub: nat, now: int)
    ensures BatchSteps([e] + rest, w, sub, now) == BatchStep(e, w, sub, now) + BatchSteps(rest, w, sub, now)
    ensures CellSteps([e] + rest, w) == CellStep(e, w) + CellSteps(rest, w)
  {
    assert ([e] + rest)[1..] == rest;
  }

  /** What comes after the notification. */
  function Closing(job: Job, a: Answers): seq<Effect> {
    (if Fails(a) then [] else [LogWritten] + if job.callbackUrl == "" then [] else [CalledBack(FinalStatus(job, a))])
    + Counting(job.batchId)
  }

  lemma ClosingSteps(job: Job, a: Answers, w: nat, sub: nat, now: int)
    ensures BatchSteps(Closing(job, a), w, sub, now) == if job.batchId == "" then [] else [Lifecycle.Advance(w, now)]
    ensures CellSteps(Closing(job, a), w) == []
  {
    var count := Counting(job.batchId);
    CountingSteps(job.batchId, w, sub, now);
    if Fails(a) {
      assert Closing(job, a) == count;
    } else if job.callbackUrl == "" {
      assert Closing(job, a) == [LogWritten] + count;
      TellOne(LogWritten, count, w, sub, now);
    } else {
      var called := CalledBack(FinalStatus(job, a));
      assert Closing(job, a) == [LogWritten] + ([called] + count);
      TellOne(called, count, w, sub, now);
      TellOne(LogWritten, [called] + count, w, sub, now);
    }
  }

  lemma CountingSteps(id: string, w: nat, sub: nat, now: int)
    ensures BatchSteps(Counting(id), w, sub, now) == if id == "" then [] else [Lifecycle.Advance(w, now)]
    ensures CellSteps(Counting(id), w) == []
  {
    if id != "" {
      TellOne(BatchAdvanced(id), [], w, sub, now);
      assert Counting(id) == [BatchAdvanced(id)] + [];
    }
  }

  lemma TellThree(status: int, a: Answers, rest: seq<Effect>, w: nat, sub: nat, now: int)
    requires IsTerminal(status)
    ensures var told := [RowWritten(status, a.persisted)] + ([CellSet(status, a.stored)] + ([DoneSent(a.sent)] + rest));
      && BatchSteps(told, w, sub, now) == [Lifecycle.Persist(w, status, a.persisted)] + BatchSteps(rest, w, sub, now)
      && CellSteps(told, w)
         == [Waiting.RunStores(w, status, a.stored)] + ([Waiting.RunPublishes(w, a.sent)] + CellSteps(rest, w))
  {
    var e2, e3, e4 := RowWritten(status, a.persisted), CellSet(status, a.stored), DoneSent(a.sent);
    TellOne(e4, rest, w, sub, now);
    TellOne(e3, [e4] + rest, w, sub, now);
    TellOne(e2, [e3] + ([e4] + rest), w, sub, now);
    assert [] + BatchSteps(rest, w, sub, now) == BatchSteps(rest, w, sub, now);
    assert [] + CellSteps([e3] + ([e4] + rest), w) == CellSteps([e3] + ([e4] + rest), w);
  }

  lemma TellTwo(a: Answers, rest: seq<Effect>, w: nat, sub: nat, now: int)
    ensures var told := [RowWritten(PROCESSING, true)] + ([CellSet(PROCESSING, a.processingSet)] + rest);
      && BatchSteps(told, w, sub, now) == [Lifecycle.Deliver(w, sub)] + BatchSteps(rest, w, sub, now)
      && CellSteps(told, w) == [Waiting.RunBegins(w, a.processingSet)] + CellSteps(rest, w)
  {
    var e0, e1 := RowWritten(PROCESSING, true), CellSet(PROCESSING, a.processingSet);
    TellOne(e1, rest, w, sub, now);
    TellOne(e0, [e1] + rest, w, sub, now);
    assert [] + BatchSteps(rest, w, sub, now) == BatchSteps(rest, w, sub, now);
    assert [] + CellSteps([e1] + rest, w) == CellSteps([e1] + rest, w);
  }

  lemma TellingShape(job: Job, a: Answers)
    requires a.marked
    ensures var status := FinalStatus(job, a);
      Telling(job, a) == [RowWritten(PROCESSING, true)] + ([CellSet(PROCESSING, a.processingSet)]
        + ([RowWritten(status, a.persisted)] + ([CellSet(status, a.stored)] + ([DoneSent(a.sent)] + Closing(job, a)))))
  {
  }

  lemma TellingSteps(job: Job, a: Answers, w: nat, sub: nat, now: int)
    requires a.marked
    ensures var status := FinalStatus(job, a);
      && BatchSteps(Telling(job, a), w, sub, now)
         == [Lifecycle.Deliver(w, sub)]
            + ([Lifecycle.Persist(w, status, a.persisted)]
               + if job.batchId == "" then [] else [Lifecycle.Advance(w, now)])
      && CellSteps(Telling(job, a), w)
         == [Waiting.RunBegins(w, a.processingSet)]
            + ([Waiting.RunStores(w, status, a.stored)] + [Waiting.RunPublishes(w, a.sent)])
  {
    var status, closing := FinalStatus(job, a), Closing(job, a);
    TellingShape(job, a);
    TellThree(status, a, closing, w, sub, now);
    var rest := [RowWritten(status, a.persisted)] + ([CellSet(status, a.stored)] + ([DoneSent(a.sent)] + closing));
    TellTwo(a, rest, w, sub, now);
    ClosingSteps(job, a, w, sub, now);
    assert [Waiting.RunPublishes(w, a.sent)] + [] == [Waiting.RunPublishes(w, a.sent)];
  }

  /** To its batch a run is a delivery, the write of a terminal result, and one count, in this order;
      it leaves nothing behind but the status of its submission and the count. */
  lemma TellsTheBatch(job: Job, a: Answers, s: Lifecycle.State, w: nat, sub: nat, now: int)
    requires a.marked && job.batchId != ""
    requires w !in s.runs && sub in s.enqueued && sub < |s.statuses|
    ensures var steps := BatchSteps(Telling(job, a), w, sub, now);
      && Lifecycle.Run(s, steps)
      && var t := Lifecycle.After(s, steps);
         && t.row == s.row.Incremented(now) && t.runs == s.runs && t.advanced == s.advanced + {sub}
         && t.statuses == s.statuses[sub := if a.persisted then FinalStatus(job, a) else 2]
  {
    TellingSteps(job, a, w, sub, now);
    ThreeBatchSteps(s, w, sub, FinalStatus(job, a), a.persisted, now);
  }

  lemma ThreeBatchSteps(s: Lifecycle.State, w: nat, sub: nat, status: int, written: bool, now: int)
    requires w !in s.runs && sub in s.enqueued && sub < |s.statuses| && ACCEPTED <= status <= INTERNAL_ERROR
    ensures var steps :=
        [Lifecycle.Deliver(w, sub)] + ([Lifecycle.Persist(w, status, written)] + [Lifecycle.Advance(w, now)]);
      && Lifecycle.Run(s, steps)
      && var t := Lifecycle.After(s, steps);
         && t.row == s.row.Incremented(now) && t.runs == s.runs && t.advanced == s.advanced + {sub}
         && t.statuses == s.statuses[sub := if written then status else PROCESSING]
  {
    var deliver := Lifecycle.Deliver(w, sub);
    var persist := Lifecycle.Persist(w, status, written);
    var advance := Lifecycle.Advance(w, now);
    var s1 := Lifecycle.Do(s, deliver);
    var s2 := Lifecycle.Do(s1, persist);
    var s3 := Lifecycle.Do(s2, advance);
    assert s3.runs == s.runs;
    assert s3.statuses == s.statuses[sub := if written then status else PROCESSING];
    assert Lifecycle.Run(s3, []);
    BatchStepFirst(s2, advance, []);
    BatchStepFirst(s1, persist, [advance]);
    BatchStepFirst(s, deliver, [persist] + [advance]);
  }

  /** A run that could not mark its submission touches nothing but, perhaps, its status. */
  lemma UnmarkedTells(job: Job, a: Answers, s: Lifecycle.State, w: nat, sub: nat, now: int)
    requires !a.marked && sub in s.enqueued && sub < |s.statuses|
    ensures CellSteps(Telling(job, a), w) == []
    ensures var steps := BatchSteps(Telling(job, a), w, sub, now);
      && Lifecycle.Run(s, steps)
      && Lifecycle.After(s, steps)
         == s.(statuses := if a.markApplied then s.statuses[sub := 2] else s.statuses)
  {
    var failed := MarkFailed(a.markApplied);
    TellOne(failed, [], w, sub, now);
    assert Telling(job, a) == [failed] + [];
    var step := Lifecycle.DeliverFails(sub, a.markApplied);
    assert Lifecycle.Run(Lifecycle.Do(s, step), []);
    BatchStepFirst(s, step, []);
  }

  lemma BatchStepFirst(s: Lifecycle.State, step: Lifecycle.Step, rest: seq<Lifecycle.Step>)
    requires Lifecycle.Enabled(s, step) && Lifecycle.Run(Lifecycle.Do(s, step), rest)
    ensures Lifecycle.Run(s, [step] + rest)
    ensures Lifecycle.After(s, [step] + rest) == Lifecycle.After(Lifecycle.Do(s, step), rest)
    ensures [step] + [] == [step]
  {
    assert ([step] + rest)[1..] == rest;
  }

  /** To a waiter a run is a beginning, a stored result, and an announcement, in this order. */
  lemma TellsTheWaiter(job: Job, a: Answers, s: Waiting.State, w: nat)
    requires a.marked && w !in s.runs
    ensures var steps := CellSteps(Telling(job, a), w);
      && Waiting.Run(s, steps)
      && var t := Waiting.After(s, steps);
         && t.runs == s.runs
         && t.cell == (if a.stored then Some(FinalStatus(job, a))
                       else if a.processingSet then Some(PROCESSING) else s.cell)
         && t.inbox == (if a.sent && s.subscription == Waiting.Active then s.inbox + 1 else s.inbox)
  {
    TellingSteps(job, a, w, 0, 0);
    var status := FinalStatus(job, a);
    var s1 := Waiting.Do(s, Waiting.RunBegins(w, a.processingSet));
    var s2 := Waiting.Do(s1, Waiting.RunStores(w, status, a.stored));
    var s3 := Waiting.Do(s2, Waiting.RunPublishes(w, a.sent));
    assert Waiting.Run(s3, []);
    CellStepFirst(s2, Waiting.RunPublishes(w, a.sent), []);
    CellStepFirst(s1, Waiting.RunStores(w, status, a.stored), [Waiting.RunPublishes(w, a.sent)]);
    CellStepFirst(s, Waiting.RunBegins(w, a.processingSet),
                  [Waiting.RunStores(w, status, a.stored)] + [Waiting.RunPublishes(w, a.sent)]);
    assert s3.runs == s.runs;
  }

  lemma CellStepFirst(s: Waiting.State, step: Waiting.Step, rest: seq<Waiting.Step>)
    requires Waiting.Enabled(s, step) && Waiting.Run(Waiting.Do(s, step), rest)
    ensures Waiting.Run(s, [step] + rest)
    ensures Waiting.After(s, [step] + rest) == Waiting.After(Waiting.Do(s, step), rest)
    ensures [step] + [] == [step]
  {
    assert ([step] + rest)[1..] == rest;
  }

  /** Which runs count the submission although the queue gets the job back and will deliver it
      again: exactly those of a batch that fail after they were marked as processing. */
  lemma CountedAndHandedBackExactlyWhen(job: Job, a: Answers)
    ensures (exists k :: 0 <= k < |Telling(job, a)| && Telling(job, a)[k].BatchAdvanced?) && !(a.marked && !Fails(a))
            <==> Fails(a) && job.batchId != ""
  {
    var told := Telling(job, a);
    if Fails(a) && job.batchId != "" {
      assert told[|told| - 1] == BatchAdvanced(job.batchId);
    }
  }
}

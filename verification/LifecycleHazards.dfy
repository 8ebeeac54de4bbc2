/** Concrete runs that show why the assumptions of a careful run cannot be dropped. */
module LifecycleHazards {
  import opened Common
  import opened BatchRows
  import opened Statuses
  import opened Payloads
  import opened BatchLifecycle
  import opened SingleDelivery
  import opened Completing
  import opened Redelivering

  lemma ExtendRun(s: State, steps: seq<Step>, step: Step)
    requires Run(s, steps) && Enabled(After(s, steps), step)
    ensures Run(s, steps + [step]) && After(s, steps + [step]) == Do(After(s, steps), step)
  {
    SplitRun(s, steps, [step]);
    assert [step][1..] == [];
    assert Run(Do(After(s, steps), step), []);
  }

  /** One delivery of a job that runs to its end and counts its submission. */
  lemma RunJob(s: State, before: seq<Step>, sub: nat, status: int, now: int) returns (steps: seq<Step>)
    requires Run(s, before) && After(s, before).runs == map[]
    requires sub in After(s, before).enqueued && sub < |After(s, before).statuses|
    requires ACCEPTED <= status <= INTERNAL_ERROR
    ensures Run(s, steps)
    ensures var m := After(s, before);
            After(s, steps) == m.(row := m.row.Incremented(now),
                                  statuses := m.statuses[sub := status],
                                  delivered := m.delivered + {sub},
                                  advanced := m.advanced + {sub},
                                  revivals := if m.row.status == Pending then m.revivals + 1 else m.revivals,
                                  returned := m.returned + [m.row.completed + 1],
                                  undecided := m.undecided + {m.row.completed + 1})
  {
    var m := After(s, before);
    ExtendRun(s, before, Deliver(0, sub));
    ExtendRun(s, before + [Deliver(0, sub)], Persist(0, status, true));
    ExtendRun(s, before + [Deliver(0, sub)] + [Persist(0, status, true)], Advance(0, now));
    steps := before + [Deliver(0, sub)] + [Persist(0, status, true)] + [Advance(0, now)];
    assert After(s, steps).runs == m.runs;
    assert After(s, steps).statuses == m.statuses[sub := status];
  }

  lemma ExtendSingle(s: State, steps: seq<Step>, step: Step) returns (longer: seq<Step>, end: State)
    requires SingleRun(s, steps) && Enabled(After(s, steps), step) && Single(After(s, steps), step)
    ensures longer == steps + [step] && SingleRun(s, longer) && After(s, longer) == end == Do(After(s, steps), step)
  {
    SingleStep(After(s, steps), step);
    JoinSingle(s, steps, [step]);
    longer, end := steps + [step], Do(After(s, steps), step);
  }

  lemma StartAll(hook: Option<string>, now: int) returns (steps: seq<Step>)
    ensures SingleRun(Initial(1, hook, now), steps)
    ensures var s := Initial(1, hook, now);
            After(s, steps) == s.(row := s.row.(status := Processing), starts := map[0 := Returned(Ok)],
                                  enqueued := {0}, claims := 1)
  {
    var s := Initial(1, hook, now);
    var t;
    steps, t := ExtendSingle(s, [], Claim(0, now));
    steps, t := ExtendSingle(s, steps, PublishChunk(0));
    steps, t := ExtendSingle(s, steps, StartReturns(0));
    assert t.starts == map[0 := Returned(Ok)];
    assert t.enqueued == {0};
  }

  /** A job that failed is counted, handed back to the queue and at last dead-lettered: its batch is
      complete all the same. */
  lemma DeadLetteredAndCompleted(hook: Option<string>, now: int) returns (steps: seq<Step>)
    ensures SingleRun(Initial(1, hook, now), steps)
    ensures var end := After(Initial(1, hook, now), steps); end.dead == {0} && end.row.status == Completed
  {
    var s := Initial(1, hook, now);
    var t;
    steps := StartAll(hook, now);
    steps, t := ExtendSingle(s, steps, Deliver(0, 0));
    steps, t := ExtendSingle(s, steps, Persist(0, INTERNAL_ERROR, true));
    steps, t := ExtendSingle(s, steps, Advance(0, now));
    steps, t := ExtendSingle(s, steps, DeadLetter(0, true));
    assert t.dead == {0};
  }

  /** A job that is dead-lettered before it ever ran: its failure is recorded, and the batch stays in
      processing with nothing left to do but what was given up. */
  lemma DeadLetteredUncounted(hook: Option<string>, now: int) returns (steps: seq<Step>)
    ensures SingleRun(Initial(1, hook, now), steps)
    ensures var end := After(Initial(1, hook, now), steps);
      && end.dead == {0} && end.row.status == Processing && end.statuses == [8]
      && forall more: seq<Step> :: FreshRun(end, more) ==> After(end, more).row.status == Processing
  {
    var s := Initial(1, hook, now);
    steps := StartAll(hook, now);
    var t;
    steps, t := ExtendSingle(s, steps, DeadLetter(0, true));
    assert t.statuses == [INTERNAL_ERROR];
    assert Open(t) == {} && GateShut(t);
    NeverCompletes(1, hook, now, steps);
  }

  /** Behind a shut gate without the potential, no first delivery ever completes the batch. */
  lemma NeverCompletes(n: nat, hook: Option<string>, now: int, steps: seq<Step>)
    requires n >= 1 && Run(Initial(n, hook, now), steps)
    requires var s := After(Initial(n, hook, now), steps); GateShut(s) && Potential(s) < n
    ensures var s := After(Initial(n, hook, now), steps);
      forall more: seq<Step> :: FreshRun(s, more) ==> After(s, more).row.status == Processing
  {
    CompletesExactlyWhen(n, hook, now, steps);
    var s := After(Initial(n, hook, now), steps);
    forall more: seq<Step> | FreshRun(s, more)
      ensures After(s, more).row.status == Processing
    {
      GateStaysShut(s, more);
    }
  }

  /** A batch of one, started and counted once. */
  lemma RunOnce(hook: Option<string>, now: int, status: int) returns (steps: seq<Step>, end: State)
    requires ACCEPTED <= status <= INTERNAL_ERROR
    ensures Run(Initial(1, hook, now), steps) && After(Initial(1, hook, now), steps) == end
    ensures end.row.completed == 1 && end.row.total == 1 && end.row.webhookId == hook && end.row.status == Completed
    ensures end.undecided == {1} && end.launches == [] && end.runs == map[] && 0 in end.enqueued
    ensures end.statuses == [status] && end.dispatches == map[]
  {
    var s := Initial(1, hook, now);
    steps := StartAll(hook, now);
    steps := RunJob(s, steps, 0, status, now);
    end := After(s, steps);
  }

  /** failJob counts the submission and still returns an error, so the queue delivers the job
      again: the counter overshoots and the webhook is launched twice. */
  lemma RedeliveryLaunchesTwice(id: string, now: int) returns (steps: seq<Step>)
    requires id != ""
    ensures Run(Initial(1, Some(id), now), steps)
    ensures var end := After(Initial(1, Some(id), now), steps);
            end.row.completed == 2 && end.row.total == 1 && end.launches == [1, 2]
  {
    var s := Initial(1, Some(id), now);
    var t;
    steps, t := RunOnce(Some(id), now, INTERNAL_ERROR);
    ExtendRun(s, steps, Decide(1)); steps := steps + [Decide(1)];
    steps := RunJob(s, steps, 0, INTERNAL_ERROR, now);
    ExtendRun(s, steps, Decide(2)); steps := steps + [Decide(2)];
  }

  /** A redelivery between the launch and the reading of the submissions puts a running submission
      into the payload of a completed batch. */
  lemma RedeliveryShowsUnfinished(id: string, now: int) returns (steps: seq<Step>)
    requires id != ""
    ensures Run(Initial(1, Some(id), now), steps)
    ensures var end := After(Initial(1, Some(id), now), steps);
            && 1 in end.dispatches && end.dispatches[1].PayloadBuilt?
            && end.dispatches[1].payload.status == Completed
            && |end.dispatches[1].payload.submissions| == 1
            && end.dispatches[1].payload.submissions[0].status == 2
  {
    var s := Initial(1, Some(id), now);
    var t;
    steps, t := RunOnce(Some(id), now, INTERNAL_ERROR);
    ExtendRun(s, steps, Decide(1)); steps := steps + [Decide(1)];
    ExtendRun(s, steps, Deliver(0, 0)); steps := steps + [Deliver(0, 0)];
    ExtendRun(s, steps, LoadRow(1)); steps := steps + [LoadRow(1)];
    ExtendRun(s, steps, LoadSubmissions(1)); steps := steps + [LoadSubmissions(1)];
  }

  /** A Start whose first chunk fails although its first entry was accepted, rolled back. */
  lemma PartialFanOut(hook: Option<string>, now: int) returns (steps: seq<Step>)
    ensures Run(Initial(2, hook, now), steps)
    ensures After(Initial(2, hook, now), steps)
            == Initial(2, hook, now).(starts := map[0 := Returned(Error)], enqueued := {0}, claims := 1, rollbacks := 1)
  {
    var s := Initial(2, hook, now);
    ExtendRun(s, [], Claim(0, now));
    ExtendRun(s, [] + [Claim(0, now)], PublishFails(0, {0}));
    ExtendRun(s, [] + [Claim(0, now)] + [PublishFails(0, {0})], RollBack(0, true, now));
    steps := [] + [Claim(0, now)] + [PublishFails(0, {0})] + [RollBack(0, true, now)];
    var t := After(s, steps);
    assert t.starts == map[0 := Returned(Error)];
    assert t.enqueued == {0};
  }

  /** A batch of two whose failing fan-out still enqueued one job.  After the roll-back that job's
      increment lifts the row from pending to processing, so no Start gets in again, and the second
      submission is never enqueued: as long as no job is delivered a second time, every
      continuation leaves the batch in processing. */
  lemma StragglerStrandsBatch(hook: Option<string>, now: int) returns (steps: seq<Step>)
    ensures Run(Initial(2, hook, now), steps)
    ensures var end := After(Initial(2, hook, now), steps);
      && end.row.status == Processing && end.row.completed == 1 && GateShut(end)
      && end.enqueued == {0} && end.runs == map[]
      && forall more: seq<Step> :: FreshRun(end, more) ==> After(end, more).row.status == Processing
  {
    var s := Initial(2, hook, now);
    steps := PartialFanOut(hook, now);
    steps := RunJob(s, steps, 0, ACCEPTED, now);
    var end := After(s, steps);
    assert Open(end) == {};
    NeverCompletes(2, hook, now, steps);
  }
}

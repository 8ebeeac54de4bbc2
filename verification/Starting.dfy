/** Starter.Start: claim the batch, fan its submissions out, roll the claim back on failure. */
module Starting {
  import opened Common
  import opened BatchRows
  import opened Publishing

  datatype Submission = Submission(token: string, languageId: int)

  datatype StartError = NotPending | MarkFailed | ListFailed | FanOutFailed

  function BuildJob(sub: Submission, languages: map<int, string>): ExecutionJob {
    ExecutionJob(sub.token, sub.languageId, if sub.languageId in languages then languages[sub.languageId] else "")
  }

  function BuildJobs(subs: seq<Submission>, languages: map<int, string>): seq<ExecutionJob> {
    seq(|subs|, i requires 0 <= i < |subs| => BuildJob(subs[i], languages))
  }

  function SubTokens(subs: seq<Submission>): seq<string> {
    seq(|subs|, i requires 0 <= i < |subs| => subs[i].token)
  }

  class Starter {
    const batches: BatchRepository
    const publisher: Publisher
    const languages: map<int, string>
    var seeded: seq<string>      // tokens whose cache entry was set to "in queue"

    constructor (batches: BatchRepository, publisher: Publisher, languages: map<int, string>)
      ensures this.batches == batches && this.publisher == publisher && this.languages == languages && seeded == []
    {
      this.batches, this.publisher, this.languages, seeded := batches, publisher, languages, [];
    }

    /** The environment decides whether MarkProcessing answers with an error and has then applied
        (claimError), whether ListSubmissions answers, what SQS replies, and whether a roll-back goes
        through (undone). */
    method Start(id: string, now: int, claimError: Option<bool>, listed: Option<seq<Submission>>,
                 replies: seq<Reply>, undone: bool)
      returns (r: Result<(), StartError>)
      modifies this, batches, publisher
      ensures r == Failure(MarkFailed) <==> claimError.Some?
      ensures r == Failure(NotPending) <==>
                claimError.None? && (id !in old(batches.rows) || old(batches.rows)[id].status != Pending)
      ensures r in {Failure(MarkFailed), Failure(NotPending)} ==>
                publisher.calls == old(publisher.calls) && publisher.queue == old(publisher.queue)
                    && seeded == old(seeded)
      ensures r == Failure(NotPending) || claimError == Some(false) ==> batches.rows == old(batches.rows)
      ensures claimError == Some(true) && id in old(batches.rows) ==>
                batches.rows == old(batches.rows)[id := old(batches.rows)[id].MarkedProcessing(now)]
      ensures r in {Failure(ListFailed), Failure(FanOutFailed)} ==>
                && id in old(batches.rows) && old(batches.rows)[id].status == Pending
                && var status := if undone then Pending else Processing;
                   batches.rows == old(batches.rows)[id := old(batches.rows)[id].(status := status, updatedAt := now)]
      ensures r == Failure(ListFailed) ==>
                listed == None && publisher.calls == old(publisher.calls) && publisher.queue == old(publisher.queue)
      ensures r == Failure(FanOutFailed) ==>
                listed.Some? && exists k ::
                  StopsAt(publisher.jobsURL, BuildJobs(listed.value, languages), replies, k,
                          old(publisher.calls), old(publisher.queue), publisher.calls, publisher.queue)
      ensures r.Success? ==>
                && id in old(batches.rows) && listed.Some?
                && batches.rows
                   == old(batches.rows)[id := old(batches.rows)[id].(status := Processing, updatedAt := now)]
                && publisher.queue == old(publisher.queue) + SubTokens(listed.value)
                && |publisher.queue| == |old(publisher.queue)| + |listed.value|
                && (forall i :: 0 <= i < |listed.value| ==>
                      publisher.queue[|old(publisher.queue)| + i] == listed.value[i].token)
                && publisher.calls == old(publisher.calls) + Calls(BuildJobs(listed.value, languages))
                && seeded == old(seeded) + SubTokens(listed.value)
      ensures claimError.None? && id in old(batches.rows) && old(batches.rows)[id].status == Pending && listed.Some? ==>
                (r.Success? <==> FansOut(publisher.jobsURL, BuildJobs(listed.value, languages), replies))
    {
      if claimError.Some? {
        if claimError.value {
          var _ := batches.MarkProcessing(id, now);
        }
        return Failure(MarkFailed);
      }
      var started := batches.MarkProcessing(id, now);
      if !started {
        return Failure(NotPending);
      }
      if listed.None? {
        RollBack(id, now, undone);
        return Failure(ListFailed);
      }
      var subs := listed.value;
      var jobs: seq<ExecutionJob> := [];
      for i := 0 to |subs|
        invariant |jobs| == i
        invariant forall k :: 0 <= k < i ==> jobs[k] == BuildJob(subs[k], languages)
        invariant seeded == old(seeded) + SubTokens(subs)[..i]
        invariant batches.rows == old(batches.rows)[id := old(batches.rows)[id].MarkedProcessing(now)]
        invariant publisher.calls == old(publisher.calls) && publisher.queue == old(publisher.queue)
      {
        seeded := seeded + [subs[i].token];
        jobs := jobs + [BuildJob(subs[i], languages)];
      }
      assert jobs == BuildJobs(subs, languages);
      assert Tokens(jobs) == SubTokens(subs);
      assert SubTokens(subs)[..|subs|] == SubTokens(subs);
      var ok, k := publisher.PublishBatch(jobs, replies);
      if !ok {
        RollBack(id, now, undone);
        return Failure(FanOutFailed);
      }
      r := Success(());
    }

    /** MarkPending, whose error the callers ignore. */
    method RollBack(id: string, now: int, undone: bool)
      modifies batches
      ensures batches.rows == if undone && id in old(batches.rows)
              then old(batches.rows)[id := old(batches.rows)[id].MarkedPending(now)]
              else old(batches.rows)
    {
      if undone {
        batches.MarkPending(id, now);
      }
    }
  }
}

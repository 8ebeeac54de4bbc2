/** SQS fan-out: SendMessageBatch in chunks of ten. */
module Publishing {
  import opened Common

  /** SendMessageBatch accepts at most this many entries. */
  const MAX_BATCH_ENTRIES: nat := 10

  /** Where the chunk that starts at start ends in a list of n jobs. */
  function ChunkEnd(start: nat, n: nat): nat {
    if start + MAX_BATCH_ENTRIES > n then n else start + MAX_BATCH_ENTRIES
  }

  datatype ExecutionJob = ExecutionJob(token: string, languageId: int, languageName: string)

  /** A token-only message with the entry id it carries inside its call. */
  datatype Entry = Entry(id: string, token: string)

  /** What SendMessageBatch answers: an error, behind which it may still have taken some entries,
      or a response that lists the positions of the entries that failed. */
  datatype Reply = CallError(taken: set<nat>) | Response(failed: set<nat>)

  /** The answer to call k of a fan-out; calls beyond the list go through. */
  function ReplyTo(replies: seq<Reply>, k: nat): Reply {
    if k < |replies| then replies[k] else Response({})
  }

  predicate Succeeds(reply: Reply) {
    reply == Response({})
  }

  function Itoa(i: nat): string {
    if i < 10 then [('0' as int + i) as char] else Itoa(i / 10) + [('0' as int + i % 10) as char]
  }

  function Entries(jobs: seq<ExecutionJob>): (r: seq<Entry>)
    ensures |r| == |jobs| && forall i :: 0 <= i < |r| ==> r[i] == Entry(Itoa(i), jobs[i].token)
  {
    seq(|jobs|, i requires 0 <= i < |jobs| => Entry(Itoa(i), jobs[i].token))
  }

  function Tokens(jobs: seq<ExecutionJob>): (r: seq<string>)
    ensures |r| == |jobs| && forall i :: 0 <= i < |r| ==> r[i] == jobs[i].token
  {
    seq(|jobs|, i requires 0 <= i < |jobs| => jobs[i].token)
  }

  lemma TokensSplit(jobs: seq<ExecutionJob>, from: nat, to: nat)
    requires from <= to <= |jobs|
    ensures Tokens(jobs)[from..to] == Tokens(jobs[from..to])
  {
  }

  lemma TokensJoin(jobs: seq<ExecutionJob>, at: nat)
    requires at <= |jobs|
    ensures Tokens(jobs) == Tokens(jobs[..at]) + Tokens(jobs[at..])
  {
  }

  /** The entry at position i of a call reaches the queue. */
  predicate Kept(reply: Reply, i: nat) {
    if reply.CallError? then i in reply.taken else i !in reply.failed
  }

  /** The tokens of the entries of one call that reach the queue, in order. */
  function Taken(entries: seq<Entry>, reply: Reply): seq<string> {
    if entries == [] then []
    else
      var init, last := entries[..|entries| - 1], |entries| - 1;
      Taken(init, reply) + if Kept(reply, last) then [entries[last].token] else []
  }

  /** The calls a fan-out makes from job start on. */
  function CallsFrom(jobs: seq<ExecutionJob>, start: nat): seq<seq<Entry>>
    decreases |jobs| - start
  {
    if start >= |jobs| then []
    else [Entries(jobs[start..ChunkEnd(start, |jobs|)])] + CallsFrom(jobs, ChunkEnd(start, |jobs|))
  }

  /** The calls a full fan-out consists of. */
  function Calls(jobs: seq<ExecutionJob>): seq<seq<Entry>> {
    CallsFrom(jobs, 0)
  }

  function Delivered(calls: seq<seq<Entry>>): seq<string> {
    if calls == [] then [] else Taken(calls[0], Response({})) + Delivered(calls[1..])
  }

  /** A call that failed took the entries it says it took; a response means that every entry was taken
      but for those it lists as failed. */
  lemma TakenOneMore(init: seq<Entry>, last: Entry, reply: Reply)
    ensures Taken(init + [last], reply)
            == Taken(init, reply)
               + match reply
                 case CallError(taken) => (if |init| in taken then [last.token] else [])
                 case Response(failed) => (if |init| in failed then [] else [last.token])
  {
    var entries := init + [last];
    assert entries[..|entries| - 1] == init;
  }

  lemma TakenSnoc(init: seq<Entry>, last: Entry)
    ensures Taken(init + [last], Response({})) == Taken(init, Response({})) + [last.token]
  {
    var entries := init + [last];
    assert entries[..|entries| - 1] == init;
  }

  lemma {:induction false} AllTaken(jobs: seq<ExecutionJob>)
    ensures Taken(Entries(jobs), Response({})) == Tokens(jobs)
  {
    if jobs != [] {
      var init, last := jobs[..|jobs| - 1], Entries(jobs)[|jobs| - 1];
      AllTaken(init);
      assert Entries(jobs) == Entries(init) + [last];
      TakenSnoc(Entries(init), last);
      assert Tokens(jobs) == Tokens(init) + [last.token];
    }
  }

  lemma {:induction false} CallCount(jobs: seq<ExecutionJob>, start: nat)
    requires start <= |jobs|
    ensures |CallsFrom(jobs, start)| == (|jobs| - start + MAX_BATCH_ENTRIES - 1) / MAX_BATCH_ENTRIES
    decreases |jobs| - start
  {
    if start < |jobs| {
      CallCount(jobs, ChunkEnd(start, |jobs|));
    }
  }

  lemma DeliveredStep(call: seq<Entry>, rest: seq<seq<Entry>>)
    ensures Delivered([call] + rest) == Taken(call, Response({})) + Delivered(rest)
  {
    assert ([call] + rest)[1..] == rest;
  }

  lemma {:induction false} CallsDeliverAll(jobs: seq<ExecutionJob>, start: nat)
    requires start <= |jobs|
    ensures Delivered(CallsFrom(jobs, start)) == Tokens(jobs[start..])
    decreases |jobs| - start
  {
    if start < |jobs| {
      var end := ChunkEnd(start, |jobs|);
      CallsDeliverAll(jobs, end);
      AllTaken(jobs[start..end]);
      DeliveredStep(Entries(jobs[start..end]), CallsFrom(jobs, end));
      TokensJoin(jobs[start..], end - start);
      assert jobs[start..][..end - start] == jobs[start..end] && jobs[start..][end - start..] == jobs[end..];
    }
  }

  /** Call k of those from start on carries the k-th group of ten. */
  lemma {:induction false} CallAt(jobs: seq<ExecutionJob>, start: nat, k: nat)
    requires k < |CallsFrom(jobs, start)|
    ensures var from := start + k * MAX_BATCH_ENTRIES;
            from < |jobs| && CallsFrom(jobs, start)[k] == Entries(jobs[from..ChunkEnd(from, |jobs|)])
    decreases k
  {
    if k > 0 {
      CallAt(jobs, ChunkEnd(start, |jobs|), k - 1);
    }
  }

  /** What call k of a full fan-out carries. */
  ghost predicate IsGroup(jobs: seq<ExecutionJob>, k: nat, call: seq<Entry>) {
    && 10 * k < |jobs|
    && |call| == (if |jobs| - 10 * k < 10 then |jobs| - 10 * k else 10)
    && forall i :: 0 <= i < |call| ==> call[i] == Entry(["0123456789"[i]], jobs[10 * k + i].token)
  }

  lemma CallIsGroup(jobs: seq<ExecutionJob>, k: nat)
    requires k < |Calls(jobs)|
    ensures IsGroup(jobs, k, Calls(jobs)[k])
  {
    CallAt(jobs, 0, k);
    var call := Calls(jobs)[k];
    assert |call| <= 10;
    forall i | 0 <= i < |call|
      ensures call[i] == Entry(["0123456789"[i]], jobs[10 * k + i].token)
    {
      Digit(i);
    }
  }

  /** The calls partition the jobs into consecutive groups of ten, the last of which may be shorter;
      entry i of a call has the digit i as its id, and all calls carry every token once, in order. */
  lemma CallsPartitionJobs(jobs: seq<ExecutionJob>)
    ensures Delivered(Calls(jobs)) == Tokens(jobs)
    ensures |Calls(jobs)| == (|jobs| + 9) / 10
    ensures forall k :: 0 <= k < |Calls(jobs)| ==> IsGroup(jobs, k, Calls(jobs)[k])
  {
    CallsDeliverAll(jobs, 0);
    assert jobs[0..] == jobs;
    CallCount(jobs, 0);
    forall k | 0 <= k < |Calls(jobs)|
      ensures IsGroup(jobs, k, Calls(jobs)[k])
    {
      CallIsGroup(jobs, k);
    }
  }

  lemma Digit(i: nat)
    requires i < 10
    ensures Itoa(i) == ["0123456789"[i]]
  {
    assert "0123456789"[i] == ('0' as int + i) as char;
  }

  lemma NextOf<T>(all: seq<T>, k: nat, next: T, rest: seq<T>)
    requires k <= |all| && all[k..] == [next] + rest
    ensures k < |all| && all[k] == next && all[..k] + [next] == all[..k + 1] && all[k + 1..] == rest
  {
    assert all[k..][0] == next && all[k..][1..] == rest;
  }

  /** The call that starts at job start is call k; it comes on top of the first k. */
  lemma CallDone(jobs: seq<ExecutionJob>, k: nat, start: nat)
    requires start < |jobs| && k <= |Calls(jobs)| && Calls(jobs)[k..] == CallsFrom(jobs, start)
    ensures var end := ChunkEnd(start, |jobs|);
            && k < |Calls(jobs)|
            && Calls(jobs)[k] == Entries(jobs[start..end])
            && Calls(jobs)[..k] + [Calls(jobs)[k]] == Calls(jobs)[..k + 1]
            && Calls(jobs)[k + 1..] == CallsFrom(jobs, end)
            && Tokens(jobs)[..start] + Tokens(jobs[start..end]) == Tokens(jobs)[..end]
  {
    var end := ChunkEnd(start, |jobs|);
    NextOf(Calls(jobs), k, Entries(jobs[start..end]), CallsFrom(jobs, end));
    TokensSplit(jobs, start, end);
  }

  /** A fan-out goes through when there is nothing to send, or a queue to send to and every call
      is answered without a failed entry. */
  ghost predicate FansOut(url: string, jobs: seq<ExecutionJob>, replies: seq<Reply>) {
    jobs == [] || (url != "" && forall c :: 0 <= c < |Calls(jobs)| && c < |replies| ==> replies[c] == Response({}))
  }

  /** A fan-out that stops at call k: without a queue nothing is sent; otherwise the calls before k
      were taken in full, call k failed and was taken in part, and no call after it was made. */
  ghost predicate StopsAt(url: string, jobs: seq<ExecutionJob>, replies: seq<Reply>, k: nat,
                          calls: seq<seq<Entry>>, queue: seq<string>, calls': seq<seq<Entry>>, queue': seq<string>) {
    if url == "" then calls' == calls && queue' == queue
    else
      && k < |Calls(jobs)| && k < |replies| && replies[k] != Response({})
      && calls' == calls + Calls(jobs)[..k + 1]
      && 10 * k <= |jobs|
      && queue' == queue + Tokens(jobs)[..10 * k] + Taken(Calls(jobs)[k], replies[k])
  }

  /** The first k calls, which bring the fan-out to job start, went through. */
  ghost predicate SentSoFar(jobs: seq<ExecutionJob>, replies: seq<Reply>, k: nat, start: nat,
                            calls: seq<seq<Entry>>, queue: seq<string>, calls': seq<seq<Entry>>, queue': seq<string>) {
    && start <= |jobs| && k <= |Calls(jobs)|
    && (start < |jobs| ==> start == k * MAX_BATCH_ENTRIES)
    && Calls(jobs)[k..] == CallsFrom(jobs, start)
    && calls' == calls + Calls(jobs)[..k]
    && queue' == queue + Tokens(jobs)[..start]
    && forall c :: 0 <= c < k ==> Succeeds(ReplyTo(replies, c))
  }

  lemma SentNothing(jobs: seq<ExecutionJob>, replies: seq<Reply>, calls: seq<seq<Entry>>, queue: seq<string>)
    ensures SentSoFar(jobs, replies, 0, 0, calls, queue, calls, queue)
  {
    assert Calls(jobs)[0..] == Calls(jobs);
    assert calls + [] == calls && queue + [] == queue;
  }

  lemma SentMore(jobs: seq<ExecutionJob>, replies: seq<Reply>, k: nat, start: nat,
                 calls: seq<seq<Entry>>, queue: seq<string>, calls': seq<seq<Entry>>, queue': seq<string>)
    requires SentSoFar(jobs, replies, k, start, calls, queue, calls', queue')
    requires start < |jobs| && Succeeds(ReplyTo(replies, k))
    ensures var end := ChunkEnd(start, |jobs|);
      SentSoFar(jobs, replies, k + 1, end, calls, queue, calls' + [Entries(jobs[start..end])],
          queue' + Tokens(jobs[start..end]))
  {
    CallDone(jobs, k, start);
    Associative(calls, Calls(jobs)[..k], [Calls(jobs)[k]]);
    Associative(queue, Tokens(jobs)[..start], Tokens(jobs[start..ChunkEnd(start, |jobs|)]));
    forall c | 0 <= c < k + 1
      ensures Succeeds(ReplyTo(replies, c))
    {
      assert c == k || c < k;
    }
  }

  lemma SentNoFurther(url: string, jobs: seq<ExecutionJob>, replies: seq<Reply>, k: nat, start: nat,
                      calls: seq<seq<Entry>>, queue: seq<string>, calls': seq<seq<Entry>>, queue': seq<string>)
    requires SentSoFar(jobs, replies, k, start, calls, queue, calls', queue')
    requires url != "" && start < |jobs| && !Succeeds(ReplyTo(replies, k))
    ensures var call := Entries(jobs[start..ChunkEnd(start, |jobs|)]);
      StopsAt(url, jobs, replies, k, calls, queue, calls' + [call], queue' + Taken(call, ReplyTo(replies, k)))
    ensures !FansOut(url, jobs, replies)
  {
    CallDone(jobs, k, start);
    Associative(calls, Calls(jobs)[..k], [Calls(jobs)[k]]);
  }

  lemma SentAll(jobs: seq<ExecutionJob>, replies: seq<Reply>, k: nat,
                calls: seq<seq<Entry>>, queue: seq<string>, calls': seq<seq<Entry>>, queue': seq<string>)
    requires SentSoFar(jobs, replies, k, |jobs|, calls, queue, calls', queue')
    ensures calls' == calls + Calls(jobs) && queue' == queue + Tokens(jobs)
    ensures forall c :: 0 <= c < |Calls(jobs)| && c < |replies| ==> replies[c] == Response({})
  {
    forall c | 0 <= c < |Calls(jobs)| && c < |replies|
      ensures replies[c] == Response({})
    {
      assert Calls(jobs)[k..] == [];
      assert Succeeds(ReplyTo(replies, c));
    }
    assert Tokens(jobs)[..|jobs|] == Tokens(jobs);
    assert Calls(jobs)[..k] + Calls(jobs)[k..] == Calls(jobs);
  }

  class Publisher {
    const jobsURL: string
    var calls: seq<seq<Entry>>   // SendMessageBatch calls made
    var queue: seq<string>       // tokens the queue has taken

    constructor (url: string)
      ensures jobsURL == url && calls == [] && queue == []
    {
      jobsURL, calls, queue := url, [], [];
    }

    method SendChunk(jobs: seq<ExecutionJob>, reply: Reply) returns (ok: bool)
      modifies this
      ensures ok <==> jobsURL != "" && reply == Response({})
      ensures jobsURL == "" ==> calls == old(calls) && queue == old(queue)
      ensures jobsURL != "" ==>
                calls == old(calls) + [Entries(jobs)] && queue == old(queue) + Taken(Entries(jobs), reply)
      ensures ok ==> queue == old(queue) + Tokens(jobs)
    {
      if jobsURL == "" {
        return false;
      }
      var entries: seq<Entry> := [];
      for i := 0 to |jobs|
        invariant |entries| == i
        invariant forall k :: 0 <= k < i ==> entries[k] == Entry(Itoa(k), jobs[k].token)
      {
        entries := entries + [Entry(Itoa(i), jobs[i].token)];
      }
      assert entries == Entries(jobs);
      calls := calls + [entries];
      queue := queue + Taken(entries, reply);
      if reply.CallError? {
        return false;
      }
      ok := reply.failed == {};
      AllTaken(jobs);
    }

    /** The k-th call of this fan-out is answered by replies[k], and goes through beyond their end.  A
        success is a full fan-out; a failure in call k leaves the calls before it taken in full,
        call k taken in part, and no call after it made. */
    method PublishBatch(jobs: seq<ExecutionJob>, replies: seq<Reply>) returns (ok: bool, ghost k: nat)
      modifies this
      ensures ok ==> calls == old(calls) + Calls(jobs) && queue == old(queue) + Tokens(jobs)
      ensures ok <==> FansOut(jobsURL, jobs, replies)
      ensures !ok ==> StopsAt(jobsURL, jobs, replies, k, old(calls), old(queue), calls, queue)
    {
      var start, call := 0, 0;
      k := 0;
      SentNothing(jobs, replies, calls, queue);
      while start < |jobs|
        invariant call == k && SentSoFar(jobs, replies, k, start, old(calls), old(queue), calls, queue)
        invariant jobsURL == "" ==> start == 0 && calls == old(calls) && queue == old(queue)
        decreases |jobs| - start
      {
        var end := start + MAX_BATCH_ENTRIES;
        if end > |jobs| {
          end := |jobs|;
        }
        ghost var calls', queue' := calls, queue;
        ok := SendChunk(jobs[start..end], ReplyTo(replies, call));
        if !ok {
          if jobsURL != "" {
            SentNoFurther(jobsURL, jobs, replies, k, start, old(calls), old(queue), calls', queue');
          }
          return false, call;
        }
        SentMore(jobs, replies, k, start, old(calls), old(queue), calls', queue');
        call := call + 1;
        k := call;
        start := end;
      }
      SentAll(jobs, replies, k, old(calls), old(queue), calls, queue);
      return true, call;
    }
  }

  lemma {:induction false} NothingTakenExactlyWhen(entries: seq<Entry>, reply: Reply)
    ensures Taken(entries, reply) == [] <==> forall i :: 0 <= i < |entries| ==> !Kept(reply, i)
    decreases |entries|
  {
    if entries != [] {
      NothingTakenExactlyWhen(entries[..|entries| - 1], reply);
      assert Kept(reply, |entries| - 1) ==> |Taken(entries, reply)| > 0;
    }
  }

  /** A failed fan-out enqueues nothing if and only if there was no queue to send to, or its very
      first call failed and none of the entries of that call was taken: this is what a roll-back to
      pending relies on. */
  lemma FailureEnqueuesNothingExactlyWhen(url: string, jobs: seq<ExecutionJob>, replies: seq<Reply>, k: nat,
                                          calls: seq<seq<Entry>>, queue: seq<string>,
                                          calls': seq<seq<Entry>>, queue': seq<string>)
    requires StopsAt(url, jobs, replies, k, calls, queue, calls', queue')
    ensures queue' == queue <==>
              || url == ""
              || (k == 0
                  && match replies[0]
                     case CallError(taken) => forall i :: 0 <= i < 10 && i < |jobs| ==> i !in taken
                     case Response(failed) => forall i :: 0 <= i < 10 && i < |jobs| ==> i in failed)
  {
    if url != "" {
      var before, taken := Tokens(jobs)[..10 * k], Taken(Calls(jobs)[k], replies[k]);
      assert |queue'| == |queue| + |before| + |taken|;
      if k == 0 {
        CallAt(jobs, 0, 0);
        NothingTakenExactlyWhen(Calls(jobs)[0], replies[0]);
        assert forall i :: 0 <= i < |Calls(jobs)[0]| ==>
            (Kept(replies[0], i) <==> if replies[0].CallError? then i in replies[0].taken else i !in replies[0].failed);
        assert queue + [] + [] == queue;
      }
    }
  }
}

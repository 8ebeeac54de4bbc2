/** The life of one batch as a protocol over its row.

    Any number of Start calls, job runs, webhook dispatchers and outside markers interleave; a step
    is one SQL statement, one publish call or one local decision.  Nothing is assumed about luck:
    statements may fail or apply without being acknowledged, processes may die between any two
    steps, a job that was ever published may be delivered again at any time, and a failing publish
    may have enqueued any part of its chunk.  An increment that applies although its answer is lost is
    an Advance followed by a DecideDies of its count; AdvanceFails is one that did not apply. */
module BatchLifecycle {
  import opened Common
  import opened BatchRows
  import opened Statuses
  import opened Payloads
  import opened Publishing

  datatype StartResult = Ok | NotPending | Error

  datatype StartPhase =
    | Claimed(next: nat)           // won the claim; jobs 0 .. next - 1 are published
    | FanOutFailed                 // list or publish failed; the roll-back is still to come
    | Returned(result: StartResult)
    | Died

  datatype RunPhase = Running(sub: nat) | Persisted(sub: nat)

  datatype DispatchPhase = Launched | RowLoaded(batch: Batch) | PayloadBuilt(payload: Payload)

  datatype State = State(
    row: Batch,
    starts: map<nat, StartPhase>,
    runs: map<nat, RunPhase>,
    enqueued: set<int>,              // submissions whose job was ever published
    statuses: seq<int>,              // status of each submission of the batch
    undecided: set<int>,             // counter values returned to finishers that have not acted on them yet
    dispatches: map<int, DispatchPhase>,
    // history
    claims: nat,                     // pending -> processing by MarkProcessing
    rollbacks: nat,                  // processing -> pending by MarkPending
    revivals: nat,                   // increments that found the row pending
    returned: seq<int>,              // counter values returned by increments, in order
    launches: seq<int>,              // counter values whose finisher launched the webhook
    lost: set<int>,                  // due launches lost to a dying finisher
    delivered: set<int>,
    advanced: set<int>,              // submissions counted at least once
    dead: set<int>)                  // submissions dead-lettered at least once

  datatype Step =
    | Claim(i: nat, now: int)
    | ClaimErrs(i: nat, applied: bool, now: int)
    | ListFails(i: nat)
    | PublishChunk(i: nat)
    | PublishFails(i: nat, accepted: set<int>)
    | StartReturns(i: nat)
    | RollBack(i: nat, applied: bool, now: int)
    | StartDies(i: nat)
    | Deliver(w: nat, sub: nat)
    | DeliverFails(sub: nat, applied: bool)
    | Persist(w: nat, status: int, written: bool)
    | Advance(w: nat, now: int)
    | AdvanceFails(w: nat)
    | RunDies(w: nat)
    | DeadLetter(sub: nat, recorded: bool)
    | Decide(v: int)
    | DecideDies(v: int)
    | LoadRow(v: int)
    | LoadSubmissions(v: int)
    | RecordWebhook(outcome: WebhookStatus, sentAt: Option<int>, retries: nat, now: int)

  function Initial(n: nat, hook: Option<string>, now: int): State {
    State(Created(n, hook, now), map[], map[], {}, seq(n, _ => IN_QUEUE), {}, map[],
          0, 0, 0, [], [], {}, {}, {}, {})
  }

  /** The finisher to whom the increment returned v launches the webhook. */
  predicate IsDue(linked: bool, total: nat, v: int) {
    linked && total > 0 && v >= total
  }

  predicate Due(s: State, v: int) {
    IsDue(s.row.Linked(), s.row.total, v)
  }

  predicate Enabled(s: State, step: Step) {
    match step
    case Claim(i, _) => i !in s.starts
    case ClaimErrs(i, _, _) => i !in s.starts
    case ListFails(i) => i in s.starts && s.starts[i] == Claimed(0)
    case PublishChunk(i) => i in s.starts && s.starts[i].Claimed? && s.starts[i].next < s.row.total
    case PublishFails(i, accepted) =>
      && i in s.starts && s.starts[i].Claimed? && s.starts[i].next < s.row.total
      && accepted <= Range(s.starts[i].next, ChunkEnd(s.starts[i].next, s.row.total))
    case StartReturns(i) => i in s.starts && s.starts[i] == Claimed(s.row.total)
    case RollBack(i, _, _) => i in s.starts && s.starts[i].FanOutFailed?
    case StartDies(i) => Holder(s, i)
    case Deliver(w, sub) => w !in s.runs && sub in s.enqueued && sub < |s.statuses|
    case DeliverFails(sub, _) => sub in s.enqueued && sub < |s.statuses|
    case Persist(w, status, _) =>
      w in s.runs && s.runs[w].Running? && s.runs[w].sub < |s.statuses| && ACCEPTED <= status <= INTERNAL_ERROR
    case Advance(w, _) => w in s.runs && s.runs[w].Persisted?
    case AdvanceFails(w) => w in s.runs && s.runs[w].Persisted?
    case RunDies(w) => w in s.runs
    case DeadLetter(sub, _) => sub in s.enqueued && sub < |s.statuses|
    case Decide(v) => v in s.undecided
    case DecideDies(v) => v in s.undecided
    case LoadRow(v) => v in s.dispatches && s.dispatches[v].Launched?
    case LoadSubmissions(v) => v in s.dispatches && s.dispatches[v].RowLoaded?
    case RecordWebhook(_, _, _, _) => true
  }

  function Do(s: State, step: Step): State
    requires Enabled(s, step)
  {
    match step
    case Claim(i, now) =>
      if s.row.status == Pending
      then s.(row := s.row.MarkedProcessing(now), starts := s.starts[i := Claimed(0)], claims := s.claims + 1)
      else s.(starts := s.starts[i := Returned(NotPending)])
    case ClaimErrs(i, applied, now) =>
      s.(row := if applied then s.row.MarkedProcessing(now) else s.row,
         claims := if applied && s.row.status == Pending then s.claims + 1 else s.claims,
         starts := s.starts[i := Returned(Error)])
    case ListFails(i) => s.(starts := s.starts[i := FanOutFailed])
    case PublishChunk(i) =>
      var next := s.starts[i].next;
      var end := ChunkEnd(next, s.row.total);
      s.(starts := s.starts[i := Claimed(end)], enqueued := s.enqueued + Range(next, end))
    case PublishFails(i, accepted) =>
      s.(starts := s.starts[i := FanOutFailed], enqueued := s.enqueued + accepted)
    case StartReturns(i) => s.(starts := s.starts[i := Returned(Ok)])
    case RollBack(i, applied, now) =>
      s.(row := if applied then s.row.MarkedPending(now) else s.row,
         rollbacks := if applied && s.row.status == Processing then s.rollbacks + 1 else s.rollbacks,
         starts := s.starts[i := Returned(Error)])
    case StartDies(i) => s.(starts := s.starts[i := Died])
    case Deliver(w, sub) =>
      s.(runs := s.runs[w := Running(sub)], statuses := s.statuses[sub := PROCESSING], delivered := s.delivered + {sub})
    case DeliverFails(sub, applied) =>
      s.(statuses := if applied then s.statuses[sub := PROCESSING] else s.statuses)
    case Persist(w, status, written) =>
      var sub := s.runs[w].sub;
      s.(runs := s.runs[w := Persisted(sub)],
         statuses := if written then s.statuses[sub := status] else s.statuses)
    case Advance(w, now) =>
      var row := s.row.Incremented(now);
      s.(row := row,
         runs := s.runs - {w},
         advanced := s.advanced + {s.runs[w].sub},
         revivals := if s.row.status == Pending then s.revivals + 1 else s.revivals,
         returned := s.returned + [row.completed],
         undecided := s.undecided + {row.completed})
    case AdvanceFails(w) => s.(runs := s.runs - {w})
    case RunDies(w) => s.(runs := s.runs - {w})
    case DeadLetter(sub, recorded) =>
      s.(dead := s.dead + {sub}, statuses := if recorded then s.statuses[sub := INTERNAL_ERROR] else s.statuses)
    case Decide(v) =>
      var t := s.(undecided := s.undecided - {v});
      if Due(s, v) then t.(dispatches := s.dispatches[v := Launched], launches := s.launches + [v]) else t
    case DecideDies(v) =>
      s.(undecided := s.undecided - {v}, lost := if Due(s, v) then s.lost + {v} else s.lost)
    case LoadRow(v) => s.(dispatches := s.dispatches[v := RowLoaded(s.row)])
    case LoadSubmissions(v) =>
      s.(dispatches := s.dispatches[v := PayloadBuilt(Assembled(s.dispatches[v].batch, s.statuses))])
    case RecordWebhook(outcome, sentAt, retries, now) => s.(row := s.row.WebhookMarked(outcome, sentAt, retries, now))
  }

  /** How a step changes the runs under way. */
  function RunsAfter(runs: map<nat, RunPhase>, step: Step): map<nat, RunPhase> {
    match step
    case Deliver(w, sub) => runs[w := Running(sub)]
    case Persist(w, _, _) => if w in runs then runs[w := Persisted(runs[w].sub)] else runs
    case Advance(w, _) => runs - {w}
    case AdvanceFails(w) => runs - {w}
    case RunDies(w) => runs - {w}
    case _ => runs
  }

  lemma RunsChange(s: State, step: Step)
    requires Enabled(s, step)
    ensures Do(s, step).runs == RunsAfter(s.runs, step)
    ensures Do(s, step).row.completed == s.row.completed + if step.Advance? then 1 else 0
    ensures step.Advance? ==> step.w in s.runs
    ensures Do(s, step).advanced == s.advanced + if step.Advance? then {s.runs[step.w].sub} else {}
  {
  }

  // ----- Runs -----

  ghost predicate Run(s: State, steps: seq<Step>)
    decreases |steps|
  {
    steps == [] || (Enabled(s, steps[0]) && Run(Do(s, steps[0]), steps[1..]))
  }

  ghost function After(s: State, steps: seq<Step>): State
    requires Run(s, steps)
    decreases |steps|
  {
    if steps == [] then s else After(Do(s, steps[0]), steps[1..])
  }

  // ----- What every step keeps -----

  /** Start call i holds the batch: it won the claim and has neither returned nor rolled back. */
  predicate Holder(s: State, i: nat) {
    Holds(s.starts, i)
  }

  predicate Succeeded(s: State, i: nat) {
    HasSucceeded(s.starts, i)
  }

  ghost predicate RowInv(s: State) {
    s.row.total >= 1 && s.row.Coherent() && |s.statuses| == s.row.total
  }

  predicate Holds(starts: map<nat, StartPhase>, i: nat) {
    i in starts && (starts[i].Claimed? || starts[i].FanOutFailed?)
  }

  predicate HasSucceeded(starts: map<nat, StartPhase>, i: nat) {
    i in starts && starts[i] == Returned(Ok)
  }

  /** The start gate, over the parts of the state it speaks about. */
  ghost predicate Gate(starts: map<nat, StartPhase>, enqueued: set<int>, total: nat, pending: bool,
                       claims: nat, rollbacks: nat, revivals: nat) {
    && (forall i, j :: Holds(starts, i) && Holds(starts, j) ==> i == j)
    && (forall i :: Holds(starts, i) ==> !pending)
    && (forall i, j :: HasSucceeded(starts, i) && HasSucceeded(starts, j) ==> i == j)
    && (forall i, j :: HasSucceeded(starts, i) ==> !Holds(starts, j))
    && (forall i :: HasSucceeded(starts, i) ==> !pending && Range(0, total) <= enqueued)
    && (forall i :: i in starts && starts[i].Claimed? ==>
          starts[i].next <= total && Range(0, starts[i].next) <= enqueued)
    && claims + revivals == rollbacks + (if pending then 0 else 1)
  }

  ghost predicate GateInv(s: State) {
    Gate(s.starts, s.enqueued, s.row.total, s.row.status == Pending, s.claims, s.rollbacks, s.revivals)
  }

  /** The fire law, over the parts of the state it speaks about. */
  ghost predicate Fire(linked: bool, total: nat, completed: nat, returned: seq<int>,
                       undecided: set<int>, launches: seq<int>, lost: set<int>) {
    && |returned| == completed
    && (forall k :: 0 <= k < |returned| ==> returned[k] == k + 1)
    && undecided <= Range(1, completed + 1)
    && (forall v :: v in launches ==> IsDue(linked, total, v) && v <= completed && v !in undecided && v !in lost)
    && (forall v :: v in lost ==> IsDue(linked, total, v) && v <= completed && v !in undecided)
    && (forall i, j :: 0 <= i < j < |launches| ==> launches[i] != launches[j])
    && (forall v :: 1 <= v <= completed && IsDue(linked, total, v) ==> v in undecided || v in launches || v in lost)
  }

  ghost predicate FireInv(s: State) {
    Fire(s.row.Linked(), s.row.total, s.row.completed, s.returned, s.undecided, s.launches, s.lost)
  }

  ghost predicate Inv(s: State) {
    RowInv(s) && GateInv(s) && FireInv(s)
  }

  lemma RowStep(s: State, step: Step)
    requires RowInv(s) && Enabled(s, step)
    ensures RowInv(Do(s, step))
    ensures Do(s, step).row.total == s.row.total && Do(s, step).row.webhookId == s.row.webhookId
    ensures Do(s, step).row.createdAt == s.row.createdAt
    ensures s.row.status == Completed ==> Do(s, step).row.status == Completed
  {
  }

  /** The one holder moves on to phase without touching the row. */
  lemma GateMoves(s: State, t: State, i: nat, phase: StartPhase)
    requires GateInv(s) && Holder(s, i)
    requires t.starts == s.starts[i := phase] && phase != Returned(NotPending) && phase != Returned(Error)
    requires t.row == s.row && s.enqueued <= t.enqueued
    requires t.claims == s.claims && t.rollbacks == s.rollbacks && t.revivals == s.revivals
    requires phase.Claimed? ==> phase.next <= t.row.total && Range(0, phase.next) <= t.enqueued
    requires phase == Returned(Ok) ==> Range(0, t.row.total) <= t.enqueued
    ensures GateInv(t)
  {
    assert forall j {:trigger HasSucceeded(s.starts, j)} :: !HasSucceeded(s.starts, j);
    assert forall j {:trigger Holds(t.starts, j)} :: Holds(t.starts, j) ==> j == i || Holds(s.starts, j);
    assert forall j {:trigger HasSucceeded(t.starts, j)} :: HasSucceeded(t.starts, j) ==>
        j == i || HasSucceeded(s.starts, j);
  }

  /** A new Start call, or the end of a failed one, together with its statement on the row. */
  lemma GateClaims(s: State, step: Step)
    requires RowInv(s) && GateInv(s) && Enabled(s, step)
    requires step.Claim? || step.ClaimErrs? || step.RollBack?
    ensures GateInv(Do(s, step))
  {
    var t := Do(s, step);
    assert step.RollBack? ==> Holds(s.starts, step.i);
    assert forall j {:trigger Holds(t.starts, j)} ::
        Holds(t.starts, j) ==> Holds(s.starts, j) || (step.Claim? && step.i == j && s.row.status == Pending);
    assert forall j {:trigger HasSucceeded(t.starts, j)} :: HasSucceeded(t.starts, j) ==> HasSucceeded(s.starts, j);
  }

  lemma GateStep(s: State, step: Step)
    requires RowInv(s) && GateInv(s) && Enabled(s, step)
    ensures GateInv(Do(s, step))
  {
    match step
    case Claim(i, now) => GateClaims(s, step);
    case ClaimErrs(i, applied, now) => GateClaims(s, step);
    case RollBack(i, applied, now) => GateClaims(s, step);
    case ListFails(i) => GateMoves(s, Do(s, step), i, FanOutFailed);
    case PublishChunk(i) => GateMoves(s, Do(s, step), i, Claimed(ChunkEnd(s.starts[i].next, s.row.total)));
    case PublishFails(i, accepted) => GateMoves(s, Do(s, step), i, FanOutFailed);
    case StartReturns(i) => GateMoves(s, Do(s, step), i, Returned(Ok));
    case StartDies(i) => GateMoves(s, Do(s, step), i, Died);
    case _ =>
  }

  lemma FireCounts(linked: bool, total: nat, completed: nat, returned: seq<int>,
                   undecided: set<int>, launches: seq<int>, lost: set<int>)
    requires Fire(linked, total, completed, returned, undecided, launches, lost)
    ensures Fire(linked, total, completed + 1, returned + [completed + 1], undecided + {completed + 1}, launches, lost)
  {
  }

  lemma FireDecides(linked: bool, total: nat, completed: nat, returned: seq<int>,
                    undecided: set<int>, launches: seq<int>, lost: set<int>, v: int)
    requires Fire(linked, total, completed, returned, undecided, launches, lost) && v in undecided
    ensures IsDue(linked, total, v) ==> Fire(linked, total, completed, returned, undecided - {v}, launches + [v], lost)
    ensures IsDue(linked, total, v) ==> Fire(linked, total, completed, returned, undecided - {v}, launches, lost + {v})
    ensures !IsDue(linked, total, v) ==> Fire(linked, total, completed, returned, undecided - {v}, launches, lost)
  {
  }

  lemma FireStep(s: State, step: Step)
    requires RowInv(s) && FireInv(s) && Enabled(s, step)
    ensures FireInv(Do(s, step))
  {
    match step
    case Advance(w, now) =>
      FireCounts(s.row.Linked(), s.row.total, s.row.completed, s.returned, s.undecided, s.launches, s.lost);
    case Decide(v) =>
      FireDecides(s.row.Linked(), s.row.total, s.row.completed, s.returned, s.undecided, s.launches, s.lost, v);
    case DecideDies(v) =>
      FireDecides(s.row.Linked(), s.row.total, s.row.completed, s.returned, s.undecided, s.launches, s.lost, v);
    case _ =>
  }

  lemma {:induction false} RunKeepsInv(s: State, steps: seq<Step>)
    requires Inv(s) && Run(s, steps)
    ensures Inv(After(s, steps))
    ensures After(s, steps).row.total == s.row.total
    ensures After(s, steps).row.webhookId == s.row.webhookId
    ensures s.row.status == Completed ==> After(s, steps).row.status == Completed
    decreases |steps|
  {
    if steps != [] {
      RowStep(s, steps[0]);
      GateStep(s, steps[0]);
      FireStep(s, steps[0]);
      RunKeepsInv(Do(s, steps[0]), steps[1..]);
    }
  }

  lemma InitialInv(n: nat, hook: Option<string>, now: int)
    requires n >= 1
    ensures Inv(Initial(n, hook, now))
  {
  }

  lemma {:induction false} SplitRun(s: State, first: seq<Step>, rest: seq<Step>)
    ensures Run(s, first + rest) <==> Run(s, first) && Run(After(s, first), rest)
    ensures Run(s, first + rest) ==> After(s, first + rest) == After(After(s, first), rest)
    decreases |first|
  {
    if first == [] {
      assert first + rest == rest;
    } else {
      assert (first + rest)[0] == first[0] && (first + rest)[1..] == first[1..] + rest;
      if Enabled(s, first[0]) {
        SplitRun(Do(s, first[0]), first[1..], rest);
      }
    }
  }

  /** Every run of a batch of n >= 1 submissions can be cut at any point. */
  lemma Cut(s: State, steps: seq<Step>, k: nat)
    requires k <= |steps| && Run(s, steps)
    ensures Run(s, steps[..k]) && Run(After(s, steps[..k]), steps[k..])
    ensures After(s, steps) == After(After(s, steps[..k]), steps[k..])
  {
    assert steps == steps[..k] + steps[k..];
    SplitRun(s, steps[..k], steps[k..]);
  }

  // ----- Theorems over all runs -----

  /** The stored status is "completed" exactly when all submissions are counted, at every point of
      every run, and no later step takes it back. */
  lemma StatusLaw(n: nat, hook: Option<string>, now: int, steps: seq<Step>, k: nat)
    requires n >= 1 && k <= |steps| && Run(Initial(n, hook, now), steps)
    ensures var end := After(Initial(n, hook, now), steps);
            && end.row.total == n
            && (end.row.status == Completed <==> end.row.completed >= n)
            && (end.row.status == Completed <==> end.row.IsComplete())
    ensures Run(Initial(n, hook, now), steps[..k])
    ensures After(Initial(n, hook, now), steps[..k]).row.status == Completed
            ==> After(Initial(n, hook, now), steps).row.status == Completed
  {
    var s := Initial(n, hook, now);
    InitialInv(n, hook, now);
    RunKeepsInv(s, steps);
    Cut(s, steps, k);
    RunKeepsInv(s, steps[..k]);
    RunKeepsInv(After(s, steps[..k]), steps[k..]);
  }

  function Launchable(linked: bool, total: nat, completed: nat): nat {
    if linked && completed >= total then completed - total + 1 else 0
  }

  lemma FireTotals(linked: bool, total: nat, completed: nat, returned: seq<int>,
                   undecided: set<int>, launches: seq<int>, lost: set<int>, waiting: set<int>)
    requires total >= 1 && Fire(linked, total, completed, returned, undecided, launches, lost)
    requires forall v :: v in waiting <==> v in undecided && IsDue(linked, total, v)
    ensures |launches| + |lost| + |waiting| == Launchable(linked, total, completed)
  {
    var launched := set v | v in launches;
    DistinctSize(launches);
    var due := if linked then Range(total, completed + 1) else {};
    forall v
      ensures v in due <==> v in launched || v in lost || v in waiting
    {
      assert v in due <==> IsDue(linked, total, v) && v <= completed;
      assert v in undecided ==> v in Range(1, completed + 1);
    }
    DisjointSizes(due, launched, lost, waiting);
  }

  /** Increments answer 1, 2, 3, ..., and the launches made, lost and still to be decided are
      together one for each count from total on. */
  lemma FireLaw(n: nat, hook: Option<string>, now: int, steps: seq<Step>)
    requires n >= 1 && Run(Initial(n, hook, now), steps)
    ensures var end := After(Initial(n, hook, now), steps);
            && end.returned == seq(end.row.completed, k => k + 1)
            && |end.launches| + |end.lost| + |set v | v in end.undecided && Due(end, v)|
               == if hook.Some? && hook.value != "" && end.row.completed >= n then end.row.completed - n + 1 else 0
  {
    var s := Initial(n, hook, now);
    InitialInv(n, hook, now);
    RunKeepsInv(s, steps);
    var end := After(s, steps);
    assert end.returned == seq(end.row.completed, k => k + 1);
    FireTotals(end.row.Linked(), n, end.row.completed, end.returned, end.undecided, end.launches, end.lost,
               set v | v in end.undecided && Due(end, v));
  }

  /** Once every finisher has acted and none died in between, the webhook of a linked batch was
      launched exactly once if and only if exactly total increments succeeded; it was then
      launched by the finisher that counted the last submission. */
  lemma LaunchedOnceExactlyWhen(n: nat, hook: Option<string>, now: int, steps: seq<Step>)
    requires n >= 1 && Run(Initial(n, hook, now), steps)
    requires hook.Some? && hook.value != ""
    requires After(Initial(n, hook, now), steps).undecided == {}
    requires After(Initial(n, hook, now), steps).lost == {}
    ensures var end := After(Initial(n, hook, now), steps);
            && (|end.launches| == 1 <==> end.row.completed == n)
            && (end.row.completed == n ==> end.launches == [n])
            && (end.row.completed < n <==> end.launches == [])
  {
    var s := Initial(n, hook, now);
    InitialInv(n, hook, now);
    RunKeepsInv(s, steps);
    FireLaw(n, hook, now, steps);
    var end := After(s, steps);
    assert (set v | v in end.undecided && Due(end, v)) == {};
    if end.row.completed == n {
      assert |end.launches| == 1 && end.launches[0] in end.launches;
    }
  }

  /** At most one Start holds the batch, claims outnumber effective roll-backs by at most one, at
      most one Start ever succeeds, and it has then published every job. */
  lemma StartGate(n: nat, hook: Option<string>, now: int, steps: seq<Step>, i: nat, j: nat)
    requires n >= 1 && Run(Initial(n, hook, now), steps)
    ensures var end := After(Initial(n, hook, now), steps);
            && (Holder(end, i) && Holder(end, j) ==> i == j)
            && end.claims <= end.rollbacks + 1
            && (Succeeded(end, i) && Succeeded(end, j) ==> i == j)
            && (Succeeded(end, i) ==> !Holder(end, j) && end.row.status != Pending && Range(0, n) <= end.enqueued)
  {
    InitialInv(n, hook, now);
    RunKeepsInv(Initial(n, hook, now), steps);
  }

  ghost predicate GateShut(s: State) {
    && s.row.status != Pending
    && forall i :: i in s.starts ==> !s.starts[i].Claimed? && !s.starts[i].FanOutFailed?
  }

  lemma ShutStep(s: State, step: Step)
    requires GateShut(s) && Enabled(s, step)
    ensures GateShut(Do(s, step)) && Do(s, step).enqueued == s.enqueued
    ensures step.Claim? ==> Do(s, step).starts[step.i] == Returned(NotPending)
    ensures forall j :: j in s.starts ==> j in Do(s, step).starts && Do(s, step).starts[j] == s.starts[j]
    ensures forall j :: j in Do(s, step).starts ==>
        j in s.starts || Do(s, step).starts[j] in {Returned(NotPending), Returned(Error)}
  {
  }

  /** A gate without a holder and not pending stays shut: nothing is enqueued any more, and every
      later Start that gets an answer from MarkProcessing returns ErrNotPending. */
  lemma {:induction false} GateStaysShut(s: State, steps: seq<Step>)
    requires GateShut(s) && Run(s, steps)
    ensures GateShut(After(s, steps)) && After(s, steps).enqueued == s.enqueued
    ensures forall j :: j in s.starts ==> j in After(s, steps).starts && After(s, steps).starts[j] == s.starts[j]
    ensures forall j :: j in After(s, steps).starts ==>
        j in s.starts || After(s, steps).starts[j] in {Returned(NotPending), Returned(Error)}
    ensures forall k :: 0 <= k < |steps| && steps[k].Claim? ==>
              steps[k].i in After(s, steps).starts && After(s, steps).starts[steps[k].i] == Returned(NotPending)
    decreases |steps|
  {
    if steps != [] {
      ShutStep(s, steps[0]);
      GateStaysShut(Do(s, steps[0]), steps[1..]);
      forall k | 0 <= k < |steps| && steps[k].Claim?
        ensures steps[k].i in After(s, steps).starts && After(s, steps).starts[steps[k].i] == Returned(NotPending)
      {
        if k > 0 {
          assert steps[k] == steps[1..][k - 1];
        }
      }
    }
  }

  /** After a success (seen once k steps are done) no other Start gets in, and nothing is enqueued. */
  lemma SuccessIsFinal(n: nat, hook: Option<string>, now: int, steps: seq<Step>, k: nat, i: nat)
    requires n >= 1 && k <= |steps| && Run(Initial(n, hook, now), steps)
    requires Run(Initial(n, hook, now), steps[..k]) && Succeeded(After(Initial(n, hook, now), steps[..k]), i)
    ensures var mid, end := After(Initial(n, hook, now), steps[..k]), After(Initial(n, hook, now), steps);
            && end.enqueued == mid.enqueued
            && (forall m :: k <= m < |steps| && steps[m].Claim? ==>
                  steps[m].i in end.starts && end.starts[steps[m].i] == Returned(NotPending))
            && (forall j :: j in end.starts && j !in mid.starts ==>
                end.starts[j] in {Returned(NotPending), Returned(Error)})
  {
    var s := Initial(n, hook, now);
    InitialInv(n, hook, now);
    RunKeepsInv(s, steps[..k]);
    Cut(s, steps, k);
    var mid := After(s, steps[..k]);
    assert GateShut(mid) by {
      assert HasSucceeded(mid.starts, i);
      assert forall j :: j in mid.starts ==> !Holds(mid.starts, j);
    }
    GateStaysShut(mid, steps[k..]);
    forall m | k <= m < |steps| && steps[m].Claim?
      ensures steps[m].i in After(s, steps).starts && After(s, steps).starts[steps[m].i] == Returned(NotPending)
    {
      assert steps[m] == steps[k..][m - k];
    }
  }

  // ----- Webhook bodies in all runs -----

  /** The columns that a body shows of a finished batch. */
  predicate Shows(status: BatchStatus, total: nat, completed: nat, hook: Option<string>, createdAt: int, row: Batch) {
    && status == Completed && total == row.total && row.total <= completed <= row.completed
    && hook == row.webhookId && createdAt == row.createdAt
  }

  /** Dispatches begin only when the batch is complete, and what they read is complete as well. */
  ghost predicate Bodies(row: Batch, dispatches: map<int, DispatchPhase>) {
    forall v :: v in dispatches ==>
      && row.total <= v <= row.completed
      && match dispatches[v]
         case Launched => true
         case RowLoaded(b) => Shows(b.status, b.total, b.completed, b.webhookId, b.createdAt, row)
         case PayloadBuilt(p) =>
           && Shows(p.status, p.total, p.completed, p.webhookId, p.createdAt, row)
           && |p.submissions| == row.total
           && forall k :: 0 <= k < |p.submissions| ==> p.submissions[k].submission == k
  }

  lemma BodiesLater(row: Batch, later: Batch, dispatches: map<int, DispatchPhase>)
    requires Bodies(row, dispatches) && later.total == row.total && later.completed >= row.completed
    requires later.webhookId == row.webhookId && later.createdAt == row.createdAt
    ensures Bodies(later, dispatches)
  {
  }

  lemma BodiesStep(s: State, step: Step)
    requires Inv(s) && Bodies(s.row, s.dispatches) && Enabled(s, step)
    ensures Bodies(Do(s, step).row, Do(s, step).dispatches)
  {
    var t := Do(s, step);
    RowStep(s, step);
    RunsChange(s, step);
    if step.Decide? || step.LoadRow? || step.LoadSubmissions? {
      assert t.row == s.row;
    } else {
      assert t.dispatches == s.dispatches;
      BodiesLater(s.row, t.row, s.dispatches);
    }
  }

  lemma {:induction false} RunKeepsBodies(s: State, steps: seq<Step>)
    requires Inv(s) && Bodies(s.row, s.dispatches) && Run(s, steps)
    ensures Bodies(After(s, steps).row, After(s, steps).dispatches)
    ensures After(s, steps).row.createdAt == s.row.createdAt
    decreases |steps|
  {
    if steps != [] {
      RowStep(s, steps[0]);
      GateStep(s, steps[0]);
      FireStep(s, steps[0]);
      BodiesStep(s, steps[0]);
      RunKeepsBodies(Do(s, steps[0]), steps[1..]);
    }
  }

  /** In every run, whatever is lost, duplicated or raced, a body built by an automatic dispatch is that
      of the completed batch: it says so, carries the batch's own webhook and creation time, counts at
      least the total, and lists every submission once, in order.  How far the listed statuses can be
      trusted is another matter. */
  lemma BodyIsOfCompletedBatch(n: nat, hook: Option<string>, now: int, steps: seq<Step>, v: int)
    requires n >= 1 && Run(Initial(n, hook, now), steps)
    requires v in After(Initial(n, hook, now), steps).dispatches
    requires After(Initial(n, hook, now), steps).dispatches[v].PayloadBuilt?
    ensures var end := After(Initial(n, hook, now), steps);
            var body := end.dispatches[v].payload;
      && n <= v <= end.row.completed && body.status == Completed && body.total == n <= body.completed
      && body.webhookId == hook && body.createdAt == now
      && |body.submissions| == n && forall k :: 0 <= k < n ==> body.submissions[k].submission == k
  {
    InitialInv(n, hook, now);
    RunKeepsInv(Initial(n, hook, now), steps);
    RunKeepsBodies(Initial(n, hook, now), steps);
  }
}

/** What holds as long as no submission is delivered while a run works on it or after it was counted,
    and results are written.  Nothing else is assumed: fan-outs may be partial, Start calls and runs
    may die at any point, roll-backs and increments may fail, claims may apply unacknowledged, and
    jobs may be dead-lettered at any time. */
module SingleDelivery {
  import opened Common
  import opened BatchRows
  import opened Statuses
  import opened Payloads
  import opened BatchLifecycle

  /** No run works on the submission and it is not counted. */
  ghost predicate Idle(s: State, sub: int) {
    sub !in s.advanced && forall w :: w in s.runs ==> s.runs[w].sub != sub
  }

  ghost predicate Single(s: State, step: Step) {
    match step
    case Deliver(_, sub) => Idle(s, sub)
    case DeliverFails(sub, _) => Idle(s, sub)
    case Persist(_, _, written) => written
    case _ => true
  }

  ghost predicate SingleRun(s: State, steps: seq<Step>)
    ensures SingleRun(s, steps) ==> Run(s, steps)
    decreases |steps|
  {
    steps == [] || (Enabled(s, steps[0]) && Single(s, steps[0]) && SingleRun(Do(s, steps[0]), steps[1..]))
  }

  /** Each count belongs to a submission of its own, and no run works on a counted one. */
  ghost predicate Counts(total: nat, completed: nat, runs: map<nat, RunPhase>, advanced: set<int>) {
    && completed == |advanced| && advanced <= Range(0, total)
    && (forall w :: w in runs ==> runs[w].sub < total && runs[w].sub !in advanced)
    && (forall w, u :: w in runs && u in runs && w != u ==> runs[w].sub != runs[u].sub)
  }

  ghost predicate CountInv(s: State) {
    Counts(s.row.total, s.row.completed, s.runs, s.advanced)
  }

  predicate GoodPayload(p: Payload, total: nat) {
    && p.status == Completed && p.total == total && p.completed == total
    && |p.submissions| == total
    && forall k :: 0 <= k < total ==> p.submissions[k].submission == k && p.submissions[k].status >= 3
  }

  /** Whatever is persisted or counted is terminal. */
  ghost predicate Results(runs: map<nat, RunPhase>, statuses: seq<int>, advanced: set<int>) {
    && (forall w :: w in runs && runs[w].Persisted? && runs[w].sub < |statuses| ==> IsTerminal(statuses[runs[w].sub]))
    && (forall x :: x in advanced && 0 <= x < |statuses| ==> IsTerminal(statuses[x]))
  }

  ghost predicate ResultInv(s: State) {
    Results(s.runs, s.statuses, s.advanced)
  }

  ghost predicate Dispatches(total: nat, completed: nat, dispatches: map<int, DispatchPhase>) {
    forall v :: v in dispatches ==>
      && total <= v <= completed
      && (dispatches[v].RowLoaded? ==>
            && dispatches[v].batch.status == Completed
            && dispatches[v].batch.total == dispatches[v].batch.completed == total)
      && (dispatches[v].PayloadBuilt? ==> GoodPayload(dispatches[v].payload, total))
  }

  ghost predicate DispatchInv(s: State) {
    Dispatches(s.row.total, s.row.completed, s.dispatches)
  }

  /** What a payload shows of a submission that was not dead-lettered is still its status. */
  ghost predicate Shown(dispatches: map<int, DispatchPhase>, statuses: seq<int>, dead: set<int>) {
    forall v, k ::
      v in dispatches && dispatches[v].PayloadBuilt? && 0 <= k < |dispatches[v].payload.submissions| && k !in dead ==>
        k < |statuses| && dispatches[v].payload.submissions[k].status == statuses[k]
  }

  ghost predicate ShownInv(s: State) {
    Shown(s.dispatches, s.statuses, s.dead)
  }

  ghost predicate SingleInv(s: State) {
    RowInv(s) && FireInv(s) && CountInv(s) && ResultInv(s) && DispatchInv(s) && ShownInv(s)
  }

  // ----- What every step keeps -----

  lemma CountDelivers(total: nat, completed: nat, runs: map<nat, RunPhase>, advanced: set<int>, w: nat, sub: nat)
    requires Counts(total, completed, runs, advanced) && w !in runs && sub < total
    requires sub !in advanced && forall u :: u in runs ==> runs[u].sub != sub
    ensures Counts(total, completed, runs[w := Running(sub)], advanced)
  {
  }

  lemma CountPersists(total: nat, completed: nat, runs: map<nat, RunPhase>, advanced: set<int>, w: nat)
    requires Counts(total, completed, runs, advanced) && w in runs
    ensures Counts(total, completed, runs[w := Persisted(runs[w].sub)], advanced)
  {
  }

  lemma CountDrops(total: nat, completed: nat, runs: map<nat, RunPhase>, advanced: set<int>, w: nat)
    requires Counts(total, completed, runs, advanced)
    ensures Counts(total, completed, runs - {w}, advanced)
  {
  }

  lemma CountAdvances(total: nat, completed: nat, runs: map<nat, RunPhase>, advanced: set<int>, w: nat)
    requires Counts(total, completed, runs, advanced) && w in runs
    ensures Counts(total, completed + 1, runs - {w}, advanced + {runs[w].sub})
  {
  }

  /** The same for a step that does not count. */
  lemma CountRuns(total: nat, completed: nat, runs: map<nat, RunPhase>, advanced: set<int>, step: Step)
    requires Counts(total, completed, runs, advanced) && !step.Advance?
    requires step.Deliver? ==> step.w !in runs && step.sub < total && step.sub !in advanced
    requires step.Deliver? ==> forall u :: u in runs ==> runs[u].sub != step.sub
    ensures Counts(total, completed, RunsAfter(runs, step), advanced)
  {
    match step
    case Deliver(w, sub) => CountDelivers(total, completed, runs, advanced, w, sub);
    case Persist(w, _, _) => if w in runs { CountPersists(total, completed, runs, advanced, w); }
    case AdvanceFails(w) => CountDrops(total, completed, runs, advanced, w);
    case RunDies(w) => CountDrops(total, completed, runs, advanced, w);
    case _ =>
  }

  lemma CountStep(s: State, step: Step)
    requires RowInv(s) && CountInv(s) && Enabled(s, step) && Single(s, step)
    ensures CountInv(Do(s, step))
  {
    RowStep(s, step);
    RunsChange(s, step);
    if step.Advance? {
      CountAdvances(s.row.total, s.row.completed, s.runs, s.advanced, step.w);
    } else {
      assert s.advanced + {} == s.advanced;
      CountRuns(s.row.total, s.row.completed, s.runs, s.advanced, step);
    }
  }

  lemma ResultsDeliver(runs: map<nat, RunPhase>, statuses: seq<int>, advanced: set<int>, w: nat, sub: nat, status: int)
    requires Results(runs, statuses, advanced) && sub < |statuses| && w !in runs
    requires sub !in advanced && forall u :: u in runs ==> runs[u].sub != sub
    ensures Results(runs, statuses[sub := status], advanced)
    ensures Results(runs[w := Running(sub)], statuses[sub := status], advanced)
  {
  }

  lemma ResultsPersist(runs: map<nat, RunPhase>, statuses: seq<int>, advanced: set<int>, w: nat, status: int)
    requires Results(runs, statuses, advanced) && w in runs && runs[w].sub < |statuses| && IsTerminal(status)
    ensures Results(runs[w := Persisted(runs[w].sub)], statuses[runs[w].sub := status], advanced)
  {
  }

  lemma ResultsAdvance(runs: map<nat, RunPhase>, statuses: seq<int>, advanced: set<int>, w: nat)
    requires Results(runs, statuses, advanced) && w in runs && runs[w].Persisted?
    ensures Results(runs - {w}, statuses, advanced + {runs[w].sub})
  {
  }

  lemma ResultsRecord(runs: map<nat, RunPhase>, statuses: seq<int>, advanced: set<int>, sub: nat)
    requires Results(runs, statuses, advanced) && sub < |statuses|
    ensures Results(runs, statuses[sub := INTERNAL_ERROR], advanced)
  {
  }

  lemma ResultStep(s: State, step: Step)
    requires RowInv(s) && CountInv(s) && ResultInv(s) && Enabled(s, step) && Single(s, step)
    ensures ResultInv(Do(s, step))
  {
    match step
    case Deliver(w, sub) => ResultsDeliver(s.runs, s.statuses, s.advanced, w, sub, PROCESSING);
    case DeliverFails(sub, _) =>
      var w := Above(s.runs.Keys);
      ResultsDeliver(s.runs, s.statuses, s.advanced, w, sub, PROCESSING);
    case Persist(w, status, _) => ResultsPersist(s.runs, s.statuses, s.advanced, w, status);
    case Advance(w, _) => ResultsAdvance(s.runs, s.statuses, s.advanced, w);
    case DeadLetter(sub, _) => ResultsRecord(s.runs, s.statuses, s.advanced, sub);
    case _ =>
  }

  /** A due launch means that every submission is counted. */
  lemma AllCounted(s: State)
    requires RowInv(s) && CountInv(s)
    ensures s.row.completed <= s.row.total
    ensures s.row.completed == s.row.total ==> s.advanced == Range(0, s.row.total)
  {
    SubsetSize(s.advanced, Range(0, s.row.total));
  }

  lemma DispatchAssembles(s: State, v: int)
    requires SingleInv(s) && Enabled(s, LoadSubmissions(v))
    ensures DispatchInv(Do(s, LoadSubmissions(v)))
  {
    AllCounted(s);
    assert GoodPayload(Assembled(s.dispatches[v].batch, s.statuses), s.row.total);
  }

  lemma DispatchStep(s: State, step: Step)
    requires SingleInv(s) && Enabled(s, step)
    ensures DispatchInv(Do(s, step))
  {
    match step
    case LoadSubmissions(v) => DispatchAssembles(s, v);
    case LoadRow(v) => AllCounted(s);
    case _ =>
  }

  /** Once a dispatch is under way every submission is counted, so that only dead-lettering still writes
      statuses. */
  lemma NoDispatchYet(s: State, sub: nat)
    requires RowInv(s) && CountInv(s) && DispatchInv(s) && sub < s.row.total && sub !in s.advanced
    ensures s.dispatches == map[]
  {
    AllCounted(s);
    assert forall v :: v !in s.dispatches;
  }

  lemma ShownBuilds(dispatches: map<int, DispatchPhase>, statuses: seq<int>, dead: set<int>, v: int, b: Batch)
    requires Shown(dispatches, statuses, dead)
    ensures Shown(dispatches[v := PayloadBuilt(Assembled(b, statuses))], statuses, dead)
    ensures Shown(dispatches[v := Launched], statuses, dead)
    ensures Shown(dispatches[v := RowLoaded(b)], statuses, dead)
  {
  }

  lemma ShownRecords(dispatches: map<int, DispatchPhase>, statuses: seq<int>, dead: set<int>, sub: nat)
    requires Shown(dispatches, statuses, dead) && sub < |statuses|
    ensures Shown(dispatches, statuses[sub := INTERNAL_ERROR], dead + {sub})
    ensures Shown(dispatches, statuses, dead + {sub})
  {
  }

  lemma ShownStep(s: State, step: Step)
    requires SingleInv(s) && Enabled(s, step) && Single(s, step)
    ensures ShownInv(Do(s, step))
  {
    match step
    case Deliver(_, sub) => NoDispatchYet(s, sub);
    case DeliverFails(sub, _) => NoDispatchYet(s, sub);
    case Persist(w, _, _) => NoDispatchYet(s, s.runs[w].sub);
    case DeadLetter(sub, _) => ShownRecords(s.dispatches, s.statuses, s.dead, sub);
    case Decide(v) => ShownBuilds(s.dispatches, s.statuses, s.dead, v, s.row);
    case LoadRow(v) => ShownBuilds(s.dispatches, s.statuses, s.dead, v, s.row);
    case LoadSubmissions(v) => ShownBuilds(s.dispatches, s.statuses, s.dead, v, s.dispatches[v].batch);
    case _ =>
  }

  lemma {:induction false} SingleRunKeepsInv(s: State, steps: seq<Step>)
    requires SingleInv(s) && SingleRun(s, steps)
    ensures SingleInv(After(s, steps)) && After(s, steps).row.total == s.row.total
    decreases |steps|
  {
    if steps != [] {
      RowStep(s, steps[0]);
      FireStep(s, steps[0]);
      CountStep(s, steps[0]);
      ResultStep(s, steps[0]);
      DispatchStep(s, steps[0]);
      ShownStep(s, steps[0]);
      SingleRunKeepsInv(Do(s, steps[0]), steps[1..]);
    }
  }

  // ----- Theorems -----

  lemma FireOnce(linked: bool, total: nat, completed: nat, returned: seq<int>,
                 undecided: set<int>, launches: seq<int>, lost: set<int>)
    requires total >= 1 && completed <= total
    requires Fire(linked, total, completed, returned, undecided, launches, lost)
    ensures launches == [] || launches == [total]
    ensures launches == [total] ==> linked && completed == total
    ensures linked && completed == total && undecided == {} && lost == {} ==> launches == [total]
  {
    if launches != [] {
      assert launches[0] in launches && launches[|launches| - 1] in launches;
      assert launches[0] == launches[|launches| - 1] == total;
    }
    assert linked && completed == total ==> IsDue(linked, total, total);
  }

  /** The webhook is launched at most once, and only by the finisher that counted the last one. */
  lemma LaunchedByLastFinisher(n: nat, hook: Option<string>, now: int, steps: seq<Step>)
    requires n >= 1 && SingleRun(Initial(n, hook, now), steps)
    ensures var end := After(Initial(n, hook, now), steps);
            && end.row.completed <= n
            && (end.launches == [] || end.launches == [n])
            && (end.launches == [n] ==> end.row.status == Completed && end.row.Linked())
            && (end.row.status == Completed && end.row.Linked() && end.undecided == {} && end.lost == {} ==>
                  end.launches == [n])
  {
    InitialInv(n, hook, now);
    SingleRunKeepsInv(Initial(n, hook, now), steps);
    var end := After(Initial(n, hook, now), steps);
    AllCounted(end);
    FireOnce(end.row.Linked(), n, end.row.completed, end.returned, end.undecided, end.launches, end.lost);
  }

  /** Every payload assembled by an automatic dispatch shows the finished batch: each submission
      exactly once, all terminal, completed = total.  Whatever happens later, it goes on to agree with
      the stored statuses but for submissions that were dead-lettered. */
  lemma PayloadIsFinal(n: nat, hook: Option<string>, now: int, steps: seq<Step>, v: int)
    requires n >= 1 && SingleRun(Initial(n, hook, now), steps)
    requires v in After(Initial(n, hook, now), steps).dispatches
    requires After(Initial(n, hook, now), steps).dispatches[v].PayloadBuilt?
    ensures var end := After(Initial(n, hook, now), steps);
      && v == n && GoodPayload(end.dispatches[v].payload, n) && |end.statuses| == n
      && forall k :: 0 <= k < n && k !in end.dead ==>
           end.dispatches[v].payload.submissions[k].status == end.statuses[k]
  {
    InitialInv(n, hook, now);
    SingleRunKeepsInv(Initial(n, hook, now), steps);
    AllCounted(After(Initial(n, hook, now), steps));
  }

  /** When every submission was counted or dead-lettered, the batch is completed if and only if those
      that were dead-lettered were counted as well, that is, before their job was given up:
      dead-lettering records the failure of a submission but does not count it. */
  lemma DrainedIsCompletedExactlyWhen(n: nat, hook: Option<string>, now: int, steps: seq<Step>)
    requires n >= 1 && SingleRun(Initial(n, hook, now), steps)
    requires Range(0, n) <= After(Initial(n, hook, now), steps).advanced + After(Initial(n, hook, now), steps).dead
    ensures var s := After(Initial(n, hook, now), steps);
      s.row.status == Completed <==> s.dead * Range(0, n) <= s.advanced
  {
    InitialInv(n, hook, now);
    SingleRunKeepsInv(Initial(n, hook, now), steps);
    CompletedExactlyWhenCounted(After(Initial(n, hook, now), steps));
  }

  lemma CompletedExactlyWhenCounted(s: State)
    requires RowInv(s) && CountInv(s)
    ensures s.row.status == Completed <==> Range(0, s.row.total) <= s.advanced
  {
    AllCounted(s);
    if Range(0, s.row.total) <= s.advanced {
      SubsetSize(Range(0, s.row.total), s.advanced);
    }
  }
}

/** What one second delivery can do, and how far a batch gets when only idle submissions are delivered,
    be it again: exact conditions, for every state that such runs reach. */
module Redelivering {
  import opened Common
  import opened BatchRows
  import opened Statuses
  import opened Payloads
  import opened BatchLifecycle
  import opened SingleDelivery
  import opened Completing

  /** The submissions that runs work on. */
  ghost function Subs(runs: map<nat, RunPhase>): set<int> {
    set w | w in runs :: runs[w].sub
  }

  /** The submissions that are not idle. */
  ghost function Busy(s: State): set<int> {
    s.advanced + Subs(s.runs)
  }

  /** The runs under way and the idle submissions within reach. */
  ghost function Remaining(runs: map<nat, RunPhase>, advanced: set<int>, reach: set<int>): nat {
    |runs.Keys| + |reach - (advanced + Subs(runs))|
  }

  /** The counts there are, and those that runs under way and idle submissions can still bring. */
  ghost function SinglePotential(s: State): nat {
    s.row.completed + Remaining(s.runs, s.advanced, Reach(s))
  }

  // ----- What every step keeps -----

  ghost predicate Taken(enqueued: set<int>, runs: map<nat, RunPhase>, advanced: set<int>) {
    advanced <= enqueued && forall w :: w in runs ==> runs[w].sub in enqueued
  }

  ghost predicate Untouched(enqueued: set<int>, statuses: seq<int>) {
    forall x :: 0 <= x < |statuses| && x !in enqueued ==> statuses[x] == IN_QUEUE
  }

  ghost predicate Started(linked: bool, total: nat, completed: nat, dispatches: map<int, DispatchPhase>) {
    forall v :: v in dispatches ==> IsDue(linked, total, v) && v <= completed
  }

  /** Only published jobs are taken up, only they leave the queue status, and dispatches belong to
      counts that are due. */
  ghost predicate Rooted(s: State) {
    && Inv(s) && Known(s)
    && Taken(s.enqueued, s.runs, s.advanced)
    && Untouched(s.enqueued, s.statuses)
    && Started(s.row.Linked(), s.row.total, s.row.completed, s.dispatches)
  }

  lemma StepTakes(s: State, step: Step)
    requires Taken(s.enqueued, s.runs, s.advanced) && Enabled(s, step)
    ensures var t := Do(s, step); Taken(t.enqueued, t.runs, t.advanced)
  {
  }

  lemma StepTouches(s: State, step: Step)
    requires Known(s) && Taken(s.enqueued, s.runs, s.advanced) && Untouched(s.enqueued, s.statuses) && Enabled(s, step)
    ensures var t := Do(s, step); Untouched(t.enqueued, t.statuses)
  {
    match step
    case Deliver(_, sub) => PublishedTouched(s.enqueued, s.statuses, sub, PROCESSING);
    case DeliverFails(sub, _) => PublishedTouched(s.enqueued, s.statuses, sub, PROCESSING);
    case Persist(w, status, _) => PublishedTouched(s.enqueued, s.statuses, s.runs[w].sub, status);
    case DeadLetter(sub, _) => PublishedTouched(s.enqueued, s.statuses, sub, INTERNAL_ERROR);
    case _ =>
  }

  lemma PublishedTouched(enqueued: set<int>, statuses: seq<int>, sub: nat, status: int)
    requires Untouched(enqueued, statuses) && sub in enqueued && sub < |statuses|
    ensures Untouched(enqueued, statuses[sub := status])
  {
  }

  lemma StepStarts(s: State, step: Step)
    requires Inv(s) && Started(s.row.Linked(), s.row.total, s.row.completed, s.dispatches) && Enabled(s, step)
    ensures var t := Do(s, step); Started(t.row.Linked(), t.row.total, t.row.completed, t.dispatches)
  {
    RowStep(s, step);
  }

  lemma StepKeepsRooted(s: State, step: Step)
    requires Rooted(s) && Enabled(s, step)
    ensures Rooted(Do(s, step)) && Do(s, step).row.total == s.row.total && Do(s, step).row.Linked() == s.row.Linked()
  {
    RowStep(s, step);
    StepKeepsAll(s, step);
    StepTakes(s, step);
    StepTouches(s, step);
    StepStarts(s, step);
  }

  lemma {:induction false} RunKeepsRooted(s: State, steps: seq<Step>)
    requires Rooted(s) && Run(s, steps)
    ensures Rooted(After(s, steps))
    ensures After(s, steps).row.total == s.row.total && After(s, steps).row.Linked() == s.row.Linked()
    ensures s.lost <= After(s, steps).lost
    decreases |steps|
  {
    if steps != [] {
      StepKeepsRooted(s, steps[0]);
      RunKeepsRooted(Do(s, steps[0]), steps[1..]);
    }
  }

  lemma InitialRooted(n: nat, hook: Option<string>, now: int)
    requires n >= 1
    ensures Rooted(Initial(n, hook, now))
  {
    InitialInv(n, hook, now);
  }

  // ----- Upper bound -----

  lemma SubsChange(runs: map<nat, RunPhase>, w: nat, phase: RunPhase)
    ensures w !in runs ==> Subs(runs[w := phase]) == Subs(runs) + {phase.sub}
    ensures w in runs && phase.sub == runs[w].sub ==> Subs(runs[w := phase]) == Subs(runs)
    ensures w in runs ==> Subs(runs - {w}) + {runs[w].sub} == Subs(runs)
  {
    var more, less := runs[w := phase], runs - {w};
    forall x | x in Subs(runs)
      ensures w !in runs || phase.sub == runs[w].sub ==> x in Subs(more)
      ensures w in runs ==> x in Subs(less) + {runs[w].sub}
    {
      var u :| u in runs && runs[u].sub == x;
      assert u in more;
      assert u != w ==> u in less && less[u].sub == x;
    }
    assert w in more && more[w] == phase;
    forall x | x in Subs(more)
      ensures x in Subs(runs) || x == phase.sub
    {
      var u :| u in more && more[u].sub == x;
    }
    assert w in runs ==> runs[w].sub in Subs(runs);
  }

  lemma DeliverySpends(runs: map<nat, RunPhase>, advanced: set<int>, reach: set<int>, w: nat, sub: nat)
    requires w !in runs && sub in reach - (advanced + Subs(runs))
    ensures Remaining(runs[w := Running(sub)], advanced, reach) == Remaining(runs, advanced, reach)
  {
    SubsChange(runs, w, Running(sub));
    KeySizes(runs, w, Running(sub));
    OneLessIdle(reach, advanced, Subs(runs), Subs(runs[w := Running(sub)]), sub);
  }

  lemma OneLessIdle(reach: set<int>, advanced: set<int>, subs: set<int>, more: set<int>, x: int)
    requires more == subs + {x} && x in reach - (advanced + subs)
    ensures |reach - (advanced + more)| == |reach - (advanced + subs)| - 1
  {
    SplitSize(reach - (advanced + subs), {x});
    assert reach - (advanced + more) == reach - (advanced + subs) - {x};
  }

  lemma WriteKeeps(runs: map<nat, RunPhase>, advanced: set<int>, reach: set<int>, w: nat)
    requires w in runs
    ensures Remaining(runs[w := Persisted(runs[w].sub)], advanced, reach) == Remaining(runs, advanced, reach)
  {
    SubsChange(runs, w, Persisted(runs[w].sub));
    KeySizes(runs, w, Persisted(runs[w].sub));
  }

  lemma CountSpends(runs: map<nat, RunPhase>, advanced: set<int>, reach: set<int>, w: nat)
    requires w in runs
    ensures Remaining(runs - {w}, advanced + {runs[w].sub}, reach) + 1 == Remaining(runs, advanced, reach)
  {
    SubsChange(runs, w, runs[w]);
    KeySizes(runs, w, runs[w]);
    assert advanced + {runs[w].sub} + Subs(runs - {w}) == advanced + (Subs(runs - {w}) + {runs[w].sub});
  }

  lemma DropSpends(runs: map<nat, RunPhase>, advanced: set<int>, reach: set<int>, w: nat)
    requires w in runs
    ensures Remaining(runs - {w}, advanced, reach) <= Remaining(runs, advanced, reach)
  {
    SubsChange(runs, w, runs[w]);
    KeySizes(runs, w, runs[w]);
    OneMoreIdle(reach, advanced, Subs(runs - {w}), Subs(runs), runs[w].sub);
  }

  lemma OneMoreIdle(reach: set<int>, advanced: set<int>, less: set<int>, subs: set<int>, x: int)
    requires less + {x} == subs
    ensures |reach - (advanced + less)| <= |reach - (advanced + subs)| + 1
  {
    SubsetSize(reach - (advanced + less), reach - (advanced + subs) + {x});
  }

  lemma ReachMatters(runs: map<nat, RunPhase>, advanced: set<int>, less: set<int>, reach: set<int>)
    requires less <= reach
    ensures Remaining(runs, advanced, less) <= Remaining(runs, advanced, reach)
  {
    SubsetSize(less - (advanced + Subs(runs)), reach - (advanced + Subs(runs)));
  }

  lemma NotBusyIsIdle(s: State, x: int)
    ensures Idle(s, x) <==> x !in Busy(s)
  {
  }

  lemma StepSpends(s: State, step: Step)
    requires Rooted(s) && Enabled(s, step) && Single(s, step)
    ensures var t := Do(s, step);
      t.row.completed + Remaining(t.runs, t.advanced, Reach(s))
      <= s.row.completed + Remaining(s.runs, s.advanced, Reach(s))
  {
    RunsChange(s, step);
    match step
    case Deliver(w, sub) =>
      NotBusyIsIdle(s, sub);
      DeliverySpends(s.runs, s.advanced, Reach(s), w, sub);
    case Persist(w, _, _) => WriteKeeps(s.runs, s.advanced, Reach(s), w);
    case Advance(w, _) => CountSpends(s.runs, s.advanced, Reach(s), w);
    case AdvanceFails(w) => DropSpends(s.runs, s.advanced, Reach(s), w);
    case RunDies(w) => DropSpends(s.runs, s.advanced, Reach(s), w);
    case _ =>
  }

  lemma SinglePotentialStep(s: State, step: Step)
    requires Rooted(s) && Enabled(s, step) && Single(s, step)
    ensures SinglePotential(Do(s, step)) <= SinglePotential(s)
  {
    var t := Do(s, step);
    StepSpends(s, step);
    ReachShrinks(s, step);
    ReachMatters(t.runs, t.advanced, Reach(t), Reach(s));
  }

  lemma {:induction false} SingleRunBound(s: State, steps: seq<Step>)
    requires Rooted(s) && SingleRun(s, steps)
    ensures After(s, steps).row.completed <= SinglePotential(s)
    decreases |steps|
  {
    if steps != [] {
      StepKeepsRooted(s, steps[0]);
      SinglePotentialStep(s, steps[0]);
      SingleRunBound(Do(s, steps[0]), steps[1..]);
    }
  }

  // ----- Reaching the bound -----

  lemma {:induction false} JoinSingle(s: State, first: seq<Step>, rest: seq<Step>)
    requires SingleRun(s, first) && SingleRun(After(s, first), rest)
    ensures SingleRun(s, first + rest)
    ensures After(s, first + rest) == After(After(s, first), rest)
    decreases |first|
  {
    if first == [] {
      assert first + rest == rest;
    } else {
      assert (first + rest)[0] == first[0] && (first + rest)[1..] == first[1..] + rest;
      JoinSingle(Do(s, first[0]), first[1..], rest);
    }
  }

  lemma SingleStep(s: State, step: Step)
    requires Enabled(s, step) && Single(s, step)
    ensures SingleRun(s, [step]) && After(s, [step]) == Do(s, step)
  {
    assert [step][1..] == [];
    assert SingleRun(Do(s, step), []);
  }

  lemma {:induction false} QuietIsSingle(s: State, steps: seq<Step>)
    requires SmoothRun(s, steps) && NoDeliver(steps)
    ensures SingleRun(s, steps)
    decreases |steps|
  {
    if steps != [] {
      assert forall k :: 0 <= k < |steps[1..]| ==> steps[1..][k] == steps[k + 1];
      QuietIsSingle(Do(s, steps[0]), steps[1..]);
    }
  }

  /** How much there is to do before nothing is idle and nothing is under way. */
  ghost function Toil(s: State): nat {
    2 * |Reach(s) - Busy(s)| + |s.runs.Keys|
  }

  /** From s to t some of the work behind a shut gate was done. */
  ghost predicate Progress(s: State, t: State) {
    && Rooted(t) && GateShut(t) && t.enqueued == s.enqueued && t.lost == s.lost
    && t.row.total == s.row.total && t.row.Linked() == s.row.Linked()
    && SinglePotential(t) == SinglePotential(s) && Toil(t) < Toil(s)
  }

  lemma FinishOne(s: State, w: nat) returns (steps: seq<Step>, t: State)
    requires Rooted(s) && GateShut(s) && w in s.runs
    ensures SingleRun(s, steps) && After(s, steps) == t && Progress(s, t) && t.row.completed in t.undecided
    ensures t.runs == s.runs - {w}
  {
    steps := FinishRun(s, w);
    t := After(s, steps);
    QuietIsSingle(s, steps);
    RunKeepsRooted(s, steps);
    GateStaysShut(s, steps);
    CountSpends(s.runs, s.advanced, s.enqueued, w);
    KeySizes(s.runs, w, s.runs[w]);
  }

  lemma TakeUpIdle(s: State, x: int) returns (steps: seq<Step>, t: State)
    requires Rooted(s) && GateShut(s) && x in Reach(s) - Busy(s)
    ensures SingleRun(s, steps) && After(s, steps) == t && Progress(s, t) && t.runs.Keys != {}
  {
    var w := Above(s.runs.Keys);
    var deliver := Deliver(w, x);
    NotBusyIsIdle(s, x);
    SingleStep(s, deliver);
    steps, t := [deliver], Do(s, deliver);
    StepKeepsRooted(s, deliver);
    DeliveryMoves(s, w, x);
    ShutStep(s, deliver);
    DeliverySpends(s.runs, s.advanced, s.enqueued, w, x);
    KeySizes(s.runs, w, Running(x));
    assert w in t.runs.Keys;
  }

  /** At u nothing is left of the work there was at s, and the last count awaits its decision. */
  ghost predicate Drained(s: State, u: State) {
    && Rooted(u) && u.row.completed == SinglePotential(s) && u.enqueued == s.enqueued && u.lost == s.lost
    && u.row.total == s.row.total && u.row.Linked() == s.row.Linked()
    && if Toil(s) == 0 then u == s else u.row.completed in u.undecided
  }

  lemma DrainedOn(s: State, t: State, u: State)
    requires Progress(s, t) && Drained(t, u) && (Toil(t) == 0 ==> t.row.completed in t.undecided)
    ensures Drained(s, u)
  {
  }

  lemma StepTowards(s: State) returns (steps: seq<Step>, t: State)
    requires Rooted(s) && GateShut(s) && Toil(s) > 0
    ensures SingleRun(s, steps) && After(s, steps) == t && Progress(s, t)
    ensures Toil(t) == 0 ==> t.row.completed in t.undecided
  {
    if s.runs.Keys != {} {
      var w := Pick(s.runs.Keys);
      steps, t := FinishOne(s, w);
    } else {
      var x := Pick(Reach(s) - Busy(s));
      steps, t := TakeUpIdle(s, x);
    }
  }

  /** Behind a shut gate: finishing every run under way, and a run on every idle submission. */
  lemma {:induction false} DrainSingle(s: State) returns (steps: seq<Step>, u: State)
    requires Rooted(s) && GateShut(s)
    ensures SingleRun(s, steps) && After(s, steps) == u && Drained(s, u)
    decreases Toil(s)
  {
    if Toil(s) == 0 {
      steps, u := [], s;
    } else {
      var first, t := StepTowards(s);
      var rest;
      rest, u := DrainSingle(t);
      JoinSingle(s, first, rest);
      steps := first + rest;
      DrainedOn(s, t, u);
    }
  }

  /** From every unfinished state the potential can be reached: publish what can be, then drain. */
  lemma Exhaust(s: State) returns (steps: seq<Step>, u: State)
    requires Rooted(s) && (s.row.status != Completed || GateShut(s))
    ensures SingleRun(s, steps) && After(s, steps) == u && Rooted(u)
    ensures u.row.completed == SinglePotential(s) && u.enqueued == Reach(s) && u.lost == s.lost
    ensures u.row.total == s.row.total && u.row.Linked() == s.row.Linked()
    ensures s.runs.Keys != {} ==> u.row.completed in u.undecided
  {
    if GateShut(s) {
      steps, u := DrainSingle(s);
    } else {
      var fanOut := FinishFanOut(s);
      var t := After(s, fanOut);
      QuietIsSingle(s, fanOut);
      RunKeepsRooted(s, fanOut);
      var rest;
      rest, u := DrainSingle(t);
      JoinSingle(s, fanOut, rest);
      steps := fanOut + rest;
    }
  }

  // ----- Theorems -----

  ghost predicate CompletesSingly(s: State) {
    exists more: seq<Step> :: SingleRun(s, more) && After(s, more).row.status == Completed
  }

  lemma PotentialCompletes(s: State)
    requires Rooted(s) && SinglePotential(s) >= s.row.total
    ensures CompletesSingly(s)
  {
    if s.row.status == Completed {
      assert SingleRun(s, []) && After(s, []) == s;
    } else {
      var more, u := Exhaust(s);
      assert u.row.status == Completed;
    }
  }

  lemma CompletingHasPotential(s: State, more: seq<Step>)
    requires Rooted(s) && SingleRun(s, more) && After(s, more).row.status == Completed
    ensures SinglePotential(s) >= s.row.total
  {
    SingleRunBound(s, more);
    RunKeepsRooted(s, more);
  }

  /** After any steps, a batch can complete by deliveries of idle submissions, be it again, if and only
      if the counts it has, the runs under way and the idle submissions within reach add up to its
      total. */
  lemma CompletesSinglyExactlyWhen(n: nat, hook: Option<string>, now: int, steps: seq<Step>)
    requires n >= 1 && Run(Initial(n, hook, now), steps)
    ensures var s := After(Initial(n, hook, now), steps); CompletesSingly(s) <==> SinglePotential(s) >= n
  {
    InitialRooted(n, hook, now);
    RunKeepsRooted(Initial(n, hook, now), steps);
    var s := After(Initial(n, hook, now), steps);
    if CompletesSingly(s) {
      var more :| SingleRun(s, more) && After(s, more).row.status == Completed;
      CompletingHasPotential(s, more);
    } else if SinglePotential(s) >= n {
      PotentialCompletes(s);
    }
  }

  // ----- One second delivery -----

  /** From s to t a run was delivered a submission that was not idle, in a state that single deliveries
      reached: one count more than there are submissions within reach becomes possible. */
  ghost predicate Second(s: State, t: State) {
    && Rooted(t) && t.runs.Keys != {} && t.lost == s.lost && Reach(t) == Reach(s) && t.row == s.row
    && t.launches == s.launches && t.dispatches == s.dispatches && SinglePotential(t) == |Reach(s)| + 1
  }

  lemma DeliveryMoves(s: State, w: nat, sub: nat)
    requires Enabled(s, Deliver(w, sub))
    ensures var t := Do(s, Deliver(w, sub));
      && t.row == s.row && t.runs == s.runs[w := Running(sub)] && t.advanced == s.advanced && t.lost == s.lost
      && t.launches == s.launches && t.dispatches == s.dispatches && Reach(t) == Reach(s)
  {
    var t := Do(s, Deliver(w, sub));
    assert t.starts == s.starts && t.enqueued == s.enqueued && t.row == s.row;
    assert GateShut(t) == GateShut(s);
  }

  lemma SecondDelivery(s: State, w: nat, sub: nat)
    requires Rooted(s) && CountInv(s) && Enabled(s, Deliver(w, sub)) && !Idle(s, sub)
    ensures Second(s, Do(s, Deliver(w, sub)))
  {
    StepKeepsRooted(s, Deliver(w, sub));
    DeliveryMoves(s, w, sub);
    NotBusyIsIdle(s, sub);
    BusyWithinReach(s);
    SecondSpends(s.row.total, s.row.completed, s.runs, s.advanced, Reach(s), w, sub);
    assert w in Do(s, Deliver(w, sub)).runs.Keys;
  }

  lemma BusyWithinReach(s: State)
    requires Rooted(s)
    ensures Busy(s) <= s.enqueued <= Reach(s) <= Range(0, s.row.total)
  {
  }

  lemma SecondSpends(total: nat, completed: nat, runs: map<nat, RunPhase>, advanced: set<int>, reach: set<int>,
                     w: nat, sub: nat)
    requires Counts(total, completed, runs, advanced) && w !in runs
    requires sub in advanced + Subs(runs) && advanced + Subs(runs) <= reach
    ensures completed + Remaining(runs[w := Running(sub)], advanced, reach) == |reach| + 1
  {
    BusyIsDistinct(total, completed, runs, advanced);
    SubsChange(runs, w, Running(sub));
    KeySizes(runs, w, Running(sub));
    NoneLessIdle(reach, advanced, Subs(runs), Subs(runs[w := Running(sub)]), sub);
  }

  lemma NoneLessIdle(reach: set<int>, advanced: set<int>, subs: set<int>, more: set<int>, x: int)
    requires more == subs + {x} && x in advanced + subs && advanced + subs <= reach
    ensures |reach - (advanced + more)| == |reach| - |advanced + subs|
  {
    SplitSize(reach, advanced + subs);
    assert advanced + more == advanced + subs;
  }

  /** Single deliveries give every run and every count a submission of its own. */
  lemma BusyIsDistinct(total: nat, completed: nat, runs: map<nat, RunPhase>, advanced: set<int>)
    requires Counts(total, completed, runs, advanced)
    ensures completed + |runs.Keys| == |advanced + Subs(runs)|
  {
    DistinctSubs(runs);
    assert advanced !! Subs(runs);
  }

  lemma {:induction false} DistinctSubs(runs: map<nat, RunPhase>)
    requires forall w, u :: w in runs && u in runs && w != u ==> runs[w].sub != runs[u].sub
    ensures |Subs(runs)| == |runs.Keys|
    decreases |runs.Keys|
  {
    if runs.Keys != {} {
      var w := Pick(runs.Keys);
      KeySizes(runs, w, runs[w]);
      SubsChange(runs, w, runs[w]);
      DistinctSubs(runs - {w});
      assert runs[w].sub !in Subs(runs - {w});
      assert Subs(runs) == Subs(runs - {w}) + {runs[w].sub as int};
    } else {
      assert Subs(runs) == {};
    }
  }

  /** After the second delivery the batch can be brought to a count that nobody has decided on yet: one
      beyond the total, or the total with a submission that was never published. */
  lemma LastCount(s: State, t: State) returns (steps: seq<Step>, u: State)
    requires Second(s, t) && |Reach(s)| + 1 >= s.row.total
    ensures SingleRun(t, steps) && After(t, steps) == u && Rooted(u)
    ensures u.row.total == s.row.total && u.row.Linked() == s.row.Linked() && u.lost == s.lost
    ensures u.row.completed in u.undecided && u.row.completed >= s.row.total
    ensures u.row.completed == s.row.total ==> |u.enqueued| < s.row.total && |Reach(s)| < s.row.total
  {
    if t.row.status == Completed && !GateShut(t) {
      var w := Pick(t.runs.Keys);
      steps := FinishRun(t, w);
      u := After(t, steps);
      QuietIsSingle(t, steps);
      RunKeepsRooted(t, steps);
    } else {
      steps, u := Exhaust(t);
    }
  }

  /** The finisher of count v launches, and the dispatch loads row and submissions at once. */
  lemma DispatchNow(u: State, v: int) returns (steps: seq<Step>)
    requires v in u.undecided && Due(u, v)
    ensures SingleRun(u, steps) && v in After(u, steps).dispatches
    ensures After(u, steps).dispatches[v] == PayloadBuilt(Assembled(u.row, u.statuses))
  {
    var u1 := Do(u, Decide(v));
    var u2 := Do(u1, LoadRow(v));
    SingleStep(u2, LoadSubmissions(v));
    SingleStep(u1, LoadRow(v));
    SingleStep(u, Decide(v));
    JoinSingle(u1, [LoadRow(v)], [LoadSubmissions(v)]);
    JoinSingle(u, [Decide(v)], [LoadRow(v)] + [LoadSubmissions(v)]);
    steps := [Decide(v)] + ([LoadRow(v)] + [LoadSubmissions(v)]);
  }

  lemma BodyIsBad(u: State)
    requires Rooted(u) && u.row.completed >= u.row.total
    requires u.row.completed == u.row.total ==> |u.enqueued| < u.row.total
    ensures !GoodPayload(Assembled(u.row, u.statuses), u.row.total)
  {
    var n, p := u.row.total, Assembled(u.row, u.statuses);
    if u.row.completed == n {
      SplitSize(Range(0, n), u.enqueued);
      var x := Pick(Range(0, n) - u.enqueued);
      assert u.statuses[x] == IN_QUEUE;
      assert p.submissions[x].status == IN_QUEUE;
    }
  }

  /** A body that does not show the finished batch was built. */
  ghost predicate Spoiled(u: State, n: nat) {
    exists v :: v in u.dispatches && u.dispatches[v].PayloadBuilt? && !GoodPayload(u.dispatches[v].payload, n)
  }

  lemma SecondSpoils(s: State, t: State) returns (more: seq<Step>)
    requires Second(s, t) && s.row.Linked() && |Reach(s)| + 1 >= s.row.total && s.row.total >= 1
    ensures SingleRun(t, more) && Spoiled(After(t, more), s.row.total)
  {
    var first, u := LastCount(s, t);
    BodyIsBad(u);
    var rest := DispatchNow(u, u.row.completed);
    JoinSingle(t, first, rest);
    more := first + rest;
  }

  lemma SpoiledHasReach(s: State, t: State, more: seq<Step>)
    requires Second(s, t) && SingleRun(t, more) && Spoiled(After(t, more), s.row.total)
    ensures s.row.Linked() && |Reach(s)| + 1 >= s.row.total
  {
    SingleRunBound(t, more);
    RunKeepsRooted(t, more);
    var u := After(t, more);
    var v :| v in u.dispatches && u.dispatches[v].PayloadBuilt? && !GoodPayload(u.dispatches[v].payload, s.row.total);
    assert IsDue(u.row.Linked(), u.row.total, v) && v <= u.row.completed;
  }

  lemma SecondAfterSingle(n: nat, hook: Option<string>, now: int, steps: seq<Step>, w: nat, sub: nat)
    requires n >= 1 && SingleRun(Initial(n, hook, now), steps)
    requires var s := After(Initial(n, hook, now), steps); Enabled(s, Deliver(w, sub)) && !Idle(s, sub)
    ensures var s := After(Initial(n, hook, now), steps);
      Rooted(s) && CountInv(s) && s.row.total == n && Second(s, Do(s, Deliver(w, sub)))
  {
    InitialRooted(n, hook, now);
    SingleRunKeepsInv(Initial(n, hook, now), steps);
    RunKeepsRooted(Initial(n, hook, now), steps);
    SecondDelivery(After(Initial(n, hook, now), steps), w, sub);
  }

  ghost predicate CanSpoil(t: State, n: nat) {
    exists more: seq<Step> :: SingleRun(t, more) && Spoiled(After(t, more), n)
  }

  /** When one second delivery can spoil the body: a submission that is worked on or counted is
      delivered again, and otherwise only idle ones are.  Some continuation then builds a body that
      does not show the finished batch if and only if the batch has a webhook and at most one of its
      submissions is out of reach.  So for a linked batch whose fan-out went through it always can. */
  lemma BodySpoiledExactlyWhen(n: nat, hook: Option<string>, now: int, steps: seq<Step>, w: nat, sub: nat)
    requires n >= 1 && SingleRun(Initial(n, hook, now), steps)
    requires var s := After(Initial(n, hook, now), steps); Enabled(s, Deliver(w, sub)) && !Idle(s, sub)
    ensures var s := After(Initial(n, hook, now), steps);
      CanSpoil(Do(s, Deliver(w, sub)), n) <==> s.row.Linked() && |Reach(s)| + 1 >= n
  {
    SecondAfterSingle(n, hook, now, steps, w, sub);
    var s := After(Initial(n, hook, now), steps);
    SpoilsExactlyWhen(s, Do(s, Deliver(w, sub)));
  }

  lemma SpoilsExactlyWhen(s: State, t: State)
    requires Second(s, t) && s.row.total >= 1
    ensures CanSpoil(t, s.row.total) <==> s.row.Linked() && |Reach(s)| + 1 >= s.row.total
  {
    if CanSpoil(t, s.row.total) {
      var more :| SingleRun(t, more) && Spoiled(After(t, more), s.row.total);
      SpoiledHasReach(s, t, more);
    } else if s.row.Linked() && |Reach(s)| + 1 >= s.row.total {
      var more := SecondSpoils(s, t);
    }
  }

  // ----- A second launch -----

  lemma DecideStep(u: State, v: int) returns (z: State)
    requires v in u.undecided && Due(u, v)
    ensures SingleRun(u, [Decide(v)]) && After(u, [Decide(v)]) == z
    ensures z.launches == u.launches + [v] && z.undecided == u.undecided - {v} && z.row == u.row
  {
    SingleStep(u, Decide(v));
    z := Do(u, Decide(v));
  }

  /** Both finishers from the total on decide, as far as they have not yet. */
  lemma LaunchBoth(u: State) returns (steps: seq<Step>)
    requires Rooted(u) && u.row.Linked() && u.row.completed > u.row.total >= 1
    requires u.row.completed in u.undecided && u.row.total !in u.lost
    ensures SingleRun(u, steps) && |After(u, steps).launches| >= 2
  {
    var n, v := u.row.total, u.row.completed;
    assert n in u.undecided || n in u.launches;
    var z := DecideStep(u, v);
    steps := [Decide(v)];
    if n in u.undecided {
      var y := DecideStep(z, n);
      JoinSingle(u, steps, [Decide(n)]);
      steps := steps + [Decide(n)];
    }
  }

  lemma SecondLaunches(s: State, t: State) returns (more: seq<Step>)
    requires Second(s, t) && s.row.Linked() && |Reach(s)| >= s.row.total >= 1 && s.row.total !in s.lost
    ensures SingleRun(t, more) && |After(t, more).launches| >= 2
  {
    var first, u := LastCount(s, t);
    var rest := LaunchBoth(u);
    JoinSingle(t, first, rest);
    more := first + rest;
  }

  /** Two launches are due for the total and for one more. */
  lemma TwoLaunches(u: State)
    requires Rooted(u) && |u.launches| >= 2 && u.row.completed <= u.row.total + 1
    ensures u.row.Linked() && u.row.completed == u.row.total + 1 && u.row.total !in u.lost
  {
    var a, b := u.launches[0], u.launches[1];
    assert a in u.launches && b in u.launches && a != b;
    assert a == u.row.total || b == u.row.total;
  }

  ghost predicate CanLaunchTwice(t: State) {
    exists more: seq<Step> :: SingleRun(t, more) && |After(t, more).launches| >= 2
  }

  lemma LaunchesTwiceExactlyWhen(s: State, t: State)
    requires Second(s, t) && s.row.total >= 1 && |Reach(s)| <= s.row.total
    ensures CanLaunchTwice(t) <==> s.row.Linked() && |Reach(s)| == s.row.total && s.row.total !in s.lost
  {
    if CanLaunchTwice(t) {
      var more :| SingleRun(t, more) && |After(t, more).launches| >= 2;
      SingleRunBound(t, more);
      RunKeepsRooted(t, more);
      TwoLaunches(After(t, more));
    } else if s.row.Linked() && |Reach(s)| == s.row.total && s.row.total !in s.lost {
      var more := SecondLaunches(s, t);
    }
  }

  /** When one second delivery can launch the webhook twice: if and only if the batch has a webhook,
      every submission is within reach, and the launch for the total was not lost to a finisher that
      died. */
  lemma LaunchedTwiceExactlyWhen(n: nat, hook: Option<string>, now: int, steps: seq<Step>, w: nat, sub: nat)
    requires n >= 1 && SingleRun(Initial(n, hook, now), steps)
    requires var s := After(Initial(n, hook, now), steps); Enabled(s, Deliver(w, sub)) && !Idle(s, sub)
    ensures var s := After(Initial(n, hook, now), steps);
      CanLaunchTwice(Do(s, Deliver(w, sub))) <==> s.row.Linked() && Reach(s) == Range(0, n) && n !in s.lost
  {
    SecondAfterSingle(n, hook, now, steps, w, sub);
    var s := After(Initial(n, hook, now), steps);
    BusyWithinReach(s);
    SubsetSize(Reach(s), Range(0, n));
    LaunchesTwiceExactlyWhen(s, Do(s, Deliver(w, sub)));
  }
}

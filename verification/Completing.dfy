/** When a batch can still complete although no job is delivered again: the exact condition, for
    every state that any run reaches. */
module Completing {
  import opened Common
  import opened BatchRows
  import opened Statuses
  import opened Publishing
  import opened BatchLifecycle

  /** No submission is delivered a second time, or after it was dead-lettered. */
  predicate Fresh(s: State, step: Step) {
    step.Deliver? ==> step.sub !in s.delivered && step.sub !in s.dead
  }

  ghost predicate FreshRun(s: State, steps: seq<Step>)
    ensures FreshRun(s, steps) ==> Run(s, steps)
    decreases |steps|
  {
    steps == [] || (Enabled(s, steps[0]) && Fresh(s, steps[0]) && FreshRun(Do(s, steps[0]), steps[1..]))
  }

  /** Submissions whose job was published or can still be.  A shut gate publishes nothing more; an
      open one can still publish every job. */
  ghost function Reach(s: State): set<int> {
    if GateShut(s) then s.enqueued else Range(0, s.row.total)
  }

  /** Submissions that a worker can still take up for the first time. */
  ghost function Open(s: State): set<int> {
    Reach(s) - s.delivered - s.dead
  }

  /** The counts there are, and those that runs under way and first deliveries can still bring. */
  ghost function Potential(s: State): nat {
    s.row.completed + |s.runs.Keys| + |Open(s)|
  }

  /** Whatever is published or worked on belongs to the batch. */
  ghost predicate Known(s: State) {
    s.enqueued <= Range(0, s.row.total) && forall w :: w in s.runs ==> s.runs[w].sub < s.row.total
  }

  // ----- Upper bound -----

  lemma KnownStep(s: State, step: Step)
    requires Inv(s) && Known(s) && Enabled(s, step)
    ensures Known(Do(s, step))
  {
    RowStep(s, step);
  }

  lemma StepKeepsAll(s: State, step: Step)
    requires Inv(s) && Known(s) && Enabled(s, step)
    ensures Inv(Do(s, step)) && Known(Do(s, step)) && Do(s, step).row.total == s.row.total
  {
    RowStep(s, step);
    GateStep(s, step);
    FireStep(s, step);
    KnownStep(s, step);
  }

  lemma ReachShrinks(s: State, step: Step)
    requires Inv(s) && Known(s) && Enabled(s, step)
    ensures Reach(Do(s, step)) <= Reach(s)
  {
    StepKeepsAll(s, step);
    if GateShut(s) {
      ShutStep(s, step);
    }
  }

  lemma OpenShrinks(s: State, step: Step)
    requires Inv(s) && Known(s) && Enabled(s, step)
    ensures Open(Do(s, step)) <= Open(s)
    ensures step.Deliver? ==> step.sub !in Open(Do(s, step))
  {
    ReachShrinks(s, step);
  }

  lemma KeySizes(runs: map<nat, RunPhase>, w: nat, phase: RunPhase)
    ensures |runs[w := phase].Keys| == |runs.Keys| + if w in runs then 0 else 1
    ensures |(runs - {w}).Keys| == |runs.Keys| - if w in runs then 1 else 0
  {
    assert runs[w := phase].Keys == runs.Keys + {w};
    assert (runs - {w}).Keys == runs.Keys - {w};
  }

  lemma RunKeys(runs: map<nat, RunPhase>, step: Step)
    requires step.Advance? ==> step.w in runs
    ensures |RunsAfter(runs, step).Keys| + (if step.Advance? then 1 else 0)
            <= |runs.Keys| + if step.Deliver? then 1 else 0
  {
    var after := RunsAfter(runs, step);
    if step.Deliver? {
      assert after.Keys == runs.Keys + {step.w};
    } else if step.Advance? {
      assert after.Keys == runs.Keys - {step.w};
    } else {
      SubsetSize(after.Keys, runs.Keys);
    }
  }

  lemma PotentialStep(s: State, step: Step)
    requires Inv(s) && Known(s) && Enabled(s, step) && Fresh(s, step)
    ensures Potential(Do(s, step)) <= Potential(s)
  {
    OpenShrinks(s, step);
    RunsChange(s, step);
    RunKeys(s.runs, step);
    if step.Deliver? {
      assert step.sub in Open(s);
      SubsetSize(Open(Do(s, step)), Open(s) - {step.sub});
      SplitSize(Open(s), {step.sub});
    } else {
      SubsetSize(Open(Do(s, step)), Open(s));
    }
  }

  lemma {:induction false} FreshRunBound(s: State, steps: seq<Step>)
    requires Inv(s) && Known(s) && FreshRun(s, steps)
    ensures After(s, steps).row.completed <= Potential(s)
    decreases |steps|
  {
    if steps != [] {
      StepKeepsAll(s, steps[0]);
      PotentialStep(s, steps[0]);
      FreshRunBound(Do(s, steps[0]), steps[1..]);
    }
  }

  lemma {:induction false} RunKeepsKnown(s: State, steps: seq<Step>)
    requires Inv(s) && Known(s) && Run(s, steps)
    ensures Known(After(s, steps))
    decreases |steps|
  {
    if steps != [] {
      StepKeepsAll(s, steps[0]);
      RunKeepsKnown(Do(s, steps[0]), steps[1..]);
    }
  }

  // ----- Reaching the bound -----

  /** The steps of a fan-out and of workers when all goes well. */
  predicate Smooth(s: State, step: Step) {
    match step
    case Claim(_, _) => true
    case PublishChunk(_) => true
    case StartReturns(_) => true
    case RollBack(_, applied, _) => applied
    case Deliver(_, sub) => sub !in s.delivered && sub !in s.dead
    case Persist(_, _, written) => written
    case Advance(_, _) => true
    case _ => false
  }

  ghost predicate SmoothRun(s: State, steps: seq<Step>)
    ensures SmoothRun(s, steps) ==> Run(s, steps)
    decreases |steps|
  {
    steps == [] || (Enabled(s, steps[0]) && Smooth(s, steps[0]) && SmoothRun(Do(s, steps[0]), steps[1..]))
  }

  predicate NoDeliver(steps: seq<Step>) {
    forall k :: 0 <= k < |steps| ==> !steps[k].Deliver?
  }

  lemma {:induction false} SmoothIsFresh(s: State, steps: seq<Step>)
    requires SmoothRun(s, steps)
    ensures FreshRun(s, steps)
    decreases |steps|
  {
    if steps != [] {
      SmoothIsFresh(Do(s, steps[0]), steps[1..]);
    }
  }

  lemma {:induction false} JoinSmooth(s: State, first: seq<Step>, rest: seq<Step>)
    requires SmoothRun(s, first) && SmoothRun(After(s, first), rest)
    ensures SmoothRun(s, first + rest)
    ensures After(s, first + rest) == After(After(s, first), rest)
    decreases |first|
  {
    if first == [] {
      assert first + rest == rest;
    } else {
      assert (first + rest)[0] == first[0] && (first + rest)[1..] == first[1..] + rest;
      JoinSmooth(Do(s, first[0]), first[1..], rest);
    }
  }

  lemma SmoothStep(s: State, step: Step)
    requires Enabled(s, step) && Smooth(s, step)
    ensures SmoothRun(s, [step]) && After(s, [step]) == Do(s, step)
  {
    assert [step][1..] == [];
    assert SmoothRun(Do(s, step), []);
  }

  /** From s to t one more submission is counted, and nothing else moves that Potential looks at. */
  ghost predicate Worked(s: State, t: State, w: nat) {
    && t.starts == s.starts && t.enqueued == s.enqueued && t.delivered == s.delivered && t.dead == s.dead
    && t.runs == s.runs - {w} && t.row.total == s.row.total && t.row.completed == s.row.completed + 1
    && w in s.runs && t.advanced == s.advanced + {s.runs[w].sub}
    && t.row.completed in t.undecided && t.lost == s.lost
    && t.row.status != Pending && RowInv(t)
  }

  lemma FinishRun(s: State, w: nat) returns (steps: seq<Step>)
    requires RowInv(s) && Known(s) && w in s.runs
    ensures SmoothRun(s, steps) && NoDeliver(steps) && Worked(s, After(s, steps), w)
  {
    if s.runs[w].Running? {
      var persist := Persist(w, ACCEPTED, true);
      SmoothStep(s, persist);
      var t := Do(s, persist);
      RowStep(s, persist);
      SmoothStep(t, Advance(w, 0));
      RowStep(t, Advance(w, 0));
      JoinSmooth(s, [persist], [Advance(w, 0)]);
      steps := [persist] + [Advance(w, 0)];
      assert After(s, steps).runs == s.runs - {w};
    } else {
      SmoothStep(s, Advance(w, 0));
      RowStep(s, Advance(w, 0));
      steps := [Advance(w, 0)];
    }
  }

  /** How much there is to do before nothing is open and nothing is under way. */
  ghost function Work(s: State): nat {
    2 * |Open(s)| + |s.runs.Keys|
  }

  /** From s to t some of the work behind a shut gate was done. */
  ghost predicate Advanced(s: State, t: State) {
    && GateShut(t) && RowInv(t) && Known(t) && t.row.total == s.row.total
    && Potential(t) == Potential(s) && Work(t) < Work(s)
  }

  lemma WorkOff(s: State, w: nat) returns (steps: seq<Step>)
    requires RowInv(s) && Known(s) && GateShut(s) && w in s.runs
    ensures SmoothRun(s, steps) && Advanced(s, After(s, steps))
  {
    steps := FinishRun(s, w);
    var t := After(s, steps);
    KeySizes(s.runs, w, s.runs[w]);
    assert GateShut(t) && Open(t) == Open(s);
  }

  /** From s to t a run took up a submission. */
  ghost predicate TakenUp(s: State, t: State, w: nat, x: nat) {
    && t.row == s.row && t.starts == s.starts && t.enqueued == s.enqueued && t.dead == s.dead
    && t.delivered == s.delivered + {x} && t.runs == s.runs[w := Running(x)] && |t.statuses| == |s.statuses|
  }

  lemma TakeUp(s: State, x: int) returns (steps: seq<Step>)
    requires RowInv(s) && Known(s) && GateShut(s) && x in Open(s)
    ensures SmoothRun(s, steps) && Advanced(s, After(s, steps))
  {
    var w := Above(s.runs.Keys);
    var deliver := Deliver(w, x);
    SmoothStep(s, deliver);
    steps := [deliver];
    assert TakenUp(s, Do(s, deliver), w, x);
    TakenUpAdvances(s, Do(s, deliver), w, x);
  }

  lemma TakenUpAdvances(s: State, t: State, w: nat, x: nat)
    requires RowInv(s) && Known(s) && GateShut(s) && x in Open(s) && w !in s.runs && TakenUp(s, t, w, x)
    ensures Advanced(s, t)
  {
    TakenUpSound(s, t, w, x);
    TakenUpSizes(s, t, w, x);
  }

  lemma TakenUpSound(s: State, t: State, w: nat, x: nat)
    requires RowInv(s) && Known(s) && GateShut(s) && x in Open(s) && TakenUp(s, t, w, x)
    ensures RowInv(t) && Known(t) && GateShut(t)
  {
    assert x in s.enqueued;
  }

  lemma TakenUpSizes(s: State, t: State, w: nat, x: nat)
    requires GateShut(s) && GateShut(t) && x in Open(s) && w !in s.runs && TakenUp(s, t, w, x)
    ensures |Open(t)| == |Open(s)| - 1 && |t.runs.Keys| == |s.runs.Keys| + 1
  {
    KeySizes(s.runs, w, Running(x));
    OneLess(s.enqueued, s.delivered, s.dead, x);
  }

  lemma OneLess(enqueued: set<int>, delivered: set<int>, dead: set<int>, x: int)
    requires x in enqueued - delivered - dead
    ensures |enqueued - (delivered + {x}) - dead| == |enqueued - delivered - dead| - 1
  {
    SplitSize(enqueued - delivered - dead, {x});
    assert enqueued - (delivered + {x}) - dead == enqueued - delivered - dead - {x};
  }

  /** Finishing every run under way and every job not yet delivered. */
  lemma {:induction false} Drain(s: State) returns (steps: seq<Step>)
    requires RowInv(s) && Known(s) && GateShut(s)
    ensures SmoothRun(s, steps) && RowInv(After(s, steps)) && After(s, steps).row.total == s.row.total
    ensures After(s, steps).row.completed == Potential(s)
    decreases Work(s)
  {
    if s.runs.Keys == {} && Open(s) == {} {
      steps := [];
    } else {
      var first;
      if s.runs.Keys != {} {
        var w := Pick(s.runs.Keys);
        first := WorkOff(s, w);
      } else {
        var x := Pick(Open(s));
        first := TakeUp(s, x);
      }
      var rest := Drain(After(s, first));
      JoinSmooth(s, first, rest);
      steps := first + rest;
    }
  }

  /** From s to t the fan-out is over with every job published, and no worker moved. */
  ghost predicate Published(s: State, t: State) {
    && GateShut(t) && RowInv(t) && Known(t) && t.enqueued == Range(0, s.row.total)
    && t.runs == s.runs && t.delivered == s.delivered && t.dead == s.dead
    && t.row.total == s.row.total && t.row.completed == s.row.completed
    && t.advanced == s.advanced && t.lost == s.lost
  }

  lemma ReturnOk(s: State, i: nat)
    requires Inv(s) && Known(s) && i in s.starts && s.starts[i] == Claimed(s.row.total)
    ensures Published(s, Do(s, StartReturns(i)))
  {
    var t := Do(s, StartReturns(i));
    StepKeepsAll(s, StartReturns(i));
    assert HasSucceeded(t.starts, i);
    assert forall j :: j in t.starts ==> !Holds(t.starts, j);
  }

  /** A holder with some jobs published can publish the rest and return. */
  lemma {:induction false} PublishRest(s: State, i: nat) returns (steps: seq<Step>)
    requires Inv(s) && Known(s) && i in s.starts && s.starts[i].Claimed?
    ensures SmoothRun(s, steps) && NoDeliver(steps) && Published(s, After(s, steps))
    decreases s.row.total - s.starts[i].next
  {
    if s.starts[i].next == s.row.total {
      SmoothStep(s, StartReturns(i));
      ReturnOk(s, i);
      steps := [StartReturns(i)];
    } else {
      var publish := PublishChunk(i);
      SmoothStep(s, publish);
      StepKeepsAll(s, publish);
      var rest := PublishRest(Do(s, publish), i);
      JoinSmooth(s, [publish], rest);
      steps := [publish] + rest;
    }
  }

  lemma StartAgain(s: State) returns (steps: seq<Step>)
    requires Inv(s) && Known(s) && s.row.status == Pending
    ensures SmoothRun(s, steps) && NoDeliver(steps) && Published(s, After(s, steps))
  {
    var i := Above(s.starts.Keys);
    var claim := Claim(i, 0);
    SmoothStep(s, claim);
    StepKeepsAll(s, claim);
    var rest := PublishRest(Do(s, claim), i);
    JoinSmooth(s, [claim], rest);
    steps := [claim] + rest;
  }

  lemma RollBackAndStart(s: State, i: nat) returns (steps: seq<Step>)
    requires Inv(s) && Known(s) && s.row.status == Processing && i in s.starts && s.starts[i].FanOutFailed?
    ensures SmoothRun(s, steps) && NoDeliver(steps) && Published(s, After(s, steps))
  {
    var undo := RollBack(i, true, 0);
    SmoothStep(s, undo);
    StepKeepsAll(s, undo);
    var rest := StartAgain(Do(s, undo));
    JoinSmooth(s, [undo], rest);
    steps := [undo] + rest;
  }

  /** An open gate of an unfinished batch can be brought to publish everything. */
  lemma FinishFanOut(s: State) returns (steps: seq<Step>)
    requires Inv(s) && Known(s) && s.row.status != Completed && !GateShut(s)
    ensures SmoothRun(s, steps) && NoDeliver(steps) && Published(s, After(s, steps))
  {
    if s.row.status == Pending {
      steps := StartAgain(s);
    } else {
      var i :| i in s.starts && (s.starts[i].Claimed? || s.starts[i].FanOutFailed?);
      if s.starts[i].Claimed? {
        steps := PublishRest(s, i);
      } else {
        steps := RollBackAndStart(s, i);
      }
    }
  }

  /** From every state that satisfies the invariants the potential can be reached without luck. */
  lemma ReachPotential(s: State) returns (steps: seq<Step>)
    requires Inv(s) && Known(s) && Potential(s) >= s.row.total
    ensures SmoothRun(s, steps) && After(s, steps).row.status == Completed
  {
    if s.row.status == Completed {
      steps := [];
    } else if GateShut(s) {
      steps := Drain(s);
    } else {
      var fanOut := FinishFanOut(s);
      var t := After(s, fanOut);
      assert Open(t) == Open(s);
      var drain := Drain(t);
      JoinSmooth(s, fanOut, drain);
      steps := fanOut + drain;
    }
  }

  // ----- Theorem -----

  /** After any steps, a batch can still complete without a second delivery if and only if the counts
      it has, the runs under way and the submissions still open to a first delivery add up to its
      total.  A gate is shut by a Start that succeeded, but just as well by one that died, by a claim
      that applied although its answer was lost, by a roll-back that failed, and by an increment that
      lifted a rolled-back row out of pending. */
  lemma CompletesExactlyWhen(n: nat, hook: Option<string>, now: int, steps: seq<Step>)
    requires n >= 1 && Run(Initial(n, hook, now), steps)
    ensures var s := After(Initial(n, hook, now), steps);
      (exists more: seq<Step> :: FreshRun(s, more) && After(s, more).row.status == Completed) <==> Potential(s) >= n
  {
    InitialInv(n, hook, now);
    RunKeepsInv(Initial(n, hook, now), steps);
    RunKeepsKnown(Initial(n, hook, now), steps);
    var s := After(Initial(n, hook, now), steps);
    if Potential(s) >= n {
      var more := ReachPotential(s);
      SmoothIsFresh(s, more);
    }
    forall more: seq<Step> | FreshRun(s, more) && After(s, more).row.status == Completed
      ensures Potential(s) >= n
    {
      FreshRunBound(s, more);
      RunKeepsInv(s, more);
    }
  }
}

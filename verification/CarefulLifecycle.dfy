/** The batch lifecycle when nothing goes wrong around it.  A failed fan-out enqueues nothing; Start
    calls do not die, their claims apply exactly when they are answered, and roll-backs succeed; a
    job is delivered once, its run does not die, writes its result and counts it.  Jobs may still be
    dead-lettered before they run, finishers may die before they launch, and any number of Start
    calls, runs and dispatchers still interleave. */
module CarefulLifecycle {
  import opened Common
  import opened BatchRows
  import opened Publishing
  import opened BatchLifecycle
  import opened SingleDelivery
  import Completing

  predicate Careful(s: State, step: Step)
    requires Enabled(s, step)
  {
    match step
    case ClaimErrs(_, applied, _) => !applied
    case PublishFails(i, accepted) => s.starts[i].next == 0 && accepted == {}
    case RollBack(_, applied, _) => applied
    case StartDies(_) => false
    case Deliver(_, sub) => sub !in s.delivered && sub !in s.dead
    case DeliverFails(sub, _) => sub !in s.delivered && sub !in s.dead
    case Persist(_, _, written) => written
    case AdvanceFails(_) => false
    case RunDies(_) => false
    case DeadLetter(sub, _) => sub !in s.delivered && sub !in s.dead
    case _ => true
  }

  ghost predicate CarefulRun(s: State, steps: seq<Step>)
    ensures CarefulRun(s, steps) ==> Run(s, steps)
    decreases |steps|
  {
    steps == [] || (Enabled(s, steps[0]) && Careful(s, steps[0]) && CarefulRun(Do(s, steps[0]), steps[1..]))
  }

  /** Jobs of the batch that are queued or running. */
  function Outstanding(s: State): set<int> {
    s.enqueued - s.advanced - s.dead
  }

  /** Each delivered job is either counted or worked on, and was published before. */
  ghost predicate Jobs(total: nat, runs: map<nat, RunPhase>, enqueued: set<int>, delivered: set<int>,
                       advanced: set<int>, dead: set<int>) {
    && advanced <= delivered <= enqueued <= Range(0, total)
    && dead <= enqueued && dead !! delivered
    && (forall w :: w in runs ==> runs[w].sub in delivered)
    && (forall x :: x in delivered ==> x in advanced || exists w :: w in runs && runs[w].sub == x)
  }

  ghost predicate JobInv(s: State) {
    Jobs(s.row.total, s.runs, s.enqueued, s.delivered, s.advanced, s.dead)
  }

  /** How many jobs a Start call in this phase has published. */
  function Front(phase: StartPhase): nat {
    if phase.Claimed? then phase.next else 0
  }

  /** What is enqueued follows from where the Start calls are. */
  ghost predicate FanOut(total: nat, pending: bool, starts: map<nat, StartPhase>, enqueued: set<int>) {
    && (pending ==> enqueued == Range(0, 0))
    && (forall i :: Holds(starts, i) ==> enqueued == Range(0, Front(starts[i])))
    && (pending || enqueued == Range(0, total) || exists i :: Holds(starts, i))
  }

  ghost predicate FanOutInv(s: State) {
    FanOut(s.row.total, s.row.status == Pending, s.starts, s.enqueued)
  }

  ghost predicate CarefulInv(s: State) {
    Inv(s) && CountInv(s) && JobInv(s) && FanOutInv(s)
  }

  lemma JobsDeliver(total: nat, runs: map<nat, RunPhase>, enqueued: set<int>, delivered: set<int>,
                    advanced: set<int>, dead: set<int>, w: nat, sub: nat)
    requires Jobs(total, runs, enqueued, delivered, advanced, dead)
    requires w !in runs && sub in enqueued - delivered - dead
    ensures Jobs(total, runs[w := Running(sub)], enqueued, delivered + {sub}, advanced, dead)
  {
    var after := runs[w := Running(sub)];
    forall x | x in delivered + {sub}
      ensures x in advanced || exists u :: u in after && after[u].sub == x
    {
      if x == sub {
        assert after[w].sub == x;
      } else if x !in advanced {
        var u :| u in runs && runs[u].sub == x;
        assert after[u].sub == x;
      }
    }
  }

  lemma JobsPersist(total: nat, runs: map<nat, RunPhase>, enqueued: set<int>, delivered: set<int>,
                    advanced: set<int>, dead: set<int>, w: nat)
    requires Jobs(total, runs, enqueued, delivered, advanced, dead) && w in runs
    ensures Jobs(total, runs[w := Persisted(runs[w].sub)], enqueued, delivered, advanced, dead)
  {
    var after := runs[w := Persisted(runs[w].sub)];
    forall x | x in delivered
      ensures x in advanced || exists u :: u in after && after[u].sub == x
    {
      if x !in advanced {
        var u :| u in runs && runs[u].sub == x;
        assert after[u].sub == x;
      }
    }
  }

  lemma JobsAdvance(total: nat, runs: map<nat, RunPhase>, enqueued: set<int>, delivered: set<int>,
                    advanced: set<int>, dead: set<int>, w: nat)
    requires Jobs(total, runs, enqueued, delivered, advanced, dead) && w in runs
    ensures Jobs(total, runs - {w}, enqueued, delivered, advanced + {runs[w].sub}, dead)
  {
    var after := runs - {w};
    forall x | x in delivered
      ensures x in advanced + {runs[w].sub} || exists u :: u in after && after[u].sub == x
    {
      if x !in advanced && x != runs[w].sub {
        var u :| u in runs && runs[u].sub == x;
        assert u in after && after[u].sub == x;
      }
    }
  }

  lemma JobsEnqueue(total: nat, runs: map<nat, RunPhase>, enqueued: set<int>, delivered: set<int>,
                    advanced: set<int>, dead: set<int>, more: set<int>)
    requires Jobs(total, runs, enqueued, delivered, advanced, dead) && more <= Range(0, total)
    ensures Jobs(total, runs, enqueued + more, delivered, advanced, dead)
  {
  }

  lemma JobsDie(total: nat, runs: map<nat, RunPhase>, enqueued: set<int>, delivered: set<int>,
                advanced: set<int>, dead: set<int>, sub: int)
    requires Jobs(total, runs, enqueued, delivered, advanced, dead) && sub in enqueued - delivered
    ensures Jobs(total, runs, enqueued, delivered, advanced, dead + {sub})
  {
  }

  lemma JobStep(s: State, step: Step)
    requires RowInv(s) && GateInv(s) && JobInv(s) && Enabled(s, step) && Careful(s, step)
    ensures JobInv(Do(s, step))
  {
    var n := s.row.total;
    match step
    case Deliver(w, sub) => JobsDeliver(n, s.runs, s.enqueued, s.delivered, s.advanced, s.dead, w, sub);
    case Persist(w, _, _) => JobsPersist(n, s.runs, s.enqueued, s.delivered, s.advanced, s.dead, w);
    case Advance(w, _) => JobsAdvance(n, s.runs, s.enqueued, s.delivered, s.advanced, s.dead, w);
    case DeadLetter(sub, _) => JobsDie(n, s.runs, s.enqueued, s.delivered, s.advanced, s.dead, sub);
    case PublishChunk(i) =>
      var next := s.starts[i].next;
      JobsEnqueue(n, s.runs, s.enqueued, s.delivered, s.advanced, s.dead, Range(next, ChunkEnd(next, n)));
    case PublishFails(i, accepted) => JobsEnqueue(n, s.runs, s.enqueued, s.delivered, s.advanced, s.dead, accepted);
    case _ =>
  }

  /** In a careful run no submission is ever delivered a second time. */
  lemma CarefulIsSingle(s: State, step: Step)
    requires JobInv(s) && Enabled(s, step) && Careful(s, step)
    ensures Single(s, step)
  {
  }

  /** The holder of the batch moves on to phase, or a first holder enters. */
  lemma FanOutMoves(total: nat, starts: map<nat, StartPhase>, i: nat, phase: StartPhase, enqueued: set<int>)
    requires forall j :: Holds(starts, j) ==> j == i
    requires phase.Claimed? || phase.FanOutFailed?
    requires enqueued == Range(0, Front(phase))
    ensures FanOut(total, false, starts[i := phase], enqueued)
  {
    var after := starts[i := phase];
    assert Holds(after, i);
    assert forall j {:trigger Holds(after, j)} :: Holds(after, j) ==> j == i || Holds(starts, j);
  }

  /** The holder of the batch leaves: rolled back with nothing enqueued, or with everything. */
  lemma FanOutLeaves(total: nat, starts: map<nat, StartPhase>, i: nat, r: StartResult, enqueued: set<int>,
                     pending: bool)
    requires forall j :: Holds(starts, j) ==> j == i
    requires enqueued == if pending then Range(0, 0) else Range(0, total)
    ensures FanOut(total, pending, starts[i := Returned(r)], enqueued)
  {
    var after := starts[i := Returned(r)];
    assert forall j {:trigger Holds(after, j)} :: Holds(after, j) ==> j != i && Holds(starts, j);
  }

  /** A Start call that does not get in changes nothing. */
  lemma FanOutRefuses(total: nat, pending: bool, starts: map<nat, StartPhase>, enqueued: set<int>, i: nat,
                      r: StartResult)
    requires FanOut(total, pending, starts, enqueued) && i !in starts
    ensures FanOut(total, pending, starts[i := Returned(r)], enqueued)
  {
    var after := starts[i := Returned(r)];
    if exists j :: Holds(starts, j) {
      var j :| Holds(starts, j);
      assert Holds(after, j);
    }
  }

  lemma NoOtherHolder(s: State, i: nat)
    requires GateInv(s) && (Holds(s.starts, i) || s.row.status == Pending)
    ensures forall j :: Holds(s.starts, j) ==> j == i
  {
  }

  lemma RangeJoin(lo: nat, mid: nat, hi: nat)
    requires lo <= mid <= hi
    ensures Range(lo, mid) + Range(mid, hi) == Range(lo, hi)
  {
  }

  lemma FanOutChunk(s: State, i: nat)
    requires GateInv(s) && FanOutInv(s) && Enabled(s, PublishChunk(i))
    ensures FanOutInv(Do(s, PublishChunk(i)))
  {
    NoOtherHolder(s, i);
    var next := s.starts[i].next;
    var end := ChunkEnd(next, s.row.total);
    assert Holds(s.starts, i) && s.row.status != Pending;
    assert s.enqueued == Range(0, next);
    RangeJoin(0, next, end);
    FanOutMoves(s.row.total, s.starts, i, Claimed(end), s.enqueued + Range(next, end));
  }

  lemma FanOutRollBack(s: State, i: nat, now: int)
    requires RowInv(s) && GateInv(s) && CountInv(s) && JobInv(s) && FanOutInv(s) && Enabled(s, RollBack(i, true, now))
    ensures FanOutInv(Do(s, RollBack(i, true, now)))
  {
    NoOtherHolder(s, i);
    assert Holds(s.starts, i);
    assert s.advanced == {};
    FanOutLeaves(s.row.total, s.starts, i, Error, s.enqueued, true);
  }

  lemma FanOutMoreSteps(s: State, step: Step)
    requires GateInv(s) && FanOutInv(s) && Enabled(s, step) && Careful(s, step)
    requires step.PublishFails? || step.StartReturns? || step.ListFails?
    ensures FanOutInv(Do(s, step))
  {
    var i, n := step.i, s.row.total;
    NoOtherHolder(s, i);
    assert Holds(s.starts, i);
    match step
    case PublishFails(_, accepted) =>
      assert s.enqueued + accepted == Range(0, 0);
      FanOutMoves(n, s.starts, i, FanOutFailed, s.enqueued + accepted);
    case ListFails(_) => FanOutMoves(n, s.starts, i, FanOutFailed, s.enqueued);
    case StartReturns(_) => FanOutLeaves(n, s.starts, i, Ok, s.enqueued, false);
  }

  lemma FanOutStep(s: State, step: Step)
    requires RowInv(s) && GateInv(s) && CountInv(s) && JobInv(s) && FanOutInv(s) && Enabled(s, step) && Careful(s, step)
    ensures FanOutInv(Do(s, step))
  {
    match step
    case Claim(i, now) =>
      if s.row.status == Pending {
        NoOtherHolder(s, i);
        FanOutMoves(s.row.total, s.starts, i, Claimed(0), s.enqueued);
      } else {
        FanOutRefuses(s.row.total, false, s.starts, s.enqueued, i, NotPending);
      }
    case ClaimErrs(i, applied, now) =>
      FanOutRefuses(s.row.total, s.row.status == Pending, s.starts, s.enqueued, i, Error);
    case ListFails(i) => FanOutMoreSteps(s, step);
    case PublishChunk(i) => FanOutChunk(s, i);
    case PublishFails(i, accepted) => FanOutMoreSteps(s, step);
    case StartReturns(i) => FanOutMoreSteps(s, step);
    case RollBack(i, applied, now) => FanOutRollBack(s, i, now);
    case Advance(w, now) =>
      assert s.runs[w].sub in s.enqueued;
    case _ =>
  }

  lemma {:induction false} CarefulRunKeepsInv(s: State, steps: seq<Step>)
    requires CarefulInv(s) && CarefulRun(s, steps)
    ensures CarefulInv(After(s, steps))
    ensures After(s, steps).row.total == s.row.total && After(s, steps).row.webhookId == s.row.webhookId
    decreases |steps|
  {
    if steps != [] {
      CarefulStep(s, steps[0]);
      CarefulRunKeepsInv(Do(s, steps[0]), steps[1..]);
    }
  }

  lemma CarefulStep(s: State, step: Step)
    requires CarefulInv(s) && Enabled(s, step) && Careful(s, step)
    ensures CarefulInv(Do(s, step))
    ensures Do(s, step).row.total == s.row.total && Do(s, step).row.webhookId == s.row.webhookId
  {
    RowStep(s, step);
    GateStep(s, step);
    FireStep(s, step);
    CarefulIsSingle(s, step);
    CountStep(s, step);
    JobStep(s, step);
    FanOutStep(s, step);
  }

  lemma CarefulReach(n: nat, hook: Option<string>, now: int, steps: seq<Step>)
    requires n >= 1 && CarefulRun(Initial(n, hook, now), steps)
    ensures CarefulInv(After(Initial(n, hook, now), steps))
    ensures After(Initial(n, hook, now), steps).row.total == n
  {
    InitialInv(n, hook, now);
    CarefulRunKeepsInv(Initial(n, hook, now), steps);
  }

  // ----- Theorems over all careful runs -----

  /** Pending means untouched; processing with no Start in progress means that every submission is
      counted, outstanding or dead-lettered, and nothing is counted twice. */
  lemma JobConservation(n: nat, hook: Option<string>, now: int, steps: seq<Step>)
    requires n >= 1 && CarefulRun(Initial(n, hook, now), steps)
    ensures var end := After(Initial(n, hook, now), steps);
            && (end.row.status == Pending ==> end.enqueued == {} && end.row.completed == 0)
            && (end.row.status != Pending && (forall i :: !Holder(end, i)) ==>
                  end.row.completed + |Outstanding(end)| + |end.dead| == n)
            && end.row.completed <= n
  {
    CarefulReach(n, hook, now, steps);
    var end := After(Initial(n, hook, now), steps);
    AllCounted(end);
    if end.row.status == Pending {
      assert end.advanced == {};
    } else if forall i :: !Holder(end, i) {
      assert forall i :: !Holds(end.starts, i) by {
        forall i ensures !Holds(end.starts, i) { assert !Holder(end, i); }
      }
      DisjointSizes(Range(0, n), end.advanced, Outstanding(end), end.dead);
    }
  }

  /** When no Start is in progress and nothing is outstanding, the batch is completed if and only
      if no job was dead-lettered, because in a careful run only jobs that never ran are. */
  lemma NoneOutstandingIsCompletedExactlyWhen(n: nat, hook: Option<string>, now: int, steps: seq<Step>)
    requires n >= 1 && CarefulRun(Initial(n, hook, now), steps)
    requires After(Initial(n, hook, now), steps).row.status != Pending
    requires forall i :: !Holder(After(Initial(n, hook, now), steps), i)
    requires Outstanding(After(Initial(n, hook, now), steps)) == {}
    ensures After(Initial(n, hook, now), steps).row.status == Completed
            <==> After(Initial(n, hook, now), steps).dead == {}
  {
    JobConservation(n, hook, now, steps);
    CarefulReach(n, hook, now, steps);
  }

  // ----- No careful run is ever stuck -----

  /** As many runs as submissions they work on. */
  lemma {:induction false} OneRunEach(runs: map<nat, RunPhase>, subs: set<int>)
    requires forall x :: x in subs ==> exists w :: w in runs && runs[w].sub == x
    ensures |subs| <= |runs.Keys|
    decreases |subs|
  {
    if subs != {} {
      var x := Pick(subs);
      var w :| w in runs && runs[w].sub == x;
      var rest := runs - {w};
      forall y | y in subs - {x}
        ensures exists u :: u in rest && rest[u].sub == y
      {
        var u :| u in runs && runs[u].sub == y;
        assert u in rest && rest[u].sub == y;
      }
      OneRunEach(rest, subs - {x});
      assert rest.Keys == runs.Keys - {w};
    }
  }

  lemma CarefulPotential(s: State)
    requires CarefulInv(s) && s.dead == {}
    ensures Completing.Known(s) && Completing.Potential(s) >= s.row.total
  {
    var all := Range(0, s.row.total);
    OneRunEach(s.runs, s.delivered - s.advanced);
    if GateShut(s) {
      assert forall i :: !Holds(s.starts, i);
      assert s.enqueued == all;
    }
    assert Completing.Open(s) == all - s.delivered;
    NestedSizes(s.advanced, s.delivered, all);
  }

  lemma NestedSizes(a: set<int>, b: set<int>, c: set<int>)
    requires a <= b <= c
    ensures |c| == |a| + |b - a| + |c - b|
  {
    SplitSize(c, b);
    SplitSize(b, a);
  }

  lemma {:induction false} SmoothIsCareful(s: State, steps: seq<Step>)
    requires Completing.SmoothRun(s, steps)
    ensures CarefulRun(s, steps)
    decreases |steps|
  {
    if steps != [] {
      SmoothIsCareful(Do(s, steps[0]), steps[1..]);
    }
  }

  lemma {:induction false} JoinCareful(s: State, first: seq<Step>, rest: seq<Step>)
    requires CarefulRun(s, first) && CarefulRun(After(s, first), rest)
    ensures CarefulRun(s, first + rest)
    ensures After(s, first + rest) == After(After(s, first), rest)
    decreases |first|
  {
    if first == [] {
      assert first + rest == rest;
    } else {
      assert (first + rest)[0] == first[0] && (first + rest)[1..] == first[1..] + rest;
      JoinCareful(Do(s, first[0]), first[1..], rest);
    }
  }

  /** Wherever a careful run without dead letters is interrupted, it can be carried on to completion:
      no batch sticks in pending or processing without a way forward. */
  lemma CanAlwaysComplete(n: nat, hook: Option<string>, now: int, steps: seq<Step>) returns (more: seq<Step>)
    requires n >= 1 && CarefulRun(Initial(n, hook, now), steps)
    requires After(Initial(n, hook, now), steps).dead == {}
    ensures CarefulRun(Initial(n, hook, now), steps + more)
    ensures After(Initial(n, hook, now), steps + more).row.status == Completed
  {
    CarefulReach(n, hook, now, steps);
    var s := After(Initial(n, hook, now), steps);
    CarefulPotential(s);
    more := Completing.ReachPotential(s);
    SmoothIsCareful(s, more);
    JoinCareful(Initial(n, hook, now), steps, more);
  }
}

/** The SQS transport: what becomes of a published job message, and what the consumer and the
    dead-letter drainer do with one delivery of it. */
module SqsQueue {
  import opened Common

  /** The token in a message body; None for a missing or malformed body. */
  type Body = Option<string>

  predicate Unparseable(b: Body) {
    b.None? || b.value == ""
  }

  datatype HandlerOutcome = Handled | PermanentFailure | RetriableFailure

  datatype Verdict = Undecided | Delete | BackOff | Leave

  /** What Consumer.process decides about a delivery. */
  function Decision(b: Body, loaded: bool, outcome: HandlerOutcome): Verdict {
    if Unparseable(b) then Delete
    else if !loaded then BackOff
    else if outcome == RetriableFailure then BackOff
    else Delete
  }

  /** How recording a dead-lettered failure ends; without a database the recorder claims success. */
  datatype Record = Written | WriteFails | NotConnected

  /** What DLQDrainer.handle decides about a delivery. */
  function DrainDecision(b: Body, record: Record): Verdict {
    if Unparseable(b) || record != WriteFails then Delete else Leave
  }

  // ----- One delivery -----

  /** A queue: every message in it, with the seconds until it becomes visible. */
  class Queue {
    var delays: map<nat, nat>

    constructor ()
      ensures delays == map[]
    {
      delays := map[];
    }

    /** Unlike a call that fails, one with a handle of a message that is gone changes nothing but
        succeeds. */
    method DeleteMessage(m: nat, ok: bool)
      modifies this
      ensures delays == if ok then old(delays) - {m} else old(delays)
    {
      if ok {
        delays := delays - {m};
      }
    }

    method ChangeMessageVisibility(m: nat, delay: nat, ok: bool)
      modifies this
      ensures delays == if ok && m in old(delays) then old(delays)[m := delay] else old(delays)
    {
      if ok && m in delays {
        delays := delays[m := delay];
      }
    }
  }

  /** The ApproximateReceiveCount of a message, 1 when it is missing or not a number. */
  function ReceiveCount(attribute: Option<int>): int {
    if attribute.Some? then attribute.value else 1
  }

  function NakBackoff(deliveries: int): (delay: nat)
    ensures delay in {10, 30, 60} && (delay == 30 <==> deliveries == 2) && (delay == 60 <==> deliveries > 2)
  {
    if deliveries <= 1 then 10 else if deliveries == 2 then 30 else 60
  }

  method Process(queue: Queue, m: nat, body: Body, attribute: Option<int>, loaded: bool, outcome: HandlerOutcome,
                 ok: bool)
    modifies queue
    ensures queue.delays - {m} == old(queue.delays) - {m} && (!ok ==> queue.delays == old(queue.delays))
    ensures m in queue.delays <==>
              && m in old(queue.delays)
              && !(ok && (body.None? || body.value == "" || (loaded && outcome != RetriableFailure)))
    ensures ok && m in queue.delays ==>
              queue.delays[m]
              == if attribute.None? || attribute.value <= 1 then 10 else if attribute.value == 2 then 30 else 60
    ensures ok && Decision(body, loaded, outcome) == Delete ==> queue.delays == old(queue.delays) - {m}
    ensures ok && Decision(body, loaded, outcome) == BackOff ==>
              queue.delays == if m in old(queue.delays) then old(queue.delays)[m := NakBackoff(ReceiveCount(attribute))]
                              else old(queue.delays)
  {
    if body.None? || body.value == "" {
      queue.DeleteMessage(m, ok);
      return;
    }
    if !loaded {
      queue.ChangeMessageVisibility(m, NakBackoff(ReceiveCount(attribute)), ok);
      return;
    }
    match outcome {
      case Handled => queue.DeleteMessage(m, ok);
      case PermanentFailure => queue.DeleteMessage(m, ok);
      case RetriableFailure => queue.ChangeMessageVisibility(m, NakBackoff(ReceiveCount(attribute)), ok);
    }
  }

  /** StartConsumer.process: a START event of a batch goes only when its body is malformed or its
      handler, for which an already started batch is a success, returned without error. */
  method ProcessStart(queue: Queue, m: nat, batchId: Body, attribute: Option<int>, handled: bool, ok: bool)
    modifies queue
    ensures queue.delays - {m} == old(queue.delays) - {m} && (!ok ==> queue.delays == old(queue.delays))
    ensures m in queue.delays <==>
              m in old(queue.delays) && !(ok && (batchId.None? || batchId.value == "" || handled))
    ensures ok && m in queue.delays ==>
              queue.delays[m]
              == if attribute.None? || attribute.value <= 1 then 10 else if attribute.value == 2 then 30 else 60
  {
    if batchId.None? || batchId.value == "" {
      queue.DeleteMessage(m, ok);
      return;
    }
    if !handled {
      queue.ChangeMessageVisibility(m, NakBackoff(ReceiveCount(attribute)), ok);
      return;
    }
    queue.DeleteMessage(m, ok);
  }

  method Handle(dlq: Queue, m: nat, body: Body, record: Record, ok: bool) returns (recorded: bool)
    modifies dlq
    ensures dlq.delays == if ok && DrainDecision(body, record) == Delete then old(dlq.delays) - {m} else old(dlq.delays)
    ensures dlq.delays == if ok && (body.None? || body.value == "" || record != WriteFails)
            then old(dlq.delays) - {m} else old(dlq.delays)
    ensures recorded <==> body.Some? && body.value != "" && record == Written
  {
    if body.None? || body.value == "" {
      dlq.DeleteMessage(m, ok);
      return false;
    }
    if record == WriteFails {
      return false;
    }
    dlq.DeleteMessage(m, ok);
    recorded := record == Written;
  }

  // ----- All runs -----

  datatype Delivery = Delivery(message: nat, verdict: Verdict)

  /** The places of the messages, the deliveries under way, and what happened so far. */
  datatype State = State(
    connected: bool,                 // the failure recorder has a database
    bodies: map<nat, Body>,          // every message published so far
    visible: set<nat>,
    flying: set<nat>,                // received, and hidden until the visibility timeout expires
    deleted: set<nat>,
    parked: set<nat>,                // visible in the dead-letter queue
    parkedFlying: set<nat>,
    drained: set<nat>,               // deleted from the dead-letter queue
    runs: map<nat, Delivery>,        // deliveries to consumers
    drains: map<nat, Delivery>,      // deliveries to the drainer
    handled: set<nat>,               // jobs whose handler succeeded
    rejected: set<nat>,              // jobs whose handler failed for good
    recorded: set<nat>)              // jobs recorded as dead-lettered

  function Initial(connected: bool): State {
    State(connected, map[], {}, {}, {}, {}, {}, {}, map[], map[], {}, {}, {})
  }

  /** ok says whether the call to SQS goes through. */
  datatype Step =
    | Publish(m: nat, body: Body)
    | Receive(d: nat, m: nat)
    | Abandon(d: nat)                // shutdown before the dispatch, or a crash
    | Expire(m: nat)
    | Decide(d: nat, loaded: bool, outcome: HandlerOutcome)
    | Settle(d: nat, ok: bool)
    | Redrive(m: nat)
    | DrainReceive(d: nat, m: nat)
    | DrainAbandon(d: nat)
    | DrainExpire(m: nat)
    | DrainDecide(d: nat, record: Record)
    | DrainSettle(d: nat, ok: bool)

  function BodyOf(bodies: map<nat, Body>, m: nat): Body {
    if m in bodies then bodies[m] else None
  }

  predicate Enabled(s: State, step: Step) {
    match step
    case Publish(m, _) => m !in s.bodies
    case Receive(d, m) => d !in s.runs && m in s.visible
    case Abandon(d) => d in s.runs
    case Expire(m) => m in s.flying
    case Decide(d, _, _) => d in s.runs && s.runs[d].verdict == Undecided
    case Settle(d, _) => d in s.runs && s.runs[d].verdict != Undecided
    case Redrive(m) => m in s.visible
    case DrainReceive(d, m) => d !in s.drains && m in s.parked
    case DrainAbandon(d) => d in s.drains
    case DrainExpire(m) => m in s.parkedFlying
    case DrainDecide(d, record) =>
      && d in s.drains && s.drains[d].verdict == Undecided
      && (record == NotConnected <==> !s.connected)
    case DrainSettle(d, _) => d in s.drains && s.drains[d].verdict != Undecided
  }

  function Do(s: State, step: Step): State
    requires Enabled(s, step)
  {
    match step
    case Publish(m, body) => s.(bodies := s.bodies[m := body], visible := s.visible + {m})
    case Receive(d, m) =>
      s.(visible := s.visible - {m}, flying := s.flying + {m}, runs := s.runs[d := Delivery(m, Undecided)])
    case Abandon(d) => s.(runs := s.runs - {d})
    case Expire(m) => s.(flying := s.flying - {m}, visible := s.visible + {m})
    case Decide(d, loaded, outcome) =>
      var m := s.runs[d].message;
      var reached := !Unparseable(BodyOf(s.bodies, m)) && loaded;
      s.(runs := s.runs[d := Delivery(m, Decision(BodyOf(s.bodies, m), loaded, outcome))],
         handled := if reached && outcome == Handled then s.handled + {m} else s.handled,
         rejected := if reached && outcome == PermanentFailure then s.rejected + {m} else s.rejected)
    case Settle(d, ok) =>
      var m := s.runs[d].message;
      if ok && s.runs[d].verdict == Delete && m in s.visible + s.flying then
        s.(visible := s.visible - {m}, flying := s.flying - {m}, deleted := s.deleted + {m}, runs := s.runs - {d})
      else s.(runs := s.runs - {d})
    case Redrive(m) => s.(visible := s.visible - {m}, parked := s.parked + {m})
    case DrainReceive(d, m) =>
      s.(parked := s.parked - {m}, parkedFlying := s.parkedFlying + {m},
         drains := s.drains[d := Delivery(m, Undecided)])
    case DrainAbandon(d) => s.(drains := s.drains - {d})
    case DrainExpire(m) => s.(parkedFlying := s.parkedFlying - {m}, parked := s.parked + {m})
    case DrainDecide(d, record) =>
      var m := s.drains[d].message;
      s.(drains := s.drains[d := Delivery(m, DrainDecision(BodyOf(s.bodies, m), record))],
         recorded := if !Unparseable(BodyOf(s.bodies, m)) && record == Written then s.recorded + {m} else s.recorded)
    case DrainSettle(d, ok) =>
      var m := s.drains[d].message;
      if ok && s.drains[d].verdict == Delete && m in s.parked + s.parkedFlying then
        s.(parked := s.parked - {m}, parkedFlying := s.parkedFlying - {m}, drained := s.drained + {m},
           drains := s.drains - {d})
      else s.(drains := s.drains - {d})
  }

  ghost predicate Run(s: State, steps: seq<Step>)
    decreases |steps|
  {
    steps == [] || (Enabled(s, steps[0]) && Run(Do(s, steps[0]), steps[1..]))
  }

  ghost function After(s: State, steps: seq<Step>): State
    requires Run(s, steps)
    decreases |steps|
  {
    if steps == [] then s else After(Do(s, steps[0]), steps[1..])
  }

  function One(m: nat, place: set<nat>): nat {
    if m in place then 1 else 0
  }

  /** In how many places a message is. */
  function Places(s: State, m: nat): nat {
    One(m, s.visible) + One(m, s.flying) + One(m, s.deleted)
    + One(m, s.parked) + One(m, s.parkedFlying) + One(m, s.drained)
  }

  ghost predicate Conserved(s: State) {
    forall m :: Places(s, m) == if m in s.bodies then 1 else 0
  }

  /** A reason to take the message out of its queue for good. */
  predicate Done(bodies: map<nat, Body>, handled: set<nat>, rejected: set<nat>, m: nat) {
    m in bodies && (Unparseable(bodies[m]) || m in handled || m in rejected)
  }

  /** A reason to take the message out of the dead-letter queue. */
  predicate Reported(connected: bool, bodies: map<nat, Body>, recorded: set<nat>, m: nat) {
    m in bodies && (Unparseable(bodies[m]) || m in recorded || !connected)
  }

  ghost predicate JobsJustified(bodies: map<nat, Body>, deleted: set<nat>, runs: map<nat, Delivery>,
                                handled: set<nat>, rejected: set<nat>) {
    && (forall m :: m in deleted ==> Done(bodies, handled, rejected, m))
    && (forall d :: d in runs ==> runs[d].message in bodies)
    && (forall d :: d in runs && runs[d].verdict == Delete ==> Done(bodies, handled, rejected, runs[d].message))
  }

  ghost predicate DrainsJustified(connected: bool, bodies: map<nat, Body>, drained: set<nat>,
                                  drains: map<nat, Delivery>, recorded: set<nat>) {
    && (forall m :: m in drained ==> Reported(connected, bodies, recorded, m))
    && (forall d :: d in drains ==> drains[d].message in bodies)
    && (forall d :: d in drains && drains[d].verdict == Delete ==>
        Reported(connected, bodies, recorded, drains[d].message))
  }

  ghost predicate Justified(s: State) {
    && JobsJustified(s.bodies, s.deleted, s.runs, s.handled, s.rejected)
    && DrainsJustified(s.connected, s.bodies, s.drained, s.drains, s.recorded)
  }

  lemma InBodies(s: State, m: nat)
    requires Conserved(s) && m in s.visible + s.flying + s.parked + s.parkedFlying
    ensures m in s.bodies
  {
    assert Places(s, m) > 0;
  }

  lemma StepConserves(s: State, step: Step)
    requires Enabled(s, step) && Conserved(s)
    ensures Conserved(Do(s, step))
  {
    var t := Do(s, step);
    forall m
      ensures Places(t, m) == if m in t.bodies then 1 else 0
    {
      assert Places(s, m) == if m in s.bodies then 1 else 0;
    }
  }

  lemma StepJustifiesJobs(s: State, step: Step)
    requires Enabled(s, step) && Conserved(s) && Justified(s)
    ensures var t := Do(s, step); JobsJustified(t.bodies, t.deleted, t.runs, t.handled, t.rejected)
  {
    match step
    case Receive(_, m) => InBodies(s, m);
    case _ =>
  }

  lemma StepJustifiesDrains(s: State, step: Step)
    requires Enabled(s, step) && Conserved(s) && Justified(s)
    ensures var t := Do(s, step); DrainsJustified(t.connected, t.bodies, t.drained, t.drains, t.recorded)
  {
    match step
    case DrainReceive(_, m) => InBodies(s, m);
    case _ =>
  }

  lemma {:induction false} RunConserves(s: State, steps: seq<Step>)
    requires Run(s, steps) && Conserved(s) && Justified(s)
    ensures Conserved(After(s, steps)) && Justified(After(s, steps))
    ensures After(s, steps).connected == s.connected
    decreases |steps|
  {
    if steps != [] {
      StepConserves(s, steps[0]);
      StepJustifiesJobs(s, steps[0]);
      StepJustifiesDrains(s, steps[0]);
      RunConserves(Do(s, steps[0]), steps[1..]);
    }
  }

  /** Conservation: after any steps every published message is in exactly one place. */
  lemma Conservation(connected: bool, steps: seq<Step>)
    requires Run(Initial(connected), steps)
    ensures var s := After(Initial(connected), steps);
      forall m :: Places(s, m) == if m in s.bodies then 1 else 0
  {
    RunConserves(Initial(connected), steps);
  }

  /** A message is deleted only when its body was malformed, its handler succeeded or its handler
      failed for good; it leaves the dead-letter queue only when its body was malformed or, given a
      database, its failure was recorded. */
  lemma DeletedForAReason(connected: bool, steps: seq<Step>, m: nat)
    requires Run(Initial(connected), steps)
    ensures var s := After(Initial(connected), steps);
      && (m in s.deleted ==> Unparseable(BodyOf(s.bodies, m)) || m in s.handled || m in s.rejected)
      && (m in s.drained && connected ==> Unparseable(BodyOf(s.bodies, m)) || m in s.recorded)
  {
    RunConserves(Initial(connected), steps);
  }

  /** Nothing is lost: a well-formed message that is in no queue any more was handled, was rejected
      for good, or was taken from the dead-letter queue; the latter, given a database, only after
      its failure was recorded. */
  lemma NoJobLost(connected: bool, steps: seq<Step>, m: nat)
    requires Run(Initial(connected), steps)
    requires m in After(Initial(connected), steps).bodies && !Unparseable(After(Initial(connected), steps).bodies[m])
    ensures var s := After(Initial(connected), steps);
      || m in s.visible + s.flying + s.parked + s.parkedFlying
      || m in s.handled + s.rejected
      || (m in s.drained && (connected ==> m in s.recorded))
  {
    RunConserves(Initial(connected), steps);
    var s := After(Initial(connected), steps);
    assert Places(s, m) == 1;
  }

  lemma TwoSteps(s: State, a: Step, b: Step)
    requires Enabled(s, a) && Enabled(Do(s, a), b)
    ensures Run(s, [a, b]) && After(s, [a, b]) == Do(Do(s, a), b)
  {
    assert [a, b][1..] == [b];
    assert Run(Do(s, a), [b]) && After(Do(s, a), [b]) == Do(Do(s, a), b) by {
      assert Run(Do(Do(s, a), b), []);
    }
  }

  /** What becomes of a delivery: from any point of any run, with its message visible or in flight,
      deciding and settling it deletes the message if and only if the call goes through and its body
      is malformed, or the job could be loaded and its handler asks for no retry; otherwise no message
      moves.  The job counts
      as handled or as rejected exactly by the outcome of a handler that was reached. */
  lemma SettledExactlyWhen(connected: bool, steps: seq<Step>, d: nat, loaded: bool, outcome: HandlerOutcome,
                           ok: bool)
    requires Run(Initial(connected), steps)
    requires var s := After(Initial(connected), steps);
      d in s.runs && s.runs[d].verdict == Undecided && s.runs[d].message in s.visible + s.flying
    ensures var s, rest := After(Initial(connected), steps), [Decide(d, loaded, outcome), Settle(d, ok)];
      && Run(s, rest) && s.runs[d].message in s.bodies
      && var m, t := s.runs[d].message, After(s, rest);
         var wellFormed := s.bodies[m].Some? && s.bodies[m].value != "";
         && (m in t.deleted <==> ok && (!wellFormed || (loaded && outcome != RetriableFailure)))
         && (m in t.deleted || (t.visible == s.visible && t.flying == s.flying && t.deleted == s.deleted))
         && t.handled == (if wellFormed && loaded && outcome == Handled then s.handled + {m} else s.handled)
         && t.rejected
            == (if wellFormed && loaded && outcome == PermanentFailure then s.rejected + {m} else s.rejected)
  {
    RunConserves(Initial(connected), steps);
    var s := After(Initial(connected), steps);
    assert Places(s, s.runs[d].message) <= 1;
    TwoSteps(s, Decide(d, loaded, outcome), Settle(d, ok));
  }

  /** The same for the dead-letter queue: the message leaves it if and only if the call goes through
      and its body is malformed or recording did not fail, and the job counts as recorded exactly when
      its failure was written. */
  lemma DrainedExactlyWhen(connected: bool, steps: seq<Step>, d: nat, record: Record, ok: bool)
    requires Run(Initial(connected), steps) && (record == NotConnected <==> !connected)
    requires var s := After(Initial(connected), steps);
      d in s.drains && s.drains[d].verdict == Undecided && s.drains[d].message in s.parked + s.parkedFlying
    ensures var s, rest := After(Initial(connected), steps), [DrainDecide(d, record), DrainSettle(d, ok)];
      && Run(s, rest) && s.drains[d].message in s.bodies
      && var m, t := s.drains[d].message, After(s, rest);
         var wellFormed := s.bodies[m].Some? && s.bodies[m].value != "";
         && (m in t.drained <==> ok && (!wellFormed || record != WriteFails))
         && (m in t.drained || (t.parked == s.parked && t.parkedFlying == s.parkedFlying && t.drained == s.drained))
         && t.recorded == (if wellFormed && record == Written then s.recorded + {m} else s.recorded)
  {
    RunConserves(Initial(connected), steps);
    var s := After(Initial(connected), steps);
    assert Places(s, s.drains[d].message) <= 1;
    TwoSteps(s, DrainDecide(d, record), DrainSettle(d, ok));
  }

  lemma {:induction false} ExtendQueue(s: State, steps: seq<Step>, t: State, next: Step)
    returns (longer: seq<Step>, u: State)
    requires Run(s, steps) && After(s, steps) == t && Enabled(t, next)
    ensures longer == steps + [next] && u == Do(t, next)
    ensures Run(s, longer) && After(s, longer) == u
    decreases |steps|
  {
    longer, u := steps + [next], Do(t, next);
    if steps == [] {
      assert longer == [next];
      assert Run(Do(s, next), []);
    } else {
      var rest, _ := ExtendQueue(Do(s, steps[0]), steps[1..], t, next);
      assert longer[0] == steps[0] && longer[1..] == rest;
    }
  }

  lemma SettleVisible(s: State, steps: seq<Step>, t: State, m: nat) returns (longer: seq<Step>, u: State)
    requires Run(s, steps) && After(s, steps) == t && m in t.visible
    ensures steps <= longer && Run(s, longer) && After(s, longer) == u && m in u.deleted
  {
    var d := Above(t.runs.Keys);
    longer, u := ExtendQueue(s, steps, t, Receive(d, m));
    longer, u := ExtendQueue(s, longer, u, Decide(d, true, Handled));
    longer, u := ExtendQueue(s, longer, u, Settle(d, true));
  }

  lemma DrainParked(s: State, steps: seq<Step>, t: State, m: nat) returns (longer: seq<Step>, u: State)
    requires Run(s, steps) && After(s, steps) == t && m in t.parked
    ensures steps <= longer && Run(s, longer) && After(s, longer) == u && m in u.drained
  {
    var d := Above(t.drains.Keys);
    longer, u := ExtendQueue(s, steps, t, DrainReceive(d, m));
    longer, u := ExtendQueue(s, longer, u, DrainDecide(d, if t.connected then Written else NotConnected));
    longer, u := ExtendQueue(s, longer, u, DrainSettle(d, true));
  }

  /** No message is ever stuck: after any steps, one that is still in a queue can be taken out of it
      for a reason. */
  lemma NeverStuck(s: State, steps: seq<Step>, m: nat) returns (longer: seq<Step>, u: State)
    requires Run(s, steps)
    requires var t := After(s, steps); m in t.visible + t.flying + t.parked + t.parkedFlying
    ensures steps <= longer && Run(s, longer) && After(s, longer) == u && m in u.deleted + u.drained
  {
    longer, u := steps, After(s, steps);
    if m in u.visible {
      longer, u := SettleVisible(s, longer, u, m);
    } else if m in u.flying {
      longer, u := ExtendQueue(s, longer, u, Expire(m));
      longer, u := SettleVisible(s, longer, u, m);
    } else if m in u.parked {
      longer, u := DrainParked(s, longer, u, m);
    } else {
      longer, u := ExtendQueue(s, longer, u, DrainExpire(m));
      longer, u := DrainParked(s, longer, u, m);
    }
  }

  /** The drainer takes message 0 from the dead-letter queue. */
  lemma Report(s: State, steps: seq<Step>, t: State) returns (longer: seq<Step>, u: State)
    requires Run(s, steps) && After(s, steps) == t && t.parked == {0} && t.drains == map[]
    requires t.bodies == map[0 := Some("token")]
    ensures Run(s, longer) && After(s, longer) == u
    ensures u.drained == t.drained + {0} && u.bodies == t.bodies && u.handled == t.handled
    ensures u.recorded == if t.connected then t.recorded + {0} else t.recorded
  {
    longer, u := ExtendQueue(s, steps, t, DrainReceive(0, 0));
    longer, u := ExtendQueue(s, longer, u, DrainDecide(0, if t.connected then Written else NotConnected));
    longer, u := ExtendQueue(s, longer, u, DrainSettle(0, true));
  }

  /** Without a database the drainer drops what it should report: every well-formed message that
      leaves the dead-letter queue was recorded, in all runs, exactly when there is a database. */
  lemma ReportedExactlyWhenConnected(connected: bool)
    ensures (forall steps, m :: Run(Initial(connected), steps) ==>
              var s := After(Initial(connected), steps);
              m in s.drained && !Unparseable(BodyOf(s.bodies, m)) ==> m in s.recorded) <==> connected
  {
    if connected {
      forall steps, m | Run(Initial(connected), steps)
        ensures var s := After(Initial(connected), steps);
                m in s.drained && !Unparseable(BodyOf(s.bodies, m)) ==> m in s.recorded
      {
        RunConserves(Initial(connected), steps);
      }
    } else {
      var s := Initial(connected);
      var steps, t := ExtendQueue(s, [], s, Publish(0, Some("token")));
      steps, t := ExtendQueue(s, steps, t, Redrive(0));
      steps, t := Report(s, steps, t);
      assert 0 in t.drained && t.recorded == {};
    }
  }

  /** A job can both succeed and be recorded as dead-lettered: its handler outlives the visibility
      timeout, the message is moved to the dead-letter queue, and the delete comes too late. */
  lemma SucceededButRecordedAsFailed() returns (steps: seq<Step>)
    ensures Run(Initial(true), steps)
    ensures var s := After(Initial(true), steps);
            s.bodies == map[0 := Some("token")] && s.handled == {0} && s.recorded == {0} && s.drained == {0}
  {
    var s := Initial(true);
    var t;
    steps, t := ExtendQueue(s, [], s, Publish(0, Some("token")));
    steps, t := ExtendQueue(s, steps, t, Receive(0, 0));
    steps, t := ExtendQueue(s, steps, t, Expire(0));
    steps, t := ExtendQueue(s, steps, t, Redrive(0));
    assert t.parked == {0} && t.visible == t.flying == {} && t.runs == map[0 := Delivery(0, Undecided)];
    steps, t := LateSuccess(s, steps, t);
    steps, t := Report(s, steps, t);
  }

  lemma LateSuccess(s: State, steps: seq<Step>, t: State) returns (longer: seq<Step>, u: State)
    requires Run(s, steps) && After(s, steps) == t && t.visible == t.flying == {}
    requires t.runs == map[0 := Delivery(0, Undecided)] && t.bodies == map[0 := Some("token")]
    ensures Run(s, longer) && After(s, longer) == u
    ensures u == t.(runs := u.runs, handled := t.handled + {0})
  {
    longer, u := ExtendQueue(s, steps, t, Decide(0, true, Handled));
    longer, u := ExtendQueue(s, longer, u, Settle(0, true));
  }

  // ----- When a job can both succeed and be recorded as dead-lettered -----

  /** A delivery of the message is at its handler. */
  ghost predicate UnderWay(runs: map<nat, Delivery>, m: nat) {
    exists d :: d in runs && runs[d] == Delivery(m, Undecided)
  }

  function AtDlq(s: State): set<nat> {
    s.parked + s.parkedFlying + s.drained
  }

  /** The message is out of reach of the consumers, and none of them has handled it. */
  ghost predicate Abandoned(s: State, m: nat) {
    m in AtDlq(s) && m !in s.handled && !UnderWay(s.runs, m)
  }

  lemma StepKeepsAbandoned(s: State, step: Step, m: nat)
    requires Enabled(s, step) && Conserved(s) && Abandoned(s, m)
    ensures Abandoned(Do(s, step), m)
  {
    assert Places(s, m) <= 1;
    assert forall d :: d in s.runs ==> s.runs[d] != Delivery(m, Undecided);
  }

  lemma {:induction false} RunKeepsAbandoned(s: State, steps: seq<Step>, m: nat)
    requires Run(s, steps) && Conserved(s) && Abandoned(s, m)
    ensures Abandoned(After(s, steps), m)
    decreases |steps|
  {
    if steps != [] {
      StepConserves(s, steps[0]);
      StepKeepsAbandoned(s, steps[0], m);
      RunKeepsAbandoned(Do(s, steps[0]), steps[1..], m);
    }
  }

  /** Moving a well-formed message to the dead-letter queue can end with its job both succeeded and
      recorded as dead-lettered if and only if, at that moment, its handler has already succeeded
      (the delete failed or came too late) or a handler is still at work on it. */
  lemma RedriveContradictsExactlyWhen(steps: seq<Step>, m: nat)
    requires Run(Initial(true), steps)
    requires var s := After(Initial(true), steps); m in s.visible && !Unparseable(BodyOf(s.bodies, m))
    ensures var s := After(Initial(true), steps);
      (exists more: seq<Step> :: Run(Do(s, Redrive(m)), more)
         && m in After(Do(s, Redrive(m)), more).handled * After(Do(s, Redrive(m)), more).recorded)
      <==> m in s.handled || UnderWay(s.runs, m)
  {
    RunConserves(Initial(true), steps);
    var s := After(Initial(true), steps);
    var t := Do(s, Redrive(m));
    if m in s.handled || UnderWay(s.runs, m) {
      var more := Contradict(t, m);
    } else {
      StepConserves(s, Redrive(m));
      forall more: seq<Step> | Run(t, more)
        ensures m !in After(t, more).handled
      {
        RunKeepsAbandoned(t, more, m);
      }
    }
  }

  lemma Contradict(t: State, m: nat) returns (more: seq<Step>)
    requires t.connected && m in t.parked && !Unparseable(BodyOf(t.bodies, m))
    requires m in t.handled || UnderWay(t.runs, m)
    ensures Run(t, more) && m in After(t, more).handled * After(t, more).recorded
  {
    var u := t;
    more := [];
    if m !in t.handled {
      var d :| d in t.runs && t.runs[d] == Delivery(m, Undecided);
      more, u := ExtendQueue(t, more, u, Decide(d, true, Handled));
    }
    var d := Above(u.drains.Keys);
    more, u := ExtendQueue(t, more, u, DrainReceive(d, m));
    more, u := ExtendQueue(t, more, u, DrainDecide(d, Written));
  }

  /** Messages are moved to the dead-letter queue only when no handler succeeded or is at work. */
  ghost predicate QuietRun(s: State, steps: seq<Step>)
    ensures QuietRun(s, steps) ==> Run(s, steps)
    decreases |steps|
  {
    steps == [] ||
    (Enabled(s, steps[0]) && (steps[0].Redrive? ==> steps[0].m !in s.handled && !UnderWay(s.runs, steps[0].m))
     && QuietRun(Do(s, steps[0]), steps[1..]))
  }

  /** Whatever is recorded went through the dead-letter queue, and what is there was never handled. */
  ghost predicate Apart(s: State) {
    && (forall m :: m in AtDlq(s) ==> Abandoned(s, m))
    && s.recorded <= AtDlq(s)
    && forall d :: d in s.drains ==> s.drains[d].message in AtDlq(s)
  }

  lemma StepKeepsApart(s: State, step: Step)
    requires Enabled(s, step) && Conserved(s) && Apart(s)
    requires step.Redrive? ==> step.m !in s.handled && !UnderWay(s.runs, step.m)
    ensures Apart(Do(s, step))
  {
    var t := Do(s, step);
    forall m | m in AtDlq(t)
      ensures Abandoned(t, m)
    {
      if m in AtDlq(s) {
        StepKeepsAbandoned(s, step, m);
      }
    }
  }

  lemma {:induction false} RunKeepsApart(s: State, steps: seq<Step>)
    requires QuietRun(s, steps) && Conserved(s) && Apart(s)
    ensures Apart(After(s, steps))
    decreases |steps|
  {
    if steps != [] {
      StepConserves(s, steps[0]);
      StepKeepsApart(s, steps[0]);
      RunKeepsApart(Do(s, steps[0]), steps[1..]);
    }
  }

  /** As long as messages move only then, no job is ever both succeeded and recorded as failed. */
  lemma NeverBoth(connected: bool, steps: seq<Step>)
    requires QuietRun(Initial(connected), steps)
    ensures After(Initial(connected), steps).handled !! After(Initial(connected), steps).recorded
  {
    RunKeepsApart(Initial(connected), steps);
  }
}

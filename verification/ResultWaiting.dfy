/** Waiting for the result of one submission: the cache cell and the done channel of its token,
    shared by a waiter and any number of worker runs on that token.

    A step is one call to Redis, or one message or timer that the waiter receives. */
module ResultWaiting {
  import opened Common
  import opened Statuses

  // ----- State -----

  /** A run between its first write to the cell and its notification. */
  datatype RunPhase = Executing | Stored

  datatype WaitResult = Answer(status: int) | TimedOut | Cancelled

  datatype WaiterPhase =
    | Checking               // before the first look at the cell
    | Subscribing
    | Rechecking             // before the second look
    | Parked                 // in the select loop
    | Reading                // took a notification, about to read the cell
    | PollOnly               // the channel was closed
    | Returned(result: WaitResult)

  datatype PollPhase = NotPolling | Polling | Found(status: int) | GaveUp

  datatype Subscription = Unsent | Sent | Active

  datatype Context = Alive | DeadlinePassed | CancelledByCaller

  datatype State = State(
    cell: Option<int>,            // the cached status
    stored: set<int>,             // every terminal status a run has cached so far
    runs: map<nat, RunPhase>,
    waiter: WaiterPhase,
    poll: PollPhase,
    subscription: Subscription,
    inbox: nat,                   // notifications the waiter has not taken yet
    context: Context,
    missed: bool)                 // the waiter's latest chance to learn of a result passed it by

  predicate Finished(cell: Option<int>) {
    cell.Some? && IsTerminal(cell.value)
  }

  /** Whatever the cell, the runs in progress and the channel are when a caller begins to wait. */
  ghost predicate Initial(s: State) {
    && s.waiter == Checking && s.poll == NotPolling && s.subscription == Unsent && s.inbox == 0
    && s.context == Alive && !s.missed
    && (Finished(s.cell) ==> s.cell.value in s.stored)
    && forall st :: st in s.stored ==> IsTerminal(st)
  }

  // ----- Steps -----

  /** ok says whether the Redis call behind the step went through. */
  datatype Step =
    | RunBegins(run: nat, ok: bool)
    | RunStores(run: nat, status: int, ok: bool)
    | RunPublishes(run: nat, ok: bool)
    | RunDies(run: nat)
    | CellExpires
    | FirstLook(ok: bool)
    | Subscribes
    | SubscriptionActive
    | SecondLook(ok: bool)
    | TakesNotification
    | ReadsCell(ok: bool)
    | ChannelCloses
    | ConnectionDrops
    | Ticks(ok: bool)
    | PollGivesUp
    | TakesPollResult
    | ContextEnds(deadline: bool)
    | GivesUp

  predicate Enabled(s: State, step: Step) {
    match step
    case RunBegins(w, _) => w !in s.runs
    case RunStores(w, status, _) => w in s.runs && s.runs[w] == Executing && IsTerminal(status)
    case RunPublishes(w, _) => w in s.runs && s.runs[w] == Stored
    case RunDies(w) => w in s.runs
    case CellExpires => true
    case FirstLook(_) => s.waiter == Checking
    case Subscribes => s.waiter == Subscribing
    case SubscriptionActive => s.subscription == Sent
    case SecondLook(_) => s.waiter == Rechecking
    case TakesNotification => s.waiter == Parked && s.inbox > 0
    case ReadsCell(_) => s.waiter == Reading
    case ChannelCloses => s.waiter == Parked
    case ConnectionDrops => s.subscription == Active
    case Ticks(_) => s.poll == Polling
    case PollGivesUp => s.poll == Polling && s.context != Alive
    case TakesPollResult => s.waiter in {Parked, PollOnly} && (s.poll.Found? || s.poll == GaveUp)
    case ContextEnds(_) => s.context == Alive
    case GivesUp => s.waiter == Parked && s.context != Alive
  }

  /** The waiter relies on notifications or on the poll. */
  predicate InLoop(w: WaiterPhase) {
    w in {Parked, Reading, PollOnly}
  }

  /** The waiter looks at the cell and returns a terminal answer, or goes on. */
  function Look(s: State, ok: bool, otherwise: WaiterPhase): WaiterPhase {
    if ok && Finished(s.cell) then Returned(Answer(s.cell.value)) else otherwise
  }

  function ContextError(c: Context): WaitResult {
    if c == DeadlinePassed then TimedOut else Cancelled
  }

  function Do(s: State, step: Step): State
    requires Enabled(s, step)
  {
    match step
    case RunBegins(w, ok) =>
      s.(cell := if ok then Some(PROCESSING) else s.cell, runs := s.runs[w := Executing])
    case RunStores(w, status, ok) =>
      if ok then s.(cell := Some(status), stored := s.stored + {status}, runs := s.runs[w := Stored])
      else s.(runs := s.runs[w := Stored])
    case RunPublishes(w, ok) =>
      s.(runs := s.runs - {w}, inbox := if ok && s.subscription == Active then s.inbox + 1 else s.inbox,
         missed := !(ok && s.subscription == Active) && (s.missed || (s.waiter == Parked && s.inbox == 0)))
    case RunDies(w) =>
      s.(runs := s.runs - {w}, missed := s.missed || (s.waiter == Parked && s.inbox == 0 && s.runs[w] == Stored))
    case CellExpires => s.(cell := None)
    case FirstLook(ok) => s.(waiter := Look(s, ok, Subscribing))
    case Subscribes => s.(subscription := Sent, waiter := Rechecking)
    case SubscriptionActive => s.(subscription := Active)
    case SecondLook(ok) =>
      var w := Look(s, ok, Parked);
      s.(waiter := w, poll := if w == Parked then Polling else s.poll,
         missed := !ok && Finished(s.cell) && s.inbox == 0)
    case TakesNotification => s.(inbox := s.inbox - 1, waiter := Reading)
    case ReadsCell(ok) =>
      s.(waiter := Look(s, ok, Parked), missed := !ok && Finished(s.cell) && s.inbox == 0)
    case ChannelCloses => s.(waiter := PollOnly)
    case ConnectionDrops =>
      s.(subscription := Sent, inbox := 0, missed := s.missed || (s.waiter == Parked && s.inbox > 0))
    case Ticks(ok) => s.(poll := if ok && Finished(s.cell) then Found(s.cell.value) else Polling)
    case PollGivesUp => s.(poll := GaveUp)
    case TakesPollResult =>
      s.(waiter := Returned(if s.poll.Found? then Answer(s.poll.status) else ContextError(s.context)))
    case ContextEnds(deadline) => s.(context := if deadline then DeadlinePassed else CancelledByCaller)
    case GivesUp => s.(waiter := Returned(ContextError(s.context)))
  }

  ghost predicate Run(s: State, steps: seq<Step>)
    decreases |steps|
  {
    steps == [] || (Enabled(s, steps[0]) && Run(Do(s, steps[0]), steps[1..]))
  }

  ghost function After(s: State, steps: seq<Step>): State
    requires Run(s, steps)
    decreases |steps|
  {
    if steps == [] then s else After(Do(s, steps[0]), steps[1..])
  }

  // ----- Invariant -----

  /** A run that has written its result has not announced it yet. */
  ghost predicate AnnouncementComes(runs: map<nat, RunPhase>) {
    exists w :: w in runs && runs[w] == Stored
  }

  ghost predicate NoneLost(s: State) {
    && (s.waiter == Parked && !s.missed && Finished(s.cell) ==> s.inbox > 0 || AnnouncementComes(s.runs))
    && (s.waiter == Parked && s.missed ==> s.inbox == 0)
  }

  predicate Subscribed(s: State) {
    && (InLoop(s.waiter) ==> s.poll != NotPolling)
    && (s.poll == GaveUp ==> s.context != Alive)
  }

  /** Terminal answers come from a run. */
  ghost predicate Genuine(s: State) {
    && (forall st :: st in s.stored ==> IsTerminal(st))
    && (Finished(s.cell) ==> s.cell.value in s.stored)
    && (s.poll.Found? ==> s.poll.status in s.stored)
    && (s.waiter.Returned? && s.waiter.result.Answer? ==> s.waiter.result.status in s.stored)
    && (s.waiter.Returned? && !s.waiter.result.Answer? ==>
        s.waiter.result == ContextError(s.context) && s.context != Alive)
  }

  ghost predicate Inv(s: State) {
    NoneLost(s) && Subscribed(s) && Genuine(s)
  }

  lemma StepKeepsNoneLost(s: State, step: Step)
    requires Inv(s) && Enabled(s, step)
    ensures NoneLost(Do(s, step))
  {
    var t := Do(s, step);
    match step
    case RunStores(w, _, _) => assert t.runs[w] == Stored;
    case RunPublishes(w, _) =>
    case RunDies(w) =>
      if s.runs[w] == Executing && AnnouncementComes(s.runs) {
        var u :| u in s.runs && s.runs[u] == Stored;
        assert u in t.runs && t.runs[u] == Stored;
      }
    case RunBegins(w, ok) =>
      if AnnouncementComes(s.runs) {
        var u :| u in s.runs && s.runs[u] == Stored;
        assert u in t.runs && t.runs[u] == Stored;
      }
    case _ =>
  }

  lemma {:induction false} RunKeepsInv(s: State, steps: seq<Step>)
    requires Inv(s) && Run(s, steps)
    ensures Inv(After(s, steps))
    decreases |steps|
  {
    if steps != [] {
      StepKeepsNoneLost(s, steps[0]);
      RunKeepsInv(Do(s, steps[0]), steps[1..]);
    }
  }

  // ----- Theorems -----

  /** No lost wake-up: after any steps, when the waiter is parked in its loop, the cell is terminal
      and no run on the token is about to announce a result, a notification is pending if and only if
      the waiter did not miss its latest chance: since the last announcement that reached it, none
      was made past an empty inbox (the call failed, the run died before it, the subscription was not
      active), no unread one was lost with the connection, and no look at a terminal cell failed. */
  lemma NoLostWakeupExactlyWhen(s: State, steps: seq<Step>)
    requires Initial(s) && Run(s, steps)
    requires var t := After(s, steps); t.waiter == Parked && !AnnouncementComes(t.runs) && Finished(t.cell)
    ensures After(s, steps).inbox > 0 <==> !After(s, steps).missed
  {
    RunKeepsInv(s, steps);
  }

  /** Each of the three looks at the cell answers exactly when it reads a terminal status, and then
      with that status. */
  lemma LookAnswersExactlyWhen(s: State, step: Step)
    requires Enabled(s, step) && (step.FirstLook? || step.SecondLook? || step.ReadsCell?)
    ensures Do(s, step).waiter.Returned? <==> step.ok && s.cell.Some? && s.cell.value >= 3
    ensures Do(s, step).waiter.Returned? ==> Do(s, step).waiter.result == Answer(s.cell.value)
  {
  }

  /** Taking a pending notification and reading the cell. */
  lemma ReadsPending(t: State)
    requires t.waiter == Parked && t.inbox > 0
    ensures Run(t, [TakesNotification, ReadsCell(true)])
    ensures After(t, [TakesNotification, ReadsCell(true)]).waiter
            == if Finished(t.cell) then Returned(Answer(t.cell.value)) else Parked
  {
    var t', taking := Do(t, TakesNotification), [TakesNotification, ReadsCell(true)];
    assert taking[1..] == [ReadsCell(true)];
    assert Run(t', [ReadsCell(true)]) && After(t', [ReadsCell(true)]) == Do(t', ReadsCell(true)) by {
      assert Run(Do(t', ReadsCell(true)), []);
    }
  }

  /** What the waiter returns: a terminal status that some run on the token cached, or the error
      of its context, and that only when the context has ended. */
  lemma OnlyTerminalAnswers(s: State, steps: seq<Step>)
    requires Initial(s) && Run(s, steps)
    ensures var w := After(s, steps).waiter;
      w.Returned? ==>
        if w.result.Answer? then w.result.status >= 3 && w.result.status in After(s, steps).stored
        else After(s, steps).context == if w.result == TimedOut then DeadlinePassed else CancelledByCaller
  {
    RunKeepsInv(s, steps);
  }

  // ----- When a cached result stays readable -----

  predicate Writes(step: Step) {
    step == CellExpires || (step.RunBegins? && step.ok) || (step.RunStores? && step.ok)
  }

  /** The last step that wrote the cell. */
  function LastWrite(steps: seq<Step>): Option<Step> {
    if steps == [] then None
    else
      var later := LastWrite(steps[1..]);
      if later.Some? then later else if Writes(steps[0]) then Some(steps[0]) else None
  }

  /** The last write was a result. */
  predicate Stands(s: State, steps: seq<Step>) {
    if LastWrite(steps).None? then Finished(s.cell) else LastWrite(steps).value.RunStores?
  }

  /** A result stays readable until the cell expires or a redelivered job writes Processing over it,
      and not longer: the cell is terminal exactly when the last write was a result. */
  lemma {:induction false} ReadableExactlyWhen(s: State, steps: seq<Step>)
    requires Run(s, steps)
    ensures Finished(After(s, steps).cell) <==> Stands(s, steps)
    ensures LastWrite(steps).None? ==> After(s, steps).cell == s.cell
    ensures LastWrite(steps).Some? && LastWrite(steps).value.RunStores? ==>
              After(s, steps).cell == Some(LastWrite(steps).value.status)
    decreases |steps|
  {
    if steps != [] {
      ReadableExactlyWhen(Do(s, steps[0]), steps[1..]);
    }
  }

  /** Which parked waiters are answered: with no announcement to come, taking a notification and
      reading the cell returns an answer exactly when the last write was a result and the waiter did
      not miss its latest chance. */
  lemma NotifiedIsAnsweredExactlyWhen(s: State, steps: seq<Step>)
    requires Initial(s) && Run(s, steps)
    requires After(s, steps).waiter == Parked && !AnnouncementComes(After(s, steps).runs)
    ensures var t, taking := After(s, steps), [TakesNotification, ReadsCell(true)];
      (Run(t, taking) && After(t, taking).waiter.Returned?) <==> Stands(s, steps) && !t.missed
  {
    ReadableExactlyWhen(s, steps);
    var t := After(s, steps);
    if Finished(t.cell) {
      NoLostWakeupExactlyWhen(s, steps);
    }
    if t.inbox > 0 {
      ReadsPending(t);
    }
  }

  /** The poll is the safety net: whatever was lost, a waiter in its loop whose time is not over
      returns a terminal answer after the next tick that reads a terminal cell. */
  lemma PollRescues(s: State, steps: seq<Step>)
    requires Initial(s) && Run(s, steps)
    requires var t := After(s, steps); t.waiter in {Parked, PollOnly} && t.context == Alive && Finished(t.cell)
    ensures var t := After(s, steps);
      exists rest :: Run(t, rest) && |rest| <= 2
        && (forall k :: 0 <= k < |rest| ==> rest[k] in {Ticks(true), TakesPollResult})
        && After(t, rest).waiter.Returned? && After(t, rest).waiter.result.Answer?
        && After(t, rest).waiter.result.status >= 3
  {
    RunKeepsInv(s, steps);
    var t := After(s, steps);
    if t.poll == Polling {
      var t' := Do(t, Ticks(true));
      TakeResult(t');
      var rest := [Ticks(true), TakesPollResult];
      assert rest[1..] == [TakesPollResult];
      assert Run(t, rest) && After(t, rest) == After(t', [TakesPollResult]);
    } else {
      TakeResult(t);
      var rest := [TakesPollResult];
      assert Run(t, rest);
    }
  }

  lemma TakeResult(t: State)
    requires t.waiter in {Parked, PollOnly} && t.poll.Found?
    ensures Run(t, [TakesPollResult]) && After(t, [TakesPollResult]) == t.(waiter := Returned(Answer(t.poll.status)))
  {
    assert Run(Do(t, TakesPollResult), []);
  }

  lemma {:induction false} ExtendWait(s: State, steps: seq<Step>, t: State, next: Step)
    returns (longer: seq<Step>, u: State)
    requires Run(s, steps) && After(s, steps) == t && Enabled(t, next)
    ensures longer == steps + [next] && u == Do(t, next)
    ensures Run(s, longer) && After(s, longer) == u
    decreases |steps|
  {
    longer, u := steps + [next], Do(t, next);
    if steps == [] {
      assert longer == [next];
      assert Run(Do(s, next), []);
    } else {
      var rest, _ := ExtendWait(Do(s, steps[0]), steps[1..], t, next);
      assert longer[0] == steps[0] && longer[1..] == rest;
    }
  }

  /** A waiter gets as far as its second look while run 0 is executing. */
  lemma Rechecks() returns (s: State, steps: seq<Step>)
    ensures Initial(s) && Run(s, steps) && steps == [FirstLook(true), Subscribes]
    ensures After(s, steps)
            == State(Some(PROCESSING), {}, map[0 := Executing], Rechecking, NotPolling, Sent, 0, Alive, false)
  {
    s := State(Some(PROCESSING), {}, map[0 := Executing], Checking, NotPolling, Unsent, 0, Alive, false);
    var t;
    steps, t := ExtendWait(s, [], s, FirstLook(true));
    steps, t := ExtendWait(s, steps, t, Subscribes);
  }

  /** The run stores its result and announces it. */
  lemma RunEnds(s: State, steps: seq<Step>, t: State) returns (longer: seq<Step>, u: State)
    requires Run(s, steps) && After(s, steps) == t && t.runs == map[0 := Executing]
    ensures longer == steps + [RunStores(0, ACCEPTED, true)] + [RunPublishes(0, true)]
    ensures Run(s, longer) && After(s, longer) == u
    ensures u == t.(cell := Some(ACCEPTED), stored := t.stored + {ACCEPTED}, runs := map[],
                    inbox := if t.subscription == Active then t.inbox + 1 else t.inbox,
                    missed := t.subscription != Active && (t.missed || (t.waiter == Parked && t.inbox == 0)))
  {
    longer, u := ExtendWait(s, steps, t, RunStores(0, ACCEPTED, true));
    longer, u := ExtendWait(s, longer, u, RunPublishes(0, true));
    assert u.runs == map[];
  }

  /** The waiter asks for the subscription before its second look but does not wait until it is
      active.  So a run can store and announce its result in between, and nothing is pending for
      the parked waiter although no call failed. */
  lemma LateSubscriptionLosesWakeup() returns (s: State, steps: seq<Step>)
    ensures Initial(s) && Run(s, steps)
    ensures steps == [FirstLook(true), Subscribes] + [SecondLook(true)] + [RunStores(0, ACCEPTED, true)]
                     + [RunPublishes(0, true)] + [SubscriptionActive]
    ensures var t := After(s, steps);
      t.waiter == Parked && t.subscription == Active && t.inbox == 0 && t.runs == map[] && t.cell == Some(ACCEPTED)
  {
    s, steps := Rechecks();
    var t := After(s, steps);
    steps, t := ExtendWait(s, steps, t, SecondLook(true));
    steps, t := RunEnds(s, steps, t);
    steps, t := ExtendWait(s, steps, t, SubscriptionActive);
  }

  /** A redelivered job writes Processing over the terminal response.  A waiter that takes its
      notification after that stays parked, with nothing pending, although a result was cached. */
  lemma RedeliveryHidesResult() returns (s: State, steps: seq<Step>)
    ensures Initial(s) && Run(s, steps) && !After(s, steps).missed
    ensures var t := After(s, steps);
      t.waiter == Parked && t.inbox == 0 && t.stored == {ACCEPTED} && t.cell == Some(PROCESSING)
  {
    s, steps := Rechecks();
    var t := After(s, steps);
    steps, t := ExtendWait(s, steps, t, SubscriptionActive);
    steps, t := ExtendWait(s, steps, t, SecondLook(true));
    steps, t := RunEnds(s, steps, t);
    steps, t := ExtendWait(s, steps, t, RunBegins(1, true));
    steps, t := ExtendWait(s, steps, t, TakesNotification);
    steps, t := ExtendWait(s, steps, t, ReadsCell(true));
  }

  // ----- The poll loop -----

  const FIRST_INTERVAL: nat := 100
  const MAX_INTERVAL: nat := 500

  /** The interval before tick n, and when that tick comes; milliseconds after the poll began. */
  function Interval(n: nat): nat {
    if n == 0 then FIRST_INTERVAL
    else if 2 * Interval(n - 1) > MAX_INTERVAL then MAX_INTERVAL
    else 2 * Interval(n - 1)
  }

  function TickAt(n: nat): nat {
    Interval(n) + if n == 0 then 0 else TickAt(n - 1)
  }

  lemma {:induction false} TickTimes(n: nat)
    ensures Interval(n) == if n < 3 then [100, 200, 400][n] else 500
    ensures TickAt(n) == if n < 3 then [100, 300, 700][n] else 500 * n - 300
  {
    if n > 0 {
      TickTimes(n - 1);
    }
  }

  /** What a look at the cell answers: an error, a miss, or a cached status. */
  datatype Got = GetFails | Got(cell: Option<int>)

  predicate Ends(g: Got) {
    g.Got? && Finished(g.cell)
  }

  /** The poll ends with the first look at a terminal cell, or with its context.  gets(n) is what
      the look at tick n answers; the context ends at contextEnd, and a tick that comes at that very
      moment is not served any more. */
  ghost predicate PollEnds(contextEnd: nat, how: Context, gets: nat -> Got, result: WaitResult, at: nat, ticks: nat) {
    && (forall k :: 0 <= k < ticks ==> !Ends(gets(k)))
    && if result.Answer?
        then TickAt(ticks) == at < contextEnd && Ends(gets(ticks)) && result.status == gets(ticks).cell.value
       else result == ContextError(how) && at == contextEnd <= TickAt(ticks)
  }

  method PollUntilDone(contextEnd: nat, how: Context, gets: nat -> Got)
    returns (result: WaitResult, at: nat, ticks: nat)
    requires how != Alive
    ensures PollEnds(contextEnd, how, gets, result, at, ticks)
    ensures if result.Answer? then result.status >= 3 && gets(ticks) == Got(Some(result.status))
            else result == if how == DeadlinePassed then TimedOut else Cancelled
    ensures forall k, status :: 0 <= k < ticks && gets(k) == Got(Some(status)) ==> status < 3
  {
    var interval := FIRST_INTERVAL;
    at, ticks := interval, 0;
    while at < contextEnd
      invariant at == TickAt(ticks) && interval == Interval(ticks)
      invariant forall k :: 0 <= k < ticks ==> !Ends(gets(k))
      decreases contextEnd - at
    {
      TickTimes(ticks + 1);
      var got := gets(ticks);
      if got.Got? && got.cell.Some? && IsTerminal(got.cell.value) {
        return Answer(got.cell.value), at, ticks;
      }
      interval := interval * 2;
      if interval > MAX_INTERVAL {
        interval := MAX_INTERVAL;
      }
      at, ticks := at + interval, ticks + 1;
    }
    return ContextError(how), contextEnd, ticks;
  }

  /** Whenever the cell becomes terminal, the next tick is at most half a second away. */
  lemma TickComesSoon(t: nat) returns (n: nat)
    ensures t <= TickAt(n) <= t + MAX_INTERVAL
    ensures n > 0 ==> TickAt(n - 1) < t
  {
    n := 0;
    TickTimes(0);
    while TickAt(n) < t
      invariant TickAt(n) <= t + MAX_INTERVAL
      invariant n > 0 ==> TickAt(n - 1) < t
      decreases t - TickAt(n)
    {
      TickTimes(n);
      TickTimes(n + 1);
      n := n + 1;
    }
  }

  /** A cell that is terminal and readable from time t on is answered within half a second, unless
      the context ends before. */
  lemma AnsweredSoon(contextEnd: nat, how: Context, gets: nat -> Got, result: WaitResult, at: nat, ticks: nat, t: nat)
    requires PollEnds(contextEnd, how, gets, result, at, ticks)
    requires forall k :: TickAt(k) >= t ==> Ends(gets(k))
    ensures at <= t + 500
    ensures t + 500 < contextEnd ==> result.Answer?
  {
    var n := TickComesSoon(t);
    assert Ends(gets(n));
    TicksAscend(ticks, n);
  }

  lemma TicksAscend(a: nat, b: nat)
    ensures a <= b ==> TickAt(a) <= TickAt(b)
  {
    TickTimes(a);
    TickTimes(b);
  }
}

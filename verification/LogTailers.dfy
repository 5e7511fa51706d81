/** Any number of tailers of one in-memory event log, run on one event loop: code between two awaits is one step. */
module LogTailers {
  import opened Basics
  import EventLog

  /**
   * Where a tailer stands: at the top of its loop, handing out a replayed batch (`seen` is the version read before the
   * replay), blocked on the shared wake-up flag, or finished.
   */
  datatype Phase<E> = Top | Delivering(seen: nat, pending: seq<E>) | Waiting(seen: nat) | Ended | Expired

  datatype Tailer<E> = Tailer(after: int, cursor: int, delivered: seq<E>, phase: Phase<E>)

  /** The log: `history[n - 1]` is event number n, the first `floor` of them are no longer retained. */
  datatype Log<E> = Log(history: seq<E>, floor: nat, version: nat, closed: bool, tailers: map<nat, Tailer<E>>)

  datatype Step<E> =
    | Append(event: E, floor: nat)
    | Close
    | Sweep(floor: nat)
    | Start(id: nat, after: int, rejectFuture: bool)
    | Poll(id: nat, floor: nat)
    | Deliver(id: nat)
    | Settle(id: nat)
    | Timeout(id: nat)
    | Cancel(id: nat)

  function Wake<E>(tailers: map<nat, Tailer<E>>): map<nat, Tailer<E>> {
    map id | id in tailers :: if tailers[id].phase.Waiting? then tailers[id].(phase := Top) else tailers[id]
  }

  /** A version bump always sets the wake-up flag, and setting it releases every waiter. */
  function Bump<E>(log: Log<E>): Log<E> {
    log.(version := log.version + 1, tailers := Wake(log.tailers))
  }

  predicate Enabled<E>(log: Log<E>, step: Step<E>) {
    match step
    case Append(_, floor) => log.floor <= floor <= |log.history|
    case Close => true
    case Sweep(floor) => log.floor <= floor <= |log.history|
    case Start(id, _, _) => id !in log.tailers
    case Poll(id, floor) => id in log.tailers && log.tailers[id].phase.Top? && log.floor <= floor <= |log.history|
    case Deliver(id) => id in log.tailers && log.tailers[id].phase.Delivering? && log.tailers[id].phase.pending != []
    case Settle(id) => id in log.tailers && log.tailers[id].phase.Delivering? && log.tailers[id].phase.pending == []
    case Timeout(id) => id in log.tailers && log.tailers[id].phase.Waiting?
    case Cancel(id) => id in log.tailers
  }

  function Later<E>(history: seq<E>, after: int): seq<E> {
    history[Max(0, Min(after, |history|))..]
  }

  function Apply<E>(log: Log<E>, step: Step<E>): Log<E>
    requires Enabled(log, step)
  {
    match step
    case Append(event, floor) => Bump(log.(history := log.history + [event], floor := floor))
    case Close => Bump(log.(closed := true))
    case Sweep(floor) => log.(floor := floor)
    case Start(id, after, rejectFuture) =>
      var phase := if rejectFuture && after > |log.history| then Expired else Top;
      log.(tailers := log.tailers[id := Tailer(after, after, [], phase)])
    case Poll(id, floor) =>
      var t := log.tailers[id];
      var phase := if t.cursor < floor then Expired else Delivering(log.version, Later(log.history, t.cursor));
      log.(floor := floor, tailers := log.tailers[id := t.(phase := phase)])
    case Deliver(id) =>
      var t := log.tailers[id];
      var p := t.phase.pending;
      var t' := Tailer(t.after, t.cursor + 1, t.delivered + [p[0]], t.phase.(pending := p[1..]));
      log.(tailers := log.tailers[id := t'])
    case Settle(id) =>
      var t := log.tailers[id];
      if log.closed && t.cursor >= |log.history| then
        log.(tailers := log.tailers[id := t.(phase := Ended)])
      else
        var phase := if log.version == t.phase.seen then Waiting(t.phase.seen) else Top;
        log.(tailers := log.tailers[id := t.(phase := phase)])
    case Timeout(id) => log.(tailers := log.tailers[id := log.tailers[id].(phase := Top)])
    case Cancel(id) => log.(tailers := log.tailers - {id})
  }

  predicate Runs<E>(log: Log<E>, steps: seq<Step<E>>)
    decreases |steps|
  {
    steps == [] || (Enabled(log, steps[0]) && Runs(Apply(log, steps[0]), steps[1..]))
  }

  function Run<E>(log: Log<E>, steps: seq<Step<E>>): Log<E>
    requires Runs(log, steps)
    decreases |steps|
  {
    if steps == [] then log else Run(Apply(log, steps[0]), steps[1..])
  }

  /** A tailer has delivered exactly the events after+1, after+2, ..., cursor. */
  ghost predicate Faithful<E>(history: seq<E>, t: Tailer<E>) {
    && t.cursor == t.after + |t.delivered|
    && StretchAt(history, t.after, t.delivered)
  }

  /** A waiting tailer has delivered every event there is, and the log is open. */
  ghost predicate CaughtUp<E>(log: Log<E>, t: Tailer<E>) {
    t.phase.Waiting? ==> t.cursor >= |log.history| && !log.closed && t.phase.seen == log.version
  }

  ghost predicate Batch<E>(log: Log<E>, t: Tailer<E>) {
    t.phase.Delivering? ==>
      && t.cursor >= 0 && t.phase.seen <= log.version
      && StretchAt(log.history, t.cursor, t.phase.pending)
      && (t.phase.seen == log.version ==> t.cursor + |t.phase.pending| >= |log.history|)
  }

  ghost predicate Fine<E>(log: Log<E>, t: Tailer<E>) {
    && Faithful(log.history, t) && CaughtUp(log, t) && Batch(log, t)
    && (t.phase.Ended? ==> log.closed)
    && (t.phase.Expired? ==> t.cursor < log.floor || t.delivered == [])
  }

  ghost predicate Inv<E>(log: Log<E>) {
    log.floor <= |log.history| && forall id | id in log.tailers :: Fine(log, log.tailers[id])
  }

  /** An append or a close keeps every tailer fine: its bump makes old batches stale and wakes the waiters. */
  lemma BumpKeepsFine<E>(log: Log<E>, more: seq<E>, closed: bool, t: Tailer<E>)
    requires Fine(log, t) && (log.closed ==> closed)
    ensures Fine(log.(history := log.history + more, version := log.version + 1, closed := closed),
                 if t.phase.Waiting? then t.(phase := Top) else t)
  {
    StretchGrows(log.history, more, t.after, t.delivered);
    if t.phase.Delivering? {
      StretchGrows(log.history, more, t.cursor, t.phase.pending);
    }
  }

  /** A higher floor, and other tailers beside it, leave a tailer fine. */
  lemma FloorKeepsFine<E>(log: Log<E>, floor: nat, tailers: map<nat, Tailer<E>>, t: Tailer<E>)
    requires Fine(log, t) && log.floor <= floor
    ensures Fine(log.(floor := floor, tailers := tailers), t)
  {
  }

  predicate Own<E>(step: Step<E>, id: nat) {
    (step.Poll? || step.Deliver? || step.Settle? || step.Timeout?) && step.id == id
  }

  lemma DeliverKeepsFaithful<E>(history: seq<E>, t: Tailer<E>, pending: seq<E>)
    requires Faithful(history, t) && pending != [] && t.cursor >= 0 && StretchAt(history, t.cursor, pending)
    ensures Faithful(history, Tailer(t.after, t.cursor + 1, t.delivered + [pending[0]], t.phase))
    ensures StretchAt(history, t.cursor + 1, pending[1..])
  {
    assert pending[0] == history[t.cursor];
  }

  /** A tailer's own step keeps it fine. */
  lemma OwnStepKeepsFine<E>(log: Log<E>, step: Step<E>, id: nat)
    requires Inv(log) && Enabled(log, step) && Own(step, id)
    ensures Fine(Apply(log, step), Apply(log, step).tailers[id])
  {
    var t := log.tailers[id];
    assert Fine(log, t);
    if step.Deliver? {
      DeliverKeepsFaithful(log.history, t, t.phase.pending);
    }
  }

  /** The step of another leaves a tailer fine. */
  lemma OthersStayFine<E>(log: Log<E>, step: Step<E>, id: nat)
    requires Inv(log) && Enabled(log, step) && !Own(step, id)
    requires id in log.tailers && id in Apply(log, step).tailers
    ensures Fine(Apply(log, step), Apply(log, step).tailers[id])
  {
    var t, after := log.tailers[id], Apply(log, step);
    assert Fine(log, t);
    match step
    case Append(event, floor) =>
      BumpKeepsFine(log, [event], log.closed, t);
      var bumped := log.(history := log.history + [event], version := log.version + 1);
      FloorKeepsFine(bumped, floor, after.tailers, after.tailers[id]);
    case Close =>
      BumpKeepsFine(log, [], true, t);
      assert log.history + [] == log.history;
      var bumped := log.(version := log.version + 1, closed := true);
      FloorKeepsFine(bumped, log.floor, after.tailers, after.tailers[id]);
    case _ => FloorKeepsFine(log, after.floor, after.tailers, t);
  }

  lemma ApplyKeepsInv<E>(log: Log<E>, step: Step<E>)
    requires Inv(log) && Enabled(log, step)
    ensures Inv(Apply(log, step)) && log.history <= Apply(log, step).history && log.floor <= Apply(log, step).floor
  {
    var after := Apply(log, step);
    forall id | id in after.tailers
      ensures Fine(after, after.tailers[id])
    {
      if id in log.tailers {
        if Own(step, id) {
          OwnStepKeepsFine(log, step, id);
        } else {
          OthersStayFine(log, step, id);
        }
      }
    }
  }

  /** Every run keeps the invariant; the history only grows and the floor only rises. */
  lemma {:induction false} RunKeepsInv<E>(log: Log<E>, steps: seq<Step<E>>)
    requires Inv(log) && Runs(log, steps)
    ensures Inv(Run(log, steps))
    ensures log.history <= Run(log, steps).history && log.floor <= Run(log, steps).floor
    decreases |steps|
  {
    if steps == [] {
    } else {
      ApplyKeepsInv(log, steps[0]);
      RunKeepsInv(Apply(log, steps[0]), steps[1..]);
    }
  }

  function Fresh<E>(): Log<E> {
    Log([], 0, 0, false, map[])
  }

  /**
   * For every interleaving of appends, evictions, closing, starts, deliveries, time-outs and cancellations from a fresh
   * log: every tailer has delivered exactly after+1 .. cursor, and one that waits is fully caught up on an open log.
   */
  lemma TailersDeliverInOrder<E>(steps: seq<Step<E>>, id: nat)
    requires Runs(Fresh<E>(), steps) && id in Run(Fresh<E>(), steps).tailers
    ensures var log := Run(Fresh<E>(), steps);
            var t := log.tailers[id];
            && t.cursor == t.after + |t.delivered| && StretchAt(log.history, t.after, t.delivered)
            && (t.phase.Waiting? ==> t.cursor >= |log.history| && !log.closed)
            && (t.phase.Ended? ==> log.closed)
  {
    RunKeepsInv(Fresh<E>(), steps);
    var log := Run(Fresh<E>(), steps);
    assert Fine(log, log.tailers[id]);
  }

  /** A tailer that ended by itself has delivered every event of the closed log that followed its start. */
  lemma EndedMeansComplete<E>(log: Log<E>, step: Step<E>, id: nat)
    requires Inv(log) && Enabled(log, step) && id in log.tailers && !log.tailers[id].phase.Ended?
    requires id in Apply(log, step).tailers && Apply(log, step).tailers[id].phase.Ended?
    ensures log.closed && Apply(log, step).tailers[id].delivered == Later(log.history, log.tailers[id].after)
  {
    assert step == Settle(id);
    var t := log.tailers[id];
    assert Faithful(log.history, t);
    assert Later(log.history, t.after) == t.delivered;
  }

  /** A tailer expires only when its cursor is below the floor, or when it started beyond the latest number. */
  lemma ExpiresOnlyForCause<E>(log: Log<E>, step: Step<E>, id: nat)
    requires Inv(log) && Enabled(log, step) && (id in log.tailers ==> !log.tailers[id].phase.Expired?)
    requires id in Apply(log, step).tailers && Apply(log, step).tailers[id].phase.Expired?
    ensures var t := Apply(log, step).tailers[id];
            t.cursor < Apply(log, step).floor || (step.Start? && step.rejectFuture && t.after > |log.history|)
  {
  }

  /**
   * In every run a tailer that began beyond the latest number and was to be refused for that is refused at once and
   * for good; any other one expires only with its cursor below the floor.
   */
  ghost predicate Refused<E>(log: Log<E>, t: Tailer<E>, after: int, future: bool) {
    && t.after == after
    && if future then t == Tailer(after, after, [], Expired) else t.phase.Expired? ==> t.cursor < log.floor
  }

  lemma StepKeepsRefused<E>(log: Log<E>, step: Step<E>, id: nat, after: int, future: bool)
    requires Enabled(log, step) && step != Cancel(id)
    requires id in log.tailers && Refused(log, log.tailers[id], after, future)
    ensures id in Apply(log, step).tailers && Refused(Apply(log, step), Apply(log, step).tailers[id], after, future)
  {
  }

  lemma {:induction false} RunKeepsRefused<E>(log: Log<E>, steps: seq<Step<E>>, id: nat, after: int, future: bool)
    requires Runs(log, steps) && Cancel(id) !in steps && id in log.tailers
    requires Refused(log, log.tailers[id], after, future)
    ensures id in Run(log, steps).tailers && Refused(Run(log, steps), Run(log, steps).tailers[id], after, future)
    decreases |steps|
  {
    if steps != [] {
      StepKeepsRefused(log, steps[0], id, after, future);
      RunKeepsRefused(Apply(log, steps[0]), steps[1..], id, after, future);
    }
  }

  lemma FutureCursorsAreRefused<E>(log: Log<E>, id: nat, after: int, refuses: bool, steps: seq<Step<E>>)
    requires id !in log.tailers && Cancel(id) !in steps
    requires Runs(Apply(log, Start(id, after, refuses)), steps)
    ensures var end := Run(Apply(log, Start(id, after, refuses)), steps);
            id in end.tailers && Refused(end, end.tailers[id], after, refuses && after > |log.history|)
  {
    RunKeepsRefused(Apply(log, Start(id, after, refuses)), steps, id, after, refuses && after > |log.history|);
  }

  // --- one turn of the loop

  function With<E>(log: Log<E>, id: nat, t: Tailer<E>): Log<E> {
    log.(tailers := log.tailers[id := t])
  }

  function Deliveries<E>(id: nat, n: nat): seq<Step<E>> {
    if n == 0 then [] else [Deliver(id)] + Deliveries(id, n - 1)
  }

  ghost predicate Leads<E>(log: Log<E>, steps: seq<Step<E>>, end: Log<E>) {
    Runs(log, steps) && Run(log, steps) == end
  }

  lemma LeadsByOne<E>(log: Log<E>, step: Step<E>)
    requires Enabled(log, step)
    ensures Leads(log, [step], Apply(log, step))
  {
    assert [step][1..] == [];
  }

  lemma LeadsFirst<E>(log: Log<E>, step: Step<E>, mid: Log<E>, more: seq<Step<E>>, end: Log<E>)
    requires Enabled(log, step) && Apply(log, step) == mid && Leads(mid, more, end)
    ensures Leads(log, [step] + more, end)
  {
    assert ([step] + more)[0] == step && ([step] + more)[1..] == more;
  }

  /** A tailer that settles with its batch delivered ends on a closed log and waits on an open one. */
  lemma LeadsBySettling<E>(log: Log<E>, id: nat, t: Tailer<E>) returns (closing: seq<Step<E>>)
    requires t.phase == Delivering(log.version, []) && t.cursor >= |log.history|
    ensures closing == [Settle(id)]
    ensures Leads(With(log, id, t), closing,
                  With(log, id, t.(phase := if log.closed then Ended else Waiting(log.version))))
  {
    closing := [Settle(id)];
    var end := With(log, id, t.(phase := if log.closed then Ended else Waiting(log.version)));
    assert Apply(With(log, id, t), Settle(id)).tailers == end.tailers;
    LeadsByOne(With(log, id, t), Settle(id));
  }

  lemma {:induction false} BatchIsDelivered<E>(log: Log<E>, id: nat, t: Tailer<E>, after: seq<Step<E>>, end: Log<E>)
    requires t.phase.Delivering?
    requires var p := t.phase.pending;
             Leads(With(log, id, Tailer(t.after, t.cursor + |p|, t.delivered + p, Delivering(t.phase.seen, []))),
                   after, end)
    ensures Leads(With(log, id, t), Deliveries(id, |t.phase.pending|) + after, end)
    decreases |t.phase.pending|
  {
    var p := t.phase.pending;
    if p == [] {
      assert t.delivered + p == t.delivered && Deliveries(id, 0) + after == after;
    } else {
      var next := Tailer(t.after, t.cursor + 1, t.delivered + [p[0]], Delivering(t.phase.seen, p[1..]));
      assert next.delivered + p[1..] == t.delivered + p;
      BatchIsDelivered(log, id, next, after, end);
      assert Apply(With(log, id, t), Deliver(id)).tailers == With(log, id, next).tailers;
      LeadsFirst(With(log, id, t), Deliver(id), With(log, id, next), Deliveries(id, |p| - 1) + after, end);
      assert [Deliver(id)] + (Deliveries(id, |p| - 1) + after) == Deliveries(id, |p|) + after;
    }
  }

  /** A tailer whose cursor is below the floor when its loop comes round is told so, and delivers nothing. */
  lemma TooOldATurnExpires<E>(log: Log<E>, id: nat, floor: nat)
    requires Enabled(log, Poll(id, floor)) && log.tailers[id].cursor < floor
    ensures Leads(log, [Poll(id, floor)], With(log.(floor := floor), id, log.tailers[id].(phase := Expired)))
  {
    LeadsByOne(log, Poll(id, floor));
  }

  lemma TurnReads<E>(log: Log<E>, id: nat, floor: nat)
    requires Inv(log) && Enabled(log, Poll(id, floor)) && log.tailers[id].cursor >= floor
    ensures var t := log.tailers[id];
            var rows := Later(log.history, t.cursor);
            && Apply(log, Poll(id, floor))
               == With(log.(floor := floor), id, t.(phase := Delivering(log.version, rows)))
            && |rows| == Max(0, |log.history| - t.cursor) && StretchAt(log.history, t.cursor, rows)
  {
  }

  /**
   * Undisturbed, a tailer whose cursor is retained delivers in one turn all there is after its cursor, and then ends
   * if the log is closed and waits if it is not.
   */
  lemma OneTurnCatchesUp<E>(log: Log<E>, id: nat, floor: nat) returns (rows: seq<E>)
    requires Inv(log) && Enabled(log, Poll(id, floor)) && log.tailers[id].cursor >= floor
    ensures var t := log.tailers[id];
            && |rows| == Max(0, |log.history| - t.cursor) && StretchAt(log.history, t.cursor, rows)
            && Leads(log, [Poll(id, floor)] + (Deliveries(id, |rows|) + [Settle(id)]),
                     With(log.(floor := floor), id, Tailer(t.after, t.cursor + |rows|, t.delivered + rows,
                                                           if log.closed then Ended else Waiting(log.version))))
  {
    var t, raised := log.tailers[id], log.(floor := floor);
    TurnReads(log, id, floor);
    rows := Later(log.history, t.cursor);
    var t2 := Tailer(t.after, t.cursor + |rows|, t.delivered + rows, Delivering(log.version, []));
    var closing := LeadsBySettling(raised, id, t2);
    TurnIsJoined(log, id, floor, t.(phase := Delivering(log.version, rows)), t2, closing,
                 With(raised, id, t2.(phase := if log.closed then Ended else Waiting(log.version))));
  }

  lemma TurnIsJoined<E>(log: Log<E>, id: nat, floor: nat, t1: Tailer<E>, t2: Tailer<E>, closing: seq<Step<E>>,
                        end: Log<E>)
    requires Enabled(log, Poll(id, floor)) && Apply(log, Poll(id, floor)) == With(log.(floor := floor), id, t1)
    requires t1.phase.Delivering?
    requires var p := t1.phase.pending;
             t2 == Tailer(t1.after, t1.cursor + |p|, t1.delivered + p, Delivering(t1.phase.seen, []))
    requires Leads(With(log.(floor := floor), id, t2), closing, end)
    ensures Leads(log, [Poll(id, floor)] + (Deliveries(id, |t1.phase.pending|) + closing), end)
  {
    var raised := log.(floor := floor);
    BatchIsDelivered(raised, id, t1, closing, end);
    LeadsFirst(log, Poll(id, floor), With(raised, id, t1), Deliveries(id, |t1.phase.pending|) + closing, end);
  }

  /** A bump brings every waiting tailer back to the top of its loop, and a time-out the one. */
  lemma WakingIsToTheTop<E>(log: Log<E>, step: Step<E>, id: nat)
    requires Enabled(log, step) && id in log.tailers && log.tailers[id].phase.Waiting?
    requires step.Append? || step.Close? || step == Timeout(id)
    ensures Apply(log, step).tailers[id] == log.tailers[id].(phase := Top)
  {
  }

  /** A tailer that has neither ended nor expired always has a next step of its own, and can always be cancelled. */
  lemma NoTailerIsStuck<E>(log: Log<E>, id: nat)
    requires log.floor <= |log.history| && id in log.tailers
    ensures match log.tailers[id].phase
            case Top => Enabled(log, Poll(id, log.floor))
            case Delivering(_, pending) => Enabled(log, if pending != [] then Deliver(id) else Settle(id))
            case Waiting(_) => Enabled(log, Timeout(id))
            case _ => true
    ensures Enabled(log, Cancel(id))
  {
  }

  /** A tailer is changed by its own steps only, but for a bump that wakes it; cancelled, it is gone. */
  lemma StepTouches<E>(log: Log<E>, step: Step<E>, id: nat)
    requires Enabled(log, step) && id in log.tailers
    ensures step == Cancel(id) ==> id !in Apply(log, step).tailers
    ensures step != Cancel(id) ==>
              && id in Apply(log, step).tailers
              && var t, t' := log.tailers[id], Apply(log, step).tailers[id];
                 || Own(step, id) || t' == t
                 || (t.phase.Waiting? && (step.Append? || step.Close?) && t' == t.(phase := Top))
  {
  }

  // --- the program takes these steps

  ghost predicate Mirrors<P(!new)>(log: Log<EventLog.RetainedEvent<P>>, l: EventLog.RetainedEventLog<P>)
    reads l
  {
    && l.Valid() && log.history == l.History() && log.floor == l.FloorSeq()
    && log.version == l.version && log.closed == l.closed
  }

  /** An append of the program is the step, with the floor its eviction leaves; a refused one is no step. */
  method AppendIsAStep<P(!new)>(l: EventLog.RetainedEventLog<P>, ghost log: Log<EventLog.RetainedEvent<P>>,
                                kind: string, payload: P, now: int)
    returns (r: Result<EventLog.RetainedEvent<P>, EventLog.TooLarge>)
    requires Mirrors(log, l)
    modifies l
    ensures r.Err? ==> Mirrors(log, l)
    ensures r.Ok? ==> l.FloorSeq() >= 0
                      && var step := Append(r.value, l.FloorSeq()); Enabled(log, step) && Mirrors(Apply(log, step), l)
  {
    l.FloorIsEvictedCount();
    r := l.Append(kind, payload, now);
    l.FloorIsEvictedCount();
  }

  method CloseIsAStep<P(!new)>(l: EventLog.RetainedEventLog<P>, ghost log: Log<EventLog.RetainedEvent<P>>, now: int)
    requires Mirrors(log, l)
    modifies l
    ensures Mirrors(Apply(log, Close), l)
  {
    l.Close(now);
  }

  /** A sweep of the program only evicts. */
  method SweepIsAStep<P(!new)>(l: EventLog.RetainedEventLog<P>, ghost log: Log<EventLog.RetainedEvent<P>>, now: int)
    requires Mirrors(log, l)
    modifies l
    ensures l.FloorSeq() >= 0 && Enabled(log, Sweep(l.FloorSeq())) && Mirrors(Apply(log, Sweep(l.FloorSeq())), l)
  {
    l.FloorIsEvictedCount();
    l.EvictNow(now);
    l.FloorIsEvictedCount();
  }

  /** A tailer's replay is its poll: it expires exactly when the program refuses, and else gets the program's batch. */
  method ReplayIsAPoll<P(!new)>(l: EventLog.RetainedEventLog<P>, ghost log: Log<EventLog.RetainedEvent<P>>,
                                ghost id: nat, cursor: int, now: int)
    returns (r: Result<seq<EventLog.RetainedEvent<P>>, ResumeExpired>)
    requires Mirrors(log, l) && id in log.tailers && log.tailers[id].phase.Top? && log.tailers[id].cursor == cursor
    modifies l
    ensures l.FloorSeq() >= 0 && Enabled(log, Poll(id, l.FloorSeq()))
    ensures var next := Apply(log, Poll(id, l.FloorSeq()));
            && Mirrors(next, l)
            && next.tailers[id].phase == if r.Ok? then Delivering(l.version, r.value) else Phase.Expired
  {
    l.FloorIsEvictedCount();
    r := l.ReplayAfter(cursor, now);
    l.FloorIsEvictedCount();
  }
}

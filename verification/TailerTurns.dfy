/** What a tailer of a stored chat comes to: which cursors are refused, what one turn delivers, how a tailer ends. */
module TailerTurns {
  import opened Basics
  import opened ChatStore
  import opened ChatTailers

  // --- which cursors are refused

  /** No step between i and n starts or cancels the tailer. */
  ghost predicate Undisturbed(steps: seq<Step>, id: nat, i: int, n: int) {
    forall k | i <= k < n && k < |steps| && k >= 0 :: steps[k] != Cancel(id)
  }

  /** Asking refuses a cursor exactly when it is beyond the latest number at that moment. */
  lemma AskRefusesTheFuture(w: World, id: nat)
    requires Enabled(w, Ask(id))
    ensures var t := Apply(w, Ask(id)).tailers[id];
            (t.phase.Expired? <==> w.tailers[id].after > w.chat.latest) && (t.phase.Top? <==> !t.phase.Expired?)
            && t.cursor == w.tailers[id].cursor && t.delivered == w.tailers[id].delivered
  {
  }

  /**
   * A tailer that refuses cursors from the future goes on only if its own was not beyond the latest number; one that
   * does not is never refused for that.
   */
  ghost predicate Asked(w: World, t: Tailer, after: int, refuses: bool) {
    && t.after == after
    && if refuses then t.phase.Asking? || t.phase.Expired? || after <= w.chat.latest
       else !t.phase.Asking? && (t.phase.Expired? ==> t.cursor < w.chat.floor)
  }

  lemma StepKeepsAsked(w: World, step: Step, id: nat, after: int, refuses: bool)
    requires Inv(w) && Enabled(w, step) && step != Cancel(id)
    requires id in w.tailers && Asked(w, w.tailers[id], after, refuses)
    ensures id in Apply(w, step).tailers && Asked(Apply(w, step), Apply(w, step).tailers[id], after, refuses)
  {
    var t := w.tailers[id];
    if step.Query? && step.id == id {
      QueryReadsAll(w, t);
    }
  }

  lemma {:induction false} FutureCursorsAreRefused(ws: seq<World>, steps: seq<Step>, i: nat, n: nat, id: nat,
                                                   after: int, refuses: bool)
    requires Trace(ws, steps) && i < n < |ws| && steps[i] == Start(id, after, refuses) && Undisturbed(steps, id, i, n)
    ensures id in ws[n].tailers && Asked(ws[n], ws[n].tailers[id], after, refuses)
    decreases n
  {
    assert Goes(ws, steps, n - 1);
    if n > i + 1 {
      FutureCursorsAreRefused(ws, steps, i, n - 1, id, after, refuses);
      RunKeepsInv(ws, steps, n - 1);
      StepKeepsAsked(ws[n - 1], steps[n - 1], id, after, refuses);
    }
  }

  // --- one turn of the loop

  /** The steps lead from one state to the other. */
  ghost predicate Leads(w: World, steps: seq<Step>, end: World)
    decreases |steps|
  {
    if steps == [] then end == w else Enabled(w, steps[0]) && Leads(Apply(w, steps[0]), steps[1..], end)
  }

  lemma {:induction false} LeadsOn(w: World, a: seq<Step>, mid: World, b: seq<Step>, end: World)
    requires Leads(w, a, mid) && Leads(mid, b, end)
    ensures Leads(w, a + b, end)
    decreases |a|
  {
    if a == [] {
      assert a + b == b;
    } else {
      LeadsOn(Apply(w, a[0]), a[1..], mid, b, end);
      assert (a + b)[0] == a[0] && (a + b)[1..] == a[1..] + b;
    }
  }

  lemma LeadsByOne(w: World, step: Step)
    requires Enabled(w, step)
    ensures Leads(w, [step], Apply(w, step))
  {
    assert [step][1..] == [];
  }

  function With(w: World, id: nat, t: Tailer): World {
    w.(tailers := w.tailers[id := t])
  }

  lemma LeadsByOwn(w: World, id: nat, t: Tailer, step: Step)
    requires Own(step, t) && step.id == id
    ensures Leads(With(w, id, t), [step], With(w, id, Advanced(w, t, step)))
  {
    var v := With(w, id, t);
    LeadsByOne(v, step);
    assert v.tailers[id := Advanced(w, t, step)] == w.tailers[id := Advanced(w, t, step)];
  }

  lemma LeadsFirst(w: World, id: nat, t: Tailer, step: Step, more: seq<Step>, end: World)
    requires Own(step, t) && step.id == id && Leads(With(w, id, Advanced(w, t, step)), more, end)
    ensures Leads(With(w, id, t), [step] + more, end)
  {
    LeadsByOwn(w, id, t, step);
    LeadsOn(With(w, id, t), [step], With(w, id, Advanced(w, t, step)), more, end);
  }

  function Deliveries(id: nat, n: nat): seq<Step> {
    if n == 0 then [] else [Deliver(id)] + Deliveries(id, n - 1)
  }

  lemma {:induction false} BatchIsDelivered(w: World, id: nat, t: Tailer)
    requires t.phase.Delivering? && Follows(w.history, t.cursor, t.phase.pending)
    ensures var p := t.phase.pending;
            Leads(With(w, id, t), Deliveries(id, |p|),
                  With(w, id, Tailer(t.after, t.cursor + |p|, t.delivered + p, Delivering(t.phase.seen, []))))
    decreases |t.phase.pending|
  {
    var p := t.phase.pending;
    if p == [] {
      assert t.delivered + p == t.delivered;
    } else {
      var next := Advanced(w, t, Deliver(id));
      assert p[0].seqNo == t.cursor + 1 && next.delivered + p[1..] == t.delivered + p;
      BatchIsDelivered(w, id, next);
      LeadsFirst(w, id, t, Deliver(id), Deliveries(id, |p| - 1),
                 With(w, id, Tailer(t.after, t.cursor + |p|, t.delivered + p, Delivering(t.phase.seen, []))));
    }
  }

  lemma LeadsByTwo(w: World, id: nat, t: Tailer, a: Step, b: Step)
    requires Own(a, t) && a.id == id && Own(b, Advanced(w, t, a)) && b.id == id
    ensures Leads(With(w, id, t), [a, b], With(w, id, Advanced(w, Advanced(w, t, a), b)))
  {
    var mid := Advanced(w, t, a);
    LeadsByOwn(w, id, t, a);
    LeadsByOwn(w, id, mid, b);
    LeadsOn(With(w, id, t), [a], With(w, id, mid), [b], With(w, id, Advanced(w, mid, b)));
    assert [a] + [b] == [a, b];
  }

  /** A tailer whose cursor is below the floor when its loop comes round is told so, and delivers nothing. */
  lemma TooOldATurnExpires(w: World, id: nat)
    requires Inv(w) && In(w, id, Top) && w.tailers[id].cursor < w.chat.floor
    ensures Leads(w, [ReadVersion(id), Query(id)], With(w, id, w.tailers[id].(phase := Expired)))
  {
    var t := w.tailers[id];
    assert With(w, id, t) == w by {
      assert w.tailers[id := t] == w.tailers;
    }
    LeadsByTwo(w, id, t, ReadVersion(id), Query(id));
    ReplayIsConsecutive(w.chat, t.cursor);
  }

  lemma TurnReads(w: World, id: nat) returns (rows: seq<Numbered>, opening: seq<Step>, read: World)
    requires Inv(w) && In(w, id, Top) && w.tailers[id].cursor >= w.chat.floor
    ensures var t := w.tailers[id];
            && |rows| == Max(0, w.chat.latest - t.cursor) && Follows(w.history, t.cursor, rows)
            && read == With(w, id, t.(phase := Delivering(w.version, rows)))
    ensures opening == [ReadVersion(id), Query(id)] && Leads(w, opening, read)
  {
    opening := [ReadVersion(id), Query(id)];
    var t := w.tailers[id];
    assert Exact(w, t);
    assert With(w, id, t) == w by {
      assert w.tailers[id := t] == w.tailers;
    }
    ReplayIsConsecutive(w.chat, t.cursor);
    QueryReadsAll(w, t);
    rows := Replay(w.chat, t.cursor, None).value;
    read := With(w, id, t.(phase := Delivering(w.version, rows)));
    LeadsByTwo(w, id, t, ReadVersion(id), Query(id));
  }

  lemma TurnSettles(w: World, id: nat, t: Tailer, sent: World) returns (closing: seq<Step>, end: World)
    requires t.phase == Delivering(w.version, []) && t.cursor >= w.chat.latest && sent == With(w, id, t)
    ensures closing == [ReadLatest(id), Settle(id)] && Leads(sent, closing, end)
    ensures end == With(w, id, Tailer(t.after, t.cursor, t.delivered, if w.closed then Ended else Waiting))
  {
    closing := [ReadLatest(id), Settle(id)];
    end := With(w, id, Tailer(t.after, t.cursor, t.delivered, if w.closed then Ended else Waiting));
    LeadsByTwo(w, id, t, ReadLatest(id), Settle(id));
  }

  /**
   * Undisturbed, a tailer whose cursor is retained delivers in one turn all there is after its cursor, and then ends
   * if the log is closed and waits if it is not.
   */
  lemma OneTurnCatchesUp(w: World, id: nat) returns (rows: seq<Numbered>, turn: seq<Step>, end: World)
    requires Inv(w) && In(w, id, Top) && w.tailers[id].cursor >= w.chat.floor
    ensures var t := w.tailers[id];
            && |rows| == Max(0, w.chat.latest - t.cursor) && Follows(w.history, t.cursor, rows)
            && end == With(w, id, Tailer(t.after, t.cursor + |rows|, t.delivered + rows,
                                         if w.closed then Ended else Waiting))
    ensures turn == [ReadVersion(id), Query(id)] + Deliveries(id, |rows|) + [ReadLatest(id), Settle(id)]
    ensures Leads(w, turn, end)
  {
    var t := w.tailers[id];
    var following, opening, read := TurnReads(w, id);
    rows := following;
    var t2 := Tailer(t.after, t.cursor + |rows|, t.delivered + rows, Delivering(w.version, []));
    var sent := With(w, id, t2);
    var closing, settled := TurnSettles(w, id, t2, sent);
    TurnIsJoined(w, id, opening, t.(phase := Delivering(w.version, rows)), read, t2, sent, closing, settled);
    turn, end := opening + Deliveries(id, |rows|) + closing, settled;
  }

  lemma LeadsOnTwice(w: World, a: seq<Step>, v: World, b: seq<Step>, u: World, c: seq<Step>, end: World)
    requires Leads(w, a, v) && Leads(v, b, u) && Leads(u, c, end)
    ensures Leads(w, a + b + c, end)
  {
    LeadsOn(w, a, v, b, u);
    LeadsOn(w, a + b, u, c, end);
  }

  lemma TurnIsJoined(w: World, id: nat, opening: seq<Step>, t1: Tailer, read: World, t2: Tailer, sent: World,
                     closing: seq<Step>, end: World)
    requires Leads(w, opening, read) && read == With(w, id, t1) && sent == With(w, id, t2)
    requires t1.phase.Delivering? && Follows(w.history, t1.cursor, t1.phase.pending)
    requires var p := t1.phase.pending;
             t2 == Tailer(t1.after, t1.cursor + |p|, t1.delivered + p, Delivering(t1.phase.seen, []))
    requires Leads(sent, closing, end)
    ensures Leads(w, opening + Deliveries(id, |t1.phase.pending|) + closing, end)
  {
    BatchIsDelivered(w, id, t1);
    LeadsOnTwice(w, opening, read, Deliveries(id, |t1.phase.pending|), sent, closing, end);
  }

  /** A wake-up brings every waiting tailer back to the top of its loop, and a time-out the one. */
  lemma WakingIsToTheTop(w: World, step: Step, id: nat)
    requires Enabled(w, step) && In(w, id, Waiting) && (step.Fire? || step == Timeout(id))
    ensures id in Apply(w, step).tailers && Apply(w, step).tailers[id] == w.tailers[id].(phase := Top)
  {
  }

  /** A tailer that has neither ended nor expired always has a next step of its own, and can always be cancelled. */
  lemma NoTailerIsStuck(w: World, id: nat)
    requires id in w.tailers
    ensures match w.tailers[id].phase
            case Asking => Enabled(w, Ask(id))
            case Top => Enabled(w, ReadVersion(id))
            case Versioned(_) => Enabled(w, Query(id))
            case Delivering(_, pending) => Enabled(w, if pending != [] then Deliver(id) else ReadLatest(id))
            case Checked(_, _) => Enabled(w, Settle(id))
            case Waiting => Enabled(w, Timeout(id))
            case _ => true
    ensures Enabled(w, Cancel(id))
  {
  }

  /** A tailer is changed by its own steps only, but for a wake-up; cancelled, it is gone. */
  lemma StepTouches(w: World, step: Step, id: nat)
    requires Enabled(w, step) && id in w.tailers
    ensures step == Cancel(id) ==> id !in Apply(w, step).tailers
    ensures step != Cancel(id) ==>
              && id in Apply(w, step).tailers
              && var t, t' := w.tailers[id], Apply(w, step).tailers[id];
                 || (!Writes(step) && !step.Start? && step.id == id) || t' == t
                 || (t.phase.Waiting? && step.Fire? && t' == t.(phase := Top))
  {
  }

  /** A writer that has committed always goes on to load, store and wake, one after the other, and is then done. */
  lemma NoWriterIsStuck(w: World, j: nat)
    requires j in w.jobs
    ensures match w.jobs[j]
            case Committed =>
              Enabled(w, Load(j)) && Apply(w, Load(j)) == w.(jobs := w.jobs[j := Loaded(w.version)])
            case Loaded(v) =>
              Enabled(w, Store(j)) && Apply(w, Store(j)) == w.(version := v + 1, jobs := w.jobs[j := Scheduled])
            case Scheduled =>
              Enabled(w, Fire(j)) && Apply(w, Fire(j)).jobs == w.jobs - {j}
              && Apply(w, Fire(j)).version == w.version && Apply(w, Fire(j)).chat == w.chat
  {
  }

  /** A commit that bumps leaves a writer to do so; one that does not, like a deletion mark, leaves none. */
  lemma OnlyBumpsAreInFlight(w: World, j: nat, c: Chat, history: seq<Event>, bumps: bool)
    requires Enabled(w, Commit(j, c, history, bumps))
    ensures Apply(w, Commit(j, c, history, bumps)).jobs.Keys == w.jobs.Keys + (if bumps then {j} else {})
    ensures c.latest > w.chat.latest ==> bumps
  {
  }

  // --- an ended tailer

  /** A tailer ends exactly when its log is closed by then and it has delivered what it last read to be the latest. */
  lemma EndsExactly(w: World, id: nat)
    requires Enabled(w, Settle(id))
    ensures var t := w.tailers[id];
            Apply(w, Settle(id)).tailers[id].phase.Ended? <==> w.closed && t.cursor >= t.phase.latest
  {
  }

  /** Between its reading of the latest number and its look at the closed flag nothing else happens to a tailer. */
  ghost predicate OnlyOthers(steps: seq<Step>, id: nat, i: int, n: int) {
    forall k | i < k < n && 0 <= k < |steps| ::
      Writes(steps[k]) || steps[k].Start? || steps[k].id != id
  }

  lemma OthersLeaveChecked(w: World, step: Step, id: nat)
    requires Enabled(w, step) && id in w.tailers && w.tailers[id].phase.Checked?
    requires Writes(step) || step.Start? || step.id != id
    ensures id in Apply(w, step).tailers && Apply(w, step).tailers[id] == w.tailers[id]
  {
  }

  lemma {:induction false} CheckedIsTheReading(ws: seq<World>, steps: seq<Step>, i: nat, n: nat, id: nat)
    requires Trace(ws, steps) && i < n < |ws| && steps[i] == ReadLatest(id) && OnlyOthers(steps, id, i, n)
    ensures id in ws[n].tailers && ws[n].tailers[id].phase.Checked? && id in ws[i].tailers
    ensures ws[n].tailers[id].phase.latest == ws[i].chat.latest && ws[n].tailers[id].cursor == ws[i].tailers[id].cursor
    decreases n
  {
    assert Goes(ws, steps, n - 1);
    if n > i + 1 {
      CheckedIsTheReading(ws, steps, i, n - 1, id);
      OthersLeaveChecked(ws[n - 1], steps[n - 1], id);
    }
  }

  /**
   * In every run: a tailer that settles after reading the latest number at moment i ends without some event exactly
   * when the log is closed by then, it had delivered all there was at moment i, and more has been numbered since.
   */
  lemma EndsIncompleteIff(ws: seq<World>, steps: seq<Step>, i: nat, n: nat, id: nat)
    requires Trace(ws, steps) && i < n < |steps| && steps[i] == ReadLatest(id) && steps[n] == Settle(id)
    requires OnlyOthers(steps, id, i, n)
    ensures id in ws[n + 1].tailers && id in ws[i].tailers
    ensures var t, read := ws[n + 1].tailers[id], ws[i].chat.latest;
            t.phase.Ended? && t.cursor < ws[n + 1].chat.latest <==>
            ws[n].closed && read <= ws[i].tailers[id].cursor < ws[n].chat.latest
  {
    CheckedIsTheReading(ws, steps, i, n, id);
    assert Goes(ws, steps, n);
  }

  lemma MissingSteps(w: World, id: nat, t: Tailer, c: Chat, history: seq<Event>, j: nat, k: nat)
    requires t.phase == Checked(w.version, w.chat.latest) && t.cursor >= w.chat.latest
    requires j != k && j !in w.jobs && k !in w.jobs && Commits(w, c, history)
    ensures Leads(With(w, id, t), [Commit(j, c, history, true), Close(k)] + [Settle(id)],
                  With(w, id, t.(phase := Ended)).(chat := c, history := history, closed := true,
                                                   jobs := w.jobs[j := Committed][k := Committed]))
  {
    var v := With(w, id, t);
    var v1 := Apply(v, Commit(j, c, history, true));
    var v2 := Apply(v1, Close(k));
    assert v2 == With(v2, id, t) by {
      assert v2.tailers[id := t] == v2.tailers;
    }
    LeadsByOne(v, Commit(j, c, history, true));
    LeadsByOne(v1, Close(k));
    LeadsOn(v, [Commit(j, c, history, true)], v1, [Close(k)], v2);
    assert [Commit(j, c, history, true)] + [Close(k)] == [Commit(j, c, history, true), Close(k)];
    LeadsByOwn(v2, id, t, Settle(id));
    LeadsOn(v, [Commit(j, c, history, true), Close(k)], v2, [Settle(id)], With(v2, id, t.(phase := Ended)));
    assert v2.tailers[id := t.(phase := Ended)] == w.tailers[id := t.(phase := Ended)];
  }

  /** And it can: a commit and the closing between a caught-up tailer's reading and its settling end it one short. */
  lemma EndedTailerCanMiss(w: World, id: nat, c: Chat, history: seq<Event>, j: nat, k: nat) returns (end: World)
    requires Inv(w) && In(w, id, Top) && !w.closed && w.tailers[id].cursor == w.chat.latest
    requires j != k && j !in w.jobs && k !in w.jobs && Commits(w, c, history) && c.latest > w.chat.latest
    ensures Leads(w, [ReadVersion(id), Query(id)] + [ReadLatest(id)]
                     + ([Commit(j, c, history, true), Close(k)] + [Settle(id)]), end)
    ensures id in end.tailers && end.tailers[id].phase.Ended? && end.tailers[id].cursor < end.chat.latest
  {
    var t := w.tailers[id];
    var rows, opening, read := TurnReads(w, id);
    var t1 := t.(phase := Delivering(w.version, []));
    assert read == With(w, id, t1);
    LeadsByOwn(w, id, t1, ReadLatest(id));
    var t2 := t.(phase := Checked(w.version, w.chat.latest));
    MissingSteps(w, id, t2, c, history, j, k);
    end := With(w, id, t2.(phase := Ended)).(chat := c, history := history, closed := true,
                                             jobs := w.jobs[j := Committed][k := Committed]);
    LeadsOnTwice(w, [ReadVersion(id), Query(id)], With(w, id, t1), [ReadLatest(id)], With(w, id, t2),
                 [Commit(j, c, history, true), Close(k)] + [Settle(id)], end);
  }
}

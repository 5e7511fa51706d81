/**
 * Any number of tailers of one stored chat beside any number of writers. A tailer runs on the event loop but reads the
 * database from a worker thread; a writer commits, then bumps the version counter, then has the wake-up flag set on the
 * loop, each as a step of its own. The increment itself is a load and a store. A deletion mark bumps nothing.
 */
module ChatTailers {
  import opened Basics
  import opened ChatStore

  /**
   * Asking: about to compare a cursor with the latest number; Top: top of the loop; Versioned: the version is read;
   * Delivering: the replayed rows are being handed out; Checked: the latest number is re-read; Waiting: blocked.
   */
  datatype Phase =
    | Asking
    | Top
    | Versioned(seen: int)
    | Delivering(seen: int, pending: seq<Numbered>)
    | Checked(seen: int, latest: int)
    | Waiting
    | Ended
    | Expired

  datatype Tailer = Tailer(after: int, cursor: int, delivered: seq<Numbered>, phase: Phase)

  /** A writer after its commit: version not touched, version read, or wake-up scheduled on the loop. */
  datatype Job = Committed | Loaded(version: int) | Scheduled

  /** `history[n - 1]` is the event ever numbered n, retained or not. */
  datatype World = World(chat: Chat, history: seq<Event>, version: int, closed: bool,
                         tailers: map<nat, Tailer>, jobs: map<nat, Job>)

  datatype Step =
    | Commit(job: nat, chat: Chat, history: seq<Event>, bumps: bool)
    | Close(job: nat)
    | Load(job: nat)
    | Store(job: nat)
    | Fire(job: nat)
    | Start(id: nat, after: int, rejectFuture: bool)
    | Ask(id: nat)
    | ReadVersion(id: nat)
    | Query(id: nat)
    | Deliver(id: nat)
    | ReadLatest(id: nat)
    | Settle(id: nat)
    | Timeout(id: nat)
    | Cancel(id: nat)

  ghost predicate Records(history: seq<Event>, c: Chat) {
    |history| == c.latest && forall n | n in c.events && 1 <= n <= |history| :: c.events[n] == history[n - 1]
  }

  /** Any transaction of the store on this chat, bumped or not: numbers are only added, the floor only rises. */
  ghost predicate Commits(w: World, c: Chat, history: seq<Event>) {
    Retained(c) && Extends(w.chat, c) && w.history <= history && Records(history, c)
  }

  predicate In(w: World, id: nat, phase: Phase) {
    id in w.tailers && w.tailers[id].phase == phase
  }

  ghost predicate Enabled(w: World, step: Step) {
    match step
    case Commit(j, c, h, bumps) => j !in w.jobs && Commits(w, c, h) && (c.latest > w.chat.latest ==> bumps)
    case Close(j) => j !in w.jobs
    case Load(j) => j in w.jobs && w.jobs[j].Committed?
    case Store(j) => j in w.jobs && w.jobs[j].Loaded?
    case Fire(j) => j in w.jobs && w.jobs[j].Scheduled?
    case Start(id, _, _) => id !in w.tailers
    case Ask(id) => In(w, id, Asking)
    case ReadVersion(id) => In(w, id, Top)
    case Query(id) => id in w.tailers && w.tailers[id].phase.Versioned?
    case Deliver(id) => id in w.tailers && w.tailers[id].phase.Delivering? && w.tailers[id].phase.pending != []
    case ReadLatest(id) => id in w.tailers && w.tailers[id].phase.Delivering? && w.tailers[id].phase.pending == []
    case Settle(id) => id in w.tailers && w.tailers[id].phase.Checked?
    case Timeout(id) => In(w, id, Waiting)
    case Cancel(id) => id in w.tailers
  }

  function Woken(t: Tailer): Tailer {
    if t.phase.Waiting? then t.(phase := Top) else t
  }

  /** The next state of a tailer that takes a step of its own. */
  function Advanced(w: World, t: Tailer, step: Step): Tailer
    requires step.ReadLatest? || step.Query? ==> t.phase.Versioned? || t.phase.Delivering?
    requires step.Deliver? ==> t.phase.Delivering? && t.phase.pending != []
    requires step.Query? ==> t.phase.Versioned?
    requires step.Settle? ==> t.phase.Checked?
  {
    match step
    case Ask(_) => t.(phase := if t.after > w.chat.latest then Expired else Top)
    case ReadVersion(_) => t.(phase := Versioned(w.version))
    case Query(_) =>
      var rows := Replay(w.chat, t.cursor, None);
      t.(phase := if rows.Err? then Expired else Delivering(t.phase.seen, rows.value))
    case Deliver(_) =>
      var p := t.phase.pending;
      Tailer(t.after, p[0].seqNo, t.delivered + [p[0]], Delivering(t.phase.seen, p[1..]))
    case ReadLatest(_) => t.(phase := Checked(t.phase.seen, w.chat.latest))
    case Settle(_) =>
      if w.closed && t.cursor >= t.phase.latest then t.(phase := Ended)
      else t.(phase := if w.version == t.phase.seen then Waiting else Top)
    case Timeout(_) => t.(phase := Top)
    case _ => t
  }

  ghost function Apply(w: World, step: Step): World
    requires Enabled(w, step)
  {
    match step
    case Commit(j, c, h, bumps) =>
      w.(chat := c, history := h, jobs := if bumps then w.jobs[j := Committed] else w.jobs)
    case Close(j) => w.(closed := true, jobs := w.jobs[j := Committed])
    case Load(j) => w.(jobs := w.jobs[j := Loaded(w.version)])
    case Store(j) => w.(version := w.jobs[j].version + 1, jobs := w.jobs[j := Scheduled])
    case Fire(j) => w.(jobs := w.jobs - {j}, tailers := map id | id in w.tailers :: Woken(w.tailers[id]))
    case Start(id, after, rejectFuture) =>
      w.(tailers := w.tailers[id := Tailer(after, after, [], if rejectFuture then Asking else Top)])
    case Cancel(id) => w.(tailers := w.tailers - {id})
    case _ => w.(tailers := w.tailers[step.id := Advanced(w, w.tailers[step.id], step)])
  }

  ghost predicate Initial(w: World) {
    Retained(w.chat) && Records(w.history, w.chat) && w.tailers == map[] && w.jobs == map[]
  }

  ghost predicate Goes(ws: seq<World>, steps: seq<Step>, i: int) {
    0 <= i < |steps| && |ws| == |steps| + 1 && Enabled(ws[i], steps[i]) && ws[i + 1] == Apply(ws[i], steps[i])
  }

  /** A run: the states passed through and the steps between them. */
  ghost predicate Trace(ws: seq<World>, steps: seq<Step>) {
    && |ws| == |steps| + 1 && Initial(ws[0])
    && forall i | 0 <= i < |steps| :: Goes(ws, steps, i)
  }

  // --- what every tailer delivers

  /** `part` holds the events numbered from+1, from+2, ... */
  ghost predicate Follows(history: seq<Event>, from: int, part: seq<Numbered>) {
    part != [] ==> 0 <= from && from + |part| <= |history| &&
                   forall i | 0 <= i < |part| :: part[i] == Numbered(from + 1 + i, history[from + i])
  }

  /** A tailer has delivered exactly after+1, after+2, ..., cursor. */
  ghost predicate Faithful(w: World, t: Tailer) {
    t.cursor == t.after + |t.delivered| && Follows(w.history, t.after, t.delivered)
  }

  /** What a batch holds, in any run: the events that follow the cursor. */
  ghost predicate Batched(w: World, t: Tailer) {
    && (t.phase.Delivering? ==> Follows(w.history, t.cursor, t.phase.pending))
    && (t.phase.Checked? ==> t.phase.latest <= w.chat.latest)
  }

  ghost predicate Exact(w: World, t: Tailer) {
    && Faithful(w, t) && Batched(w, t)
    && (t.phase.Asking? ==> t.delivered == [])
    && (t.phase.Expired? ==> t.cursor < w.chat.floor || t.delivered == [])
    && (t.phase.Ended? ==> w.closed)
  }

  ghost predicate Inv(w: World) {
    && Retained(w.chat) && Records(w.history, w.chat)
    && forall id | id in w.tailers :: Exact(w, w.tailers[id])
  }

  lemma FollowsGrows(history: seq<Event>, longer: seq<Event>, from: int, part: seq<Numbered>)
    requires Follows(history, from, part) && history <= longer
    ensures Follows(longer, from, part)
  {
  }

  predicate Writes(step: Step) {
    step.Commit? || step.Close? || step.Load? || step.Store? || step.Fire?
  }

  /** A step of a writer leaves every tailer exact. */
  lemma WriterKeepsExact(w: World, step: Step, t: Tailer)
    requires Enabled(w, step) && Exact(w, t) && Writes(step)
    ensures Exact(Apply(w, step), if step.Fire? then Woken(t) else t)
  {
    var w' := Apply(w, step);
    FollowsGrows(w.history, w'.history, t.after, t.delivered);
    if t.phase.Delivering? {
      FollowsGrows(w.history, w'.history, t.cursor, t.phase.pending);
    }
  }

  lemma QueryReadsAll(w: World, t: Tailer)
    requires Inv(w) && Faithful(w, t)
    ensures var rows := Replay(w.chat, t.cursor, None);
            if rows.Err? then t.cursor < w.chat.floor
            else Follows(w.history, t.cursor, rows.value) && t.cursor + |rows.value| >= w.chat.latest
  {
    ReplayIsConsecutive(w.chat, t.cursor);
  }

  /** The step is one this tailer can take. */
  predicate Own(step: Step, t: Tailer) {
    match step
    case Ask(_) => t.phase.Asking?
    case ReadVersion(_) => t.phase.Top?
    case Query(_) => t.phase.Versioned?
    case Deliver(_) => t.phase.Delivering? && t.phase.pending != []
    case ReadLatest(_) => t.phase.Delivering? && t.phase.pending == []
    case Settle(_) => t.phase.Checked?
    case Timeout(_) => t.phase.Waiting?
    case _ => false
  }

  /** A tailer's own step leaves it exact. */
  lemma OwnStepKeepsExact(w: World, step: Step, t: Tailer)
    requires Inv(w) && Exact(w, t) && Own(step, t)
    ensures Exact(w, Advanced(w, t, step))
  {
    match step
    case Query(_) => QueryReadsAll(w, t);
    case Deliver(_) =>
      var p := t.phase.pending;
      assert p[0] == Numbered(t.cursor + 1, w.history[t.cursor]);
    case _ =>
  }

  /** Exactness does not depend on the other tailers. */
  lemma ExactBeside(w: World, tailers: map<nat, Tailer>, t: Tailer)
    requires Exact(w, t)
    ensures Exact(w.(tailers := tailers), t)
  {
  }

  /** A step that is no writer's changes the tailers only, and of them only its own. */
  lemma TailerStep(w: World, step: Step, id: nat)
    requires Enabled(w, step) && !Writes(step) && id in w.tailers && id in Apply(w, step).tailers
    ensures Apply(w, step) == w.(tailers := Apply(w, step).tailers)
    ensures if Own(step, w.tailers[id]) && step.id == id
            then Apply(w, step).tailers[id] == Advanced(w, w.tailers[id], step)
            else Apply(w, step).tailers[id] == w.tailers[id]
  {
  }

  lemma StepKeepsExact(w: World, step: Step, id: nat)
    requires Inv(w) && Enabled(w, step) && id in w.tailers && id in Apply(w, step).tailers
    ensures Exact(Apply(w, step), Apply(w, step).tailers[id])
  {
    var t := w.tailers[id];
    assert Exact(w, t);
    if Writes(step) {
      WriterKeepsExact(w, step, t);
    } else {
      TailerStep(w, step, id);
      if Own(step, t) && step.id == id {
        OwnStepKeepsExact(w, step, t);
        ExactBeside(w, Apply(w, step).tailers, Advanced(w, t, step));
      } else {
        ExactBeside(w, Apply(w, step).tailers, t);
      }
    }
  }

  lemma StepKeepsInv(w: World, step: Step)
    requires Inv(w) && Enabled(w, step)
    ensures Inv(Apply(w, step))
  {
    var w' := Apply(w, step);
    forall id | id in w'.tailers
      ensures Exact(w', w'.tailers[id])
    {
      if id in w.tailers {
        StepKeepsExact(w, step, id);
      }
    }
  }

  lemma {:induction false} RunKeepsInv(ws: seq<World>, steps: seq<Step>, n: nat)
    requires Trace(ws, steps) && n < |ws|
    ensures Inv(ws[n])
  {
    if n > 0 {
      RunKeepsInv(ws, steps, n - 1);
      assert Goes(ws, steps, n - 1);
      StepKeepsInv(ws[n - 1], steps[n - 1]);
    }
  }

  /**
   * In every run each tailer has delivered exactly the events numbered after+1 .. cursor; it has ended only once the
   * log was closed, and expired only with its cursor below the floor or without having delivered anything.
   */
  lemma TailersNeverMissAnEvent(ws: seq<World>, steps: seq<Step>, n: nat, id: nat)
    requires Trace(ws, steps) && n < |ws| && id in ws[n].tailers
    ensures var w, t := ws[n], ws[n].tailers[id];
            && t.cursor == t.after + |t.delivered|
            && (t.delivered != [] ==> 0 <= t.after && t.cursor <= |w.history| == w.chat.latest)
            && (forall i | 0 <= i < |t.delivered| ::
                  t.delivered[i] == Numbered(t.after + 1 + i, w.history[t.after + i]))
            && (t.phase.Ended? ==> w.closed)
            && (t.phase.Expired? ==> t.cursor < w.chat.floor || t.delivered == [])
  {
    RunKeepsInv(ws, steps, n);
    assert Exact(ws[n], ws[n].tailers[id]);
  }

  // --- who wakes a waiting tailer

  /** A tailer sleeps although it is behind or its log is closed, and nothing is in flight that would wake it. */
  ghost predicate Lost(w: World) {
    && w.jobs == map[]
    && exists id ::
         id in w.tailers && w.tailers[id].phase.Waiting? && (w.tailers[id].cursor < w.chat.latest || w.closed)
  }

  ghost predicate StoodAt(ws: seq<World>, i: int, version: int, bound: int) {
    0 <= i < |ws| && ws[i].version == version && ws[i].chat.latest <= bound
  }

  /** At some point up to n the counter had this value and the latest number was at most `bound`. */
  ghost predicate Stood(ws: seq<World>, n: int, version: int, bound: int) {
    exists i :: i <= n && StoodAt(ws, i, version, bound)
  }

  /**
   * The counter has, with no writer between commit and wake-up, a value it already had before a later-numbered commit.
   */
  ghost predicate Returned(ws: seq<World>, n: nat)
    requires n < |ws|
  {
    ws[n].jobs == map[] && Stood(ws, n, ws[n].version, ws[n].chat.latest - 1)
  }

  /** What a tailer has read was read at or after a moment when the counter had the value it remembers. */
  ghost predicate Remembers(ws: seq<World>, n: nat, t: Tailer)
    requires n < |ws|
  {
    match t.phase
    case Versioned(seen) => Stood(ws, n, seen, ws[n].chat.latest)
    case Delivering(seen, pending) => Stood(ws, n, seen, t.cursor + |pending|)
    case Checked(seen, _) => Stood(ws, n, seen, t.cursor)
    case Waiting =>
      ws[n].jobs != map[] || (Stood(ws, n, ws[n].version, t.cursor) && (ws[n].closed ==> t.cursor < ws[n].chat.latest))
    case _ => true
  }

  lemma StoodGrows(ws: seq<World>, n: int, version: int, bound: int, m: int, larger: int)
    requires Stood(ws, n, version, bound) && n <= m && bound <= larger
    ensures Stood(ws, m, version, larger)
  {
    var i :| i <= n && StoodAt(ws, i, version, bound);
    assert StoodAt(ws, i, version, larger);
  }

  lemma StandsNow(ws: seq<World>, n: nat)
    requires n < |ws|
    ensures Stood(ws, n, ws[n].version, ws[n].chat.latest)
  {
    assert StoodAt(ws, n, ws[n].version, ws[n].chat.latest);
  }

  /** While another takes a step, or a writer, what a tailer remembers stays true. */
  lemma OthersKeepMemory(ws: seq<World>, steps: seq<Step>, n: nat, t: Tailer)
    requires Goes(ws, steps, n) && Remembers(ws, n, t)
    requires steps[n].Fire? ==> !t.phase.Waiting?
    ensures Remembers(ws, n + 1, t)
  {
    var w, w' := ws[n], ws[n + 1];
    match t.phase
    case Versioned(seen) => StoodGrows(ws, n, seen, w.chat.latest, n + 1, w'.chat.latest);
    case Delivering(seen, pending) => StoodGrows(ws, n, seen, t.cursor + |pending|, n + 1, t.cursor + |pending|);
    case Checked(seen, _) => StoodGrows(ws, n, seen, t.cursor, n + 1, t.cursor);
    case Waiting =>
      assert steps[n].Close? || (steps[n].Commit? && steps[n].bumps) ==> steps[n].job in w'.jobs;
      assert steps[n].Load? || steps[n].Store? ==> steps[n].job in w'.jobs;
      if w'.jobs == map[] {
        StoodGrows(ws, n, w.version, t.cursor, n + 1, t.cursor);
      }
    case _ =>
  }

  lemma QueryKeepsMemory(ws: seq<World>, n: nat, t: Tailer, seen: int)
    requires n < |ws| && Inv(ws[n]) && Faithful(ws[n], t) && Stood(ws, n, seen, ws[n].chat.latest)
    ensures var rows := Replay(ws[n].chat, t.cursor, None);
            rows.Ok? ==> Stood(ws, n + 1, seen, t.cursor + |rows.value|)
  {
    QueryReadsAll(ws[n], t);
    var rows := Replay(ws[n].chat, t.cursor, None);
    if rows.Ok? {
      StoodGrows(ws, n, seen, ws[n].chat.latest, n + 1, t.cursor + |rows.value|);
    }
  }

  lemma OwnStepKeepsMemory(ws: seq<World>, steps: seq<Step>, n: nat, t: Tailer)
    requires Goes(ws, steps, n) && Inv(ws[n]) && Exact(ws[n], t) && Remembers(ws, n, t) && Own(steps[n], t)
    ensures Remembers(ws, n + 1, Advanced(ws[n], t, steps[n]))
  {
    var w, w' := ws[n], ws[n + 1];
    assert w'.chat == w.chat && w'.version == w.version && w'.closed == w.closed && w'.jobs == w.jobs;
    match steps[n]
    case ReadVersion(_) => StandsNow(ws, n + 1);
    case Query(_) => QueryKeepsMemory(ws, n, t, t.phase.seen);
    case Deliver(_) =>
      var p := t.phase.pending;
      assert p[0] == Numbered(t.cursor + 1, w.history[t.cursor]);
      StoodGrows(ws, n, t.phase.seen, t.cursor + |p|, n + 1, t.cursor + |p|);
    case ReadLatest(_) => StoodGrows(ws, n, t.phase.seen, t.cursor, n + 1, t.cursor);
    case Settle(_) => StoodGrows(ws, n, t.phase.seen, t.cursor, n + 1, t.cursor);
    case _ =>
  }

  lemma {:induction false} TailersRemember(ws: seq<World>, steps: seq<Step>, n: nat, id: nat)
    requires Trace(ws, steps) && n < |ws| && id in ws[n].tailers
    ensures Remembers(ws, n, ws[n].tailers[id])
  {
    if n > 0 {
      assert Goes(ws, steps, n - 1);
      var w, step := ws[n - 1], steps[n - 1];
      if id in w.tailers {
        var t := w.tailers[id];
        TailersRemember(ws, steps, n - 1, id);
        RunKeepsInv(ws, steps, n - 1);
        assert Exact(w, t);
        if Writes(step) || step.Start? || step.Cancel? || step.id != id {
          if !(step.Fire? && t.phase.Waiting?) {
            OthersKeepMemory(ws, steps, n - 1, t);
          }
        } else {
          OwnStepKeepsMemory(ws, steps, n - 1, t);
        }
      }
    }
  }

  /** In every run, a tailer can be lost only at a moment when the counter has returned. */
  lemma LostOnlyIfReturned(ws: seq<World>, steps: seq<Step>, n: nat)
    requires Trace(ws, steps) && n < |ws| && Lost(ws[n])
    ensures Returned(ws, n)
  {
    var w := ws[n];
    var id :| id in w.tailers && w.tailers[id].phase.Waiting? && (w.tailers[id].cursor < w.chat.latest || w.closed);
    TailersRemember(ws, steps, n, id);
    StoodGrows(ws, n, w.version, w.tailers[id].cursor, n, w.chat.latest - 1);
  }

  // --- a counter that is never lowered does not return

  /** A writer that will bring the counter above `base`. */
  ghost predicate Owed(w: World, base: int) {
    exists j :: j in w.jobs && (w.jobs[j].Committed? || (w.jobs[j].Loaded? && w.jobs[j].version >= base))
  }

  /** The store of an increment does not write less than the counter already holds. */
  ghost predicate Raises(w: World, step: Step) {
    step.Store? && step.job in w.jobs && w.jobs[step.job].Loaded? ==> w.jobs[step.job].version + 1 >= w.version
  }

  ghost predicate Ahead(v: World, w: World) {
    && w.version >= v.version
    && (w.chat.latest > v.chat.latest ==> w.version > v.version || Owed(w, v.version))
  }

  lemma RaisingKeepsAhead(v: World, w: World, step: Step)
    requires Ahead(v, w) && Enabled(w, step) && Raises(w, step)
    ensures Ahead(v, Apply(w, step))
  {
    var w' := Apply(w, step);
    if step.Commit? && step.bumps {
      assert step.job in w'.jobs;
    }
    if Owed(w, v.version) {
      var j :| j in w.jobs && (w.jobs[j].Committed? || (w.jobs[j].Loaded? && w.jobs[j].version >= v.version));
      assert (step.Store? && step.job == j) || (j in w'.jobs && (w'.jobs[j].Committed? || w'.jobs[j].Loaded?));
    }
  }

  lemma {:induction false} RaisingStaysAhead(ws: seq<World>, steps: seq<Step>, i: nat, n: nat)
    requires Trace(ws, steps) && i <= n < |ws| && forall k | 0 <= k < n :: Raises(ws[k], steps[k])
    ensures Ahead(ws[i], ws[n])
    decreases n
  {
    if i < n {
      RaisingStaysAhead(ws, steps, i, n - 1);
      assert Goes(ws, steps, n - 1);
      RaisingKeepsAhead(ws[i], ws[n - 1], steps[n - 1]);
    }
  }

  /** In a run in which no store lowers the counter, no tailer is ever lost. */
  lemma NoLoweringNoLoss(ws: seq<World>, steps: seq<Step>, n: nat)
    requires Trace(ws, steps) && n < |ws| && forall k | 0 <= k < n :: Raises(ws[k], steps[k])
    ensures !Returned(ws, n) && !Lost(ws[n])
  {
    if Returned(ws, n) {
      var i :| i <= n && StoodAt(ws, i, ws[n].version, ws[n].chat.latest - 1);
      RaisingStaysAhead(ws, steps, i, n);
      assert false;
    }
    if Lost(ws[n]) {
      LostOnlyIfReturned(ws, steps, n);
    }
  }

  /** A tailer expires only when its cursor is below the floor, or when it asked and began beyond the latest number. */
  lemma ExpiresOnlyForCause(w: World, step: Step, id: nat)
    requires Enabled(w, step) && (id in w.tailers ==> !w.tailers[id].phase.Expired?)
    requires id in Apply(w, step).tailers && Apply(w, step).tailers[id].phase.Expired?
    ensures id in w.tailers
    ensures var t := w.tailers[id];
            (step == Query(id) && t.cursor < w.chat.floor) || (step == Ask(id) && t.after > w.chat.latest)
  {
  }

  // --- exactly the schedules that can lose a tailer

  /** The writers' part of a run, in order. */
  ghost function Schedule(steps: seq<Step>): seq<Step> {
    if steps == [] then []
    else Schedule(steps[..|steps| - 1]) + if Writes(steps[|steps| - 1]) then [steps[|steps| - 1]] else []
  }

  ghost predicate AllWrite(steps: seq<Step>) {
    forall s | s in steps :: Writes(s)
  }

  /** The state without its tailers; writers neither read nor change them, but for waking the waiters. */
  function Base(w: World): World {
    w.(tailers := map[])
  }

  /** Some run from `start` whose writers do just `schedule`, with any tailers among them, comes to `w`. */
  ghost predicate Led(start: World, schedule: seq<Step>, w: World) {
    exists ws, steps :: Trace(ws, steps) && ws[0] == start && Schedule(steps) == schedule && ws[|steps|] == w
  }

  ghost predicate CanLose(start: World, schedule: seq<Step>) {
    exists w :: Led(start, schedule, w) && Lost(w)
  }

  lemma ScheduleStep(steps: seq<Step>, n: nat)
    requires n < |steps|
    ensures Schedule(steps[..n + 1]) == Schedule(steps[..n]) + if Writes(steps[n]) then [steps[n]] else []
  {
    assert steps[..n + 1][..n] == steps[..n];
  }

  lemma {:induction false} SchedulePrefix(steps: seq<Step>, n: nat)
    requires n <= |steps|
    ensures Schedule(steps[..n]) <= Schedule(steps)
    decreases |steps| - n
  {
    if n == |steps| {
      assert steps[..n] == steps;
    } else {
      ScheduleStep(steps, n);
      SchedulePrefix(steps, n + 1);
    }
  }

  lemma BaseOfStep(w: World, step: Step)
    requires Enabled(w, step)
    ensures Writes(step) ==> Enabled(Base(w), step) && Base(Apply(w, step)) == Apply(Base(w), step)
    ensures !Writes(step) ==> Base(Apply(w, step)) == Base(w)
  {
    if step.Fire? {
      assert Apply(Base(w), step).tailers.Keys == {};
    }
  }

  lemma EnabledByBase(v: World, w: World, step: Step)
    requires Base(v) == Base(w) && Writes(step) && Enabled(v, step)
    ensures Enabled(w, step) && Base(Apply(v, step)) == Base(Apply(w, step))
  {
    BaseOfStep(v, step);
    assert Enabled(w, step);
    BaseOfStep(w, step);
  }

  /** Runs with the same schedule agree, tailers aside, wherever equally much of it is done. */
  lemma {:induction false} SameScheduleSameBase(ws: seq<World>, steps: seq<Step>, vs: seq<World>, schedule: seq<Step>,
                                                n: nat)
    requires Trace(ws, steps) && Trace(vs, schedule) && ws[0] == vs[0] && n <= |steps|
    requires Schedule(steps[..n]) <= schedule && AllWrite(schedule)
    ensures Base(ws[n]) == Base(vs[|Schedule(steps[..n])|])
    decreases n
  {
    if n > 0 {
      ScheduleStep(steps, n - 1);
      var k := |Schedule(steps[..n - 1])|;
      SameScheduleSameBase(ws, steps, vs, schedule, n - 1);
      assert Goes(ws, steps, n - 1);
      if Writes(steps[n - 1]) {
        assert schedule[k] == Schedule(steps[..n])[k] == steps[n - 1];
        assert Goes(vs, schedule, k);
        EnabledByBase(ws[n - 1], vs[k], steps[n - 1]);
      } else {
        BaseOfStep(ws[n - 1], steps[n - 1]);
      }
    }
  }

  /** Where in the schedule a point of such a run is. */
  lemma PlaceInSchedule(ws: seq<World>, steps: seq<Step>, vs: seq<World>, schedule: seq<Step>, i: nat) returns (k: nat)
    requires Trace(ws, steps) && Trace(vs, schedule) && ws[0] == vs[0] && i <= |steps|
    requires Schedule(steps) == schedule && AllWrite(schedule)
    ensures k <= |schedule| && Base(ws[i]) == Base(vs[k]) && (i == |steps| ==> k == |schedule|)
  {
    SchedulePrefix(steps, i);
    SameScheduleSameBase(ws, steps, vs, schedule, i);
    k := |Schedule(steps[..i])|;
    if i == |steps| {
      assert steps[..i] == steps;
    }
  }

  lemma ReturnedInSchedule(ws: seq<World>, steps: seq<Step>, vs: seq<World>, schedule: seq<Step>)
    requires Trace(ws, steps) && Trace(vs, schedule) && ws[0] == vs[0]
    requires Schedule(steps) == schedule && AllWrite(schedule) && Returned(ws, |steps|)
    ensures Returned(vs, |schedule|)
  {
    var version, bound := ws[|steps|].version, ws[|steps|].chat.latest - 1;
    var i :| i <= |steps| && StoodAt(ws, i, version, bound);
    var m := PlaceInSchedule(ws, steps, vs, schedule, |steps|);
    var k := PlaceInSchedule(ws, steps, vs, schedule, i);
    assert StoodAt(vs, k, version, bound);
  }

  /** If some run with this schedule loses a tailer, the counter has returned at its end. */
  lemma LosingScheduleReturns(vs: seq<World>, schedule: seq<Step>)
    requires Trace(vs, schedule) && AllWrite(schedule) && CanLose(vs[0], schedule)
    ensures Returned(vs, |schedule|)
  {
    var w :| Led(vs[0], schedule, w) && Lost(w);
    var ws, steps :| Trace(ws, steps) && ws[0] == vs[0] && Schedule(steps) == schedule && ws[|steps|] == w;
    LostOnlyIfReturned(ws, steps, |steps|);
    ReturnedInSchedule(ws, steps, vs, schedule);
  }

  lemma LedStart(w: World)
    requires Initial(w)
    ensures Led(w, [], w)
  {
    assert Trace([w], []) && [w][0] == w && Schedule([]) == [];
  }

  /** A run continued by one step. */
  lemma LedStep(start: World, schedule: seq<Step>, w: World, step: Step, next: World)
    requires Led(start, schedule, w) && Enabled(w, step) && Apply(w, step) == next
    ensures Led(start, schedule + (if Writes(step) then [step] else []), next)
  {
    var ws, steps :| Trace(ws, steps) && ws[0] == start && Schedule(steps) == schedule && ws[|steps|] == w;
    var ws', steps' := ws + [next], steps + [step];
    forall i | 0 <= i < |steps'|
      ensures Goes(ws', steps', i)
    {
      assert i < |steps| ==> Goes(ws, steps, i);
    }
    assert steps'[..|steps|] == steps;
    assert Trace(ws', steps') && ws'[0] == start && ws'[|steps'|] == next;
  }

  /** A lone tailer that started after number `after` and has read nothing yet. */
  function Idle(after: int, phase: Phase): map<nat, Tailer> {
    map[0 := Tailer(after, after, [], phase)]
  }

  lemma {:induction false} WritersHaveNoTailers(vs: seq<World>, schedule: seq<Step>, n: nat)
    requires Trace(vs, schedule) && AllWrite(schedule) && n < |vs|
    ensures vs[n].tailers == map[]
  {
    if n > 0 {
      assert Goes(vs, schedule, n - 1) && Writes(schedule[n - 1]);
      WritersHaveNoTailers(vs, schedule, n - 1);
    }
  }

  ghost predicate NoneWaits(tailers: map<nat, Tailer>) {
    forall id | id in tailers :: !tailers[id].phase.Waiting?
  }

  lemma WakingNoneIsIdle(tailers: map<nat, Tailer>)
    requires NoneWaits(tailers)
    ensures (map id | id in tailers :: Woken(tailers[id])) == tailers
  {
  }

  /** A writer's step is the same beside tailers that stand by, and leaves them alone. */
  lemma WriterBesideTailers(v: World, step: Step, tailers: map<nat, Tailer>)
    requires Enabled(v, step) && Writes(step) && NoneWaits(tailers)
    ensures var w := v.(tailers := tailers);
            Enabled(w, step) && Apply(w, step) == Apply(v, step).(tailers := tailers)
  {
    var w := v.(tailers := tailers);
    match step
    case Commit(_, _, _, _) => assert Commits(v, step.chat, step.history) <==> Commits(w, step.chat, step.history);
    case Close(_) =>
    case Load(_) =>
    case Store(_) =>
    case Fire(_) => WakingNoneIsIdle(tailers);
    case _ =>
  }

  /** One step of the schedule beside such tailers. */
  lemma LedOneBeside(start: World, schedule: seq<Step>, v: World, step: Step, tailers: map<nat, Tailer>)
    requires Led(start, schedule, v.(tailers := tailers)) && Enabled(v, step) && Writes(step) && NoneWaits(tailers)
    ensures Led(start, schedule + [step], Apply(v, step).(tailers := tailers))
  {
    WriterBesideTailers(v, step, tailers);
    LedStep(start, schedule, v.(tailers := tailers), step, Apply(v, step).(tailers := tailers));
  }

  lemma TraceStep(vs: seq<World>, schedule: seq<Step>, k: nat)
    requires Trace(vs, schedule) && AllWrite(schedule) && k < |schedule|
    ensures Enabled(vs[k], schedule[k]) && Writes(schedule[k]) && vs[k + 1] == Apply(vs[k], schedule[k])
    ensures schedule[..k + 1] == schedule[..k] + [schedule[k]]
  {
    assert Goes(vs, schedule, k);
  }

  /** The schedule from one point to another beside tailers that stand by. */
  lemma {:induction false} LedBeside(vs: seq<World>, schedule: seq<Step>, from: nat, k: nat, tailers: map<nat, Tailer>)
    requires Trace(vs, schedule) && AllWrite(schedule) && from <= k <= |schedule| && NoneWaits(tailers)
    requires Led(vs[0], schedule[..from], vs[from].(tailers := tailers))
    ensures Led(vs[0], schedule[..k], vs[k].(tailers := tailers))
    decreases k
  {
    if from < k {
      LedBeside(vs, schedule, from, k - 1, tailers);
      TraceStep(vs, schedule, k - 1);
      LedOneBeside(vs[0], schedule[..k - 1], vs[k - 1], schedule[k - 1], tailers);
    }
  }

  /** A tailer starts where the chat ends and reads nothing. */
  lemma LedToIdle(start: World, schedule: seq<Step>, w: World)
    requires Led(start, schedule, w) && w.tailers == map[] && Retained(w.chat)
    ensures Led(start, schedule, w.(tailers := Idle(w.chat.latest, Delivering(w.version, []))))
  {
    var after := w.chat.latest;
    var w1, w2 := w.(tailers := Idle(after, Top)), w.(tailers := Idle(after, Versioned(w.version)));
    assert schedule + [] == schedule;
    LedStep(start, schedule, w, Start(0, after, false), w1);
    LedStep(start, schedule, w1, ReadVersion(0), w2);
    LedStep(start, schedule, w2, Query(0), w.(tailers := Idle(after, Delivering(w.version, []))));
  }

  /** And it goes to sleep when the counter shows the value it remembers, however much was numbered since. */
  lemma LedToLost(start: World, schedule: seq<Step>, w: World, after: int)
    requires Led(start, schedule, w) && w.tailers == Idle(after, Delivering(w.version, []))
    requires w.jobs == map[] && after < w.chat.latest
    ensures CanLose(start, schedule)
  {
    assert schedule + [] == schedule;
    var w1 := w.(tailers := Idle(after, Checked(w.version, w.chat.latest)));
    var w2 := w.(tailers := Idle(after, Waiting));
    LedStep(start, schedule, w, ReadLatest(0), w1);
    LedStep(start, schedule, w1, Settle(0), w2);
    assert 0 in w2.tailers;
  }

  lemma ReturningScheduleLoses(vs: seq<World>, schedule: seq<Step>)
    requires Trace(vs, schedule) && AllWrite(schedule) && Returned(vs, |schedule|)
    ensures CanLose(vs[0], schedule)
  {
    var n := |schedule|;
    var i :| i <= n && StoodAt(vs, i, vs[n].version, vs[n].chat.latest - 1);
    LedStart(vs[0]);
    assert schedule[..0] == [] && schedule[..n] == schedule;
    assert vs[0].(tailers := map[]) == vs[0];
    LedBeside(vs, schedule, 0, i, map[]);
    WritersHaveNoTailers(vs, schedule, i);
    RunKeepsInv(vs, schedule, i);
    assert vs[i].(tailers := map[]) == vs[i];
    LedToIdle(vs[0], schedule[..i], vs[i]);
    var tailers := Idle(vs[i].chat.latest, Delivering(vs[i].version, []));
    LedBeside(vs, schedule, i, n, tailers);
    LedToLost(vs[0], schedule, vs[n].(tailers := tailers), vs[i].chat.latest);
  }

  /**
   * A schedule of the writers can lose a tailer, for some interleaving of tailers with it, exactly when at its end
   * nothing is in flight and the counter has returned to a value it had before a later-numbered commit.
   */
  lemma LostWakeupIffTheCounterReturned(vs: seq<World>, schedule: seq<Step>)
    requires Trace(vs, schedule) && AllWrite(schedule)
    ensures CanLose(vs[0], schedule) <==> Returned(vs, |schedule|)
  {
    if CanLose(vs[0], schedule) {
      LosingScheduleReturns(vs, schedule);
    }
    if Returned(vs, |schedule|) {
      ReturningScheduleLoses(vs, schedule);
    }
  }

  // --- a schedule that does

  ghost predicate Reached(w: World) {
    exists start, schedule :: Led(start, schedule, w)
  }

  lemma Go(w: World, step: Step, next: World)
    requires Reached(w) && Enabled(w, step) && Apply(w, step) == next
    ensures Reached(next)
  {
    var start, schedule :| Led(start, schedule, w);
    LedStep(start, schedule, w, step, next);
  }

  /** The chat after n appends of the same event. */
  function Grown(e: Event, n: nat): Chat {
    if n == 0 then FreshChat("") else Appended(Grown(e, n - 1), e)
  }

  lemma {:induction false} GrownCommits(e: Event, n: nat)
    ensures Grown(e, n).latest == n && Grown(e, n).floor == 0 && Retained(Grown(e, n))
    ensures Records(seq(n, _ => e), Grown(e, n)) && Extends(Grown(e, n), Grown(e, n + 1))
    ensures seq(n, _ => e) <= seq(n + 1, _ => e)
  {
    if n > 0 {
      GrownCommits(e, n - 1);
    }
  }

  /** A state with n events, counter v, some tailers and some writers, reached by growing the chat. */
  function With(e: Event, n: nat, v: int, tailers: map<nat, Tailer>, jobs: map<nat, Job>): World {
    World(Grown(e, n), seq(n, _ => e), v, false, tailers, jobs)
  }

  lemma GoCommit(e: Event, n: nat, v: int, t: map<nat, Tailer>, jobs: map<nat, Job>, j: nat)
    requires Reached(With(e, n, v, t, jobs)) && j !in jobs
    ensures Reached(With(e, n + 1, v, t, jobs[j := Committed]))
  {
    GrownCommits(e, n);
    GrownCommits(e, n + 1);
    var step := Commit(j, Grown(e, n + 1), seq(n + 1, _ => e), true);
    Go(With(e, n, v, t, jobs), step, With(e, n + 1, v, t, jobs[j := Committed]));
  }

  /** A writer stores its increment and its wake-up runs before any waiter exists. */
  lemma GoStoreFire(w: World, j: nat)
    requires Reached(w) && j in w.jobs && w.jobs[j].Loaded?
    requires forall id | id in w.tailers :: !w.tailers[id].phase.Waiting?
    ensures Reached(w.(version := w.jobs[j].version + 1, jobs := w.jobs - {j}))
  {
    var stored := Apply(w, Store(j));
    Go(w, Store(j), stored);
    assert (map id | id in w.tailers :: Woken(w.tailers[id])) == w.tailers;
    Go(stored, Fire(j), w.(version := w.jobs[j].version + 1, jobs := w.jobs - {j}));
  }

  lemma TwoWriters(e: Event)
    ensures Reached(With(e, 2, 0, map[], map[1 := Committed, 2 := Committed]))
  {
    GrownCommits(e, 0);
    LedStart(With(e, 0, 0, map[], map[]));
    GoCommit(e, 0, 0, map[], map[], 1);
    GoCommit(e, 1, 0, map[], map[1 := Committed], 2);
  }

  /** Two writers have both read version 0; then one finishes. */
  lemma StaleWriter(e: Event)
    ensures Reached(With(e, 2, 1, map[], map[2 := Loaded(0)]))
  {
    TwoWriters(e);
    var w := With(e, 2, 0, map[], map[1 := Committed, 2 := Committed]);
    var w1 := w.(jobs := map[1 := Loaded(0), 2 := Committed]);
    var w2 := w.(jobs := map[1 := Loaded(0), 2 := Loaded(0)]);
    Go(w, Load(1), w1);
    Go(w1, Load(2), w2);
    GoStoreFire(w2, 1);
    assert w2.jobs - {1} == map[2 := Loaded(0)];
  }

  /** A tailer reads version 1. */
  lemma StaleWriterBesideTailer(e: Event)
    ensures Reached(With(e, 2, 1, Idle(2, Delivering(1, [])), map[2 := Loaded(0)]))
  {
    StaleWriter(e);
    GrownCommits(e, 2);
    var w := With(e, 2, 1, map[], map[2 := Loaded(0)]);
    var start, schedule :| Led(start, schedule, w);
    LedToIdle(start, schedule, w);
  }

  /** A third event is committed, and its writer loads. */
  lemma ThirdWriter(e: Event)
    ensures Reached(With(e, 3, 1, Idle(2, Delivering(1, [])), map[2 := Loaded(0), 3 := Loaded(1)]))
  {
    var t := Idle(2, Delivering(1, []));
    StaleWriterBesideTailer(e);
    GoCommit(e, 2, 1, t, map[2 := Loaded(0)], 3);
    var w := With(e, 3, 1, t, map[2 := Loaded(0), 3 := Committed]);
    assert map[2 := Loaded(0)][3 := Committed] == w.jobs;
    Go(w, Load(3), w.(jobs := map[2 := Loaded(0), 3 := Loaded(1)]));
  }

  /** The third writer finishes, and the stale store then brings the counter back to 1. */
  lemma CounterBroughtBack(e: Event)
    ensures Reached(With(e, 3, 1, Idle(2, Delivering(1, [])), map[]))
  {
    var t, both := Idle(2, Delivering(1, [])), map[2 := Loaded(0), 3 := Loaded(1)];
    ThirdWriter(e);
    GoStoreFire(With(e, 3, 1, t, both), 3);
    assert both - {3} == map[2 := Loaded(0)];
    GoStoreFire(With(e, 3, 2, t, both - {3}), 2);
    assert both - {3} - {2} == map[];
  }

  /** Such a schedule exists: an increment that overlaps two others stores last and brings the counter back. */
  lemma OverlappingBumpsLoseAWakeup(e: Event) returns (start: World, schedule: seq<Step>)
    ensures CanLose(start, schedule)
  {
    CounterBroughtBack(e);
    GrownCommits(e, 3);
    var w := With(e, 3, 1, Idle(2, Delivering(1, [])), map[]);
    start, schedule :| Led(start, schedule, w);
    LedToLost(start, schedule, w, 2);
  }

  /** The history after a commit: the earlier one, and the newly numbered events. */
  ghost function Extended(history: seq<Event>, c: Chat): seq<Event> {
    history + seq(Max(0, c.latest - |history|), i requires 0 <= i =>
      if |history| + 1 + i in c.events then c.events[|history| + 1 + i] else Event("", "", 0, ""))
  }

  lemma ExtendedRecords(history: seq<Event>, a: Chat, b: Chat)
    requires Records(history, a) && Extends(a, b)
    ensures history <= Extended(history, b) && Records(Extended(history, b), b)
  {
  }

  /** Each transaction of the store that keeps the chat is a commit of this system; only the mark bumps nothing. */
  lemma StoreStepsAreCommits(cfg: Config, live: Chats -> nat, chats: Chats, op: Op, id: string, w: World, job: nat)
    requires AllRetained(chats) && id in chats && id in ChatStore.Step(cfg, live, chats, op)
    requires w.chat == chats[id] && Records(w.history, w.chat) && job !in w.jobs
    ensures var c := ChatStore.Step(cfg, live, chats, op)[id];
            Enabled(w, Commit(job, c, Extended(w.history, c), !op.Mark?))
  {
    StepKeeps(cfg, live, chats, op);
    ExtendedRecords(w.history, w.chat, ChatStore.Step(cfg, live, chats, op)[id]);
  }
}

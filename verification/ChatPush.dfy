/**
 * Pushing a message: read the next number, send the frame with that number, and only then retain it. Pushes exclude
 * each other by a lock; other writers and the sweep do not take it.
 */
module ChatPush {
  import opened Basics
  import opened ChatStore

  /** What a retained push must be when it was sent with number `n`. */
  datatype Push = Push(payload: string, isNew: bool)

  /** Where the holder of the push lock is. */
  datatype Holder =
    | Nobody
    | Located(push: Push)
    | Read(push: Push, n: int)
    | Checked(push: Push, n: int)
    | Delivered(push: Push, n: int)
    | Failed(push: Push)
    | Dropping(push: Push)

  /** A push the client was sent: the number in the frame, and the event it was retained as. */
  datatype Retention = Retention(carried: int, number: int, event: Event, foreign: nat)

  /** `chat` is the row, if there is one. `foreign` counts the numbers others took since the holder read its own. */
  datatype World = World(chat: Option<Chat>, holder: Holder, sent: seq<int>, kept: seq<Retention>, foreign: nat)

  datatype Step =
    | Begin(payload: string)
    | ReadNext
    | EnsureFits(fits: bool)
    | SendOk
    | SendFails
    | LookForEvents
    | Drop
    | Retain(size: nat, iso: string)
    | OtherCommit(event: Event)
    | OtherMark(iso: string)
    | SweepEvents(cutoff: string, maxEvents: nat)
    | SweepTombstone(id: string, iso: string)

  function Latest(chat: Option<Chat>): int {
    if chat.Some? then chat.value.latest else 0
  }

  function Grown(chat: Option<Chat>, e: Event): Option<Chat> {
    Some(Appended(if chat.Some? then chat.value else FreshChat(e.createdAt), e))
  }

  predicate NoEvents(chat: Option<Chat>) {
    chat.None? || Scan(chat.value.events, chat.value.floor, chat.value.latest) == []
  }

  /** The effect of a step; a step that is not possible in this state changes nothing. */
  function Apply(w: World, s: Step): World {
    match s
    case Begin(payload) => if w.holder.Nobody? then w.(holder := Located(Push(payload, w.chat.None?))) else w
    case ReadNext =>
      if w.holder.Located? then w.(holder := Read(w.holder.push, Latest(w.chat) + 1), foreign := 0) else w
    case EnsureFits(fits) =>
      if w.holder.Read? then w.(holder := if fits then Checked(w.holder.push, w.holder.n) else Nobody) else w
    case SendOk =>
      if w.holder.Checked? then w.(holder := Delivered(w.holder.push, w.holder.n), sent := w.sent + [w.holder.n]) else w
    case SendFails =>
      if w.holder.Checked? then w.(holder := if w.holder.push.isNew then Failed(w.holder.push) else Nobody) else w
    case LookForEvents =>
      if w.holder.Failed? then w.(holder := if NoEvents(w.chat) then Dropping(w.holder.push) else Nobody) else w
    case Drop => if w.holder.Dropping? then w.(holder := Nobody, chat := None) else w
    case Retain(size, iso) =>
      if w.holder.Delivered? then
        var e := Event("push", w.holder.push.payload, size, iso);
        w.(holder := Nobody, chat := Grown(w.chat, e),
           kept := w.kept + [Retention(w.holder.n, Latest(w.chat) + 1, e, w.foreign)])
      else w
    case OtherCommit(e) => w.(chat := Grown(w.chat, e), foreign := w.foreign + 1)
    case OtherMark(iso) => w.(chat := Some(Marked(if w.chat.Some? then w.chat.value else FreshChat(iso), iso)))
    case SweepEvents(cutoff, maxEvents) =>
      if w.chat.Some? then w.(chat := Some(EventsSwept(w.chat.value, cutoff, maxEvents))) else w
    case SweepTombstone(id, iso) =>
      if w.chat.Some? && w.chat.value.deletedAt.None?
      then w.(chat := Some(Tombstoned(w.chat.value, id, iso)), foreign := w.foreign + 1)
      else w
  }

  function Run(w: World, steps: seq<Step>): World
    decreases |steps|
  {
    if steps == [] then w else Run(Apply(w, steps[0]), steps[1..])
  }

  function Start(chat: Option<Chat>): World {
    World(chat, Nobody, [], [], 0)
  }

  ghost predicate ChatRetained(chat: Option<Chat>) {
    chat.Some? ==> Retained(chat.value)
  }

  // --- whoever else writes

  predicate Numbered(w: World) {
    && (w.holder.Read? || w.holder.Checked? || w.holder.Delivered? ==> w.holder.n + w.foreign == Latest(w.chat) + 1)
    && forall i | 0 <= i < |w.kept| :: w.kept[i].number == w.kept[i].carried + w.kept[i].foreign
  }

  lemma SweepKeepsLatest(c: Chat, cutoff: string, maxEvents: nat)
    ensures EventsSwept(c, cutoff, maxEvents).latest == c.latest
  {
  }

  lemma ApplyKeepsNumbered(w: World, s: Step)
    requires Numbered(w)
    ensures Numbered(Apply(w, s))
  {
    if s.SweepEvents? && w.chat.Some? {
      SweepKeepsLatest(w.chat.value, s.cutoff, s.maxEvents);
    }
  }

  /**
   * In every run, a delivered push is retained under the number it carried plus the numbers others took between its
   * read and its append: under its own number exactly when nobody else took one.
   */
  lemma {:induction false} RetainedNumberIsCarriedPlusForeign(w: World, steps: seq<Step>)
    requires Numbered(w)
    ensures Numbered(Run(w, steps))
    ensures forall r | r in Run(w, steps).kept :: r.number == r.carried <==> r.foreign == 0
    decreases |steps|
  {
    if steps != [] {
      ApplyKeepsNumbered(w, steps[0]);
      RetainedNumberIsCarriedPlusForeign(Apply(w, steps[0]), steps[1..]);
    }
  }

  // --- single runs, step by step

  lemma {:induction false} RunAppend(w: World, a: seq<Step>, b: seq<Step>)
    ensures Run(w, a + b) == Run(Run(w, a), b)
    decreases |a|
  {
    if a == [] {
      assert a + b == b;
    } else {
      assert (a + b)[1..] == a[1..] + b;
      RunAppend(Apply(w, a[0]), a[1..], b);
    }
  }

  /** One more step of a run that has come to `v`. */
  lemma Then(w: World, steps: seq<Step>, v: World, s: Step)
    requires Run(w, steps) == v
    ensures Run(w, steps + [s]) == Apply(v, s)
  {
    RunAppend(w, steps, [s]);
    assert [s][1..] == [];
  }

  function FirstPush(payload: string): seq<Step> {
    [Begin(payload)] + [ReadNext] + [EnsureFits(true)]
  }

  /** A first push to a chat that does not exist, about to be sent. */
  lemma FirstPushIsChecked(payload: string)
    ensures Run(Start(None), FirstPush(payload)) == World(None, Checked(Push(payload, true), 1), [], [], 0)
  {
    var w, p := Start(None), Push(payload, true);
    assert [] + [Begin(payload)] == [Begin(payload)];
    Then(w, [], w, Begin(payload));
    Then(w, [Begin(payload)], World(None, Located(p), [], [], 0), ReadNext);
    Then(w, [Begin(payload)] + [ReadNext], World(None, Read(p, 1), [], [], 0), EnsureFits(true));
  }

  /** With another writer a delivered push can carry a number that is not its own. */
  lemma AnotherWriterShiftsTheNumber(payload: string, e: Event, size: nat, iso: string)
    ensures var w := Run(Start(None), FirstPush(payload) + [SendOk] + [OtherCommit(e)] + [Retain(size, iso)]);
            && w.sent == [1] && w.kept == [Retention(1, 2, Event("push", payload, size, iso), 1)]
            && w.chat.Some? && 1 in w.chat.value.events && w.chat.value.events[1] == e
  {
    var w, p := Start(None), Push(payload, true);
    FirstPushIsChecked(payload);
    var steps := FirstPush(payload);
    Then(w, steps, World(None, Checked(p, 1), [], [], 0), SendOk);
    Then(w, steps + [SendOk], World(None, Delivered(p, 1), [1], [], 0), OtherCommit(e));
    var v := World(Grown(None, e), Delivered(p, 1), [1], [], 1);
    Then(w, steps + [SendOk] + [OtherCommit(e)], v, Retain(size, iso));
  }

  /** A failed push that found its new log empty drops it, with whatever was committed since it looked. */
  lemma DropCanLoseAnotherWritersEvent(payload: string, e: Event)
    ensures var steps := FirstPush(payload) + [SendFails] + [LookForEvents] + [OtherCommit(e)];
            && Run(Start(None), steps).chat == Grown(None, e)
            && Run(Start(None), steps + [Drop]) == Start(None).(foreign := 1)
  {
    var w, p := Start(None), Push(payload, true);
    FirstPushIsChecked(payload);
    var steps := FirstPush(payload);
    Then(w, steps, World(None, Checked(p, 1), [], [], 0), SendFails);
    Then(w, steps + [SendFails], World(None, Failed(p), [], [], 0), LookForEvents);
    steps := steps + [SendFails] + [LookForEvents];
    Then(w, steps, World(None, Dropping(p), [], [], 0), OtherCommit(e));
    Then(w, steps + [OtherCommit(e)], World(Grown(None, e), Dropping(p), [], [], 1), Drop);
  }

  // --- one push

  /** A push about to be sent. */
  lemma PushIsChecked(w: World, payload: string)
    requires w.holder.Nobody?
    ensures Run(w, FirstPush(payload))
            == w.(holder := Checked(Push(payload, w.chat.None?), Latest(w.chat) + 1), foreign := 0)
  {
    var p := Push(payload, w.chat.None?);
    assert [] + [Begin(payload)] == [Begin(payload)];
    Then(w, [], w, Begin(payload));
    Then(w, [Begin(payload)], w.(holder := Located(p)), ReadNext);
    Then(w, [Begin(payload)] + [ReadNext], w.(holder := Read(p, Latest(w.chat) + 1), foreign := 0), EnsureFits(true));
  }

  /**
   * Undisturbed, a push is sent with the next number and retained under it, with its payload; the chat exists then and
   * has everything it had before.
   */
  lemma PushGoesThrough(w: World, payload: string, size: nat, iso: string)
    requires w.holder.Nobody? && ChatRetained(w.chat)
    ensures var n, e := (if w.chat.Some? then w.chat.value.latest else 0) + 1, Event("push", payload, size, iso);
            var after := Run(w, FirstPush(payload) + [SendOk] + [Retain(size, iso)]);
            && after.holder.Nobody? && after.sent == w.sent + [n] && after.kept == w.kept + [Retention(n, n, e, 0)]
            && after.chat.Some? && after.chat.value.latest == n && n in after.chat.value.events
            && after.chat.value.events[n] == e
            && (w.chat.Some? ==>
                  && after.chat.value.floor == w.chat.value.floor
                  && after.chat.value.events.Keys == w.chat.value.events.Keys + {n}
                  && forall m | m in w.chat.value.events :: after.chat.value.events[m] == w.chat.value.events[m])
  {
    var p, n := Push(payload, w.chat.None?), Latest(w.chat) + 1;
    PushIsChecked(w, payload);
    Then(w, FirstPush(payload), w.(holder := Checked(p, n), foreign := 0), SendOk);
    Then(w, FirstPush(payload) + [SendOk], w.(holder := Delivered(p, n), foreign := 0, sent := w.sent + [n]),
         Retain(size, iso));
  }

  /** Undisturbed, a push that does not fit, or whose send fails, leaves everything as it was. */
  lemma PushThatFailsLeavesNoTrace(w: World, payload: string)
    requires w.holder.Nobody?
    ensures Run(w, [Begin(payload)] + [ReadNext] + [EnsureFits(false)]) == w.(foreign := 0)
    ensures w.chat.Some? ==> Run(w, FirstPush(payload) + [SendFails]) == w.(foreign := 0)
    ensures w.chat.None? ==> Run(w, FirstPush(payload) + [SendFails] + [LookForEvents] + [Drop]) == w.(foreign := 0)
  {
    var p, n, v := Push(payload, w.chat.None?), Latest(w.chat) + 1, w.(foreign := 0);
    assert [] + [Begin(payload)] == [Begin(payload)];
    Then(w, [], w, Begin(payload));
    Then(w, [Begin(payload)], w.(holder := Located(p)), ReadNext);
    Then(w, [Begin(payload)] + [ReadNext], v.(holder := Read(p, n)), EnsureFits(false));
    PushIsChecked(w, payload);
    Then(w, FirstPush(payload), v.(holder := Checked(p, n)), SendFails);
    if w.chat.None? {
      Then(w, FirstPush(payload) + [SendFails], v.(holder := Failed(p)), LookForEvents);
      Then(w, FirstPush(payload) + [SendFails] + [LookForEvents], v.(holder := Dropping(p)), Drop);
    }
  }

  function RowIn(chats: Chats, id: string): Option<Chat> {
    if id in chats then Some(chats[id]) else None
  }

  /** What a push retains, and what others append or mark meanwhile, are transactions on the row of this chat. */
  lemma AppendsAreTransactions(w: World, chats: Chats, id: string, e: Event, size: nat, iso: string)
    requires w.chat == RowIn(chats, id)
    ensures Apply(w, OtherCommit(e)).chat == RowIn(AppendTo(chats, id, e), id)
    ensures Apply(w, OtherMark(iso)).chat == RowIn(MarkIn(chats, id, iso), id)
    ensures w.holder.Delivered? ==>
              Apply(w, Retain(size, iso)).chat
              == RowIn(AppendTo(chats, id, Event("push", w.holder.push.payload, size, iso)), id)
  {
  }

  /** And so are the passes of a sweep. */
  lemma SweepsAreTransactions(w: World, chats: Chats, id: string, iso: string, cutoff: string, maxEvents: nat)
    requires w.chat == RowIn(chats, id)
    ensures Apply(w, SweepEvents(cutoff, maxEvents)).chat == RowIn(AllEventsSwept(chats, cutoff, maxEvents), id)
    ensures Apply(w, SweepTombstone(id, iso)).chat
            == if id in chats && chats[id].deletedAt.None? then RowIn(TombstoneAll(chats, {id}, iso), id) else w.chat
  {
  }

  /** While one push is under way another does not begin. */
  lemma PushesExcludeEachOther(w: World, payload: string)
    requires !w.holder.Nobody?
    ensures Apply(w, Begin(payload)) == w
  {
  }

  // --- what the drop forgets

  lemma ApplyKeepsRetained(w: World, s: Step)
    requires ChatRetained(w.chat)
    ensures ChatRetained(Apply(w, s).chat)
  {
    var c := if w.chat.Some? then w.chat.value else FreshChat("");
    match s
    case Retain(size, iso) => AppendedKeeps(c, Event("push", "", size, iso));
    case OtherCommit(e) => AppendedKeeps(c, e);
    case SweepEvents(cutoff, maxEvents) => EventsSweptKeeps(c, cutoff, maxEvents);
    case SweepTombstone(id, iso) => TombstonedKeeps(c, id, iso);
    case _ =>
  }

  lemma {:induction false} RunKeepsRetained(w: World, steps: seq<Step>)
    requires ChatRetained(w.chat)
    ensures ChatRetained(Run(w, steps).chat)
    decreases |steps|
  {
    if steps != [] {
      ApplyKeepsRetained(w, steps[0]);
      RunKeepsRetained(Apply(w, steps[0]), steps[1..]);
    }
  }

  /** How far the bounds of the chat are apart: zero exactly when no event is retained. */
  function Gap(chat: Option<Chat>): int {
    if chat.Some? then chat.value.latest - chat.value.floor else 0
  }

  lemma NoEventsIsNoGap(chat: Option<Chat>)
    requires ChatRetained(chat)
    ensures NoEvents(chat) <==> Gap(chat) == 0
  {
    if chat.Some? {
      ScanConsecutive(chat.value, chat.value.floor);
    }
  }

  /** Until the drop itself, every number taken is counted, and only a taken number opens the gap. */
  lemma {:induction false} NumbersUntilTheDrop(w: World, steps: seq<Step>)
    requires w.holder.Dropping? && ChatRetained(w.chat) && forall s | s in steps :: !s.Drop?
    ensures var d := Run(w, steps);
            && d.holder == w.holder && ChatRetained(d.chat)
            && Latest(d.chat) - Latest(w.chat) == d.foreign - w.foreign >= 0
            && (d.foreign == w.foreign ==> Gap(d.chat) <= Gap(w.chat))
    decreases |steps|
  {
    if steps != [] {
      var s, next := steps[0], Apply(w, steps[0]);
      ApplyKeepsRetained(w, s);
      if s.SweepEvents? && w.chat.Some? {
        SweepKeepsLatest(w.chat.value, s.cutoff, s.maxEvents);
        EventsSweptKeeps(w.chat.value, s.cutoff, s.maxEvents);
      }
      assert !s.Drop? && next.holder == w.holder;
      NumbersUntilTheDrop(next, steps[1..]);
    }
  }

  /**
   * In every run: between the look that found no event and the drop, the latest number rises by exactly the numbers
   * others took. So the drop forgets a number taken since the look exactly when one was taken, loses a retained event
   * only then, and restarts the numbering exactly when the chat has been given a number at all.
   */
  lemma DropForgetsExactlyWhatOthersTook(chat: Option<Chat>, before: seq<Step>, between: seq<Step>)
    requires ChatRetained(chat) && Run(Start(chat), before).holder.Failed?
    requires Run(Start(chat), before + [LookForEvents]).holder.Dropping? && forall s | s in between :: !s.Drop?
    ensures var look := Run(Start(chat), before + [LookForEvents]);
            var d := Run(Start(chat), before + [LookForEvents] + between);
            var after := Run(Start(chat), before + [LookForEvents] + between + [Drop]);
            && NoEvents(look.chat) && after.chat.None? && after.holder.Nobody?
            && Latest(d.chat) - Latest(look.chat) == d.foreign - look.foreign
            && (Latest(d.chat) > Latest(look.chat) <==> d.foreign > look.foreign)
            && (!NoEvents(d.chat) ==> d.foreign > look.foreign)
            && (Latest(after.chat) < Latest(d.chat) <==> Latest(d.chat) > 0)
  {
    var w := Run(Start(chat), before);
    Then(Start(chat), before, w, LookForEvents);
    var look := Apply(w, LookForEvents);
    RunKeepsRetained(Start(chat), before);
    RunAppend(Start(chat), before + [LookForEvents], between);
    NumbersUntilTheDrop(look, between);
    var d := Run(look, between);
    Then(Start(chat), before + [LookForEvents] + between, d, Drop);
    NoEventsIsNoGap(look.chat);
    NoEventsIsNoGap(d.chat);
    if d.chat.Some? {
      assert Retained(d.chat.value);
    }
  }

  /** After a failed first push the log is dropped exactly when no event is retained at the moment of the look. */
  lemma DropOnlyWhenEmpty(w: World)
    requires w.holder.Failed? && ChatRetained(w.chat)
    ensures Apply(w, LookForEvents).holder.Dropping? <==> w.chat.None? || w.chat.value.latest == w.chat.value.floor
    ensures Apply(w, LookForEvents).chat == w.chat
  {
    if w.chat.Some? {
      ScanConsecutive(w.chat.value, w.chat.value.floor);
    }
  }

  // --- pushes are the only writer

  predicate OnlyPushes(s: Step) {
    !s.OtherCommit? && !s.OtherMark? && !s.SweepTombstone?
  }

  /** Every push kept so far is retained under the number it carried, unless the floor has passed it. */
  ghost predicate KeptAs(chat: Option<Chat>, r: Retention) {
    && chat.Some? && r.carried == r.number <= chat.value.latest
    && (chat.value.floor < r.number ==> r.number in chat.value.events)
    && (r.number in chat.value.events ==> chat.value.events[r.number] == r.event)
  }

  ghost predicate AllKept(chat: Option<Chat>, kept: seq<Retention>, base: int) {
    forall i | 0 <= i < |kept| :: kept[i].carried == base + 1 + i && KeptAs(chat, kept[i])
  }

  predicate Consecutive(sent: seq<int>, base: int) {
    forall i | 0 <= i < |sent| :: sent[i] == base + 1 + i
  }

  /** The state of a run in which nobody else takes numbers; `base` is the latest number at its start. */
  ghost predicate Orderly(w: World, base: int) {
    && ChatRetained(w.chat)
    && Latest(w.chat) == base + |w.kept|
    && Consecutive(w.sent, base) && AllKept(w.chat, w.kept, base)
    && |w.sent| == |w.kept| + (if w.holder.Delivered? then 1 else 0)
    && (w.holder.Read? || w.holder.Checked? || w.holder.Delivered? ==> w.holder.n == Latest(w.chat) + 1)
    && (!w.holder.Nobody? && w.holder.push.isNew ==> w.chat.None?)
    && (w.holder.Failed? || w.holder.Dropping? ==> w.holder.push.isNew)
  }

  lemma AppendKeepsKept(chat: Option<Chat>, kept: seq<Retention>, base: int, e: Event)
    requires ChatRetained(chat) && AllKept(chat, kept, base) && Latest(chat) == base + |kept|
    ensures var r := Retention(Latest(chat) + 1, Latest(chat) + 1, e, 0);
            AllKept(Grown(chat, e), kept + [r], base) && ChatRetained(Grown(chat, e))
  {
    if chat.Some? {
      AppendedKeeps(chat.value, e);
    }
    var r := Retention(Latest(chat) + 1, Latest(chat) + 1, e, 0);
    forall i | 0 <= i < |kept + [r]|
      ensures (kept + [r])[i].carried == base + 1 + i && KeptAs(Grown(chat, e), (kept + [r])[i])
    {
      if i < |kept| {
        assert KeptAs(chat, kept[i]);
      }
    }
  }

  lemma SweepKeepsKept(c: Chat, kept: seq<Retention>, base: int, cutoff: string, maxEvents: nat)
    requires Retained(c) && AllKept(Some(c), kept, base)
    ensures var d := EventsSwept(c, cutoff, maxEvents);
            Retained(d) && d.latest == c.latest && AllKept(Some(d), kept, base)
  {
    var d := EventsSwept(c, cutoff, maxEvents);
    EventsSweptKeeps(c, cutoff, maxEvents);
    SweepKeepsLatest(c, cutoff, maxEvents);
    forall i | 0 <= i < |kept|
      ensures kept[i].carried == base + 1 + i && KeptAs(Some(d), kept[i])
    {
      assert KeptAs(Some(c), kept[i]);
    }
  }

  lemma ApplyKeepsOrderly(w: World, s: Step, base: int)
    requires Orderly(w, base) && OnlyPushes(s)
    requires forall r | r in w.kept :: r.foreign == 0
    requires w.foreign == 0
    ensures Orderly(Apply(w, s), base) && Apply(w, s).foreign == 0
    ensures forall r | r in Apply(w, s).kept :: r.foreign == 0
  {
    match s
    case Retain(size, iso) =>
      if w.holder.Delivered? {
        AppendKeepsKept(w.chat, w.kept, base, Event("push", w.holder.push.payload, size, iso));
      }
    case SweepEvents(cutoff, maxEvents) =>
      if w.chat.Some? {
        SweepKeepsKept(w.chat.value, w.kept, base, cutoff, maxEvents);
      }
    case _ =>
  }

  lemma {:induction false} RunKeepsOrderly(w: World, steps: seq<Step>, base: int)
    requires Orderly(w, base) && w.foreign == 0 && forall r | r in w.kept :: r.foreign == 0
    requires forall s | s in steps :: OnlyPushes(s)
    ensures Orderly(Run(w, steps), base)
    decreases |steps|
  {
    if steps != [] {
      ApplyKeepsOrderly(w, steps[0], base);
      RunKeepsOrderly(Apply(w, steps[0]), steps[1..], base);
    }
  }

  /**
   * When pushes are the only writer, for any interleaving with failed sends and sweeps: delivered numbers are
   * consecutive, each is the number its push is retained under, and a push that was not delivered took none.
   */
  lemma PushesCarryTheirNumbers(chat: Option<Chat>, steps: seq<Step>)
    requires ChatRetained(chat) && forall s | s in steps :: OnlyPushes(s)
    ensures var w, base := Run(Start(chat), steps), Latest(chat);
            && Consecutive(w.sent, base)
            && |w.sent| == |w.kept| + (if w.holder.Delivered? then 1 else 0)
            && (forall i | 0 <= i < |w.kept| :: w.kept[i].carried == w.sent[i] && KeptAs(w.chat, w.kept[i]))
            && Latest(w.chat) == base + |w.kept|
  {
    RunKeepsOrderly(Start(chat), steps, Latest(chat));
  }

  /** A failed push changes nothing in the chat: neither its failure nor the drop of a log it had just created. */
  lemma FailedPushChangesNothing(chat: Option<Chat>, steps: seq<Step>, s: Step)
    requires ChatRetained(chat) && (forall x | x in steps :: OnlyPushes(x))
    requires s.SendFails? || s.LookForEvents? || s.Drop? || s.EnsureFits?
    ensures var w := Run(Start(chat), steps);
            Apply(w, s).chat == w.chat && Apply(w, s).sent == w.sent && Apply(w, s).kept == w.kept
  {
    RunKeepsOrderly(Start(chat), steps, Latest(chat));
  }
}

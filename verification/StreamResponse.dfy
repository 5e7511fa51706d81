/** Assembling a streamed response: event numbers, output items, the message, and the stored envelope. */
module StreamResponse {
  import opened Basics

  datatype Item =
    | Call(callId: string, name: string, arguments: string)
    | CallOutput(callId: string, result: string)
    | Message(text: string)

  datatype Envelope =
    | InProgress
    | Completed(output: seq<Item>, usage: string)
    | Failed(output: seq<Item>, error: string, usage: string)

  datatype Body =
    | ResponseCreated(env: Envelope)
    | ItemAdded(index: nat, item: Item)
    | TextDelta(index: nat, delta: string)
    | TextDone(index: nat, text: string)
    | ItemDone(index: nat, item: Item)
    | ResponseEnded(env: Envelope)

  datatype Event = Event(sequenceNumber: nat, body: Body)

  /** What the agent's callbacks put on the queue. */
  datatype QueueItem =
    | Delta(text: string)
    | ToolStarted(callId: string, name: string, arguments: string)
    | ToolCompleted(callId: string, result: string)
    | Other

  /** How the agent's task ended; a run that reports failure may give no error text. */
  datatype Outcome = Returned(failed: bool, error: string, finalResponse: string, usage: string) | Raised(error: string)

  datatype Pending = Pending(item: Item, index: nat)

  datatype State = State(
    sequence: nat, outputIndex: nat, finalParts: seq<string>, emitted: seq<Item>, pending: map<string, Pending>,
    messageOpen: bool, messageIndex: nat, out: seq<Event>, stored: seq<Envelope>)

  function Digits(n: nat): string {
    if n < 10 then ["0123456789"[n]] else Digits(n / 10) + ["0123456789"[n % 10]]
  }

  /** An agent that names no call gets an id made from the number of calls now pending. */
  function CallId(tag: string, given: string, pending: nat): string {
    if given != "" then given else "call_" + tag + "_" + Digits(pending + 1)
  }

  function Emitted(s: State, body: Body): State {
    s.(sequence := s.sequence + 1, out := s.out + [Event(s.sequence, body)])
  }

  function Stored(store: bool, s: State, env: Envelope): State {
    if store then s.(stored := s.stored + [env]) else s
  }

  function Begun(store: bool): State {
    Emitted(Stored(store, State(0, 0, [], [], map[], false, 0, [], []), InProgress), ResponseCreated(InProgress))
  }

  function Opened(s: State): State {
    if s.messageOpen then s
    else Emitted(s.(messageOpen := true, messageIndex := s.outputIndex, outputIndex := s.outputIndex + 1),
                 ItemAdded(s.outputIndex, Message("")))
  }

  function WithDelta(s: State, delta: string): State {
    var t := Opened(s);
    Emitted(t.(finalParts := t.finalParts + [delta]), TextDelta(t.messageIndex, delta))
  }

  function WithToolStarted(tag: string, s: State, given: string, name: string, arguments: string): State {
    var callId := CallId(tag, given, |s.pending|);
    var item := Call(callId, name, arguments);
    Emitted(s.(outputIndex := s.outputIndex + 1, pending := s.pending[callId := Pending(item, s.outputIndex)],
               emitted := s.emitted + [item]),
            ItemAdded(s.outputIndex, item))
  }

  function WithToolCompleted(s: State, callId: string, result: string): State {
    if callId !in s.pending then s
    else
      var p := s.pending[callId];
      var a := Emitted(s.(pending := s.pending - {callId}), ItemDone(p.index, p.item));
      var item := CallOutput(callId, result);
      var b := Emitted(a.(outputIndex := a.outputIndex + 1, emitted := a.emitted + [item]),
                       ItemAdded(a.outputIndex, item));
      Emitted(b, ItemDone(a.outputIndex, item))
  }

  function Handled(tag: string, s: State, q: QueueItem): State {
    match q
    case Delta(text) => WithDelta(s, text)
    case ToolStarted(callId, name, arguments) => WithToolStarted(tag, s, callId, name, arguments)
    case ToolCompleted(callId, result) => WithToolCompleted(s, callId, result)
    case Other => s
  }

  function AllHandled(tag: string, s: State, qs: seq<QueueItem>): State
    decreases |qs|
  {
    if qs == [] then s else AllHandled(tag, Handled(tag, s, qs[0]), qs[1..])
  }

  function AgentError(o: Outcome): string {
    if o.Raised? then o.error
    else if !o.failed then ""
    else if o.error != "" then o.error
    else "agent run failed"
  }

  /** Only a run that streamed nothing has its final response sent as one delta. */
  function Answered(s: State, o: Outcome): State {
    if o.Returned? && !o.failed && o.finalResponse != "" && s.finalParts == [] then WithDelta(s, o.finalResponse) else s
  }

  function Closed(s: State): State {
    if s.messageOpen then
      var text := Flatten(s.finalParts);
      Emitted(Emitted(s, TextDone(s.messageIndex, text)), ItemDone(s.messageIndex, Message(text)))
    else s
  }

  function FinalEnvelope(s: State, o: Outcome): Envelope {
    var text, error := Flatten(s.finalParts), AgentError(o);
    var output := s.emitted + [Message(if text != "" then text else error)];
    var usage := if o.Returned? then o.usage else "";
    if error != "" then Failed(output, error, usage) else Completed(output, usage)
  }

  function Finished(store: bool, s: State, o: Outcome): State {
    var t := Closed(Answered(s, o));
    Emitted(Stored(store, t, FinalEnvelope(t, o)), ResponseEnded(FinalEnvelope(t, o)))
  }

  function Streamed(tag: string, store: bool, qs: seq<QueueItem>, o: Outcome): State {
    Finished(store, AllHandled(tag, Begun(store), qs), o)
  }

  // --- the program

  class ResponseStream {
    var sequence: nat
    var outputIndex: nat
    var finalParts: seq<string>
    var emittedItems: seq<Item>
    var pendingTools: map<string, Pending>
    var messageOpen: bool
    var messageIndex: nat
    var out: seq<Event>
    var stored: seq<Envelope>

    function Value(): State
      reads this
    {
      State(sequence, outputIndex, finalParts, emittedItems, pendingTools, messageOpen, messageIndex, out, stored)
    }

    constructor ()
      ensures Value() == State(0, 0, [], [], map[], false, 0, [], [])
    {
      sequence, outputIndex, messageIndex := 0, 0, 0;
      finalParts, emittedItems, pendingTools := [], [], map[];
      messageOpen, out, stored := false, [], [];
    }

    method Emit(body: Body)
      modifies this`sequence, this`out
      ensures Value() == Emitted(old(Value()), body)
    {
      out := out + [Event(sequence, body)];
      sequence := sequence + 1;
    }

    method Persist(store: bool, env: Envelope)
      modifies this`stored
      ensures Value() == Stored(store, old(Value()), env)
    {
      if store {
        stored := stored + [env];
      }
    }

    method OpenMessage()
      modifies this
      ensures Value() == Opened(old(Value()))
    {
      if messageOpen {
        return;
      }
      messageOpen := true;
      messageIndex := outputIndex;
      outputIndex := outputIndex + 1;
      Emit(ItemAdded(messageIndex, Message("")));
    }

    method EmitDelta(delta: string)
      modifies this
      ensures Value() == WithDelta(old(Value()), delta)
    {
      OpenMessage();
      finalParts := finalParts + [delta];
      Emit(TextDelta(messageIndex, delta));
    }

    method EmitToolStarted(tag: string, given: string, name: string, arguments: string)
      modifies this
      ensures Value() == WithToolStarted(tag, old(Value()), given, name, arguments)
    {
      var callId := CallId(tag, given, |pendingTools|);
      var item := Call(callId, name, arguments);
      var idx := outputIndex;
      outputIndex := outputIndex + 1;
      pendingTools := pendingTools[callId := Pending(item, idx)];
      emittedItems := emittedItems + [item];
      Emit(ItemAdded(idx, item));
    }

    method EmitToolCompleted(callId: string, result: string)
      modifies this
      ensures Value() == WithToolCompleted(old(Value()), callId, result)
    {
      if callId !in pendingTools {
        return;
      }
      var p := pendingTools[callId];
      pendingTools := pendingTools - {callId};
      Emit(ItemDone(p.index, p.item));
      var item := CallOutput(callId, result);
      var idx := outputIndex;
      outputIndex := outputIndex + 1;
      emittedItems := emittedItems + [item];
      Emit(ItemAdded(idx, item));
      Emit(ItemDone(idx, item));
    }

    /** The loop that drains the queue up to its end marker. */
    method Drain(tag: string, qs: seq<QueueItem>)
      modifies this
      ensures Value() == AllHandled(tag, old(Value()), qs)
    {
      var i := 0;
      while i < |qs|
        invariant 0 <= i <= |qs|
        invariant AllHandled(tag, Value(), qs[i..]) == AllHandled(tag, old(Value()), qs)
      {
        assert qs[i..][1..] == qs[i + 1..];
        match qs[i] {
          case ToolStarted(callId, name, arguments) => EmitToolStarted(tag, callId, name, arguments);
          case ToolCompleted(callId, result) => EmitToolCompleted(callId, result);
          case Delta(text) => EmitDelta(text);
          case Other =>
        }
        i := i + 1;
      }
    }

    method Finish(store: bool, o: Outcome)
      modifies this
      ensures Value() == Finished(store, old(Value()), o)
    {
      var error := "";
      if o.Raised? {
        error := o.error;
      } else if o.failed {
        error := if o.error != "" then o.error else "agent run failed";
      } else if o.finalResponse != "" && finalParts == [] {
        EmitDelta(o.finalResponse);
      }
      var text := Flatten(finalParts);
      if messageOpen {
        Emit(TextDone(messageIndex, text));
        Emit(ItemDone(messageIndex, Message(text)));
      }
      var items := emittedItems + [Message(if text != "" then text else error)];
      var usage := if o.Returned? then o.usage else "";
      var env := if error != "" then Failed(items, error, usage) else Completed(items, usage);
      Persist(store, env);
      Emit(ResponseEnded(env));
    }

    method Stream(tag: string, store: bool, qs: seq<QueueItem>, o: Outcome)
      requires Value() == State(0, 0, [], [], map[], false, 0, [], [])
      modifies this
      ensures Value() == Streamed(tag, store, qs, o)
    {
      Persist(store, InProgress);
      Emit(ResponseCreated(InProgress));
      Drain(tag, qs);
      Finish(store, o);
    }
  }

  // --- a client that checks the stream as it reads it

  /**
   * What a client has read: how many events, the items announced, which of them are done, the text so far, the calls
   * done but not answered, and the tool items in the order announced.
   */
  datatype Seen = Seen(count: nat, items: seq<Item>, done: set<nat>, text: string, unanswered: multiset<string>,
                       tools: seq<Item>)

  datatype Client = Fresh | Reading(seen: Seen) | Ended(seen: Seen, env: Envelope) | Rejected

  predicate OpenItem(c: Seen, index: nat) {
    index < |c.items| && index !in c.done
  }

  predicate OpenMessage(c: Seen, index: nat) {
    OpenItem(c, index) && c.items[index].Message?
  }

  predicate MessagesDone(c: Seen) {
    forall i | 0 <= i < |c.items| :: c.items[i].Message? ==> i in c.done
  }

  /** The final output lists the announced tool items in order and then the message: the text, or else the error. */
  predicate FinalText(env: Envelope, text: string, tools: seq<Item>) {
    match env
    case InProgress => false
    case Completed(output, _) => output == tools + [Message(text)]
    case Failed(output, error, _) => error != "" && output == tools + [Message(if text != "" then text else error)]
  }

  function Announced(c: Seen, item: Item): Client {
    var n := c.(items := c.items + [item]);
    match item
    case Message(text) => if text == "" && c.text == "" then Reading(n) else Rejected
    case Call(_, _, _) => Reading(n.(tools := c.tools + [item]))
    case CallOutput(callId, _) =>
      if callId in c.unanswered then
        Reading(n.(tools := c.tools + [item], unanswered := c.unanswered - multiset{callId}))
      else Rejected
  }

  /** An item is done as it was announced; the message is done with the text so far. */
  function MarkedDone(c: Seen, index: nat, item: Item): Client {
    if !OpenItem(c, index) then Rejected
    else if item != (if c.items[index].Message? then Message(c.text) else c.items[index]) then Rejected
    else Reading(c.(done := c.done + {index},
                    unanswered := if item.Call? then c.unanswered + multiset{item.callId} else c.unanswered))
  }

  function ObserveBody(c: Seen, body: Body): Client {
    match body
    case ResponseCreated(_) => Rejected
    case ItemAdded(index, item) => if index == |c.items| then Announced(c, item) else Rejected
    case TextDelta(index, delta) => if OpenMessage(c, index) then Reading(c.(text := c.text + delta)) else Rejected
    case TextDone(index, text) => if OpenMessage(c, index) && text == c.text then Reading(c) else Rejected
    case ItemDone(index, item) => MarkedDone(c, index, item)
    case ResponseEnded(env) => if FinalText(env, c.text, c.tools) && MessagesDone(c) then Ended(c, env) else Rejected
  }

  /** What the client makes of the next event; anything unexpected is rejected for good. */
  function Observe(c: Client, e: Event): Client {
    match c
    case Rejected => Rejected
    case Ended(_, _) => Rejected
    case Fresh =>
      if e == Event(0, ResponseCreated(InProgress)) then Reading(Seen(1, [], {}, "", multiset{}, [])) else Rejected
    case Reading(seen) =>
      if e.sequenceNumber == seen.count then ObserveBody(seen.(count := seen.count + 1), e.body) else Rejected
  }

  function ObserveAll(es: seq<Event>): Client {
    if es == [] then Fresh else Observe(ObserveAll(es[..|es| - 1]), es[|es| - 1])
  }

  lemma ObserveOneMore(es: seq<Event>, e: Event)
    ensures ObserveAll(es + [e]) == Observe(ObserveAll(es), e)
  {
    assert (es + [e])[..|es|] == es;
  }

  predicate NumberedFromZero(es: seq<Event>) {
    es == [] || (NumberedFromZero(es[..|es| - 1]) && es[|es| - 1].sequenceNumber == |es| - 1)
  }

  /** The output indexes announced, in order. */
  function AddedIndexes(es: seq<Event>): seq<nat> {
    if es == [] then []
    else AddedIndexes(es[..|es| - 1]) + if es[|es| - 1].body.ItemAdded? then [es[|es| - 1].body.index] else []
  }

  /** The output indexes reported done. */
  function DoneIndexes(es: seq<Event>): set<nat> {
    if es == [] then {}
    else DoneIndexes(es[..|es| - 1]) + if es[|es| - 1].body.ItemDone? then {es[|es| - 1].body.index} else {}
  }

  predicate AddedCountsUp(es: seq<Event>) {
    forall i | 0 <= i < |AddedIndexes(es)| :: AddedIndexes(es)[i] == i
  }

  /** Each done event names an index announced earlier and not yet done. */
  predicate DoneOnce(es: seq<Event>) {
    if es == [] then true
    else
      var init, last := es[..|es| - 1], es[|es| - 1].body;
      DoneOnce(init) && (last.ItemDone? ==> last.index in AddedIndexes(init) && last.index !in DoneIndexes(init))
  }

  function Deltas(es: seq<Event>): string {
    if es == [] then ""
    else Deltas(es[..|es| - 1]) + if es[|es| - 1].body.TextDelta? then es[|es| - 1].body.delta else ""
  }

  /** What an accepted event says about what was read before and after it. */
  lemma AcceptedStep(c: Client, e: Event)
    requires !Observe(c, e).Rejected?
    ensures !c.Ended? && !c.Rejected? && !Observe(c, e).Fresh?
    ensures e.sequenceNumber == if c.Fresh? then 0 else c.seen.count
    ensures Observe(c, e).seen.count == e.sequenceNumber + 1
    ensures c.Fresh? ==> e.body.ResponseCreated? && Observe(c, e).seen == Seen(1, [], {}, "", multiset{}, [])
    ensures c.Reading? && e.body.ItemDone? ==> e.body.index < |c.seen.items| && e.body.index !in c.seen.done
  {
  }

  lemma ReadingStep(c: Seen, e: Event)
    requires !Observe(Reading(c), e).Rejected?
    ensures var d, body := Observe(Reading(c), e).seen, e.body;
            && d.done == c.done + (if body.ItemDone? then {body.index} else {})
            && |d.items| == |c.items| + (if body.ItemAdded? then 1 else 0)
            && (body.ItemAdded? ==> body.index == |c.items|)
            && d.text == c.text + if body.TextDelta? then body.delta else ""
  {
  }

  /** What a client that has read `es` knows, in terms of the events alone. */
  ghost predicate Understood(es: seq<Event>, c: Client) {
    && NumberedFromZero(es) && AddedCountsUp(es) && DoneOnce(es)
    && if c.Fresh? then es == []
       else
         && !c.Rejected? && c.seen.count == |es|
         && |AddedIndexes(es)| == |c.seen.items| && DoneIndexes(es) == c.seen.done && Deltas(es) == c.seen.text
  }

  lemma UnderstoodStep(es: seq<Event>, c: Client, e: Event)
    requires Understood(es, c) && !Observe(c, e).Rejected?
    ensures Understood(es + [e], Observe(c, e))
  {
    var all := es + [e];
    assert all[..|es|] == es && all[|es|] == e;
    AcceptedStep(c, e);
    if c.Reading? {
      ReadingStep(c.seen, e);
      assert e.body.ItemDone? ==> AddedIndexes(es)[e.body.index] in AddedIndexes(es);
    }
  }

  /**
   * In an accepted stream events count 0, 1, 2, ...; so do announced indexes; each is done once, after being
   * announced.
   */
  lemma {:induction false} AcceptedIsUnderstood(es: seq<Event>)
    requires !ObserveAll(es).Rejected?
    ensures Understood(es, ObserveAll(es))
  {
    if es != [] {
      var init, last := es[..|es| - 1], es[|es| - 1];
      assert es == init + [last];
      assert ObserveAll(es) == Observe(ObserveAll(init), last);
      AcceptedIsUnderstood(init);
      UnderstoodStep(init, ObserveAll(init), last);
    }
  }

  lemma EndedByTerminal(c: Client, e: Event)
    requires !Observe(c, e).Rejected?
    ensures !c.Ended? && (Observe(c, e).Ended? <==> e.body.ResponseEnded?)
    ensures Observe(c, e).Ended? ==> Observe(c, e).env == e.body.env
  {
  }

  /** An accepted stream that has ended ends with its one terminal event. */
  lemma {:induction false} AcceptedEndsOnce(es: seq<Event>)
    requires !ObserveAll(es).Rejected?
    ensures forall i | 0 <= i < |es| - 1 :: !es[i].body.ResponseEnded?
    ensures ObserveAll(es).Ended? <==> es != [] && es[|es| - 1].body.ResponseEnded?
    ensures ObserveAll(es).Ended? ==> es[|es| - 1].body.env == ObserveAll(es).env
  {
    if es != [] {
      var init := es[..|es| - 1];
      EndedByTerminal(ObserveAll(init), es[|es| - 1]);
      AcceptedEndsOnce(init);
      assert forall i | 0 <= i < |init| :: init[i] == es[i];
    }
  }

  // --- every stream is accepted

  ghost predicate PendingOpen(pending: map<string, Pending>, c: Seen) {
    && (forall id | id in pending ::
          OpenItem(c, pending[id].index) && pending[id].item.Call? && c.items[pending[id].index] == pending[id].item &&
          pending[id].item.callId == id)
    && (forall a, b | a in pending && b in pending && a != b :: pending[a].index != pending[b].index)
  }

  /** The message, once open, is the one message item; it is not done before the stream is closed. */
  ghost predicate OneMessage(messageOpen: bool, messageIndex: nat, c: Seen) {
    && (messageOpen ==> OpenMessage(c, messageIndex))
    && (forall i | 0 <= i < |c.items| :: c.items[i].Message? ==> messageOpen && i == messageIndex)
  }

  ghost predicate DoneKnown(c: Seen) {
    forall x | x in c.done :: x < |c.items|
  }

  ghost predicate Tracks(s: State, c: Seen) {
    && DoneKnown(c) && c.count == s.sequence && |c.items| == s.outputIndex && c.text == Flatten(s.finalParts)
    && c.tools == s.emitted
    && PendingOpen(s.pending, c) && OneMessage(s.messageOpen, s.messageIndex, c)
  }

  ghost predicate Live(s: State) {
    && (s.messageOpen <==> s.finalParts != [])
    && ObserveAll(s.out).Reading? && Tracks(s, ObserveAll(s.out).seen)
  }

  lemma BegunIsLive(store: bool)
    ensures Live(Begun(store)) && Begun(store).stored == if store then [InProgress] else []
  {
    ObserveOneMore([], Event(0, ResponseCreated(InProgress)));
    assert [] + [Event(0, ResponseCreated(InProgress))] == [Event(0, ResponseCreated(InProgress))];
  }

  lemma FlattenOneMore(parts: seq<string>, d: string)
    ensures Flatten(parts + [d]) == Flatten(parts) + d
  {
    FlattenAppend(parts, [d]);
    assert [d][1..] == [] && d + [] == d;
  }

  lemma AnnouncedKeepsPending(pending: map<string, Pending>, c: Seen, d: Seen, item: Item)
    requires PendingOpen(pending, c) && d.items == c.items + [item] && d.done == c.done
    ensures PendingOpen(pending, d)
  {
  }

  lemma OpenedIsTracked(s: State)
    requires Live(s)
    ensures var t := Opened(s);
            && ObserveAll(t.out).Reading? && Tracks(t, ObserveAll(t.out).seen)
            && t.messageOpen && t.finalParts == s.finalParts && t.stored == s.stored
  {
    if !s.messageOpen {
      var c := ObserveAll(s.out).seen;
      ObserveOneMore(s.out, Event(s.sequence, ItemAdded(s.outputIndex, Message(""))));
      var d := c.(count := c.count + 1, items := c.items + [Message("")]);
      assert Announced(c.(count := c.count + 1), Message("")) == Reading(d);
      AnnouncedKeepsPending(s.pending, c, d, Message(""));
    }
  }

  lemma DeltaKeepsLive(s: State, delta: string)
    requires Live(s)
    ensures Live(WithDelta(s, delta)) && WithDelta(s, delta).stored == s.stored
  {
    OpenedIsTracked(s);
    var t := Opened(s);
    var c := ObserveAll(t.out).seen;
    ObserveOneMore(t.out, Event(t.sequence, TextDelta(t.messageIndex, delta)));
    FlattenOneMore(s.finalParts, delta);
    var d := c.(count := c.count + 1, text := c.text + delta);
    assert ObserveAll(WithDelta(s, delta).out) == Reading(d);
    assert PendingOpen(t.pending, d);
  }

  lemma ToolStartedKeepsLive(tag: string, s: State, given: string, name: string, arguments: string)
    requires Live(s)
    ensures var t := WithToolStarted(tag, s, given, name, arguments); Live(t) && t.stored == s.stored
  {
    var id := CallId(tag, given, |s.pending|);
    var item := Call(id, name, arguments);
    var c := ObserveAll(s.out).seen;
    ObserveOneMore(s.out, Event(s.sequence, ItemAdded(s.outputIndex, item)));
    var d := c.(count := c.count + 1, items := c.items + [item], tools := c.tools + [item]);
    assert ObserveAll(WithToolStarted(tag, s, given, name, arguments).out) == Reading(d);
    AnnouncedKeepsPending(s.pending, c, d, item);
    PendingAdded(s.pending, d, id, Pending(item, s.outputIndex));
  }

  lemma PendingAdded(pending: map<string, Pending>, c: Seen, id: string, p: Pending)
    requires PendingOpen(pending, c) && p.item.Call? && p.item.callId == id
    requires OpenItem(c, p.index) && c.items[p.index] == p.item
    requires forall a | a in pending :: pending[a].index != p.index
    ensures PendingOpen(pending[id := p], c)
  {
  }

  /** What the client knows after a call is done and its output announced and done. */
  function AfterAnswer(c: Seen, index: nat, item: Item): Seen {
    c.(count := c.count + 3, items := c.items + [item], tools := c.tools + [item], done := c.done + {index, |c.items|})
  }

  lemma CallAnswered(c: Seen, p: Pending, item: Item)
    requires OpenItem(c, p.index) && DoneKnown(c) && p.item.Call? && c.items[p.index] == p.item
    requires item.CallOutput? && item.callId == p.item.callId
    ensures var e0, e1, e2 := Event(c.count, ItemDone(p.index, p.item)), Event(c.count + 1, ItemAdded(|c.items|, item)),
                              Event(c.count + 2, ItemDone(|c.items|, item));
            Observe(Observe(Observe(Reading(c), e0), e1), e2) == Reading(AfterAnswer(c, p.index, item))
  {
    var e0, e1, e2 := Event(c.count, ItemDone(p.index, p.item)), Event(c.count + 1, ItemAdded(|c.items|, item)),
                      Event(c.count + 2, ItemDone(|c.items|, item));
    var c1 := c.(count := c.count + 1, done := c.done + {p.index}, unanswered := c.unanswered + multiset{item.callId});
    assert Observe(Reading(c), e0) == Reading(c1);
    assert c1.unanswered - multiset{item.callId} == c.unanswered;
    var c2 := c.(count := c.count + 2, done := c.done + {p.index}, items := c.items + [item],
                 tools := c.tools + [item]);
    assert Observe(Reading(c1), e1) == Reading(c2);
    assert c2.done + {|c.items|} == c.done + {p.index, |c.items|};
  }

  lemma AnswerKeepsOpen(s: State, c: Seen, callId: string, item: Item)
    requires Tracks(s, c) && callId in s.pending && item.CallOutput?
    ensures var d := AfterAnswer(c, s.pending[callId].index, item);
            DoneKnown(d) && PendingOpen(s.pending - {callId}, d) && OneMessage(s.messageOpen, s.messageIndex, d)
  {
    var p := s.pending[callId];
    var d := AfterAnswer(c, p.index, item);
    assert OpenItem(c, p.index);
    forall id | id in s.pending - {callId}
      ensures OpenItem(d, s.pending[id].index)
    {
      assert OpenItem(c, s.pending[id].index);
    }
    if s.messageOpen {
      assert OpenMessage(c, s.messageIndex) && OpenMessage(d, s.messageIndex);
    }
  }

  lemma ToolCompletedKeepsLive(s: State, callId: string, result: string)
    requires Live(s)
    ensures Live(WithToolCompleted(s, callId, result)) && WithToolCompleted(s, callId, result).stored == s.stored
  {
    if callId in s.pending {
      var p, item, c := s.pending[callId], CallOutput(callId, result), ObserveAll(s.out).seen;
      ObserveAnswer(s.out, c, p.index, p.item, item);
      CallAnswered(c, p, item);
      AnswerKeepsOpen(s, c, callId, item);
      CompletedShape(s, callId, result);
    }
  }

  function AnswerEvents(count: nat, index: nat, call: Item, next: nat, item: Item): seq<Event> {
    [Event(count, ItemDone(index, call)), Event(count + 1, ItemAdded(next, item)),
     Event(count + 2, ItemDone(next, item))]
  }

  lemma CompletedShape(s: State, callId: string, result: string)
    requires callId in s.pending
    ensures var t, p, item := WithToolCompleted(s, callId, result), s.pending[callId], CallOutput(callId, result);
            && t.out == s.out + AnswerEvents(s.sequence, p.index, p.item, s.outputIndex, item)
            && t == s.(sequence := s.sequence + 3, outputIndex := s.outputIndex + 1, pending := s.pending - {callId},
                       emitted := s.emitted + [item], out := t.out)
  {
  }

  lemma ObserveAnswer(out: seq<Event>, c: Seen, index: nat, call: Item, item: Item)
    requires ObserveAll(out) == Reading(c)
    ensures var es := AnswerEvents(c.count, index, call, |c.items|, item);
            ObserveAll(out + es) == Observe(Observe(Observe(Reading(c), es[0]), es[1]), es[2])
  {
    var es := AnswerEvents(c.count, index, call, |c.items|, item);
    ObserveOneMore(out, es[0]);
    ObserveOneMore(out + [es[0]], es[1]);
    ObserveOneMore(out + [es[0]] + [es[1]], es[2]);
    assert out + es == out + [es[0]] + [es[1]] + [es[2]];
  }

  lemma {:induction false} AllHandledKeepsLive(tag: string, s: State, qs: seq<QueueItem>)
    requires Live(s)
    ensures Live(AllHandled(tag, s, qs)) && AllHandled(tag, s, qs).stored == s.stored
    decreases |qs|
  {
    if qs != [] {
      HandledKeepsLive(tag, s, qs[0]);
      AllHandledKeepsLive(tag, Handled(tag, s, qs[0]), qs[1..]);
    }
  }

  lemma HandledKeepsLive(tag: string, s: State, q: QueueItem)
    requires Live(s)
    ensures Live(Handled(tag, s, q)) && Handled(tag, s, q).stored == s.stored
  {
    match q
    case Delta(text) => DeltaKeepsLive(s, text);
    case ToolStarted(callId, name, arguments) => ToolStartedKeepsLive(tag, s, callId, name, arguments);
    case ToolCompleted(callId, result) => ToolCompletedKeepsLive(s, callId, result);
    case Other =>
  }

  lemma MessageClosed(c: Seen, index: nat)
    requires OpenMessage(c, index)
    ensures var e0, e1 := Event(c.count, TextDone(index, c.text)), Event(c.count + 1, ItemDone(index, Message(c.text)));
            Observe(Observe(Reading(c), e0), e1) == Reading(c.(count := c.count + 2, done := c.done + {index}))
  {
    var e0 := Event(c.count, TextDone(index, c.text));
    assert Observe(Reading(c), e0) == Reading(c.(count := c.count + 1));
  }

  lemma ClosedMessage(s: State)
    requires Live(s)
    ensures var c, d := ObserveAll(s.out).seen, ObserveAll(Closed(s).out);
            && d.Reading? && d.seen.count == Closed(s).sequence && d.seen.text == c.text && d.seen.tools == c.tools
            && MessagesDone(d.seen)
  {
    if s.messageOpen {
      var c := ObserveAll(s.out).seen;
      var e0, e1 := Event(c.count, TextDone(s.messageIndex, c.text)),
                    Event(c.count + 1, ItemDone(s.messageIndex, Message(c.text)));
      MessageClosed(c, s.messageIndex);
      ObserveOneMore(s.out, e0);
      ObserveOneMore(s.out + [e0], e1);
      assert Closed(s).out == s.out + [e0] + [e1];
    }
  }

  lemma EndObserved(c: Seen, env: Envelope)
    requires FinalText(env, c.text, c.tools) && MessagesDone(c)
    ensures Observe(Reading(c), Event(c.count, ResponseEnded(env))) == Ended(c.(count := c.count + 1), env)
  {
  }

  lemma EndIsAccepted(store: bool, s: State, o: Outcome, c: Seen)
    requires ObserveAll(s.out) == Reading(c) && c.count == s.sequence && MessagesDone(c)
    requires c.text == Flatten(s.finalParts) && c.tools == s.emitted
    ensures var t := Emitted(Stored(store, s, FinalEnvelope(s, o)), ResponseEnded(FinalEnvelope(s, o)));
            ObserveAll(t.out) == Ended(c.(count := c.count + 1), FinalEnvelope(s, o))
  {
    EndObserved(c, FinalEnvelope(s, o));
    ObserveOneMore(s.out, Event(s.sequence, ResponseEnded(FinalEnvelope(s, o))));
  }

  /**
   * Whatever the agent does, the client accepts the whole stream to its one terminal event, the text it collected is
   * the final text, and the terminal envelope is the one last stored.
   */
  lemma StreamIsAccepted(tag: string, store: bool, qs: seq<QueueItem>, o: Outcome)
    ensures var s := Streamed(tag, store, qs, o);
            && ObserveAll(s.out).Ended? && ObserveAll(s.out).env == FinalEnvelope(s, o)
            && ObserveAll(s.out).seen.text == Flatten(s.finalParts) && ObserveAll(s.out).seen.tools == s.emitted
            && s.stored == (if store then [InProgress, FinalEnvelope(s, o)] else [])
            && (FinalEnvelope(s, o).Failed? <==> AgentError(o) != "")
  {
    BegunIsLive(store);
    AllHandledKeepsLive(tag, Begun(store), qs);
    FinishIsAccepted(store, AllHandled(tag, Begun(store), qs), o);
  }

  lemma FinishIsAccepted(store: bool, s: State, o: Outcome)
    requires Live(s)
    ensures var t := Finished(store, s, o);
            && ObserveAll(t.out).Ended? && ObserveAll(t.out).env == FinalEnvelope(t, o)
            && ObserveAll(t.out).seen.text == Flatten(t.finalParts) && ObserveAll(t.out).seen.tools == t.emitted
            && t.stored == (if store then s.stored + [FinalEnvelope(t, o)] else s.stored)
  {
    AnsweredKeepsLive(s, o);
    var t := Answered(s, o);
    ClosedMessage(t);
    EndIsAccepted(store, Closed(t), o, ObserveAll(Closed(t).out).seen);
  }

  lemma AnsweredKeepsLive(s: State, o: Outcome)
    requires Live(s)
    ensures Live(Answered(s, o)) && Answered(s, o).stored == s.stored
  {
    if o.Returned? && !o.failed && o.finalResponse != "" && s.finalParts == [] {
      DeltaKeepsLive(s, o.finalResponse);
    }
  }

  /** The same said of the events themselves. */
  lemma StreamEvents(tag: string, store: bool, qs: seq<QueueItem>, o: Outcome)
    ensures var s := Streamed(tag, store, qs, o);
            var last := |s.out| - 1;
            && NumberedFromZero(s.out) && AddedCountsUp(s.out) && DoneOnce(s.out)
            && (forall i | 0 <= i <= last :: s.out[i].body.ResponseEnded? <==> i == last)
            && s.out[last].body.env == FinalEnvelope(s, o)
            && (store ==> s.stored[|s.stored| - 1] == s.out[last].body.env)
            && Deltas(s.out) == Flatten(s.finalParts)
  {
    StreamIsAccepted(tag, store, qs, o);
    var s := Streamed(tag, store, qs, o);
    AcceptedIsUnderstood(s.out);
    AcceptedEndsOnce(s.out);
  }

  function DeltaTexts(qs: seq<QueueItem>): string
    decreases |qs|
  {
    if qs == [] then "" else (if qs[0].Delta? then qs[0].text else "") + DeltaTexts(qs[1..])
  }

  predicate AnyDelta(qs: seq<QueueItem>) {
    exists i | 0 <= i < |qs| :: qs[i].Delta?
  }

  lemma HandledOne(tag: string, s: State, q: QueueItem)
    ensures Flatten(Handled(tag, s, q).finalParts) == Flatten(s.finalParts) + if q.Delta? then q.text else ""
    ensures Handled(tag, s, q).finalParts == [] <==> s.finalParts == [] && !q.Delta?
  {
    if q.Delta? {
      FlattenOneMore(s.finalParts, q.text);
    }
  }

  lemma {:induction false} HandledText(tag: string, s: State, qs: seq<QueueItem>)
    ensures Flatten(AllHandled(tag, s, qs).finalParts) == Flatten(s.finalParts) + DeltaTexts(qs)
    ensures AllHandled(tag, s, qs).finalParts == [] <==> s.finalParts == [] && !AnyDelta(qs)
    decreases |qs|
  {
    if qs != [] {
      HandledOne(tag, s, qs[0]);
      HandledText(tag, Handled(tag, s, qs[0]), qs[1..]);
      AnyDeltaStep(qs);
    }
  }

  lemma AnyDeltaStep(qs: seq<QueueItem>)
    requires qs != []
    ensures AnyDelta(qs) <==> qs[0].Delta? || AnyDelta(qs[1..])
  {
    if AnyDelta(qs[1..]) {
      var i :| 0 <= i < |qs| - 1 && qs[1..][i].Delta?;
      assert qs[i + 1].Delta?;
    }
    if AnyDelta(qs) && !qs[0].Delta? {
      var i :| 0 <= i < |qs| && qs[i].Delta?;
      assert qs[1..][i - 1].Delta?;
    }
  }

  /**
   * The final text is the concatenation of the streamed deltas, or, if there were none, the final response of a
   * success.
   */
  lemma FinalTextIsTheDeltas(tag: string, store: bool, qs: seq<QueueItem>, o: Outcome)
    ensures Flatten(Streamed(tag, store, qs, o).finalParts)
            == if AnyDelta(qs) || o.Raised? || o.failed then DeltaTexts(qs) else o.finalResponse
  {
    var s := AllHandled(tag, Begun(store), qs);
    QueueText(tag, store, qs);
    AnsweredText(s, o);
    FinishedText(store, s, o);
    if !AnyDelta(qs) {
      NoDeltaNoText(qs);
    }
  }

  lemma QueueText(tag: string, store: bool, qs: seq<QueueItem>)
    ensures var parts := AllHandled(tag, Begun(store), qs).finalParts;
            Flatten(parts) == DeltaTexts(qs) && (parts == [] <==> !AnyDelta(qs))
  {
    HandledText(tag, Begun(store), qs);
    assert Begun(store).finalParts == [] && Flatten(Begun(store).finalParts) == "";
  }

  lemma AnsweredText(s: State, o: Outcome)
    ensures Flatten(Answered(s, o).finalParts)
            == if s.finalParts != [] || o.Raised? || o.failed then Flatten(s.finalParts) else o.finalResponse
  {
    FlattenOneMore(s.finalParts, if o.Raised? then "" else o.finalResponse);
  }

  lemma FinishedText(store: bool, s: State, o: Outcome)
    ensures Finished(store, s, o).finalParts == Answered(s, o).finalParts
  {
  }

  lemma {:induction false} NoDeltaNoText(qs: seq<QueueItem>)
    requires !AnyDelta(qs)
    ensures DeltaTexts(qs) == ""
    decreases |qs|
  {
    if qs != [] {
      assert !qs[0].Delta?;
      assert forall i | 0 <= i < |qs| - 1 :: qs[1..][i] == qs[i + 1];
      NoDeltaNoText(qs[1..]);
    }
  }

  ghost predicate NoMessages(items: seq<Item>) {
    forall i | 0 <= i < |items| :: !items[i].Message?
  }

  lemma HandledEmitsTools(tag: string, s: State, q: QueueItem)
    requires NoMessages(s.emitted)
    ensures NoMessages(Handled(tag, s, q).emitted)
  {
  }

  lemma {:induction false} AllHandledEmitsTools(tag: string, s: State, qs: seq<QueueItem>)
    requires NoMessages(s.emitted)
    ensures NoMessages(AllHandled(tag, s, qs).emitted)
    decreases |qs|
  {
    if qs != [] {
      HandledEmitsTools(tag, s, qs[0]);
      AllHandledEmitsTools(tag, Handled(tag, s, qs[0]), qs[1..]);
    }
  }

  lemma EmittedAreTools(tag: string, store: bool, qs: seq<QueueItem>, o: Outcome)
    ensures NoMessages(Streamed(tag, store, qs, o).emitted)
  {
    AllHandledEmitsTools(tag, Begun(store), qs);
  }

  /**
   * The terminal event, in terms of the queue and the outcome alone: whether it reports a failure, with which error,
   * which usage and which text, and that it is what was last stored.
   */
  lemma TerminalEventMeans(tag: string, store: bool, qs: seq<QueueItem>, o: Outcome)
    ensures var s := Streamed(tag, store, qs, o);
            var text := if AnyDelta(qs) || o.Raised? || o.failed then DeltaTexts(qs) else o.finalResponse;
            var env := s.out[|s.out| - 1].body.env;
            && s.out != [] && s.out[|s.out| - 1].body.ResponseEnded?
            && (env.Failed? <==> (o.Raised? && o.error != "") || (o.Returned? && o.failed))
            && (env.Completed? <==> !((o.Raised? && o.error != "") || (o.Returned? && o.failed)))
            && (env.Failed? ==> env.error == if o.error != "" then o.error else "agent run failed")
            && env.usage == (if o.Returned? then o.usage else "")
            && env.output == s.emitted
                             + [Message(if text != "" then text else if env.Failed? then env.error else "")]
            && (forall i | 0 <= i < |s.emitted| :: !s.emitted[i].Message?)
            && s.stored == if store then [InProgress, env] else []
  {
    StreamIsAccepted(tag, store, qs, o);
    StreamEvents(tag, store, qs, o);
    FinalTextIsTheDeltas(tag, store, qs, o);
    EmittedAreTools(tag, store, qs, o);
  }

  /** An exception is reported as a failure exactly when its text is not empty. */
  lemma SilentExceptionCompletes(tag: string, store: bool, qs: seq<QueueItem>, error: string)
    ensures FinalEnvelope(Streamed(tag, store, qs, Raised(error)), Raised(error)).Completed? <==> error == ""
  {
  }

  // --- what is sent for the text

  /** How many deltas are sent, and how many messages announced. */
  function DeltaEvents(es: seq<Event>): nat {
    if es == [] then 0 else DeltaEvents(es[..|es| - 1]) + if es[|es| - 1].body.TextDelta? then 1 else 0
  }

  function MessageEvents(es: seq<Event>): nat {
    if es == [] then 0
    else
      var last := es[|es| - 1].body;
      MessageEvents(es[..|es| - 1]) + if last.ItemAdded? && last.item.Message? then 1 else 0
  }

  function CountDeltas(qs: seq<QueueItem>): nat
    decreases |qs|
  {
    if qs == [] then 0 else (if qs[0].Delta? then 1 else 0) + CountDeltas(qs[1..])
  }

  lemma EmittedText(s: State, body: Body)
    ensures DeltaEvents(Emitted(s, body).out) == DeltaEvents(s.out) + if body.TextDelta? then 1 else 0
    ensures MessageEvents(Emitted(s, body).out)
            == MessageEvents(s.out) + if body.ItemAdded? && body.item.Message? then 1 else 0
  {
    var e := Event(s.sequence, body);
    assert (s.out + [e])[..|s.out|] == s.out;
  }

  /** So many deltas sent so far, and a message announced exactly if there were any. */
  ghost predicate Texted(s: State, n: nat) {
    && DeltaEvents(s.out) == n && MessageEvents(s.out) == (if n > 0 then 1 else 0)
    && (s.messageOpen <==> n > 0) && (s.finalParts == [] <==> n == 0)
  }

  lemma DeltaIsTexted(s: State, delta: string, n: nat)
    requires Texted(s, n)
    ensures Texted(WithDelta(s, delta), n + 1)
  {
    if !s.messageOpen {
      EmittedText(s.(messageOpen := true, messageIndex := s.outputIndex, outputIndex := s.outputIndex + 1),
                  ItemAdded(s.outputIndex, Message("")));
    }
    var t := Opened(s);
    EmittedText(t.(finalParts := t.finalParts + [delta]), TextDelta(t.messageIndex, delta));
  }

  /** Events that are neither text nor a message leave the count as it is. */
  lemma OtherTexts(s: State, body: Body, n: nat)
    requires Texted(s, n) && !body.TextDelta? && !(body.ItemAdded? && body.item.Message?)
    ensures Texted(Emitted(s, body), n)
  {
    EmittedText(s, body);
  }

  lemma ToolStartedTexts(tag: string, s: State, given: string, name: string, arguments: string, n: nat)
    requires Texted(s, n)
    ensures Texted(WithToolStarted(tag, s, given, name, arguments), n)
  {
    var id := CallId(tag, given, |s.pending|);
    var item := Call(id, name, arguments);
    OtherTexts(s.(outputIndex := s.outputIndex + 1, pending := s.pending[id := Pending(item, s.outputIndex)],
                  emitted := s.emitted + [item]),
               ItemAdded(s.outputIndex, item), n);
  }

  lemma ToolCompletedTexts(s: State, callId: string, result: string, n: nat)
    requires Texted(s, n)
    ensures Texted(WithToolCompleted(s, callId, result), n)
  {
    if callId in s.pending {
      var p, item := s.pending[callId], CallOutput(callId, result);
      var s0 := s.(pending := s.pending - {callId});
      OtherTexts(s0, ItemDone(p.index, p.item), n);
      var a := Emitted(s0, ItemDone(p.index, p.item));
      var a1 := a.(outputIndex := a.outputIndex + 1, emitted := a.emitted + [item]);
      OtherTexts(a1, ItemAdded(a.outputIndex, item), n);
      OtherTexts(Emitted(a1, ItemAdded(a.outputIndex, item)), ItemDone(a.outputIndex, item), n);
    }
  }

  lemma {:induction false} AllHandledTexts(tag: string, s: State, qs: seq<QueueItem>, n: nat)
    requires Texted(s, n)
    ensures Texted(AllHandled(tag, s, qs), n + CountDeltas(qs))
    decreases |qs|
  {
    if qs != [] {
      match qs[0] {
        case Delta(text) => DeltaIsTexted(s, text, n);
        case ToolStarted(callId, name, arguments) => ToolStartedTexts(tag, s, callId, name, arguments, n);
        case ToolCompleted(callId, result) => ToolCompletedTexts(s, callId, result, n);
        case Other =>
      }
      AllHandledTexts(tag, Handled(tag, s, qs[0]), qs[1..], n + if qs[0].Delta? then 1 else 0);
    }
  }

  lemma ClosedTexts(s: State, n: nat)
    requires Texted(s, n)
    ensures Texted(Closed(s), n)
  {
    var text := Flatten(s.finalParts);
    OtherTexts(s, TextDone(s.messageIndex, text), n);
    OtherTexts(Emitted(s, TextDone(s.messageIndex, text)), ItemDone(s.messageIndex, Message(text)), n);
  }

  /**
   * A stream sends one delta for each the agent gave, or a single one for the final response of a success that gave
   * none, unless that is empty; and it announces one message exactly if it sends any.
   */
  lemma OneDeltaEach(tag: string, store: bool, qs: seq<QueueItem>, o: Outcome)
    ensures var out := Streamed(tag, store, qs, o).out;
            var n := CountDeltas(qs);
            var all := if n == 0 && o.Returned? && !o.failed && o.finalResponse != "" then 1 else n;
            DeltaEvents(out) == all && MessageEvents(out) == if all > 0 then 1 else 0
  {
    var s0 := Begun(store);
    assert s0.out[..0] == [] && Texted(s0, 0);
    AllHandledTexts(tag, s0, qs, 0);
    var s, n := AllHandled(tag, s0, qs), CountDeltas(qs);
    var all := if n == 0 && o.Returned? && !o.failed && o.finalResponse != "" then 1 else n;
    if o.Returned? {
      DeltaIsTexted(s, o.finalResponse, n);
    }
    assert Texted(Answered(s, o), all);
    ClosedTexts(Answered(s, o), all);
    var t := Closed(Answered(s, o));
    OtherTexts(Stored(store, t, FinalEnvelope(t, o)), ResponseEnded(FinalEnvelope(t, o)), all);
  }
}

/** The calls of a streamed response: ids made up for unnamed calls, calls lost, and calls reported done. */
module StreamCalls {
  import opened Basics
  import opened StreamResponse

  /** The last digit, and the rest; one digit is the whole of a number below ten. */
  lemma DigitsEnd(n: nat)
    ensures var d := Digits(n);
            && |d| >= 1 && d[|d| - 1] == "0123456789"[n % 10]
            && d[..|d| - 1] == (if n < 10 then [] else Digits(n / 10))
            && (|d| == 1 <==> n < 10)
  {
    if n >= 10 {
      assert |Digits(n / 10)| >= 1;
    }
  }

  lemma DigitsAreDistinct(a: nat, b: nat)
    requires a < 10 && b < 10
    ensures "0123456789"[a] == "0123456789"[b] <==> a == b
  {
  }

  lemma {:induction false} DigitsDiffer(a: nat, b: nat)
    ensures Digits(a) == Digits(b) <==> a == b
    decreases a
  {
    DigitsEnd(a);
    DigitsEnd(b);
    DigitsAreDistinct(a % 10, b % 10);
    if a >= 10 && b >= 10 {
      DigitsDiffer(a / 10, b / 10);
    }
  }

  /** Two ids made for calls without one are the same exactly when as many calls were pending. */
  lemma MadeUpCallIdsDiffer(tag: string, a: nat, b: nat)
    ensures CallId(tag, "", a) == CallId(tag, "", b) <==> a == b
  {
    DigitsDiffer(a + 1, b + 1);
    var prefix := "call_" + tag + "_";
    assert CallId(tag, "", a)[|prefix|..] == Digits(a + 1) && CallId(tag, "", b)[|prefix|..] == Digits(b + 1);
  }

  // --- which calls are lost

  /** The calls announced, and the calls reported done. */
  function AddedCalls(es: seq<Event>): nat {
    if es == [] then 0
    else
      var last := es[|es| - 1].body;
      AddedCalls(es[..|es| - 1]) + if last.ItemAdded? && last.item.Call? then 1 else 0
  }

  function DoneCalls(es: seq<Event>): nat {
    if es == [] then 0
    else
      var last := es[|es| - 1].body;
      DoneCalls(es[..|es| - 1]) + if last.ItemDone? && last.item.Call? then 1 else 0
  }

  /** Calls that have been announced and will never be reported done, whatever follows: neither done nor pending. */
  function LostCalls(s: State): int {
    AddedCalls(s.out) - DoneCalls(s.out) - |s.pending|
  }

  /** The item starts a call under an id that is already pending. */
  predicate Repeats(tag: string, s: State, q: QueueItem) {
    q.ToolStarted? && CallId(tag, q.callId, |s.pending|) in s.pending
  }

  function CountRepeats(tag: string, s: State, qs: seq<QueueItem>): nat
    decreases |qs|
  {
    if qs == [] then 0
    else (if Repeats(tag, s, qs[0]) then 1 else 0) + CountRepeats(tag, Handled(tag, s, qs[0]), qs[1..])
  }

  /** No item in the queue ever starts a call under an id that is pending at that moment. */
  ghost predicate NeverRepeats(tag: string, s: State, qs: seq<QueueItem>) {
    forall i | 0 <= i < |qs| :: !Repeats(tag, AllHandled(tag, s, qs[..i]), qs[i])
  }

  lemma EmittedCalls(s: State, body: Body)
    ensures AddedCalls(Emitted(s, body).out) == AddedCalls(s.out) + if body.ItemAdded? && body.item.Call? then 1 else 0
    ensures DoneCalls(Emitted(s, body).out) == DoneCalls(s.out) + if body.ItemDone? && body.item.Call? then 1 else 0
  {
    var e := Event(s.sequence, body);
    assert (s.out + [e])[..|s.out|] == s.out;
  }

  lemma OpenedLosesNone(s: State)
    ensures LostCalls(Opened(s)) == LostCalls(s)
  {
    EmittedCalls(s.(messageOpen := true, messageIndex := s.outputIndex, outputIndex := s.outputIndex + 1),
                 ItemAdded(s.outputIndex, Message("")));
  }

  lemma DeltaLosesNone(s: State, delta: string)
    ensures LostCalls(WithDelta(s, delta)) == LostCalls(s)
  {
    OpenedLosesNone(s);
    var t := Opened(s);
    EmittedCalls(t.(finalParts := t.finalParts + [delta]), TextDelta(t.messageIndex, delta));
  }

  lemma ToolStartedLoses(tag: string, s: State, given: string, name: string, arguments: string)
    ensures LostCalls(WithToolStarted(tag, s, given, name, arguments))
            == LostCalls(s) + if Repeats(tag, s, ToolStarted(given, name, arguments)) then 1 else 0
  {
    var id := CallId(tag, given, |s.pending|);
    var item := Call(id, name, arguments);
    var pending := s.pending[id := Pending(item, s.outputIndex)];
    EmittedCalls(s.(outputIndex := s.outputIndex + 1, pending := pending, emitted := s.emitted + [item]),
                 ItemAdded(s.outputIndex, item));
    if id in s.pending {
      assert pending.Keys == s.pending.Keys;
    } else {
      assert pending.Keys == s.pending.Keys + {id};
    }
    assert |pending.Keys| == |pending| && |s.pending.Keys| == |s.pending|;
  }

  lemma ToolCompletedLosesNone(s: State, callId: string, result: string)
    requires callId in s.pending ==> s.pending[callId].item.Call?
    ensures LostCalls(WithToolCompleted(s, callId, result)) == LostCalls(s)
  {
    if callId in s.pending {
      var p, item := s.pending[callId], CallOutput(callId, result);
      var s0 := s.(pending := s.pending - {callId});
      EmittedCalls(s0, ItemDone(p.index, p.item));
      var a := Emitted(s0, ItemDone(p.index, p.item));
      var a1 := a.(outputIndex := a.outputIndex + 1, emitted := a.emitted + [item]);
      EmittedCalls(a1, ItemAdded(a.outputIndex, item));
      EmittedCalls(Emitted(a1, ItemAdded(a.outputIndex, item)), ItemDone(a.outputIndex, item));
      assert (s.pending - {callId}).Keys == s.pending.Keys - {callId};
      assert |s0.pending.Keys| == |s0.pending| && |s.pending.Keys| == |s.pending|;
    }
  }

  lemma HandledLoses(tag: string, s: State, q: QueueItem)
    requires Live(s)
    ensures LostCalls(Handled(tag, s, q)) == LostCalls(s) + if Repeats(tag, s, q) then 1 else 0
  {
    match q
    case Delta(text) => DeltaLosesNone(s, text);
    case ToolStarted(callId, name, arguments) => ToolStartedLoses(tag, s, callId, name, arguments);
    case ToolCompleted(callId, result) => ToolCompletedLosesNone(s, callId, result);
    case Other =>
  }

  lemma {:induction false} AllHandledLoses(tag: string, s: State, qs: seq<QueueItem>)
    requires Live(s)
    ensures LostCalls(AllHandled(tag, s, qs)) == LostCalls(s) + CountRepeats(tag, s, qs)
    decreases |qs|
  {
    if qs != [] {
      HandledLoses(tag, s, qs[0]);
      HandledKeepsLive(tag, s, qs[0]);
      AllHandledLoses(tag, Handled(tag, s, qs[0]), qs[1..]);
    }
  }

  lemma AnsweredLosesNone(s: State, o: Outcome)
    ensures LostCalls(Answered(s, o)) == LostCalls(s) && Answered(s, o).pending == s.pending
  {
    if o.Returned? {
      DeltaLosesNone(s, o.finalResponse);
    }
  }

  /** An event that announces no call and reports none done leaves the count as it is. */
  lemma OtherLosesNone(s: State, body: Body)
    requires !(body.ItemAdded? || body.ItemDone?) || !body.item.Call?
    ensures LostCalls(Emitted(s, body)) == LostCalls(s) && Emitted(s, body).pending == s.pending
  {
    EmittedCalls(s, body);
  }

  lemma ClosedLosesNone(s: State)
    ensures LostCalls(Closed(s)) == LostCalls(s) && Closed(s).pending == s.pending
  {
    if s.messageOpen {
      var text := Flatten(s.finalParts);
      var t := Emitted(s, TextDone(s.messageIndex, text));
      OtherLosesNone(s, TextDone(s.messageIndex, text));
      OtherLosesNone(t, ItemDone(s.messageIndex, Message(text)));
      assert Closed(s) == Emitted(t, ItemDone(s.messageIndex, Message(text)));
    }
  }

  lemma FinishedCalls(store: bool, s: State, o: Outcome)
    ensures LostCalls(Finished(store, s, o)) == LostCalls(s) && Finished(store, s, o).pending == s.pending
  {
    AnsweredLosesNone(s, o);
    ClosedLosesNone(Answered(s, o));
    var t := Closed(Answered(s, o));
    EmittedCalls(Stored(store, t, FinalEnvelope(t, o)), ResponseEnded(FinalEnvelope(t, o)));
  }

  lemma {:induction false} CountsNoneIffNeverRepeats(tag: string, s: State, qs: seq<QueueItem>)
    ensures CountRepeats(tag, s, qs) == 0 <==> NeverRepeats(tag, s, qs)
    decreases |qs|
  {
    if qs != [] {
      var next := Handled(tag, s, qs[0]);
      CountsNoneIffNeverRepeats(tag, next, qs[1..]);
      assert qs[..0] == [];
      forall i | 0 <= i < |qs| - 1
        ensures qs[1..][i] == qs[i + 1] && AllHandled(tag, next, qs[1..][..i]) == AllHandled(tag, s, qs[..i + 1])
      {
        assert qs[..i + 1][0] == qs[0] && qs[..i + 1][1..] == qs[1..][..i];
      }
      assert NeverRepeats(tag, s, qs) <==> !Repeats(tag, s, qs[0]) && NeverRepeats(tag, next, qs[1..]) by {
        if NeverRepeats(tag, s, qs) {
          assert !Repeats(tag, AllHandled(tag, s, qs[..0]), qs[0]);
          forall i | 0 <= i < |qs| - 1
            ensures !Repeats(tag, AllHandled(tag, next, qs[1..][..i]), qs[1..][i])
          {
            assert !Repeats(tag, AllHandled(tag, s, qs[..i + 1]), qs[i + 1]);
          }
        }
        if !Repeats(tag, s, qs[0]) && NeverRepeats(tag, next, qs[1..]) {
          forall i | 0 <= i < |qs|
            ensures !Repeats(tag, AllHandled(tag, s, qs[..i]), qs[i])
          {
            if i > 0 {
              assert !Repeats(tag, AllHandled(tag, next, qs[1..][..i - 1]), qs[1..][i - 1]);
            }
          }
        }
      }
    }
  }

  /**
   * Of the calls a stream announces, those neither reported done nor left pending are exactly as many as were started
   * under an id, given or made up, that was pending at that moment. So none is lost exactly when that never happens.
   */
  lemma CallsLostAreThoseRepeated(tag: string, store: bool, qs: seq<QueueItem>, o: Outcome)
    ensures var s := Streamed(tag, store, qs, o);
            && AddedCalls(s.out) - DoneCalls(s.out) - |s.pending| == CountRepeats(tag, Begun(store), qs)
            && (AddedCalls(s.out) == DoneCalls(s.out) + |s.pending| <==> NeverRepeats(tag, Begun(store), qs))
  {
    var s0 := Begun(store);
    BegunIsLive(store);
    assert s0.out[..0] == [] && AddedCalls(s0.out) == 0 && DoneCalls(s0.out) == 0;
    AllHandledLoses(tag, s0, qs);
    FinishedCalls(store, AllHandled(tag, s0, qs), o);
    CountsNoneIffNeverRepeats(tag, s0, qs);
  }

  lemma AllHandledThree(tag: string, s: State, a: QueueItem, b: QueueItem, c: QueueItem)
    ensures AllHandled(tag, s, [a, b, c]) == Handled(tag, Handled(tag, Handled(tag, s, a), b), c)
  {
    assert [a, b, c][1..] == [b, c] && [b, c][1..] == [c] && [c][1..] == [];
    var t := Handled(tag, s, a);
    assert AllHandled(tag, s, [a, b, c]) == AllHandled(tag, t, [b, c]);
    assert AllHandled(tag, t, [b, c]) == AllHandled(tag, Handled(tag, t, b), [c]);
    assert AllHandled(tag, Handled(tag, Handled(tag, t, b), c), []) == Handled(tag, Handled(tag, t, b), c);
  }

  lemma StartedKeys(tag: string, s: State, given: string, name: string, arguments: string)
    ensures WithToolStarted(tag, s, given, name, arguments).pending.Keys
            == s.pending.Keys + {CallId(tag, given, |s.pending|)}
  {
  }

  lemma CompletedKeys(s: State, callId: string, result: string)
    ensures WithToolCompleted(s, callId, result).pending.Keys == s.pending.Keys - {callId}
  {
  }

  /** One call pending, then a call without an id, then the first is completed: the made-up id is pending alone. */
  lemma MadeUpIdIsPending(tag: string, store: bool, name: string, arguments: string, result: string)
    ensures var qs := [ToolStarted("a", name, arguments), ToolStarted("", name, arguments), ToolCompleted("a", result)];
            AllHandled(tag, Begun(store), qs).pending.Keys == {CallId(tag, "", 1)}
  {
    var a, b, c := ToolStarted("a", name, arguments), ToolStarted("", name, arguments), ToolCompleted("a", result);
    var id, s0 := CallId(tag, "", 1), Begun(store);
    assert |id| > 1;
    var s1 := Handled(tag, s0, a);
    var s2 := Handled(tag, s1, b);
    AllHandledThree(tag, s0, a, b, c);
    StartedKeys(tag, s0, "a", name, arguments);
    assert s1.pending.Keys == {"a"} && |s1.pending| == |s1.pending.Keys|;
    StartedKeys(tag, s1, "", name, arguments);
    CompletedKeys(s2, "a", result);
  }

  /** From there another call without an id gets the same made-up id, and the earlier one is lost. */
  lemma MadeUpCallIdsCanRepeat(tag: string, store: bool, name: string, arguments: string, result: string)
    ensures var qs := [ToolStarted("a", name, arguments), ToolStarted("", name, arguments), ToolCompleted("a", result)];
            !NeverRepeats(tag, Begun(store), qs + [ToolStarted("", name, arguments)])
  {
    var qs := [ToolStarted("a", name, arguments), ToolStarted("", name, arguments), ToolCompleted("a", result)];
    MadeUpIdIsPending(tag, store, name, arguments, result);
    var s := AllHandled(tag, Begun(store), qs);
    assert |s.pending| == |s.pending.Keys| == 1;
    var all := qs + [ToolStarted("", name, arguments)];
    assert all[..3] == qs && all[3] == ToolStarted("", name, arguments);
    assert Repeats(tag, AllHandled(tag, Begun(store), all[..3]), all[3]);
  }

  // --- when a call is reported done

  /** The stream after the first k items of the queue. */
  function At(tag: string, store: bool, qs: seq<QueueItem>, k: nat): State
    requires k <= |qs|
  {
    AllHandled(tag, Begun(store), qs[..k])
  }

  lemma {:induction false} AllHandledOneMore(tag: string, s: State, qs: seq<QueueItem>, q: QueueItem)
    ensures AllHandled(tag, s, qs + [q]) == Handled(tag, AllHandled(tag, s, qs), q)
    decreases |qs|
  {
    if qs == [] {
      assert qs + [q] == [q] && [q][1..] == [] && AllHandled(tag, Handled(tag, s, q), []) == Handled(tag, s, q);
    } else {
      assert (qs + [q])[0] == qs[0] && (qs + [q])[1..] == qs[1..] + [q];
      AllHandledOneMore(tag, Handled(tag, s, qs[0]), qs[1..], q);
    }
  }

  lemma AtNext(tag: string, store: bool, qs: seq<QueueItem>, k: nat)
    requires k < |qs|
    ensures At(tag, store, qs, k + 1) == Handled(tag, At(tag, store, qs, k), qs[k])
  {
    assert qs[..k + 1] == qs[..k] + [qs[k]];
    AllHandledOneMore(tag, Begun(store), qs[..k], qs[k]);
  }

  predicate Completes(q: QueueItem, id: string) {
    q.ToolCompleted? && q.callId == id
  }

  /** The item starts a call that gets the id, given or made up. */
  predicate Starts(tag: string, s: State, q: QueueItem, id: string) {
    q.ToolStarted? && CallId(tag, q.callId, |s.pending|) == id
  }

  /** The indexes in use are below the next one, and no call is pending without an id. */
  ghost predicate Below(s: State) {
    && (s.messageOpen ==> s.messageIndex < s.outputIndex)
    && (forall id | id in s.pending :: id != "" && s.pending[id].index < s.outputIndex)
    && (forall i | i in DoneIndexes(s.out) :: i < s.outputIndex)
  }

  /** The index is that of a call announced under the id. */
  ghost predicate Owns(s: State, id: string, index: nat) {
    && index < s.outputIndex
    && (s.messageOpen ==> s.messageIndex != index)
    && (forall other | other in s.pending && other != id :: s.pending[other].index != index)
  }

  predicate Awaits(s: State, id: string, index: nat) {
    id in s.pending && s.pending[id].index == index
  }

  lemma EmittedDone(s: State, body: Body)
    ensures DoneIndexes(Emitted(s, body).out)
            == DoneIndexes(s.out) + if body.ItemDone? then {body.index} else {}
  {
    var e := Event(s.sequence, body);
    assert (s.out + [e])[..|s.out|] == s.out;
  }

  lemma OpenedDone(s: State)
    ensures DoneIndexes(Opened(s).out) == DoneIndexes(s.out)
  {
    EmittedDone(s.(messageOpen := true, messageIndex := s.outputIndex, outputIndex := s.outputIndex + 1),
                ItemAdded(s.outputIndex, Message("")));
  }

  lemma DeltaDone(s: State, delta: string)
    ensures DoneIndexes(WithDelta(s, delta).out) == DoneIndexes(s.out)
  {
    OpenedDone(s);
    var t := Opened(s);
    EmittedDone(t.(finalParts := t.finalParts + [delta]), TextDelta(t.messageIndex, delta));
  }

  lemma ToolStartedDone(tag: string, s: State, given: string, name: string, arguments: string)
    ensures DoneIndexes(WithToolStarted(tag, s, given, name, arguments).out) == DoneIndexes(s.out)
  {
    var id := CallId(tag, given, |s.pending|);
    var item := Call(id, name, arguments);
    EmittedDone(s.(outputIndex := s.outputIndex + 1, pending := s.pending[id := Pending(item, s.outputIndex)],
                   emitted := s.emitted + [item]),
                ItemAdded(s.outputIndex, item));
  }

  /** A completion of a pending call reports the call done, and its output under the next index. */
  lemma ToolCompletedDone(s: State, callId: string, result: string)
    ensures DoneIndexes(WithToolCompleted(s, callId, result).out)
            == DoneIndexes(s.out) + if callId in s.pending then {s.pending[callId].index, s.outputIndex} else {}
  {
    if callId in s.pending {
      var p, item := s.pending[callId], CallOutput(callId, result);
      var s0 := s.(pending := s.pending - {callId});
      EmittedDone(s0, ItemDone(p.index, p.item));
      var a := Emitted(s0, ItemDone(p.index, p.item));
      var a1 := a.(outputIndex := a.outputIndex + 1, emitted := a.emitted + [item]);
      EmittedDone(a1, ItemAdded(a.outputIndex, item));
      EmittedDone(Emitted(a1, ItemAdded(a.outputIndex, item)), ItemDone(a.outputIndex, item));
    }
  }

  lemma CallIdIsNamed(tag: string, given: string, pending: nat)
    ensures CallId(tag, given, pending) != ""
  {
  }

  /** What handling an item does to the calls pending, to the indexes in use and to those done. */
  ghost predicate Moved(tag: string, s: State, q: QueueItem, next: State) {
    && next.outputIndex >= s.outputIndex
    && (q.ToolStarted? || (q.ToolCompleted? && q.callId in s.pending) ==> next.outputIndex > s.outputIndex)
    && (next.messageOpen ==> next.messageIndex == if s.messageOpen then s.messageIndex else s.outputIndex)
    && (next.messageOpen && !s.messageOpen ==> q.Delta? && next.outputIndex > s.outputIndex)
    && (q.ToolStarted? ==>
          var id := CallId(tag, q.callId, |s.pending|);
          next.pending == s.pending[id := Pending(Call(id, q.name, q.arguments), s.outputIndex)])
    && (q.ToolCompleted? ==> next.pending == s.pending - {q.callId})
    && (!q.ToolStarted? && !q.ToolCompleted? ==> next.pending == s.pending)
    && DoneIndexes(next.out)
       == DoneIndexes(s.out) + if q.ToolCompleted? && q.callId in s.pending
                               then {s.pending[q.callId].index, s.outputIndex} else {}
  }

  lemma DeltaMoves(tag: string, s: State, text: string)
    ensures Moved(tag, s, Delta(text), WithDelta(s, text))
  {
    DeltaDone(s, text);
  }

  lemma ToolStartedMoves(tag: string, s: State, given: string, name: string, arguments: string)
    ensures Moved(tag, s, ToolStarted(given, name, arguments), WithToolStarted(tag, s, given, name, arguments))
  {
    ToolStartedDone(tag, s, given, name, arguments);
  }

  lemma ToolCompletedMoves(tag: string, s: State, callId: string, result: string)
    ensures Moved(tag, s, ToolCompleted(callId, result), WithToolCompleted(s, callId, result))
  {
    ToolCompletedDone(s, callId, result);
    assert callId !in s.pending ==> s.pending - {callId} == s.pending;
  }

  lemma HandledMoves(tag: string, s: State, q: QueueItem)
    ensures Moved(tag, s, q, Handled(tag, s, q))
  {
    match q
    case Delta(text) => DeltaMoves(tag, s, text);
    case ToolStarted(callId, name, arguments) => ToolStartedMoves(tag, s, callId, name, arguments);
    case ToolCompleted(callId, result) => ToolCompletedMoves(tag, s, callId, result);
    case Other =>
  }

  lemma MovedKeepsBelow(tag: string, s: State, q: QueueItem, next: State)
    requires Below(s) && Moved(tag, s, q, next)
    ensures Below(next)
  {
    if q.ToolStarted? {
      CallIdIsNamed(tag, q.callId, |s.pending|);
    }
  }

  lemma BegunIsBelow(store: bool)
    ensures Below(Begun(store))
  {
    var s := Stored(store, State(0, 0, [], [], map[], false, 0, [], []), InProgress);
    assert s.out == [] && DoneIndexes(s.out) == {};
    EmittedDone(s, ResponseCreated(InProgress));
  }

  lemma {:induction false} AllHandledKeepsBelow(tag: string, s: State, qs: seq<QueueItem>)
    requires Below(s)
    ensures Below(AllHandled(tag, s, qs))
    decreases |qs|
  {
    if qs != [] {
      HandledMoves(tag, s, qs[0]);
      MovedKeepsBelow(tag, s, qs[0], Handled(tag, s, qs[0]));
      AllHandledKeepsBelow(tag, Handled(tag, s, qs[0]), qs[1..]);
    }
  }

  lemma AtIsBelow(tag: string, store: bool, qs: seq<QueueItem>, k: nat)
    requires k <= |qs|
    ensures Below(At(tag, store, qs, k))
  {
    BegunIsBelow(store);
    AllHandledKeepsBelow(tag, Begun(store), qs[..k]);
  }

  /** A call awaited is done by a completion of its id, and forgotten by another start under its id. */
  ghost predicate CallMoved(tag: string, s: State, q: QueueItem, next: State, id: string, index: nat) {
    && (Awaits(next, id, index) <==> Awaits(s, id, index) && !Completes(q, id) && !Starts(tag, s, q, id))
    && (index in DoneIndexes(next.out) <==>
          index in DoneIndexes(s.out) || (Completes(q, id) && Awaits(s, id, index)))
  }

  lemma MovedOwns(tag: string, s: State, q: QueueItem, next: State, id: string, index: nat)
    requires Owns(s, id, index) && Moved(tag, s, q, next)
    ensures Owns(next, id, index)
  {
  }

  lemma MovedCall(tag: string, s: State, q: QueueItem, next: State, id: string, index: nat)
    requires Owns(s, id, index) && Moved(tag, s, q, next)
    ensures CallMoved(tag, s, q, next, id, index)
  {
  }

  /** No item after j and before k starts another call under the id. */
  ghost predicate NotReused(tag: string, store: bool, qs: seq<QueueItem>, id: string, j: nat, k: nat)
    requires k <= |qs|
  {
    forall i: nat | j < i < k :: !Starts(tag, At(tag, store, qs, i), qs[i], id)
  }

  predicate NotCompleted(qs: seq<QueueItem>, id: string, j: nat, k: nat)
    requires k <= |qs|
  {
    forall i: nat | j < i < k :: !Completes(qs[i], id)
  }

  /** Item i completes the id, which no item after j and before i has taken. */
  ghost predicate CompletedAt(tag: string, store: bool, qs: seq<QueueItem>, id: string, j: nat, i: nat)
    requires i < |qs|
  {
    Completes(qs[i], id) && NotReused(tag, store, qs, id, j, i)
  }

  ghost predicate CompletedBy(tag: string, store: bool, qs: seq<QueueItem>, id: string, j: nat, k: nat)
    requires k <= |qs|
  {
    exists i: nat | j < i < k :: CompletedAt(tag, store, qs, id, j, i)
  }

  lemma CompletedByNext(tag: string, store: bool, qs: seq<QueueItem>, id: string, j: nat, k: nat)
    requires j < k < |qs|
    ensures CompletedBy(tag, store, qs, id, j, k + 1) <==>
            || CompletedBy(tag, store, qs, id, j, k)
            || (Completes(qs[k], id) && NotReused(tag, store, qs, id, j, k) && NotCompleted(qs, id, j, k))
  {
    if CompletedBy(tag, store, qs, id, j, k) {
      var i: nat :| j < i < k && CompletedAt(tag, store, qs, id, j, i);
      assert CompletedBy(tag, store, qs, id, j, k + 1);
    } else if NotReused(tag, store, qs, id, j, k) {
      assert NotCompleted(qs, id, j, k) by {
        forall i: nat | j < i < k
          ensures !Completes(qs[i], id)
        {
          assert NotReused(tag, store, qs, id, j, i);
          assert !CompletedAt(tag, store, qs, id, j, i);
        }
      }
      assert Completes(qs[k], id) ==> CompletedAt(tag, store, qs, id, j, k);
    }
  }

  lemma NotReusedNext(tag: string, store: bool, qs: seq<QueueItem>, id: string, j: nat, k: nat)
    requires j < k < |qs|
    ensures NotReused(tag, store, qs, id, j, k + 1) <==>
            NotReused(tag, store, qs, id, j, k) && !Starts(tag, At(tag, store, qs, k), qs[k], id)
  {
  }

  /** What the state after k items says of the call that item j announced. */
  ghost predicate Followed(tag: string, store: bool, qs: seq<QueueItem>, id: string, index: nat, j: nat, k: nat,
                           s: State)
    requires k <= |qs|
  {
    && Owns(s, id, index)
    && (Awaits(s, id, index) <==> NotReused(tag, store, qs, id, j, k) && NotCompleted(qs, id, j, k))
    && (index in DoneIndexes(s.out) <==> CompletedBy(tag, store, qs, id, j, k))
  }

  /** A call just announced is awaited under a fresh index, which is not done. */
  lemma JustStarted(tag: string, s: State, q: QueueItem, next: State)
    requires q.ToolStarted? && Below(s) && Moved(tag, s, q, next)
    ensures var id, index := CallId(tag, q.callId, |s.pending|), s.outputIndex;
            Owns(next, id, index) && Awaits(next, id, index) && index !in DoneIndexes(next.out)
  {
    var id := CallId(tag, q.callId, |s.pending|);
    assert next.pending == s.pending[id := Pending(Call(id, q.name, q.arguments), s.outputIndex)];
    assert DoneIndexes(next.out) == DoneIndexes(s.out);
  }

  lemma StartIsFollowed(tag: string, store: bool, qs: seq<QueueItem>, j: nat, s: State, next: State)
    requires j < |qs| && qs[j].ToolStarted? && Below(s) && Moved(tag, s, qs[j], next)
    ensures Followed(tag, store, qs, CallId(tag, qs[j].callId, |s.pending|), s.outputIndex, j, j + 1, next)
  {
    var id, index := CallId(tag, qs[j].callId, |s.pending|), s.outputIndex;
    JustStarted(tag, s, qs[j], next);
    assert NotReused(tag, store, qs, id, j, j + 1) && NotCompleted(qs, id, j, j + 1);
    assert !CompletedBy(tag, store, qs, id, j, j + 1);
  }

  lemma FollowedNext(tag: string, store: bool, qs: seq<QueueItem>, id: string, index: nat, j: nat, k: nat, s: State,
                     next: State)
    requires j < k < |qs| && s == At(tag, store, qs, k) && Followed(tag, store, qs, id, index, j, k, s)
    requires Owns(next, id, index) && CallMoved(tag, s, qs[k], next, id, index)
    ensures Followed(tag, store, qs, id, index, j, k + 1, next)
  {
    CompletedByNext(tag, store, qs, id, j, k);
    NotReusedNext(tag, store, qs, id, j, k);
    assert NotCompleted(qs, id, j, k + 1) <==> NotCompleted(qs, id, j, k) && !Completes(qs[k], id);
  }

  lemma AtMoves(tag: string, store: bool, qs: seq<QueueItem>, k: nat)
    requires k < |qs|
    ensures Moved(tag, At(tag, store, qs, k), qs[k], At(tag, store, qs, k + 1))
  {
    AtNext(tag, store, qs, k);
    HandledMoves(tag, At(tag, store, qs, k), qs[k]);
  }

  lemma FollowedOneMore(tag: string, store: bool, qs: seq<QueueItem>, id: string, index: nat, j: nat, k: nat)
    requires j < k < |qs| && Followed(tag, store, qs, id, index, j, k, At(tag, store, qs, k))
    ensures Followed(tag, store, qs, id, index, j, k + 1, At(tag, store, qs, k + 1))
  {
    var s, next := At(tag, store, qs, k), At(tag, store, qs, k + 1);
    AtMoves(tag, store, qs, k);
    MovedOwns(tag, s, qs[k], next, id, index);
    MovedCall(tag, s, qs[k], next, id, index);
    FollowedNext(tag, store, qs, id, index, j, k, s, next);
  }

  lemma {:induction false} CallIsFollowed(tag: string, store: bool, qs: seq<QueueItem>, id: string, index: nat, j: nat,
                                          k: nat)
    requires j < k <= |qs| && Followed(tag, store, qs, id, index, j, j + 1, At(tag, store, qs, j + 1))
    ensures Followed(tag, store, qs, id, index, j, k, At(tag, store, qs, k))
    decreases k
  {
    if k > j + 1 {
      CallIsFollowed(tag, store, qs, id, index, j, k - 1);
      FollowedOneMore(tag, store, qs, id, index, j, k - 1);
    }
  }

  lemma FinishedDone(store: bool, s: State, o: Outcome, id: string, index: nat)
    requires Owns(s, id, index)
    ensures index in DoneIndexes(Finished(store, s, o).out) <==> index in DoneIndexes(s.out)
  {
    if o.Returned? {
      DeltaDone(s, o.finalResponse);
    }
    var a := Answered(s, o);
    assert Owns(a, id, index) && DoneIndexes(a.out) == DoneIndexes(s.out);
    var text := Flatten(a.finalParts);
    EmittedDone(a, TextDone(a.messageIndex, text));
    EmittedDone(Emitted(a, TextDone(a.messageIndex, text)), ItemDone(a.messageIndex, Message(text)));
    var t := Closed(a);
    EmittedDone(Stored(store, t, FinalEnvelope(t, o)), ResponseEnded(FinalEnvelope(t, o)));
  }

  /**
   * The call that an item of the queue starts is reported done exactly when a later completion carries the id that the
   * call was announced under, given or made up, before another call is started under it.
   */
  lemma CallIsDoneIffItsIdIsCompleted(tag: string, store: bool, qs: seq<QueueItem>, o: Outcome, j: nat)
    requires j < |qs| && qs[j].ToolStarted?
    ensures var before := At(tag, store, qs, j);
            before.outputIndex in DoneIndexes(Streamed(tag, store, qs, o).out) <==>
            CompletedBy(tag, store, qs, CallId(tag, qs[j].callId, |before.pending|), j, |qs|)
  {
    var before := At(tag, store, qs, j);
    var id, index := CallId(tag, qs[j].callId, |before.pending|), before.outputIndex;
    AtIsBelow(tag, store, qs, j);
    AtMoves(tag, store, qs, j);
    StartIsFollowed(tag, store, qs, j, before, At(tag, store, qs, j + 1));
    CallIsFollowed(tag, store, qs, id, index, j, |qs|);
    assert qs[..|qs|] == qs;
    FinishedDone(store, At(tag, store, qs, |qs|), o, id, index);
  }

  /** A completion without an id changes nothing, so it never completes a call that was given no id. */
  lemma UnnamedCompletionIsIgnored(tag: string, store: bool, qs: seq<QueueItem>, k: nat)
    requires k < |qs| && Completes(qs[k], "")
    ensures At(tag, store, qs, k + 1) == At(tag, store, qs, k)
  {
    AtIsBelow(tag, store, qs, k);
    AtNext(tag, store, qs, k);
  }
}

/** One buffered response: its writer and any number of readers that resume it, interleaved at every await. */
module Resume {
  import opened Basics
  import opened ResponseBuffer
  import opened Relay

  /**
   * A reader: at the top of its loop, sending a batch it has sliced off (`size` chunks, of which `pending` remain),
   * blocked on the wake-up flag, about to send its end frame, or done.
   */
  datatype Phase = Top | Sending(pending: seq<Bytes>, size: nat) | Waiting | Ending | Done

  /** `after` is the cursor it resumed with, `emitted` the chunk frames it has sent, `ends` its end frames. */
  datatype Reader = Reader(after: int, cursor: nat, emitted: seq<Bytes>, ends: nat, phase: Phase)

  /**
   * `body` is what the dispatcher has handed to the writer, `todo` the parts of it still to be written, `chunks` the
   * parts appended (the buffer's chunks once `found`), and `sent` how many chunk frames the writer itself has sent.
   */
  datatype World = World(body: Bytes, todo: seq<Bytes>, chunks: seq<Bytes>, sent: nat, found: bool, complete: bool,
                         aborted: bool, readers: map<nat, Reader>)

  datatype Step =
    | Dispatch(chunk: Bytes)
    | AppendPart(finds: bool)
    | SendPart
    | Finish
    | Abandon
    | Attach(id: nat, after: int)
    | Slice(id: nat)
    | Emit(id: nat)
    | Check(id: nat)
    | EmitEnd(id: nat)
    | Cancel(id: nat)

  function From(chunks: seq<Bytes>, cursor: nat): seq<Bytes> {
    if cursor <= |chunks| then chunks[cursor..] else []
  }

  predicate Is(w: World, id: nat, phase: Phase) {
    id in w.readers && w.readers[id].phase == phase
  }

  predicate Enabled(w: World, step: Step) {
    match step
    case Dispatch(_) => !w.complete && w.todo == [] && w.sent == |w.chunks|
    case AppendPart(_) => !w.complete && w.todo != [] && w.sent == |w.chunks|
    case SendPart => !w.complete && w.sent < |w.chunks|
    case Finish => !w.complete && w.todo == [] && w.sent == |w.chunks|
    case Abandon => !w.complete
    case Attach(id, _) => w.found && id !in w.readers
    case Slice(id) => Is(w, id, Top)
    case Emit(id) => id in w.readers && w.readers[id].phase.Sending? && w.readers[id].phase.pending != []
    case Check(id) => id in w.readers && w.readers[id].phase.Sending? && w.readers[id].phase.pending == []
    case EmitEnd(id) => Is(w, id, Ending)
    case Cancel(id) => id in w.readers
  }

  function Woken(readers: map<nat, Reader>): map<nat, Reader> {
    map id | id in readers :: if readers[id].phase.Waiting? then readers[id].(phase := Top) else readers[id]
  }

  function Advanced(w: World, r: Reader, step: Step): Reader
    requires step.Emit? ==> r.phase.Sending? && r.phase.pending != []
    requires step.Check? ==> r.phase.Sending?
  {
    match step
    case Slice(_) => r.(phase := Sending(From(w.chunks, r.cursor), |From(w.chunks, r.cursor)|))
    case Emit(_) => r.(emitted := r.emitted + [r.phase.pending[0]], phase := r.phase.(pending := r.phase.pending[1..]))
    case Check(_) =>
      var cursor := r.cursor + r.phase.size;
      r.(cursor := cursor, phase := if cursor < |w.chunks| then Top else if w.complete then Ending else Waiting)
    case EmitEnd(_) => r.(ends := r.ends + 1, phase := Done)
    case _ => r
  }

  function Apply(w: World, step: Step): World
    requires Enabled(w, step)
  {
    match step
    case Dispatch(chunk) => w.(body := w.body + chunk, todo := Parts(chunk))
    case AppendPart(finds) =>
      var found := w.found || finds;
      var w' := w.(todo := w.todo[1..], chunks := w.chunks + [w.todo[0]], found := found);
      if found then w'.(readers := Woken(w.readers)) else w'
    case SendPart => w.(sent := w.sent + 1)
    case Finish => w.(complete := true, readers := Woken(w.readers))
    case Abandon => w.(complete := true, aborted := true, readers := Woken(w.readers))
    case Attach(id, after) =>
      w.(readers := w.readers[id := Reader(after, if after < 0 then 0 else after, [], 0, Top)])
    case Cancel(id) => w.(readers := w.readers - {id})
    case _ => w.(readers := w.readers[step.id := Advanced(w, w.readers[step.id], step)])
  }

  ghost predicate Goes(ws: seq<World>, steps: seq<Step>, i: int) {
    0 <= i < |steps| && |ws| == |steps| + 1 && Enabled(ws[i], steps[i]) && ws[i + 1] == Apply(ws[i], steps[i])
  }

  const FRESH := World([], [], [], 0, false, false, false, map[])

  ghost predicate Trace(ws: seq<World>, steps: seq<Step>) {
    |ws| == |steps| + 1 && ws[0] == FRESH && forall i | 0 <= i < |steps| :: Goes(ws, steps, i)
  }

  // --- the invariant

  /** How far into the chunks a reader has got. */
  function Reached(r: Reader): int {
    if r.phase.Sending? then r.cursor + r.phase.size - |r.phase.pending| else r.cursor
  }

  ghost predicate Fine(chunks: seq<Bytes>, complete: bool, r: Reader) {
    && Reached(r) == Max(0, r.after) + |r.emitted|
    && StretchAt(chunks, Max(0, r.after), r.emitted)
    && (r.phase.Sending? ==> |r.phase.pending| <= r.phase.size && StretchAt(chunks, Reached(r), r.phase.pending))
    && (r.phase.Waiting? ==> r.cursor >= |chunks| && !complete)
    && (r.phase.Ending? || r.phase.Done? ==> r.cursor >= |chunks| && complete)
    && r.ends == if r.phase.Done? then 1 else 0
  }

  ghost predicate AllFine(w: World) {
    forall id | id in w.readers :: w.found && Fine(w.chunks, w.complete, w.readers[id])
  }

  ghost predicate Inv(w: World) {
    && Flatten(w.chunks) + Flatten(w.todo) == w.body
    && w.sent <= |w.chunks|
    && (w.complete && !w.aborted ==> w.todo == [])
    && AllFine(w)
  }

  /** What a writer's step does to the readers keeps each of them fine. */
  lemma WriterKeepsFine(chunks: seq<Bytes>, more: seq<Bytes>, complete: bool, r: Reader)
    requires Fine(chunks, false, r)
    ensures Fine(chunks + more, complete, if r.phase.Waiting? then r.(phase := Top) else r)
  {
  }

  lemma OwnStepKeepsFine(w: World, step: Step, r: Reader)
    requires Fine(w.chunks, w.complete, r)
    requires match step
             case Slice(_) => r.phase.Top?
             case Emit(_) => r.phase.Sending? && r.phase.pending != []
             case Check(_) => r.phase.Sending? && r.phase.pending == []
             case EmitEnd(_) => r.phase.Ending?
             case _ => false
    ensures Fine(w.chunks, w.complete, Advanced(w, r, step))
  {
    if step.Emit? {
      var p := r.phase.pending;
      assert p[0] == w.chunks[Reached(r)];
      assert forall i | 0 <= i < |p| - 1 :: p[1..][i] == p[i + 1];
    }
  }

  lemma WriterStepKeepsAll(w: World, step: Step)
    requires AllFine(w) && Enabled(w, step) && (step.AppendPart? || step.Finish? || step.Abandon?)
    ensures AllFine(Apply(w, step))
  {
    var w' := Apply(w, step);
    var more := if step.AppendPart? then [w.todo[0]] else [];
    assert w'.chunks == w.chunks + more;
    forall id | id in w'.readers
      ensures w'.found && Fine(w'.chunks, w'.complete, w'.readers[id])
    {
      WriterKeepsFine(w.chunks, more, w'.complete, w.readers[id]);
    }
  }

  lemma OtherStepKeepsAll(w: World, step: Step)
    requires AllFine(w) && Enabled(w, step) && !(step.AppendPart? || step.Finish? || step.Abandon?)
    ensures AllFine(Apply(w, step))
  {
    var w' := Apply(w, step);
    assert w'.chunks == w.chunks && w'.complete == w.complete && w'.found == w.found;
    forall id | id in w'.readers
      ensures w'.found && Fine(w'.chunks, w'.complete, w'.readers[id])
    {
      if id in w.readers && (step.Slice? || step.Emit? || step.Check? || step.EmitEnd?) && step.id == id {
        OwnStepKeepsFine(w, step, w.readers[id]);
      }
    }
  }

  lemma BodyKept(w: World, step: Step)
    requires Inv(w) && Enabled(w, step)
    ensures Flatten(Apply(w, step).chunks) + Flatten(Apply(w, step).todo) == Apply(w, step).body
  {
    match step
    case Dispatch(chunk) => PartsAreTheChunk(chunk);
    case AppendPart(_) =>
      FlattenAppend(w.chunks, [w.todo[0]]);
      assert Flatten([w.todo[0]]) == w.todo[0] + Flatten([]);
    case _ =>
  }

  lemma StepKeepsInv(w: World, step: Step)
    requires Inv(w) && Enabled(w, step)
    ensures Inv(Apply(w, step))
  {
    BodyKept(w, step);
    if step.AppendPart? || step.Finish? || step.Abandon? {
      WriterStepKeepsAll(w, step);
    } else {
      OtherStepKeepsAll(w, step);
    }
  }

  lemma {:induction false} RunKeepsInv(ws: seq<World>, steps: seq<Step>, n: nat)
    requires Trace(ws, steps) && n < |ws|
    ensures Inv(ws[n])
  {
    if n > 0 {
      RunKeepsInv(ws, steps, n - 1);
      assert Goes(ws, steps, n - 1);
      StepKeepsInv(ws[n - 1], steps[n - 1]);
    }
  }

  /**
   * In every run, at every point: each reader has sent exactly the chunks that follow its cursor; one that waits has
   * sent everything buffered; one that is done has sent all chunks of a completed buffer and then one end frame.
   */
  lemma ReadersAreExact(ws: seq<World>, steps: seq<Step>, n: nat, id: nat)
    requires Trace(ws, steps) && n < |ws| && id in ws[n].readers
    ensures var w, r := ws[n], ws[n].readers[id];
            && Reached(r) == Max(0, r.after) + |r.emitted| && StretchAt(w.chunks, Max(0, r.after), r.emitted)
            && (r.phase.Waiting? ==> r.cursor >= |w.chunks| && !w.complete)
            && (r.phase.Done? ==> r.cursor >= |w.chunks| && w.complete)
            && r.ends == if r.phase.Done? then 1 else 0
  {
    RunKeepsInv(ws, steps, n);
    assert Fine(ws[n].chunks, ws[n].complete, ws[n].readers[id]);
  }

  /** The first k chunk frames. */
  function Seen(chunks: seq<Bytes>, k: nat): seq<Bytes> {
    if k <= |chunks| then chunks[..k] else chunks
  }

  /**
   * A client that saw the first k chunk frames and resumed with cursor k holds, when its reader is done, exactly the
   * whole body - unless the writer was abandoned, and then everything that had been written.
   */
  lemma ResumedClientHasTheBody(ws: seq<World>, steps: seq<Step>, n: nat, id: nat, k: nat)
    requires Trace(ws, steps) && n < |ws| && id in ws[n].readers
    requires ws[n].readers[id].phase.Done? && ws[n].readers[id].after == k && k <= ws[n].sent
    ensures var w := ws[n];
            && w.complete && w.readers[id].ends == 1
            && Seen(w.chunks, k) + w.readers[id].emitted == w.chunks
            && Flatten(Seen(w.chunks, k)) + Flatten(w.readers[id].emitted) == Flatten(w.chunks)
            && (!w.aborted ==> Flatten(Seen(w.chunks, k)) + Flatten(w.readers[id].emitted) == w.body)
  {
    RunKeepsInv(ws, steps, n);
    var w := ws[n];
    var r := w.readers[id];
    assert Fine(w.chunks, w.complete, r);
    assert Seen(w.chunks, k) + r.emitted == w.chunks;
    FlattenAppend(Seen(w.chunks, k), r.emitted);
    assert w.todo == [] ==> Flatten(w.chunks) + Flatten(w.todo) == Flatten(w.chunks);
  }

  // --- what a reader comes to

  /** A reader that attached is there until it is cancelled, with the cursor it asked for. */
  lemma {:induction false} AttachedReadersStay(ws: seq<World>, steps: seq<Step>, i: nat, n: nat, id: nat, after: int)
    requires Trace(ws, steps) && i < n < |ws| && steps[i] == Attach(id, after)
    requires forall k | i < k < n :: steps[k] != Cancel(id)
    ensures id in ws[n].readers && ws[n].readers[id].after == after
    decreases n
  {
    assert Goes(ws, steps, n - 1);
    if n > i + 1 {
      AttachedReadersStay(ws, steps, i, n - 1, id, after);
    }
  }

  /** The steps lead from one state to the other. */
  ghost predicate Leads(w: World, steps: seq<Step>, end: World)
    decreases |steps|
  {
    if steps == [] then end == w else Enabled(w, steps[0]) && Leads(Apply(w, steps[0]), steps[1..], end)
  }

  lemma LeadsByOne(w: World, step: Step)
    requires Enabled(w, step)
    ensures Leads(w, [step], Apply(w, step))
  {
    assert [step][1..] == [];
  }

  lemma LeadsFirst(w: World, step: Step, mid: World, more: seq<Step>, end: World)
    requires Enabled(w, step) && Apply(w, step) == mid && Leads(mid, more, end)
    ensures Leads(w, [step] + more, end)
  {
    assert ([step] + more)[0] == step && ([step] + more)[1..] == more;
  }

  function With(w: World, id: nat, r: Reader): World {
    w.(readers := w.readers[id := r])
  }

  function Emits(id: nat, n: nat): seq<Step> {
    if n == 0 then [] else [Emit(id)] + Emits(id, n - 1)
  }

  lemma EmitFirst(w: World, id: nat, r: Reader, more: seq<Step>, end: World)
    requires r.phase.Sending? && r.phase.pending != [] && Leads(With(w, id, Advanced(w, r, Emit(id))), more, end)
    ensures Leads(With(w, id, r), [Emit(id)] + more, end)
  {
    assert Apply(With(w, id, r), Emit(id)).readers == With(w, id, Advanced(w, r, Emit(id))).readers;
    LeadsFirst(With(w, id, r), Emit(id), With(w, id, Advanced(w, r, Emit(id))), more, end);
  }

  lemma {:induction false} BatchIsEmitted(w: World, id: nat, r: Reader, after: seq<Step>, end: World)
    requires r.phase.Sending?
    requires Leads(With(w, id, r.(emitted := r.emitted + r.phase.pending, phase := Sending([], r.phase.size))),
                   after, end)
    ensures Leads(With(w, id, r), Emits(id, |r.phase.pending|) + after, end)
    decreases |r.phase.pending|
  {
    var p := r.phase.pending;
    if p == [] {
      assert r.emitted + p == r.emitted && Emits(id, 0) + after == after;
    } else {
      var next := Advanced(w, r, Emit(id));
      assert next.emitted + p[1..] == r.emitted + p;
      BatchIsEmitted(w, id, next, after, end);
      EmitFirst(w, id, r, Emits(id, |p| - 1) + after, end);
      assert [Emit(id)] + (Emits(id, |p| - 1) + after) == Emits(id, |p|) + after;
    }
  }

  /** A reader whose batch is sent and who has all there is sends its end frame if that is complete, and else waits. */
  lemma LeadsByChecking(w: World, id: nat, r: Reader) returns (closing: seq<Step>)
    requires r.phase.Sending? && r.phase.pending == [] && r.cursor + r.phase.size >= |w.chunks|
    ensures closing == if w.complete then [Check(id), EmitEnd(id)] else [Check(id)]
    ensures Leads(With(w, id, r), closing,
                  With(w, id, r.(cursor := r.cursor + r.phase.size, ends := r.ends + if w.complete then 1 else 0,
                                 phase := if w.complete then Done else Waiting)))
  {
    var v, checked := With(w, id, r), Advanced(w, r, Check(id));
    assert Apply(v, Check(id)).readers == With(w, id, checked).readers;
    if w.complete {
      var ended := Advanced(w, checked, EmitEnd(id));
      assert Apply(With(w, id, checked), EmitEnd(id)).readers == With(w, id, ended).readers;
      LeadsByOne(With(w, id, checked), EmitEnd(id));
      LeadsFirst(v, Check(id), With(w, id, checked), [EmitEnd(id)], With(w, id, ended));
      closing := [Check(id)] + [EmitEnd(id)];
    } else {
      LeadsByOne(v, Check(id));
      closing := [Check(id)];
    }
  }

  /**
   * Undisturbed, a reader sends in one turn of its loop every chunk after its cursor, one frame each, and then its end
   * frame if the buffer is complete; otherwise it waits.
   */
  lemma OneTurnCatchesUp(w: World, id: nat) returns (rest: seq<Bytes>, closing: seq<Step>)
    requires Is(w, id, Top)
    ensures var r := w.readers[id];
            && |rest| == Max(0, |w.chunks| - r.cursor)
            && (forall i | 0 <= i < |rest| :: rest[i] == w.chunks[r.cursor + i])
            && closing == (if w.complete then [Check(id), EmitEnd(id)] else [Check(id)])
            && Leads(w, [Slice(id)] + (Emits(id, |rest|) + closing),
                     With(w, id, Reader(r.after, r.cursor + |rest|, r.emitted + rest,
                                        r.ends + if w.complete then 1 else 0, if w.complete then Done else Waiting)))
  {
    var r := w.readers[id];
    rest := if r.cursor <= |w.chunks| then w.chunks[r.cursor..] else [];
    closing := TurnIsJoined(w, id, r, rest);
    LeadsFirst(w, Slice(id), With(w, id, r.(phase := Sending(rest, |rest|))), Emits(id, |rest|) + closing,
               With(w, id, Reader(r.after, r.cursor + |rest|, r.emitted + rest,
                                  r.ends + if w.complete then 1 else 0, if w.complete then Done else Waiting)));
  }

  lemma TurnIsJoined(w: World, id: nat, r: Reader, rest: seq<Bytes>) returns (closing: seq<Step>)
    requires r.cursor + |rest| >= |w.chunks|
    ensures closing == if w.complete then [Check(id), EmitEnd(id)] else [Check(id)]
    ensures Leads(With(w, id, r.(phase := Sending(rest, |rest|))), Emits(id, |rest|) + closing,
                  With(w, id, Reader(r.after, r.cursor + |rest|, r.emitted + rest,
                                     r.ends + if w.complete then 1 else 0, if w.complete then Done else Waiting)))
  {
    var sent := r.(emitted := r.emitted + rest, phase := Sending([], |rest|));
    closing := LeadsByChecking(w, id, sent);
    BatchIsEmitted(w, id, r.(phase := Sending(rest, |rest|)), closing,
                   With(w, id, Reader(r.after, r.cursor + |rest|, r.emitted + rest,
                                      r.ends + if w.complete then 1 else 0, if w.complete then Done else Waiting)));
  }

  /** Whatever the writer appends, and however it ends, brings every waiting reader back to the top of its loop. */
  lemma WritingWakes(w: World, step: Step, id: nat)
    requires Inv(w) && Enabled(w, step) && Is(w, id, Waiting) && (step.AppendPart? || step.Finish? || step.Abandon?)
    ensures Apply(w, step).readers[id] == w.readers[id].(phase := Top)
  {
  }

  /** A reader that is not done and not waiting has a next step of its own, and any can be cancelled. */
  lemma NoReaderIsStuck(w: World, id: nat)
    requires id in w.readers
    ensures match w.readers[id].phase
            case Top => Enabled(w, Slice(id))
            case Sending(pending, _) => Enabled(w, if pending != [] then Emit(id) else Check(id))
            case Ending => Enabled(w, EmitEnd(id))
            case _ => true
    ensures Enabled(w, Cancel(id))
  {
  }

  /** A writer that is not done can go on, and can be abandoned at any moment. */
  lemma NoWriterIsStuck(w: World, finds: bool, chunk: Bytes)
    requires Inv(w) && !w.complete
    ensures if w.sent < |w.chunks| then Enabled(w, SendPart)
            else if w.todo != [] then Enabled(w, AppendPart(finds))
            else Enabled(w, Dispatch(chunk)) && Enabled(w, Finish)
    ensures Enabled(w, Abandon)
  {
  }

  /** A reader is changed by its own steps only, but for a writer's step that wakes it; cancelled, it is gone. */
  lemma StepTouches(w: World, step: Step, id: nat)
    requires Enabled(w, step) && id in w.readers
    ensures step == Cancel(id) ==> id !in Apply(w, step).readers
    ensures step != Cancel(id) ==>
              && id in Apply(w, step).readers
              && var r, r' := w.readers[id], Apply(w, step).readers[id];
                 || ((step.Slice? || step.Emit? || step.Check? || step.EmitEnd?) && step.id == id) || r' == r
                 || (r.phase.Waiting? && (step.AppendPart? || step.Finish? || step.Abandon?) && r' == r.(phase := Top))
  {
  }

  /** A reader attaches exactly to a buffer that exists, under a new number, with nothing sent yet. */
  lemma AttachMeans(w: World, id: nat, after: int)
    ensures Enabled(w, Attach(id, after)) <==> w.found && id !in w.readers
    ensures Enabled(w, Attach(id, after)) ==>
              Is(Apply(w, Attach(id, after)), id, Top)
              && var r := Apply(w, Attach(id, after)).readers[id];
                 r.after == after && r.cursor == Max(0, after) && r.emitted == [] && r.ends == 0
  {
  }

  // --- the writer takes these steps

  /** The chunk frames among those sent. */
  function Bodies(frames: seq<Frame>): seq<Bytes> {
    if frames == [] then []
    else
      var last := frames[|frames| - 1];
      Bodies(frames[..|frames| - 1]) + if last.Chunk? then [last.data] else []
  }

  lemma {:induction false} BodiesAppend(a: seq<Frame>, b: seq<Frame>)
    ensures Bodies(a + b) == Bodies(a) + Bodies(b)
    decreases |b|
  {
    if b == [] {
      assert a + b == a;
    } else {
      assert (a + b)[..|a + b| - 1] == a + b[..|b| - 1];
      BodiesAppend(a, b[..|b| - 1]);
    }
  }

  lemma {:induction false} BodiesOfChunks(parts: seq<Bytes>)
    ensures Bodies(ChunkFrames(parts)) == parts
  {
    if parts != [] {
      var init, last := parts[..|parts| - 1], parts[|parts| - 1];
      BodiesOfChunks(init);
      assert ChunkFrames(parts)[..|ChunkFrames(parts)| - 1] == ChunkFrames(init);
      assert parts == init + [last];
    }
  }

  lemma BodiesOfHeader(status: int, headers: map<string, string>)
    ensures Bodies([Headers(status, headers)]) == [] && Bodies([End]) == [] && Bodies([]) == []
  {
    assert [Headers(status, headers)][..0] == [] && [End][..0] == [];
  }

  lemma BodiesAfter(before: seq<Frame>, head: seq<Frame>, parts: seq<Bytes>)
    requires Bodies(head) == []
    ensures Bodies(before + head + ChunkFrames(parts)) == Bodies(before) + parts
    ensures Bodies(before + head + [End]) == Bodies(before)
  {
    BodiesAppend(before, head);
    BodiesAppend(before + head, ChunkFrames(parts));
    BodiesAppend(before + head, [End]);
    BodiesOfChunks(parts);
    BodiesOfHeader(0, map[]);
  }

  /** Between two calls the writer has sent what it buffered, and has nothing left to write. */
  predicate Rests(w: World) {
    w.sent == |w.chunks| && w.todo == [] && !w.aborted
  }

  /** A buffering writer between two calls, and the world it is in. */
  ghost predicate Mirrors(w: World, f: FrameStreamWriter)
    reads f, f.extractor, f.buffer
  {
    && f.extractor != null && f.Valid() && Rests(w) && w.chunks == f.parts && Bodies(f.frames) == f.parts
    && w.complete == f.finished && (w.found <==> f.buffer != null)
    && (f.buffer != null ==> f.buffer.complete == w.complete)
  }

  /** Whether the scanner has found an id once it was fed these parts. */
  function Finder(extract: Bytes -> Option<string>): seq<Bytes> -> bool {
    parts => Fed(extract, parts).id.Some?
  }

  /** An id once found stays found. */
  ghost predicate Stays(finds: seq<Bytes> -> bool) {
    forall parts: seq<Bytes>, part: Bytes :: finds(parts) ==> finds(parts + [part])
  }

  lemma FinderStays(extract: Bytes -> Option<string>)
    ensures Stays(Finder(extract))
  {
    forall parts: seq<Bytes>, part: Bytes | Finder(extract)(parts)
      ensures Finder(extract)(parts + [part])
    {
      FedStep(extract, parts, part);
    }
  }

  /** One part is appended, finding the id or not, and then sent. */
  function OnePart(finds: seq<Bytes> -> bool, w: World): World
    requires !w.complete && w.sent == |w.chunks| && w.todo != []
  {
    Apply(Apply(w, AppendPart(finds(w.chunks + [w.todo[0]]))), SendPart)
  }

  /** All that is to be written is, part by part. */
  function Written(finds: seq<Bytes> -> bool, w: World): World
    requires !w.complete && w.sent == |w.chunks|
    decreases |w.todo|
  {
    if w.todo == [] then w else Written(finds, OnePart(finds, w))
  }

  ghost predicate Wrote(finds: seq<Bytes> -> bool, w: World, parts: seq<Bytes>, n: World) {
    && n.chunks == w.chunks + parts && n.sent == |n.chunks| && n.complete == w.complete && n.aborted == w.aborted
    && (n.found <==> finds(n.chunks))
  }

  lemma OnePartIs(finds: seq<Bytes> -> bool, w: World)
    requires !w.complete && w.sent == |w.chunks| && w.todo != [] && (w.found <==> finds(w.chunks)) && Stays(finds)
    ensures Wrote(finds, w, [w.todo[0]], OnePart(finds, w)) && OnePart(finds, w).todo == w.todo[1..]
  {
    assert finds(w.chunks) ==> finds(w.chunks + [w.todo[0]]);
  }

  lemma WroteMore(finds: seq<Bytes> -> bool, w: World, a: seq<Bytes>, m: World, b: seq<Bytes>, n: World)
    requires Wrote(finds, w, a, m) && Wrote(finds, m, b, n)
    ensures Wrote(finds, w, a + b, n)
  {
    assert w.chunks + a + b == w.chunks + (a + b);
  }

  lemma {:induction false} WrittenIs(finds: seq<Bytes> -> bool, w: World)
    requires !w.complete && w.sent == |w.chunks| && (w.found <==> finds(w.chunks)) && Stays(finds)
    ensures Wrote(finds, w, w.todo, Written(finds, w)) && Written(finds, w).todo == []
    decreases |w.todo|
  {
    if w.todo == [] {
      assert w.chunks + [] == w.chunks;
    } else {
      var m := OnePart(finds, w);
      OnePartIs(finds, w);
      WrittenIs(finds, m);
      WroteMore(finds, w, [w.todo[0]], m, m.todo, Written(finds, m));
      assert [w.todo[0]] + w.todo[1..] == w.todo;
    }
  }

  /** The program's `send_chunk` is a dispatch followed by those steps. */
  method SendChunkIsSteps(f: FrameStreamWriter, ghost w: World, chunk: Bytes)
    requires Mirrors(w, f) && !w.complete
    modifies f, f.extractor, f.buffer
    ensures Mirrors(Written(Finder(f.extractor.extract), Apply(w, Dispatch(chunk))), f)
  {
    ghost var before, head := f.frames, if chunk == [] then [] else f.HeaderFrames(200, map[]);
    FinderStays(f.extractor.extract);
    WrittenIs(Finder(f.extractor.extract), Apply(w, Dispatch(chunk)));
    BodiesOfHeader(200, f.filter(map[]));
    BodiesAfter(before, head, Parts(chunk));
    f.SendChunk(chunk);
  }

  method FinishIsAStep(f: FrameStreamWriter, ghost w: World, now: int)
    requires Mirrors(w, f) && !w.complete
    modifies f, f.buffer
    ensures Mirrors(Apply(w, Finish), f)
  {
    BodiesOfHeader(204, f.filter(map[]));
    BodiesAfter(f.frames, f.HeaderFrames(204, map[]), []);
    f.Finish(now);
  }

  /** The readers of an abandoned buffer see what the step leaves: the chunks as they stand, complete. */
  method AbandonIsAStep(f: FrameStreamWriter, ghost w: World, now: int)
    requires Mirrors(w, f) && !w.complete
    modifies f, f.buffer
    ensures old(f.buffer) != null ==>
              old(f.buffer).chunks == Apply(w, Abandon).chunks && old(f.buffer).complete == Apply(w, Abandon).complete
    ensures f.buffer == null
  {
    f.Abandon(now);
  }

  /** The buffer object that the readers of this world share. */
  predicate Buffers(w: World, b: ResponseBuffer)
    reads b
  {
    w.found && b.chunks == w.chunks && b.complete == w.complete
  }

  /** A reader's slice of the buffer object is the step: it is about to send just those chunks. */
  method SliceIsAStep(b: ResponseBuffer, ghost w: World, ghost id: nat, cursor: nat) returns (pending: seq<Bytes>)
    requires Buffers(w, b) && Is(w, id, Top) && w.readers[id].cursor == cursor
    ensures Enabled(w, Slice(id)) && Apply(w, Slice(id)).readers[id].phase == Sending(pending, |pending|)
    ensures w.chunks == From(w.chunks[..Min(cursor, |w.chunks|)] + pending, 0)
  {
    pending := b.SliceFrom(cursor);
  }

  /** What a reader does when its batch is sent: go on, end, or wait. */
  method CheckIsAStep(b: ResponseBuffer, ghost w: World, ghost id: nat, cursor: nat, sent: nat)
    returns (next: nat, phase: Phase)
    requires Buffers(w, b) && Is(w, id, Sending([], sent)) && w.readers[id].cursor == cursor
    ensures Enabled(w, Check(id)) && Apply(w, Check(id)).readers[id] == w.readers[id].(cursor := next, phase := phase)
    ensures phase.Waiting? ==> next >= |b.chunks| && !b.complete
    ensures phase.Ending? ==> next >= |b.chunks| && b.complete
  {
    next := cursor + sent;
    if next < |b.chunks| {
      return next, Top;
    }
    if b.complete {
      return next, Ending;
    }
    return next, Waiting;
  }
}

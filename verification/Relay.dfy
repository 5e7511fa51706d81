/** The writer that turns a response body into frames, and what it leaves in the buffer for readers that resume. */
module Relay {
  import opened Basics
  import opened ResponseBuffer

  const PART_BYTES := 262144

  datatype Frame = Headers(status: int, headers: map<string, string>) | Chunk(data: Bytes) | End

  /** A body chunk cut into parts of at most 256 KiB. */
  function Parts(chunk: Bytes): seq<Bytes>
    decreases |chunk|
  {
    if chunk == [] then []
    else if |chunk| <= PART_BYTES then [chunk]
    else [chunk[..PART_BYTES]] + Parts(chunk[PART_BYTES..])
  }

  /** Splitting loses and reorders nothing, and makes no empty or oversized part. */
  lemma {:induction false} PartsAreTheChunk(chunk: Bytes)
    ensures Flatten(Parts(chunk)) == chunk
    ensures forall i | 0 <= i < |Parts(chunk)| :: 1 <= |Parts(chunk)[i]| <= PART_BYTES
    decreases |chunk|
  {
    if chunk == [] {
    } else if |chunk| <= PART_BYTES {
      assert Flatten([chunk]) == chunk + Flatten([]);
    } else {
      PartsAreTheChunk(chunk[PART_BYTES..]);
    }
  }

  /** The parts cut off in front of an offset, and those from it on. */
  lemma {:induction false} PartsFrom(chunk: Bytes, offset: nat)
    requires offset < |chunk| && offset % PART_BYTES == 0
    ensures Parts(chunk) == Parts(chunk[..offset]) + Parts(chunk[offset..])
    decreases offset
  {
    if offset == 0 {
      assert chunk[..0] == [] && chunk[0..] == chunk;
    } else {
      var rest := chunk[PART_BYTES..];
      PartsFrom(rest, offset - PART_BYTES);
      assert rest[offset - PART_BYTES..] == chunk[offset..];
      assert chunk[..offset][PART_BYTES..] == rest[..offset - PART_BYTES];
      assert chunk[..offset][..PART_BYTES] == chunk[..PART_BYTES];
      if offset == PART_BYTES {
        assert rest[..0] == [];
      }
    }
  }

  function ChunkFrames(parts: seq<Bytes>): seq<Frame> {
    if parts == [] then [] else ChunkFrames(parts[..|parts| - 1]) + [Chunk(parts[|parts| - 1])]
  }

  lemma {:induction false} ChunkFramesAppend(a: seq<Bytes>, b: seq<Bytes>)
    ensures ChunkFrames(a + b) == ChunkFrames(a) + ChunkFrames(b)
    decreases |b|
  {
    if b == [] {
      assert a + b == a;
    } else {
      assert (a + b)[..|a + b| - 1] == a + b[..|b| - 1];
      ChunkFramesAppend(a, b[..|b| - 1]);
    }
  }

  lemma FramedOn(frames: seq<Frame>, head: seq<Frame>, parts: seq<Bytes>, more: seq<Bytes>)
    ensures frames == head + ChunkFrames(parts) ==>
              frames + ChunkFrames(more) == head + ChunkFrames(parts + more)
  {
    ChunkFramesAppend(parts, more);
    assert head + ChunkFrames(parts) + ChunkFrames(more) == head + (ChunkFrames(parts) + ChunkFrames(more));
  }

  class FrameStreamWriter {
    const extractor: ResponseIdExtractor?                           // null when responses are not buffered
    const filter: map<string, string> -> map<string, string>        // the headers that may be passed on
    var preroll: seq<Bytes>
    var buffer: ResponseBuffer?
    var status: int
    var headers: map<string, string>
    var sentHeaders: bool
    var finished: bool
    var frames: seq<Frame>                                          // what has been sent, in order
    ghost var parts: seq<Bytes>                                     // every part written so far

    /** Until the scanner finds an id the preroll holds every part; from then on the buffer of that id does. */
    ghost predicate Valid()
      reads this`preroll, this`buffer, this`parts, extractor, buffer
    {
      && (forall i | 0 <= i < |parts| :: parts[i] != [])
      && (extractor == null ==> buffer == null)
      && (buffer != null ==> buffer.Valid() && preroll == [] && buffer.chunks == parts)
      && (extractor != null ==> extractor.Valid() && Tracks(Fed(extractor.extract, parts)))
    }

    /** The scanner and the buffer are where feeding the parts one by one takes them. */
    ghost predicate Tracks(f: Scanned)
      requires extractor != null
      reads this`preroll, this`buffer, this`parts, extractor, buffer
    {
      && extractor.done == f.id.Some? && (!extractor.done ==> extractor.buffer == f.rest)
      && (buffer != null <==> f.id.Some?)
      && (if buffer != null then Some(buffer.responseId) == f.id else preroll == parts)
    }

    /** What the client was sent: one frame of headers first, and then one frame per part in order. */
    ghost predicate Framed()
      reads this`frames, this`sentHeaders, this`status, this`headers, this`parts
    {
      && frames == (if sentHeaders then [Headers(status, headers)] else []) + ChunkFrames(parts)
      && (!sentHeaders ==> parts == [])
    }

    constructor (extract: Option<Bytes -> Option<string>>, filter: map<string, string> -> map<string, string>)
      ensures Valid() && Framed() && parts == [] && frames == [] && !sentHeaders && !finished && buffer == null
      ensures fresh(this) && (extractor != null ==> fresh(extractor) && extract == Some(extractor.extract))
      ensures (extractor != null <==> extract.Some?) && this.filter == filter && status == 0 && headers == map[]
    {
      if extract.Some? {
        extractor := new ResponseIdExtractor(extract.value);
      } else {
        extractor := null;
      }
      this.filter, status, headers := filter, 0, map[];
      preroll, buffer, sentHeaders, finished, frames, parts := [], null, false, false, [], [];
    }

    /** The frame that `SendHeaders` sends, if none was sent before. */
    function HeaderFrames(code: int, all: map<string, string>): seq<Frame>
      reads this`sentHeaders
    {
      if sentHeaders then [] else [Headers(code, filter(all))]
    }

    method SendHeaders(code: int, all: map<string, string>)
      requires Valid()
      modifies this`sentHeaders, this`frames, this`status, this`headers
      ensures Valid() && sentHeaders && frames == old(frames) + old(HeaderFrames(code, all))
      ensures if old(sentHeaders) then status == old(status) && headers == old(headers)
              else status == code && headers == filter(all)
      ensures old(Framed()) ==> Framed()
    {
      if sentHeaders {
        return;
      }
      sentHeaders := true;
      status := code;
      headers := filter(all);
      frames := frames + [Headers(status, headers)];
    }

    /** A buffer gets the status and headers the client was sent, and is open. */
    predicate MadeHere(b: ResponseBuffer)
      reads this`status, this`headers, b`complete
    {
      b.status == status && b.headers == headers && !b.complete
    }

    /** The buffer of a newly found id: the preroll and then the part that completed the event. */
    method NewBuffer(rid: string, part: Bytes) returns (b: ResponseBuffer)
      requires part != [] && forall i | 0 <= i < |preroll| :: preroll[i] != []
      ensures fresh(b) && b.Valid() && b.chunks == preroll + [part] && b.responseId == rid && MadeHere(b)
      ensures b.status == status && b.headers == headers && !b.complete
    {
      b := new ResponseBuffer(rid, status, headers);
      for i := 0 to |preroll|
        invariant b.Valid() && b.chunks == preroll[..i] && b.responseId == rid && MadeHere(b)
      {
        assert preroll[..i + 1] == preroll[..i] + [preroll[i]];
        b.Append(preroll[i]);
      }
      assert preroll[..|preroll|] == preroll;
      b.Append(part);
    }

    /** A part goes to the buffer, or to the preroll until the id is found and the preroll moves to the buffer. */
    method AppendBuffer(part: Bytes)
      requires Valid() && part != []
      modifies this`preroll, this`buffer, this`parts, extractor, buffer
      ensures Valid() && parts == old(parts) + [part]
      ensures buffer == old(buffer) || (old(buffer) == null && fresh(buffer) && MadeHere(buffer))
      ensures buffer != null && buffer == old(buffer) ==> buffer.complete == old(buffer.complete)
    {
      if extractor != null {
        FedStep(extractor.extract, parts, part);
      }
      parts := parts + [part];
      if extractor == null {
        return;
      }
      if buffer != null {
        buffer.Append(part);
        return;
      }
      var rid := extractor.Feed(part);
      if rid.None? {
        preroll := preroll + [part];
        return;
      }
      var b := NewBuffer(rid.value, part);
      preroll := [];
      buffer := b;
    }

    /** One part: buffered first, then sent. */
    method SendPart(part: Bytes)
      requires Valid() && part != []
      modifies this`preroll, this`buffer, this`parts, this`frames, extractor, buffer
      ensures Valid() && parts == old(parts) + [part] && frames == old(frames) + [Chunk(part)]
      ensures buffer == old(buffer) || (old(buffer) == null && fresh(buffer) && MadeHere(buffer))
      ensures buffer != null && buffer == old(buffer) ==> buffer.complete == old(buffer.complete)
    {
      AppendBuffer(part);
      frames := frames + [Chunk(part)];
    }

    /** The parts of a chunk in order. */
    method SendParts(chunk: Bytes)
      requires Valid()
      modifies this`preroll, this`buffer, this`parts, this`frames, extractor, buffer
      ensures Valid() && parts == old(parts) + Parts(chunk) && frames == old(frames) + ChunkFrames(Parts(chunk))
      ensures buffer == old(buffer) || (old(buffer) == null && fresh(buffer) && MadeHere(buffer))
      ensures buffer != null && buffer == old(buffer) ==> buffer.complete == old(buffer.complete)
    {
      ghost var was, sent, done := parts, frames, [];
      var offset := 0;
      assert chunk[..0] == [] && ChunkFrames([]) == [];
      while offset < |chunk|
        invariant CutUpTo(chunk, offset, done)
        invariant Valid() && Came(was, sent, done)
        invariant buffer == old(buffer) || (old(buffer) == null && fresh(buffer) && MadeHere(buffer))
        invariant buffer != null && buffer == old(buffer) ==> buffer.complete == old(buffer.complete)
        decreases |chunk| - offset
      {
        var part := chunk[offset..if offset + PART_BYTES <= |chunk| then offset + PART_BYTES else |chunk|];
        CutOneMore(chunk, offset, done, part);
        CameOneMore(was, sent, done, part, parts, frames);
        SendPart(part);
        done := done + [part];
        offset := offset + PART_BYTES;
      }
      assert chunk[..|chunk|] == chunk;
    }

    /** These parts were written and sent since. */
    ghost predicate Came(was: seq<Bytes>, sent: seq<Frame>, done: seq<Bytes>)
      reads this`parts, this`frames
    {
      parts == was + done && frames == sent + ChunkFrames(done)
    }

    /** With the headers sent, the parts of a chunk continue what the client was sent. */
    method SendBody(chunk: Bytes)
      requires Valid() && sentHeaders
      modifies this`preroll, this`buffer, this`parts, this`frames, extractor, buffer
      ensures Valid() && parts == old(parts) + Parts(chunk) && frames == old(frames) + ChunkFrames(Parts(chunk))
      ensures old(Framed()) ==> Framed()
      ensures buffer == old(buffer) || (old(buffer) == null && fresh(buffer) && MadeHere(buffer))
      ensures buffer != null && buffer == old(buffer) ==> buffer.complete == old(buffer.complete)
    {
      FramedOn(frames, [Headers(status, headers)], parts, Parts(chunk));
      SendParts(chunk);
    }

    /** Every part is buffered before its frame is sent, and the frames sent carry exactly the chunk. */
    method SendChunk(chunk: Bytes)
      requires Valid()
      modifies this, extractor, buffer
      ensures Valid() && parts == old(parts) + Parts(chunk) && finished == old(finished)
      ensures old(Framed()) ==> Framed()
      ensures !old(sentHeaders) && chunk != [] ==> sentHeaders && status == 200 && headers == filter(map[])
      ensures old(sentHeaders) || chunk == [] ==>
                sentHeaders == old(sentHeaders) && status == old(status) && headers == old(headers)
      ensures buffer == old(buffer) || (old(buffer) == null && fresh(buffer) && !buffer.complete)
      ensures buffer != null && buffer == old(buffer) ==> buffer.complete == old(buffer.complete)
      ensures frames
              == old(frames) + (if chunk == [] then [] else old(HeaderFrames(200, map[]))) + ChunkFrames(Parts(chunk))
    {
      if chunk == [] {
        assert ChunkFrames([]) == [];
        return;
      }
      if !sentHeaders {
        SendHeaders(200, map[]);
      }
      SendBody(chunk);
    }

    method Finish(now: int)
      requires Valid()
      modifies this`finished, this`sentHeaders, this`frames, this`status, this`headers, buffer
      ensures Valid() && finished && parts == old(parts)
      ensures old(finished) ==> frames == old(frames)
      ensures old(Framed()) && !old(finished) ==>
                frames == [Headers(status, headers)] + ChunkFrames(parts) + [End]
      ensures !old(finished) && !old(sentHeaders) ==> status == 204 && headers == filter(map[])
      ensures old(sentHeaders) ==> status == old(status) && headers == old(headers)
      ensures !old(finished) ==>
                && frames == old(frames) + old(HeaderFrames(204, map[])) + [End]
                && (buffer != null ==> buffer.complete && buffer.endedAt == Some(now) && buffer.progressed)
    {
      if finished {
        return;
      }
      finished := true;
      if !sentHeaders {
        SendHeaders(204, map[]);
      }
      if buffer != null {
        buffer.Finalize(now);
      }
      frames := frames + [End];
    }

    /** On an error the buffer is completed as it stands, so its readers end, and the writer lets go of it. */
    method Abandon(now: int)
      requires Valid()
      modifies this`buffer, buffer
      ensures old(finished) ==> buffer == old(buffer)
      ensures !old(finished) ==> buffer == null
      ensures !old(finished) && old(buffer) != null ==>
                && old(buffer).complete && old(buffer).endedAt == Some(now) && old(buffer).progressed
                && old(buffer).chunks == old(buffer.chunks)
    {
      if finished {
        return;
      }
      if buffer != null {
        buffer.Finalize(now);
      }
      buffer := null;
    }
  }

  /** `done` are the parts of what lies before the offset, which the last part may have passed. */
  ghost predicate CutUpTo(chunk: Bytes, offset: nat, done: seq<Bytes>) {
    && offset % PART_BYTES == 0
    && done == Parts(chunk[..if offset <= |chunk| then offset else |chunk|])
  }

  lemma CutOneMore(chunk: Bytes, offset: nat, done: seq<Bytes>, part: Bytes)
    requires offset < |chunk| && CutUpTo(chunk, offset, done)
    requires part == chunk[offset..if offset + PART_BYTES <= |chunk| then offset + PART_BYTES else |chunk|]
    ensures part != [] && CutUpTo(chunk, offset + PART_BYTES, done + [part])
  {
    PartsGrow(chunk, offset, if offset + PART_BYTES <= |chunk| then offset + PART_BYTES else |chunk|);
  }

  lemma CameOneMore(was: seq<Bytes>, sent: seq<Frame>, done: seq<Bytes>, part: Bytes, parts: seq<Bytes>,
                    frames: seq<Frame>)
    requires parts == was + done && frames == sent + ChunkFrames(done)
    ensures parts + [part] == was + (done + [part]) && frames + [Chunk(part)] == sent + ChunkFrames(done + [part])
  {
    assert (done + [part])[..|done|] == done;
  }

  lemma PartsGrow(chunk: Bytes, offset: nat, end: nat)
    requires offset < end <= |chunk| && offset % PART_BYTES == 0
    requires end == offset + PART_BYTES || (end == |chunk| && end < offset + PART_BYTES)
    ensures Parts(chunk[..end]) == Parts(chunk[..offset]) + [chunk[offset..end]]
    ensures ChunkFrames(Parts(chunk[..end])) == ChunkFrames(Parts(chunk[..offset])) + [Chunk(chunk[offset..end])]
  {
    PartsFrom(chunk[..end], offset);
    assert chunk[..end][..offset] == chunk[..offset] && chunk[..end][offset..] == chunk[offset..end];
    assert Parts(chunk[offset..end]) == [chunk[offset..end]];
    var all := Parts(chunk[..end]);
    assert all[..|all| - 1] == Parts(chunk[..offset]);
  }
}

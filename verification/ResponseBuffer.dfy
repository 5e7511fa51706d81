/**
 * The per-response chunk buffer and the incremental scanner that finds the response id in a server-sent event stream.
 */
module ResponseBuffer {
  import opened Basics

  type Byte = b: int | 0 <= b < 256
  type Bytes = seq<Byte>

  const LF: Byte := 10
  const SOFT_CAP := 65536

  // --- the chunk buffer

  class ResponseBuffer {
    const responseId: string
    const status: int
    const headers: map<string, string>
    var chunks: seq<Bytes>
    var totalBytes: nat
    var complete: bool
    var endedAt: Option<int>
    var progressed: bool

    ghost predicate Valid()
      reads this
    {
      totalBytes == |Flatten(chunks)| && forall i | 0 <= i < |chunks| :: chunks[i] != []
    }

    constructor (responseId: string, status: int, headers: map<string, string>)
      ensures Valid() && chunks == [] && !complete && endedAt.None? && !progressed
      ensures this.responseId == responseId && this.status == status && this.headers == headers
    {
      this.responseId, this.status, this.headers := responseId, status, headers;
      chunks, totalBytes, complete, endedAt, progressed := [], 0, false, None, false;
    }

    /** An empty chunk is not a chunk; any other becomes the next one and wakes the readers. */
    method Append(chunk: Bytes)
      requires Valid()
      modifies this`chunks, this`totalBytes, this`progressed
      ensures Valid() && chunks == old(chunks) + (if chunk == [] then [] else [chunk])
      ensures progressed == (old(progressed) || chunk != [])
    {
      if chunk == [] {
        return;
      }
      FlattenAppend(chunks, [chunk]);
      assert Flatten([chunk]) == chunk + Flatten([]);
      chunks := chunks + [chunk];
      totalBytes := totalBytes + |chunk|;
      progressed := true;
    }

    method Finalize(now: int)
      requires Valid()
      modifies this`complete, this`endedAt, this`progressed
      ensures Valid() && complete && endedAt == Some(now) && progressed
    {
      complete := true;
      endedAt := Some(now);
      progressed := true;
    }

    /** The chunks a reader that has seen `after` of them still misses; a negative cursor means none seen. */
    function SliceFrom(after: int): (r: seq<Bytes>)
      reads this
      ensures 0 <= after <= |chunks| ==> chunks[..after] + r == chunks
      ensures after < 0 ==> r == chunks
      ensures after > |chunks| ==> r == []
    {
      var from := if after < 0 then 0 else after;
      if from <= |chunks| then chunks[from..] else []
    }
  }

  // --- finding the first blank line

  predicate BlankAt(s: Bytes, i: int) {
    0 <= i < |s| - 1 && s[i] == LF && s[i + 1] == LF
  }

  predicate HasBlank(s: Bytes) {
    exists i | 0 <= i < |s| :: BlankAt(s, i)
  }

  /** bytearray.find of two line feeds, from position i on. */
  function FindFrom(s: Bytes, i: nat): (r: Option<nat>)
    requires i <= |s|
    ensures r.Some? ==> i <= r.value && BlankAt(s, r.value) && forall j | i <= j < r.value :: !BlankAt(s, j)
    ensures r.None? ==> forall j | i <= j :: !BlankAt(s, j)
    decreases |s| - i
  {
    if i == |s| then None else if BlankAt(s, i) then Some(i) else FindFrom(s, i + 1)
  }

  /** What one pass over a whole text finds: the first id among its complete events, and the unfinished rest. */
  datatype Scanned = Scanned(id: Option<string>, rest: Bytes)

  function Scan(extract: Bytes -> Option<string>, s: Bytes): Scanned
    decreases |s|
  {
    match FindFrom(s, 0)
    case None => Scanned(None, s)
    case Some(i) =>
      var id := extract(s[..i]);
      if id.Some? then Scanned(id, []) else Scan(extract, s[i + 2..])
  }

  /** The complete events of a text: what its blank lines end, whether or not they carry an id. */
  function Events(s: Bytes): seq<Bytes>
    decreases |s|
  {
    match FindFrom(s, 0)
    case None => []
    case Some(i) => [s[..i]] + Events(s[i + 2..])
  }

  /** The scan's id is that of the first event that has one. */
  lemma {:induction false} ScanFindsFirst(extract: Bytes -> Option<string>, s: Bytes)
    ensures var r := Scan(extract, s).id;
            if r.None? then forall i | 0 <= i < |Events(s)| :: extract(Events(s)[i]).None?
            else exists i ::
                   && 0 <= i < |Events(s)| && extract(Events(s)[i]) == r
                   && forall j | 0 <= j < i :: extract(Events(s)[j]).None?
    decreases |s|
  {
    match FindFrom(s, 0)
    case None =>
    case Some(k) =>
      if extract(s[..k]).Some? {
        assert Events(s)[0] == s[..k];
      } else {
        ScanFindsFirst(extract, s[k + 2..]);
        var rest := Events(s[k + 2..]);
        var r := Scan(extract, s).id;
        if r.Some? {
          var i :| 0 <= i < |rest| && extract(rest[i]) == r && forall j | 0 <= j < i :: extract(rest[j]).None?;
          assert Events(s)[i + 1] == rest[i];
          forall j | 0 <= j < i + 1
            ensures extract(Events(s)[j]).None?
          {
            assert j > 0 ==> Events(s)[j] == rest[j - 1];
          }
        }
      }
  }

  lemma FindUnique(s: Bytes, i: nat)
    requires BlankAt(s, i) && forall j | 0 <= j < i :: !BlankAt(s, j)
    ensures FindFrom(s, 0) == Some(i)
  {
    var r := FindFrom(s, 0);
    assert r.Some? ==> !(r.value < i) && !(i < r.value);
  }

  /** More bytes do not move the first blank line. */
  lemma FindStable(a: Bytes, b: Bytes)
    requires FindFrom(a, 0).Some?
    ensures FindFrom(a + b, 0) == FindFrom(a, 0)
  {
    var i := FindFrom(a, 0).value;
    assert forall j | 0 <= j <= i :: BlankAt(a + b, j) <==> BlankAt(a, j);
    FindUnique(a + b, i);
  }

  /** Scanning can be resumed: only the unfinished rest matters for what comes later. */
  lemma {:induction false} ScanResumes(extract: Bytes -> Option<string>, a: Bytes, b: Bytes)
    ensures Scan(extract, a).id.Some? ==> Scan(extract, a + b).id == Scan(extract, a).id
    ensures Scan(extract, a).id.None? ==> Scan(extract, a + b) == Scan(extract, Scan(extract, a).rest + b)
    decreases |a|
  {
    match FindFrom(a, 0)
    case None =>
    case Some(i) =>
      FindStable(a, b);
      assert (a + b)[..i] == a[..i] && (a + b)[i + 2..] == a[i + 2..] + b;
      if extract(a[..i]).None? {
        ScanResumes(extract, a[i + 2..], b);
      }
  }

  /** What follows the last blank line the scan uses. */
  function Tail(s: Bytes): Bytes
    decreases |s|
  {
    match FindFrom(s, 0)
    case None => s
    case Some(i) => Tail(s[i + 2..])
  }

  lemma {:induction false} ScanLeavesTail(extract: Bytes -> Option<string>, s: Bytes)
    requires Scan(extract, s).id.None?
    ensures Scan(extract, s).rest == Tail(s)
    decreases |s|
  {
    match FindFrom(s, 0)
    case None =>
    case Some(i) => ScanLeavesTail(extract, s[i + 2..]);
  }

  lemma {:induction false} TailIsBlankFree(s: Bytes)
    ensures !HasBlank(Tail(s))
    decreases |s|
  {
    match FindFrom(s, 0)
    case None =>
    case Some(i) => TailIsBlankFree(s[i + 2..]);
  }

  lemma {:induction false} EventsResume(a: Bytes, b: Bytes)
    ensures Events(a + b) == Events(a) + Events(Tail(a) + b) && Tail(a + b) == Tail(Tail(a) + b)
    decreases |a|
  {
    match FindFrom(a, 0)
    case None =>
    case Some(i) =>
      FindStable(a, b);
      assert (a + b)[..i] == a[..i] && (a + b)[i + 2..] == a[i + 2..] + b;
      EventsResume(a[i + 2..], b);
  }

  /** The text holds no two line feeds, bytes 10, next to each other. */
  ghost predicate NoPair(s: Bytes) {
    forall i | 0 < i < |s| :: !(s[i - 1] == 10 && s[i] == 10)
  }

  /** Nor does it end in a line feed. */
  ghost predicate OneStretch(s: Bytes) {
    NoPair(s) && (s != [] ==> s[|s| - 1] != 10)
  }

  /** The events, each with the blank line that ends it. */
  function Ended(events: seq<Bytes>): Bytes {
    if events == [] then [] else events[0] + [10, 10] + Ended(events[1..])
  }

  lemma NoPairIsNoBlank(s: Bytes)
    ensures NoPair(s) <==> !HasBlank(s)
  {
    if !HasBlank(s) {
      forall i | 0 < i < |s|
        ensures !(s[i - 1] == 10 && s[i] == 10)
      {
        assert !BlankAt(s, i - 1);
      }
    } else {
      var i :| 0 <= i < |s| && BlankAt(s, i);
      var j := i + 1;
      assert s[j - 1] == 10 && s[j] == 10;
    }
  }

  lemma FirstIsOneStretch(s: Bytes, i: nat)
    requires FindFrom(s, 0) == Some(i)
    ensures OneStretch(s[..i]) && s == s[..i] + [10, 10] + s[i + 2..]
  {
    forall j | 0 < j < i
      ensures !(s[..i][j - 1] == 10 && s[..i][j] == 10)
    {
      assert !BlankAt(s, j - 1);
    }
    assert i > 0 ==> !BlankAt(s, i - 1);
  }

  /**
   * The complete events are the stretches of the text that its blank lines end, in order, and what is left over holds
   * no blank line.
   */
  lemma {:induction false} EventsAreTheStretches(s: Bytes)
    ensures s == Ended(Events(s)) + Tail(s) && NoPair(Tail(s))
    ensures forall event | event in Events(s) :: OneStretch(event)
    decreases |s|
  {
    TailIsBlankFree(s);
    NoPairIsNoBlank(Tail(s));
    match FindFrom(s, 0)
    case None =>
    case Some(i) =>
      FirstIsOneStretch(s, i);
      EventsAreTheStretches(s[i + 2..]);
      EndedFirst(s[..i], Events(s[i + 2..]), Tail(s[i + 2..]));
  }

  lemma EndedFirst(first: Bytes, events: seq<Bytes>, rest: Bytes)
    ensures Ended([first] + events) + rest == first + [10, 10] + (Ended(events) + rest)
  {
    assert ([first] + events)[1..] == events;
  }

  lemma StretchIsFound(event: Bytes, rest: Bytes)
    requires OneStretch(event)
    ensures FindFrom(event + [10, 10] + rest, 0) == Some(|event|)
  {
    var s := event + [10, 10] + rest;
    assert BlankAt(s, |event|);
    forall j | 0 <= j < |event|
      ensures !BlankAt(s, j)
    {
      assert s[j] == event[j] && (j + 1 < |event| ==> s[j + 1] == event[j + 1] && event[j + 1 - 1] == event[j]);
    }
    FindUnique(s, |event|);
  }

  /** And no other way to cut a text does that. */
  lemma {:induction false} StretchesAreTheEvents(events: seq<Bytes>, rest: Bytes)
    requires (forall event | event in events :: OneStretch(event)) && NoPair(rest)
    ensures Events(Ended(events) + rest) == events && Tail(Ended(events) + rest) == rest
  {
    if events == [] {
      assert Ended(events) + rest == rest;
      NoPairIsNoBlank(rest);
      var r := FindFrom(rest, 0);
      assert r.Some? ==> BlankAt(rest, r.value);
    } else {
      var more := Ended(events[1..]) + rest;
      StretchesAreTheEvents(events[1..], rest);
      assert events == [events[0]] + events[1..];
      EndedFirst(events[0], events[1..], rest);
      StretchIsFound(events[0], more);
      var s := events[0] + [10, 10] + more;
      assert s[..|events[0]|] == events[0] && s[|events[0]| + 2..] == more;
    }
  }

  // --- the incremental scanner

  /** The last part of an oversized rest, which is all that is kept of it. */
  function Truncated(s: Bytes): Bytes {
    if |s| > SOFT_CAP then s[|s| - SOFT_CAP / 2..] else s
  }

  lemma TruncatedIsBlankFree(s: Bytes)
    requires !HasBlank(s)
    ensures !HasBlank(Truncated(s)) && |Truncated(s)| <= SOFT_CAP
  {
    var t := Truncated(s);
    forall i | 0 <= i < |t|
      ensures !BlankAt(t, i)
    {
      assert t[i] == s[|s| - |t| + i];
      assert i + 1 < |t| ==> t[i + 1] == s[|s| - |t| + i + 1];
      assert !BlankAt(s, |s| - |t| + i);
    }
  }

  class ResponseIdExtractor {
    const extract: Bytes -> Option<string>
    var buffer: Bytes
    var found: Option<string>
    var done: bool

    /** Whatever the stream: between feeds the buffer holds at most the soft cap, and no blank line. */
    ghost predicate Valid()
      reads this
    {
      |buffer| <= SOFT_CAP && !HasBlank(buffer) && (done <==> found.Some?) && (done ==> buffer == [])
    }

    constructor (extract: Bytes -> Option<string>)
      ensures Valid() && !done && buffer == [] && this.extract == extract
    {
      this.extract := extract;
      buffer, found, done := [], None, false;
    }

    method Feed(chunk: Bytes) returns (id: Option<string>)
      requires Valid()
      modifies this
      ensures Valid() && id == (if old(done) then None else Scan(extract, old(buffer) + chunk).id)
      ensures found == (if old(done) then old(found) else id)
      ensures !done ==> buffer == Truncated(Scan(extract, old(buffer) + chunk).rest)
      ensures !done ==> var rest := Scan(extract, old(buffer) + chunk).rest;
                        buffer == if |rest| > 65536 then rest[|rest| - 32768..] else rest
    {
      if done || chunk == [] {
        assert chunk == [] ==> old(buffer) + chunk == buffer;
        return None;
      }
      ghost var all := buffer + chunk;
      buffer := buffer + chunk;
      while true
        invariant !done && found.None? && Scan(extract, buffer) == Scan(extract, all)
        decreases |buffer|
      {
        var at := FindFrom(buffer, 0);
        if at.None? {
          TruncatedIsBlankFree(buffer);
          if |buffer| > SOFT_CAP {
            buffer := buffer[|buffer| - SOFT_CAP / 2..];
          }
          return None;
        }
        var event := buffer[..at.value];
        buffer := buffer[at.value + 2..];
        var rid := extract(event);
        if rid.Some? {
          found := rid;
          done := true;
          buffer := [];
          return rid;
        }
      }
    }
  }

  // --- chunk independence

  /** Every complete event of the stream is shorter than the soft cap. */
  predicate EventsFit(s: Bytes) {
    forall i | 0 <= i < |Events(s)| :: |Events(s)[i]| < SOFT_CAP
  }

  /** No event before position i has an id. */
  predicate NoneBefore(extract: Bytes -> Option<string>, events: seq<Bytes>, i: int) {
    forall j | 0 <= j < i && j < |events| :: extract(events[j]).None?
  }

  /** Every complete event up to and including the first with an id is shorter than the soft cap. */
  ghost predicate EarlyEventsFit(extract: Bytes -> Option<string>, s: Bytes) {
    EarlyFit(extract, Events(s))
  }

  ghost predicate EarlyFit(extract: Bytes -> Option<string>, events: seq<Bytes>) {
    forall i | 0 <= i < |events| && NoneBefore(extract, events, i) :: |events[i]| < SOFT_CAP
  }

  /** What a fresh scanner has found, and still holds, after being fed the chunks one by one. */
  function Fed(extract: Bytes -> Option<string>, chunks: seq<Bytes>): Scanned
    decreases |chunks|
  {
    if chunks == [] then Scanned(None, [])
    else
      var before := Fed(extract, chunks[..|chunks| - 1]);
      if before.id.Some? then before else FedNext(extract, before.rest + chunks[|chunks| - 1])
  }

  function FedNext(extract: Bytes -> Option<string>, buffer: Bytes): Scanned {
    var s := Scan(extract, buffer);
    if s.id.Some? then s else Scanned(None, Truncated(s.rest))
  }

  lemma FedStep(extract: Bytes -> Option<string>, chunks: seq<Bytes>, last: Bytes)
    ensures Fed(extract, chunks + [last])
            == var f := Fed(extract, chunks); if f.id.Some? then f else FedNext(extract, f.rest + last)
  {
    assert (chunks + [last])[..|chunks|] == chunks;
  }

  /** `Fed` is what the object computes: one more feed takes it to the next state. */
  method FeedAll(extract: Bytes -> Option<string>, chunks: seq<Bytes>) returns (id: Option<string>)
    ensures id == Fed(extract, chunks).id
  {
    var scanner := new ResponseIdExtractor(extract);
    for k := 0 to |chunks|
      invariant scanner.Valid() && fresh(scanner) && scanner.extract == extract
      invariant scanner.found == Fed(extract, chunks[..k]).id
                && (!scanner.done ==> scanner.buffer == Fed(extract, chunks[..k]).rest)
    {
      assert chunks[..k + 1][..k] == chunks[..k];
      var ignored := scanner.Feed(chunks[k]);
    }
    assert chunks[..|chunks|] == chunks;
    return scanner.found;
  }

  lemma {:induction false} FlattenSnoc(chunks: seq<Bytes>)
    requires chunks != []
    ensures Flatten(chunks) == Flatten(chunks[..|chunks| - 1]) + chunks[|chunks| - 1]
  {
    var last := chunks[|chunks| - 1];
    FlattenAppend(chunks[..|chunks| - 1], [last]);
    assert chunks == chunks[..|chunks| - 1] + [last];
    assert Flatten([last]) == last + Flatten([]);
  }

  /** The first events of the longer stream are those of the shorter one. */
  lemma NoneBeforeInFront(extract: Bytes -> Option<string>, some: seq<Bytes>, more: seq<Bytes>, i: int)
    requires i <= |some|
    ensures NoneBefore(extract, some + more, i) <==> NoneBefore(extract, some, i)
  {
    if NoneBefore(extract, some + more, i) {
      forall j | 0 <= j < i
        ensures extract(some[j]).None?
      {
        assert (some + more)[j] == some[j];
      }
    }
  }

  lemma NoneBeforeBehind(extract: Bytes -> Option<string>, some: seq<Bytes>, more: seq<Bytes>, i: nat)
    requires NoneBefore(extract, some, |some|) && NoneBefore(extract, more, i)
    ensures NoneBefore(extract, some + more, |some| + i)
  {
  }

  lemma FitFront(extract: Bytes -> Option<string>, some: seq<Bytes>, more: seq<Bytes>)
    requires EarlyFit(extract, some + more)
    ensures EarlyFit(extract, some)
  {
    forall i | 0 <= i < |some| && NoneBefore(extract, some, i)
      ensures |some[i]| < SOFT_CAP
    {
      NoneBeforeInFront(extract, some, more, i);
      assert (some + more)[i] == some[i];
    }
  }

  lemma FitBehind(extract: Bytes -> Option<string>, some: seq<Bytes>, more: seq<Bytes>)
    requires EarlyFit(extract, some + more) && NoneBefore(extract, some, |some|)
    ensures EarlyFit(extract, more)
  {
    forall i | 0 <= i < |more| && NoneBefore(extract, more, i)
      ensures |more[i]| < SOFT_CAP
    {
      NoneBeforeBehind(extract, some, more, i);
      assert (some + more)[|some| + i] == more[i];
    }
  }

  lemma FitSplits(extract: Bytes -> Option<string>, a: Bytes, b: Bytes)
    requires EarlyEventsFit(extract, a + b)
    ensures EarlyEventsFit(extract, a)
    ensures Scan(extract, a).id.None? ==> EarlyEventsFit(extract, Tail(a) + b)
  {
    EventsResume(a, b);
    FitFront(extract, Events(a), Events(Tail(a) + b));
    if Scan(extract, a).id.None? {
      ScanFindsFirst(extract, a);
      FitBehind(extract, Events(a), Events(Tail(a) + b));
    }
  }

  /** `part` is an end of `whole`. */
  predicate EndOf(part: Bytes, whole: Bytes) {
    |part| <= |whole| && part == whole[|whole| - |part|..]
  }

  lemma EndIsBlankFree(part: Bytes, whole: Bytes)
    requires EndOf(part, whole) && !HasBlank(whole)
    ensures !HasBlank(part)
  {
    forall i | 0 <= i < |part|
      ensures !BlankAt(part, i)
    {
      assert !BlankAt(whole, |whole| - |part| + i);
    }
  }

  /** An unfinished stretch over the soft cap is never finished in a stream whose first event fits. */
  lemma OversizedNeverEnds(extract: Bytes -> Option<string>, r: Bytes, b: Bytes)
    requires !HasBlank(r) && |r| > SOFT_CAP && EarlyEventsFit(extract, r + b)
    ensures !HasBlank(r + b)
  {
    var at, events := FindFrom(r + b, 0), Events(r + b);
    assert at.Some? ==> |events[0]| == at.value;
    assert NoneBefore(extract, events, 0);
    assert at.Some? ==> BlankAt(r, at.value);
  }

  /** What the scanner holds is the unfinished stretch, or an end of one that outgrew the soft cap. */
  predicate Holds(held: Bytes, tail: Bytes) {
    EndOf(held, tail) && (|tail| <= SOFT_CAP ==> held == tail)
  }

  lemma TruncationHolds(tail: Bytes)
    ensures Holds(Truncated(tail), tail)
  {
  }

  /** One more chunk after an unfinished stretch that fits the buffer. */
  lemma FeedWhole(extract: Bytes -> Option<string>, tail: Bytes, last: Bytes)
    ensures FedNext(extract, tail + last).id == Scan(extract, tail + last).id
    ensures FedNext(extract, tail + last).id.None? ==> Holds(FedNext(extract, tail + last).rest, Tail(tail + last))
  {
    if Scan(extract, tail + last).id.None? {
      ScanLeavesTail(extract, tail + last);
      TruncationHolds(Tail(tail + last));
    }
  }

  lemma BlankFreeScan(extract: Bytes -> Option<string>, s: Bytes)
    requires !HasBlank(s)
    ensures Scan(extract, s) == Scanned(None, s) && Tail(s) == s
  {
    var at := FindFrom(s, 0);
    assert at.Some? ==> BlankAt(s, at.value);
  }

  lemma EndOfEnd(a: Bytes, b: Bytes, c: Bytes)
    requires EndOf(a, b) && EndOf(b, c)
    ensures EndOf(a, c)
  {
    assert forall i | 0 <= i < |a| :: a[i] == b[|b| - |a| + i] == c[|c| - |a| + i];
  }

  lemma EndOfAppend(a: Bytes, b: Bytes, last: Bytes)
    requires EndOf(a, b)
    ensures EndOf(a + last, b + last)
  {
  }

  /** One more chunk after an unfinished stretch that has outgrown it. */
  lemma FeedOversized(extract: Bytes -> Option<string>, held: Bytes, tail: Bytes, last: Bytes)
    requires EndOf(held, tail) && |tail| > SOFT_CAP && !HasBlank(tail + last)
    ensures Scan(extract, tail + last).id.None? && FedNext(extract, held + last).id.None?
    ensures Holds(FedNext(extract, held + last).rest, Tail(tail + last))
  {
    EndOfAppend(held, tail, last);
    EndIsBlankFree(held + last, tail + last);
    BlankFreeScan(extract, tail + last);
    BlankFreeScan(extract, held + last);
    TruncationHolds(held + last);
    EndOfEnd(Truncated(held + last), held + last, tail + last);
  }

  /**
   * For any one extractor: if every event up to and including the first with an id fits, the id found is that one
   * however the stream is cut, whatever follows it.
   */
  lemma {:induction false} EarlyFittingEventsAreFound(extract: Bytes -> Option<string>, chunks: seq<Bytes>)
    requires EarlyEventsFit(extract, Flatten(chunks))
    ensures Fed(extract, chunks).id == Scan(extract, Flatten(chunks)).id
    ensures Fed(extract, chunks).id.None? ==> Holds(Fed(extract, chunks).rest, Tail(Flatten(chunks)))
    decreases |chunks|
  {
    if chunks != [] {
      var front, last := chunks[..|chunks| - 1], chunks[|chunks| - 1];
      var a := Flatten(front);
      FlattenSnoc(chunks);
      FitSplits(extract, a, last);
      EarlyFittingEventsAreFound(extract, front);
      ScanResumes(extract, a, last);
      if Scan(extract, a).id.None? {
        ScanLeavesTail(extract, a);
        EventsResume(a, last);
        TailIsBlankFree(a);
        if |Tail(a)| > SOFT_CAP {
          OversizedNeverEnds(extract, Tail(a), last);
          FeedOversized(extract, Fed(extract, front).rest, Tail(a), last);
        } else {
          FeedWhole(extract, Tail(a), last);
        }
      }
    }
  }

  function Bytewise(s: Bytes): seq<Bytes> {
    if s == [] then [] else Bytewise(s[..|s| - 1]) + [[s[|s| - 1]]]
  }

  lemma {:induction false} BytewiseIsAChunking(s: Bytes)
    ensures Flatten(Bytewise(s)) == s
  {
    if s != [] {
      BytewiseIsAChunking(s[..|s| - 1]);
      FlattenSnoc(Bytewise(s));
      assert Bytewise(s)[..|Bytewise(s)| - 1] == Bytewise(s[..|s| - 1]);
    }
  }

  /** An extractor that recognises exactly the events that do not fit. */
  function Long(event: Bytes): Option<string> {
    if |event| >= SOFT_CAP then Some("long") else None
  }

  /** Fed byte by byte, the scanner never gets to see an event that does not fit. */
  lemma {:induction false} BytewiseSeesNoLongEvent(s: Bytes)
    ensures var f := Fed(Long, Bytewise(s)); f.id.None? && |f.rest| <= SOFT_CAP && !HasBlank(f.rest)
    decreases |s|
  {
    if s != [] {
      BytewiseSeesNoLongEvent(s[..|s| - 1]);
      var chunks := Bytewise(s);
      assert chunks[..|chunks| - 1] == Bytewise(s[..|s| - 1]);
      var held := Fed(Long, Bytewise(s[..|s| - 1])).rest;
      var grown := held + [s[|s| - 1]];
      assert forall i | 0 <= i < |held| - 1 :: BlankAt(grown, i) <==> BlankAt(held, i);
      match FindFrom(grown, 0)
      case None => TruncatedIsBlankFree(grown);
      case Some(i) => assert i == |held| - 1 && grown[i + 2..] == [] && Scan(Long, []) == Scanned(None, []);
    }
  }

  lemma {:induction false} LongEventIsScanned(s: Bytes)
    requires !EventsFit(s)
    ensures Scan(Long, s).id.Some?
  {
    ScanFindsFirst(Long, s);
  }

  /**
   * The id found does not depend on how the stream is cut into chunks, and is that of the first event that has one,
   * exactly when every complete event is shorter than the soft cap of 65536 bytes.
   */
  lemma ChunkingDoesNotMatter(s: Bytes)
    ensures EventsFit(s) <==>
            forall extract: Bytes -> Option<string>, chunks: seq<Bytes> | Flatten(chunks) == s ::
              Fed(extract, chunks).id == Scan(extract, s).id
  {
    if EventsFit(s) {
      forall extract: Bytes -> Option<string>, chunks: seq<Bytes> | Flatten(chunks) == s
        ensures Fed(extract, chunks).id == Scan(extract, s).id
      {
        EarlyFittingEventsAreFound(extract, chunks);
      }
    } else {
      BytewiseIsAChunking(s);
      BytewiseSeesNoLongEvent(s);
      LongEventIsScanned(s);
    }
  }
}

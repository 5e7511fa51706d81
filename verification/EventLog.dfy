/** The bounded in-memory event log: append, incremental eviction, replay, close. */
module EventLog {
  import opened Basics

  /** Clock readings and the ttl are whole ticks of one clock. */
  datatype RetainedEvent<P> = RetainedEvent(seqNo: int, kind: string, payload: P, createdAt: int, sizeBytes: nat)

  datatype Limits = Limits(ttl: int, maxEvents: int, maxBytes: int)

  datatype TooLarge = TooLarge(sizeBytes: nat, maxBytes: int)

  function TotalSize<P>(s: seq<RetainedEvent<P>>): nat {
    if s == [] then 0 else s[0].sizeBytes + TotalSize(s[1..])
  }

  ghost function TimeAt<P>(h: seq<RetainedEvent<P>>, i: int): int {
    if 0 <= i < |h| then h[i].createdAt else 0
  }

  ghost function NumberAt<P>(h: seq<RetainedEvent<P>>, i: int): int {
    if 0 <= i < |h| then h[i].seqNo else 0
  }

  ghost predicate Young<P>(limits: Limits, s: seq<RetainedEvent<P>>, now: int) {
    limits.ttl > 0 ==> forall i | 0 <= i < |s| :: now - TimeAt(s, i) <= limits.ttl
  }

  /** A stretch of events is within the limits at time `now`. A non-positive ttl switches ageing off. */
  ghost predicate Meets<P>(limits: Limits, s: seq<RetainedEvent<P>>, now: int) {
    Young(limits, s, now) && |s| <= limits.maxEvents && TotalSize(s) <= limits.maxBytes
  }

  /** The one-line specification of eviction over the full append history. */
  ghost function LongestSuffix<P>(limits: Limits, h: seq<RetainedEvent<P>>, now: int): seq<RetainedEvent<P>> {
    if Meets(limits, h, now) || h == [] then h else LongestSuffix(limits, h[1..], now)
  }

  ghost predicate Chronological<P>(h: seq<RetainedEvent<P>>) {
    forall i, j | 0 <= i <= j < |h| :: TimeAt(h, i) <= TimeAt(h, j)
  }

  ghost predicate NoneAfter<P>(h: seq<RetainedEvent<P>>, t: int) {
    forall i | 0 <= i < |h| :: TimeAt(h, i) <= t
  }

  /** Events are numbered 1, 2, 3, ... in append order. */
  ghost predicate Numbered<P>(h: seq<RetainedEvent<P>>) {
    forall i | 0 <= i < |h| :: NumberAt(h, i) == i + 1
  }

  function Above<P>(s: seq<RetainedEvent<P>>, after: int): seq<RetainedEvent<P>> {
    if s == [] then [] else (if s[0].seqNo > after then [s[0]] else []) + Above(s[1..], after)
  }

  lemma {:induction false} TotalSizeAppend<P>(a: seq<RetainedEvent<P>>, b: seq<RetainedEvent<P>>)
    ensures TotalSize(a + b) == TotalSize(a) + TotalSize(b)
  {
    if a == [] {
      assert a + b == b;
    } else {
      TotalSizeAppend(a[1..], b);
      assert (a + b)[1..] == a[1..] + b;
    }
  }

  /** `LongestSuffix` is what its name says: a suffix within the limits that no longer suffix within them exceeds. */
  lemma {:induction false} LongestSuffixIsLongest<P>(limits: Limits, h: seq<RetainedEvent<P>>, now: int)
    requires limits.maxEvents >= 0 && limits.maxBytes >= 0
    ensures var r := LongestSuffix(limits, h, now);
            && |r| <= |h| && r == h[|h| - |r|..] && Meets(limits, r, now)
            && forall j | 0 <= j <= |h| && Meets(limits, h[j..], now) :: |h[j..]| <= |r|
  {
    if Meets(limits, h, now) || h == [] {
    } else {
      LongestSuffixIsLongest(limits, h[1..], now);
      var r := LongestSuffix(limits, h, now);
      assert h[0..] == h;
      forall j | 0 <= j <= |h| && Meets(limits, h[j..], now)
        ensures |h[j..]| <= |r|
      {
        assert j > 0;
        assert h[1..][j - 1..] == h[j..];
      }
      assert h[1..][|h| - 1 - |r|..] == h[|h| - |r|..];
    }
  }

  ghost predicate BreaksAt<P>(limits: Limits, gone: seq<RetainedEvent<P>>, kept: seq<RetainedEvent<P>>, j: int,
                              now: int)
  {
    0 <= j <= |gone| && !Meets(limits, gone[j..] + kept, now)
  }

  /** Keeping any of the evicted events `gone` beside `kept` would break the limits. */
  ghost predicate EvictedForCause<P>(limits: Limits, gone: seq<RetainedEvent<P>>, kept: seq<RetainedEvent<P>>, now: int)
  {
    forall j | 0 <= j < |gone| :: BreaksAt(limits, gone, kept, j, now)
  }

  lemma {:induction false} KeptIsLongest<P>(limits: Limits, gone: seq<RetainedEvent<P>>, kept: seq<RetainedEvent<P>>,
                                            now: int)
    requires EvictedForCause(limits, gone, kept, now) && Meets(limits, kept, now)
    ensures LongestSuffix(limits, gone + kept, now) == kept
  {
    if gone == [] {
      assert gone + kept == kept;
    } else {
      assert BreaksAt(limits, gone, kept, 0, now) && gone[0..] == gone;
      forall j | 0 <= j < |gone| - 1
        ensures BreaksAt(limits, gone[1..], kept, j, now)
      {
        assert BreaksAt(limits, gone, kept, j + 1, now) && gone[1..][j..] == gone[j + 1..];
      }
      KeptIsLongest(limits, gone[1..], kept, now);
      assert (gone + kept)[1..] == gone[1..] + kept;
    }
  }

  /** Once a stretch breaks the limits it breaks them for ever: events only get older and more numerous. */
  lemma BrokenStaysBroken<P>(limits: Limits, s: seq<RetainedEvent<P>>, e: seq<RetainedEvent<P>>, t1: int, t2: int)
    requires !Meets(limits, s, t1) && t1 <= t2
    ensures !Meets(limits, s + e, t2)
  {
    TotalSizeAppend(s, e);
    if limits.ttl > 0 && exists i :: 0 <= i < |s| && t1 - TimeAt(s, i) > limits.ttl {
      var i :| 0 <= i < |s| && t1 - TimeAt(s, i) > limits.ttl;
      assert TimeAt(s + e, i) == TimeAt(s, i);
    }
  }

  /** Everything evicted at an earlier reading of a steady clock stays evicted after `more` is appended. */
  lemma EvictedStaysEvicted<P>(limits: Limits, gone: seq<RetainedEvent<P>>, kept: seq<RetainedEvent<P>>, t1: int,
                               more: seq<RetainedEvent<P>>, t2: int)
    requires t1 <= t2 && EvictedForCause(limits, gone, kept, t1)
    ensures EvictedForCause(limits, gone, kept + more, t2)
  {
    forall j | 0 <= j < |gone|
      ensures BreaksAt(limits, gone, kept + more, j, t2)
    {
      assert BreaksAt(limits, gone, kept, j, t1);
      BrokenStaysBroken(limits, gone[j..] + kept, more, t1, t2);
      assert gone[j..] + (kept + more) == gone[j..] + kept + more;
    }
  }

  /** Moving the front event across keeps every reason for the earlier evictions and adds its own. */
  lemma DropForCause<P>(limits: Limits, gone: seq<RetainedEvent<P>>, kept: seq<RetainedEvent<P>>, now: int)
    requires kept != [] && !Meets(limits, kept, now)
    ensures EvictedForCause(limits, gone, kept, now) ==> EvictedForCause(limits, gone + [kept[0]], kept[1..], now)
    ensures Young(limits, kept, now) ==> Young(limits, kept[1..], now)
    ensures gone + [kept[0]] + kept[1..] == gone + kept
  {
    assert kept == [kept[0]] + kept[1..];
    if EvictedForCause(limits, gone, kept, now) {
      forall j | 0 <= j < |gone| + 1
        ensures BreaksAt(limits, gone + [kept[0]], kept[1..], j, now)
      {
        assert (gone + [kept[0]])[j..] + kept[1..] == gone[j..] + kept;
        if j < |gone| {
          assert BreaksAt(limits, gone, kept, j, now);
        } else {
          assert gone[j..] + kept == kept;
        }
      }
    }
    assert forall i | 0 <= i < |kept| - 1 :: TimeAt(kept[1..], i) == TimeAt(kept, i + 1);
  }

  lemma TooOld<P>(limits: Limits, kept: seq<RetainedEvent<P>>, now: int)
    requires kept != [] && limits.ttl > 0 && now - kept[0].createdAt > limits.ttl
    ensures !Meets(limits, kept, now)
  {
    assert TimeAt(kept, 0) == kept[0].createdAt;
  }

  /** In a chronological log a young front means a young log. */
  lemma YoungFront<P>(limits: Limits, gone: seq<RetainedEvent<P>>, kept: seq<RetainedEvent<P>>, now: int)
    requires Chronological(gone + kept)
    requires limits.ttl > 0 && kept != [] ==> now - kept[0].createdAt <= limits.ttl
    ensures Young(limits, kept, now)
  {
    if kept != [] {
      assert TimeAt(gone + kept, |gone|) == kept[0].createdAt;
      assert forall i | 0 <= i < |kept| :: TimeAt(kept, i) == TimeAt(gone + kept, |gone| + i);
    }
  }

  lemma AppendKeepsShape<P>(h: seq<RetainedEvent<P>>, e: RetainedEvent<P>)
    requires Numbered(h) && e.seqNo == |h| + 1
    ensures Numbered(h + [e])
    ensures Chronological(h) && NoneAfter(h, e.createdAt) ==> Chronological(h + [e]) && NoneAfter(h + [e], e.createdAt)
  {
    assert forall i | 0 <= i < |h| :: NumberAt(h + [e], i) == NumberAt(h, i);
    assert forall i | 0 <= i < |h| :: TimeAt(h + [e], i) == TimeAt(h, i);
  }

  lemma {:induction false} AboveKept<P>(gone: seq<RetainedEvent<P>>, kept: seq<RetainedEvent<P>>, after: int)
    requires Numbered(gone + kept) && after >= |gone|
    ensures Above(kept, after) == (gone + kept)[Min(|gone + kept|, after)..]
    decreases |kept|
  {
    if kept != [] {
      assert NumberAt(gone + kept, |gone|) == |gone| + 1;
      assert gone + [kept[0]] + kept[1..] == gone + kept;
      if after > |gone| {
        AboveKept(gone + [kept[0]], kept[1..], after);
      } else {
        AboveAll(gone, kept, after);
      }
    }
  }

  lemma {:induction false} AboveAll<P>(gone: seq<RetainedEvent<P>>, kept: seq<RetainedEvent<P>>, after: int)
    requires Numbered(gone + kept) && after <= |gone|
    ensures Above(kept, after) == kept
    decreases |kept|
  {
    if kept != [] {
      assert NumberAt(gone + kept, |gone|) == |gone| + 1;
      assert gone + [kept[0]] + kept[1..] == gone + kept;
      AboveAll(gone + [kept[0]], kept[1..], after);
    }
  }

  lemma TotalSizeCoversLast<P>(s: seq<RetainedEvent<P>>)
    requires s != []
    ensures TotalSize(s) >= s[|s| - 1].sizeBytes
  {
    TotalSizeAppend(s[..|s| - 1], [s[|s| - 1]]);
    assert s == s[..|s| - 1] + [s[|s| - 1]];
    assert [s[|s| - 1]][1..] == [];
  }

  /**
   * An event that alone fits the byte budget survives its own append, whatever the history; one that does not cannot.
   */
  lemma NewestSurvivesIffItFits<P>(limits: Limits, h: seq<RetainedEvent<P>>, e: RetainedEvent<P>)
    requires limits.maxEvents >= 1 && limits.maxBytes >= 0
    ensures LongestSuffix(limits, h + [e], e.createdAt) != [] <==> e.sizeBytes <= limits.maxBytes
  {
    var all, r := h + [e], LongestSuffix(limits, h + [e], e.createdAt);
    LongestSuffixIsLongest(limits, all, e.createdAt);
    assert all[|h|..] == [e] && [e][1..] == [];
    if r != [] {
      assert r[|r| - 1] == e;
      TotalSizeCoversLast(r);
    }
    if e.sizeBytes <= limits.maxBytes {
      assert TimeAt([e], 0) == e.createdAt;
      assert Meets(limits, all[|h|..], e.createdAt);
    }
  }

  class RetainedEventLog<P(!new)> {
    const limits: Limits
    const payloadSize: (string, P) -> nat
    var events: seq<RetainedEvent<P>>
    var nextSeq: int
    var totalBytes: int
    var closed: bool
    var version: nat
    var progressed: bool
    var updatedAt: int
    ghost var evicted: seq<RetainedEvent<P>>  // the events no longer retained, oldest first
    ghost var evictedAt: int                  // the clock reading of the last eviction
    ghost var steady: bool                    // no clock reading used so far was below an earlier one

    /** Every event ever appended. */
    ghost function History(): seq<RetainedEvent<P>>
      reads this
    {
      evicted + events
    }

    /** What holds under any clock: the log is a suffix of its history, counted exactly and within its budgets. */
    ghost predicate Valid()
      reads this
    {
      && limits.maxEvents >= 1 && limits.maxBytes >= 1
      && Numbered(History()) && nextSeq == |History()| + 1
      && totalBytes == TotalSize(events) && |events| <= limits.maxEvents && totalBytes <= limits.maxBytes
      && (steady ==> Steady())
    }

    /** With a clock that never went back: nothing kept is too old, and every longer suffix would break the limits. */
    ghost predicate Steady()
      reads this
    {
      && Chronological(History()) && NoneAfter(History(), evictedAt)
      && EvictedForCause(limits, evicted, events, evictedAt) && Young(limits, events, evictedAt)
    }

    function LatestSeq(): int
      reads this
    {
      nextSeq - 1
    }

    function FloorSeq(): int
      reads this
    {
      if events != [] then events[0].seqNo - 1 else LatestSeq()
    }

    lemma FloorIsEvictedCount()
      requires Numbered(History()) && nextSeq == |History()| + 1
      ensures FloorSeq() == |evicted| && LatestSeq() == |History()|
    {
      assert events != [] ==> NumberAt(History(), |evicted|) == events[0].seqNo;
    }

    constructor (ttl: int, maxEvents: int, maxBytes: int, payloadSize: (string, P) -> nat, now: int)
      ensures Valid() && steady && evictedAt == now && History() == [] && !closed && version == 0 && !progressed
      ensures limits == Limits(ttl, if maxEvents >= 1 then maxEvents else 1, if maxBytes >= 1 then maxBytes else 1)
      ensures this.payloadSize == payloadSize
    {
      limits := Limits(ttl, if maxEvents >= 1 then maxEvents else 1, if maxBytes >= 1 then maxBytes else 1);
      this.payloadSize := payloadSize;
      events, nextSeq, totalBytes := [], 1, 0;
      closed, version, progressed, updatedAt := false, 0, false, now;
      evicted, evictedAt, steady := [], now, true;
    }

    /** Drop the front event; `now` only names the clock reading the reason for dropping it refers to. */
    method DropOldest(ghost now: int)
      requires events != [] && totalBytes == TotalSize(events) && !Meets(limits, events, now)
      modifies this`events, this`totalBytes, this`evicted
      ensures totalBytes == TotalSize(events) && History() == old(History()) && |events| == |old(events)| - 1
      ensures events != [] ==> events[|events| - 1] == old(events[|events| - 1])
      ensures old(EvictedForCause(limits, evicted, events, now)) ==> EvictedForCause(limits, evicted, events, now)
      ensures old(Young(limits, events, now)) ==> Young(limits, events, now)
    {
      DropForCause(limits, evicted, events, now);
      var front := events[0];
      events := events[1..];
      totalBytes := totalBytes - front.sizeBytes;
      evicted := evicted + [front];
    }

    /** The three eviction loops. The log may be over budget on entry. */
    method Evict(now: int)
      requires limits.maxEvents >= 1 && limits.maxBytes >= 1 && totalBytes == TotalSize(events)
      modifies this`events, this`totalBytes, this`evicted, this`evictedAt
      ensures History() == old(History()) && |events| <= |old(events)| && evictedAt == now
      ensures totalBytes == TotalSize(events) && |events| <= limits.maxEvents && totalBytes <= limits.maxBytes
      ensures Chronological(History()) ==> Young(limits, events, now)
      ensures old(EvictedForCause(limits, evicted, events, now)) ==> EvictedForCause(limits, evicted, events, now)
      ensures old(events) != [] && old(events[|events| - 1]).createdAt == now
              && old(events[|events| - 1]).sizeBytes <= limits.maxBytes
              ==> events != []
    {
      ghost var caused := EvictedForCause(limits, evicted, events, now);
      ghost var newest := if events != [] then Some(events[|events| - 1]) else None;
      if limits.ttl > 0 {
        while events != [] && now - events[0].createdAt > limits.ttl
          invariant History() == old(History()) && |events| <= |old(events)| && totalBytes == TotalSize(events)
          invariant caused ==> EvictedForCause(limits, evicted, events, now)
          invariant events != [] ==> newest == Some(events[|events| - 1])
          invariant newest.Some? && newest.value.createdAt == now ==> events != []
          decreases |events|
        {
          TooOld(limits, events, now);
          DropOldest(now);
        }
      }
      ghost var young := Chronological(History());
      if young {
        YoungFront(limits, evicted, events, now);
      }
      while |events| > limits.maxEvents
        invariant History() == old(History()) && |events| <= |old(events)| && totalBytes == TotalSize(events)
        invariant caused ==> EvictedForCause(limits, evicted, events, now)
        invariant young ==> Young(limits, events, now)
        invariant events != [] ==> newest == Some(events[|events| - 1])
        invariant newest.Some? && newest.value.createdAt == now ==> events != []
        decreases |events|
      {
        DropOldest(now);
      }
      while events != [] && totalBytes > limits.maxBytes
        invariant History() == old(History()) && |events| <= |old(events)| && totalBytes == TotalSize(events)
        invariant |events| <= limits.maxEvents
        invariant caused ==> EvictedForCause(limits, evicted, events, now)
        invariant young ==> Young(limits, events, now)
        invariant events != [] ==> newest == Some(events[|events| - 1])
        invariant newest.Some? && newest.value.createdAt == now && newest.value.sizeBytes <= limits.maxBytes
                  ==> events != []
        decreases |events|
      {
        DropOldest(now);
      }
      evictedAt := now;
    }

    /** Under a clock that never went back, the incrementally evicted log is the one-line specification. */
    lemma SteadyLogIsLongestSuffix()
      requires Valid() && steady
      ensures events == LongestSuffix(limits, History(), evictedAt)
    {
      KeptIsLongest(limits, evicted, events, evictedAt);
    }

    /** The size of an event, or its refusal with the size and the budget it is over. */
    function EnsureFits(kind: string, payload: P): (r: Result<nat, TooLarge>)
      ensures r.Ok? <==> payloadSize(kind, payload) <= limits.maxBytes
      ensures r.Ok? ==> r.value == payloadSize(kind, payload)
      ensures r.Err? ==> r.error.maxBytes == limits.maxBytes < r.error.sizeBytes == payloadSize(kind, payload)
    {
      var size := payloadSize(kind, payload);
      if size > limits.maxBytes then Err(TooLarge(size, limits.maxBytes)) else Ok(size)
    }

    /** An event is refused exactly when, however much else were evicted, it could not be retained at its own append. */
    lemma RefusedIffItCouldNotStay(kind: string, payload: P, now: int)
      requires Valid()
      ensures var e := RetainedEvent(nextSeq, kind, payload, now, payloadSize(kind, payload));
              EnsureFits(kind, payload).Ok? <==> LongestSuffix(limits, History() + [e], now) != []
    {
      var e := RetainedEvent(nextSeq, kind, payload, now, payloadSize(kind, payload));
      NewestSurvivesIffItFits(limits, History(), e);
    }

    /** The bookkeeping of one accepted event, before eviction. */
    method Record(event: RetainedEvent<P>)
      requires Valid() && event.seqNo == nextSeq
      modifies this`nextSeq, this`updatedAt, this`events, this`totalBytes, this`steady
      ensures events == old(events) + [event] && nextSeq == event.seqNo + 1 && updatedAt == event.createdAt
      ensures History() == old(History()) + [event] && Numbered(History()) && totalBytes == TotalSize(events)
      ensures steady == (old(steady) && evictedAt <= event.createdAt)
      ensures steady ==> Chronological(History()) && NoneAfter(History(), event.createdAt)
                         && EvictedForCause(limits, evicted, events, event.createdAt)
    {
      if steady && evictedAt <= event.createdAt {
        EvictedStaysEvicted(limits, evicted, events, evictedAt, [event], event.createdAt);
      }
      AppendKeepsShape(History(), event);
      TotalSizeAppend(events, [event]);
      steady := steady && evictedAt <= event.createdAt;
      nextSeq := nextSeq + 1;
      updatedAt := event.createdAt;
      events := events + [event];
      totalBytes := totalBytes + event.sizeBytes;
      assert History() == old(History()) + [event];
    }

    /** A refused event changes nothing; an accepted one gets the next number and survives its own eviction pass. */
    method Append(kind: string, payload: P, now: int) returns (r: Result<RetainedEvent<P>, TooLarge>)
      requires Valid()
      modifies this
      ensures Valid()
      ensures r.Ok? <==> payloadSize(kind, payload) <= limits.maxBytes
      ensures r.Err? ==> unchanged(this)
      ensures r.Ok? ==>
        && r.value == RetainedEvent(old(nextSeq), kind, payload, now, payloadSize(kind, payload))
        && History() == old(History()) + [r.value]
        && old(FloorSeq()) <= FloorSeq() < r.value.seqNo
        && version == old(version) + 1 && progressed && updatedAt == now && closed == old(closed)
        && evictedAt == now && steady == (old(steady) && old(evictedAt) <= now)
    {
      var fits := EnsureFits(kind, payload);
      if fits.Err? {
        return Err(fits.error);
      }
      var event := RetainedEvent(nextSeq, kind, payload, now, fits.value);
      FloorIsEvictedCount();
      Record(event);
      Evict(now);
      FloorIsEvictedCount();
      Bump();
      return Ok(event);
    }

    method Close(now: int)
      requires Valid()
      modifies this`closed, this`updatedAt, this`version, this`progressed
      ensures Valid() && closed && updatedAt == now && version == old(version) + 1 && progressed
    {
      closed := true;
      updatedAt := now;
      Bump();
    }

    /** Eviction at some moment between appends; it only raises the floor. */
    method EvictNow(now: int)
      requires Valid()
      modifies this`events, this`totalBytes, this`evicted, this`evictedAt, this`steady
      ensures Valid() && evictedAt == now && steady == (old(steady) && old(evictedAt) <= now)
      ensures History() == old(History()) && 0 <= old(FloorSeq()) <= FloorSeq() <= LatestSeq()
    {
      if steady && evictedAt <= now {
        EvictedStaysEvicted(limits, evicted, events, evictedAt, [], now);
        assert events + [] == events;
      }
      FloorIsEvictedCount();
      steady := steady && evictedAt <= now;
      Evict(now);
      FloorIsEvictedCount();
    }

    /** Replay evicts first; from a cursor at or above the resulting floor it gives every later event, in order. */
    method ReplayAfter(after: int, now: int) returns (r: Result<seq<RetainedEvent<P>>, ResumeExpired>)
      requires Valid()
      modifies this`events, this`totalBytes, this`evicted, this`evictedAt, this`steady
      ensures Valid() && evictedAt == now && steady == (old(steady) && old(evictedAt) <= now)
      ensures History() == old(History()) && 0 <= old(FloorSeq()) <= FloorSeq() <= LatestSeq()
      ensures r.Ok? <==> after >= FloorSeq()
      ensures r.Ok? ==> r.value == History()[Min(LatestSeq(), after)..]
      ensures r.Err? ==> r.error == ResumeExpired(FloorSeq(), LatestSeq())
    {
      EvictNow(now);
      FloorIsEvictedCount();
      if after < FloorSeq() {
        return Err(ResumeExpired(FloorSeq(), LatestSeq()));
      }
      AboveKept(evicted, events, after);
      return Ok(Above(events, after));
    }

    method Bump()
      modifies this`version, this`progressed
      ensures version == old(version) + 1 && progressed
    {
      version := version + 1;
      progressed := true;
    }
  }
}

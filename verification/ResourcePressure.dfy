/** The pressure sampler: a bucket that follows noisy readings only after they have persisted for a dwell time. */
module ResourcePressure {
  import opened Basics

  datatype Bucket = Unknown | Normal | Warning | Critical

  datatype State = State(bucket: Bucket, candidate: Option<Bucket>, since: real)

  const FRESH := State(Unknown, None, 0.0)

  /** The bucket a reading argues for, if any, and how long it has to keep arguing. */
  datatype Want = Want(candidate: Option<Bucket>, dwell: real)

  const STAY := Want(None, 0.0)

  const GIB := 1073741824

  function CpuWant(bucket: Bucket, percent: real): Want {
    match bucket
    case Critical =>
      if percent < 80.0 then Want(Some(if percent < 65.0 then Normal else Warning), 60.0) else STAY
    case Warning =>
      if percent >= 90.0 then Want(Some(Critical), 15.0)
      else if percent < 65.0 then Want(Some(Normal), 60.0)
      else STAY
    case _ =>
      if percent >= 90.0 then Want(Some(Critical), 15.0)
      else if percent >= 75.0 then Want(Some(Warning), 30.0)
      else STAY
  }

  datatype Memory = Memory(ratio: real, bytes: int)

  predicate CriticalEnter(m: Memory) { m.ratio <= 0.08 || m.bytes <= GIB / 2 }
  predicate WarningEnter(m: Memory) { m.ratio <= 0.15 || m.bytes <= 3 * (GIB / 2) }
  predicate CriticalExit(m: Memory) { m.ratio >= 0.12 && m.bytes >= GIB }
  predicate WarningExit(m: Memory) { m.ratio >= 0.20 && m.bytes >= 2 * GIB }

  function MemoryWant(bucket: Bucket, m: Memory): Want {
    match bucket
    case Critical => if CriticalExit(m) then Want(Some(if WarningExit(m) then Normal else Warning), 60.0) else STAY
    case Warning =>
      if CriticalEnter(m) then Want(Some(Critical), 15.0)
      else if WarningExit(m) then Want(Some(Normal), 60.0)
      else STAY
    case _ =>
      if CriticalEnter(m) then Want(Some(Critical), 15.0)
      else if WarningEnter(m) then Want(Some(Warning), 30.0)
      else STAY
  }

  function Transition(s: State, candidate: Option<Bucket>, dwell: real, now: real): State {
    if candidate.None? || candidate.value == s.bucket then State(s.bucket, None, 0.0)
    else if s.candidate != candidate then State(s.bucket, candidate, now)
    else if now - s.since >= dwell then State(candidate.value, None, 0.0)
    else s
  }

  function Known(s: State): State {
    if s.bucket.Unknown? then s.(bucket := Normal) else s
  }

  /** One sample with a reading; the sampler leaves `Unknown` at once. */
  function Update<R>(decide: (Bucket, R) -> Want, s: State, reading: R, now: real): State {
    var w := decide(Known(s).bucket, reading);
    Transition(Known(s), w.candidate, w.dwell, now)
  }

  function CpuUpdate(s: State, percent: Option<real>, now: real): State {
    if percent.None? then FRESH else Update(CpuWant, s, percent.value, now)
  }

  function MemoryUpdate(s: State, ratio: Option<real>, bytes: Option<int>, now: real): State {
    if ratio.None? || bytes.None? then FRESH else Update(MemoryWant, s, Memory(ratio.value, bytes.value), now)
  }

  class BucketState {
    var bucket: Bucket
    var candidate: Option<Bucket>
    var candidateSince: real

    function Value(): State
      reads this
    {
      State(bucket, candidate, candidateSince)
    }

    constructor ()
      ensures Value() == FRESH
    {
      bucket, candidate, candidateSince := Unknown, None, 0.0;
    }

    method Move(wanted: Option<Bucket>, dwell: real, now: real)
      modifies this
      ensures Value() == Transition(old(Value()), wanted, dwell, now)
    {
      if wanted.None? || wanted.value == bucket {
        candidate, candidateSince := None, 0.0;
        return;
      }
      if candidate != wanted {
        candidate, candidateSince := wanted, now;
        return;
      }
      if now - candidateSince >= dwell {
        bucket, candidate, candidateSince := wanted.value, None, 0.0;
      }
    }

    method SetImmediate(b: Bucket)
      modifies this
      ensures Value() == State(b, None, 0.0)
    {
      bucket, candidate, candidateSince := b, None, 0.0;
    }

    method UpdateCpu(percent: Option<real>, now: real)
      modifies this
      ensures Value() == CpuUpdate(old(Value()), percent, now)
    {
      if percent.None? {
        SetImmediate(Unknown);
        return;
      }
      var value := percent.value;
      if bucket.Unknown? {
        bucket := Normal;
      }
      if bucket.Critical? {
        if value < 80.0 {
          Move(Some(if value < 65.0 then Normal else Warning), 60.0, now);
          return;
        }
        Move(None, 0.0, now);
        return;
      }
      if bucket.Warning? {
        if value >= 90.0 {
          Move(Some(Critical), 15.0, now);
          return;
        }
        if value < 65.0 {
          Move(Some(Normal), 60.0, now);
          return;
        }
        Move(None, 0.0, now);
        return;
      }
      if value >= 90.0 {
        Move(Some(Critical), 15.0, now);
        return;
      }
      if value >= 75.0 {
        Move(Some(Warning), 30.0, now);
        return;
      }
      Move(None, 0.0, now);
    }

    method UpdateMemory(ratio: Option<real>, bytes: Option<int>, now: real)
      modifies this
      ensures Value() == MemoryUpdate(old(Value()), ratio, bytes, now)
    {
      if ratio.None? || bytes.None? {
        SetImmediate(Unknown);
        return;
      }
      if bucket.Unknown? {
        bucket := Normal;
      }
      var m := Memory(ratio.value, bytes.value);
      if bucket.Critical? {
        if CriticalExit(m) {
          Move(Some(if WarningExit(m) then Normal else Warning), 60.0, now);
          return;
        }
        Move(None, 0.0, now);
        return;
      }
      if bucket.Warning? {
        if CriticalEnter(m) {
          Move(Some(Critical), 15.0, now);
          return;
        }
        if WarningExit(m) {
          Move(Some(Normal), 60.0, now);
          return;
        }
        Move(None, 0.0, now);
        return;
      }
      if CriticalEnter(m) {
        Move(Some(Critical), 15.0, now);
        return;
      }
      if WarningEnter(m) {
        Move(Some(Warning), 30.0, now);
        return;
      }
      Move(None, 0.0, now);
    }
  }

  // --- how often the bucket can change

  datatype Sample<R> = Sample(reading: R, at: real)

  ghost predicate InOrder<R>(samples: seq<Sample<R>>) {
    forall i | 0 < i < |samples| :: samples[i - 1].at <= samples[i].at
  }

  /** A state, the number of bucket changes so far, and when the last one was (or the run began). */
  datatype Tally = Tally(state: State, changes: nat, changedAt: real)

  function Counted<R>(decide: (Bucket, R) -> Want, t: Tally, s: Sample<R>): Tally {
    var next := Update(decide, t.state, s.reading, s.at);
    if next.bucket == t.state.bucket then t.(state := next) else Tally(next, t.changes + 1, s.at)
  }

  function CountAll<R>(decide: (Bucket, R) -> Want, t: Tally, samples: seq<Sample<R>>): Tally
    decreases |samples|
  {
    if samples == [] then t else CountAll(decide, Counted(decide, t, samples[0]), samples[1..])
  }

  /** The first sample takes a fresh sampler out of `Unknown`; the changes counted are those after it. */
  function Changes<R>(decide: (Bucket, R) -> Want, samples: seq<Sample<R>>): nat
    requires samples != []
  {
    CountAll(decide, Tally(Update(decide, FRESH, samples[0].reading, samples[0].at), 0, samples[0].at),
             samples[1..]).changes
  }

  /** How long a reading must argue for leaving one bucket for another. */
  function Dwell(from: Bucket, to: Bucket): real {
    if to.Critical? then 15.0 else if to.Warning? && !from.Critical? then 30.0 else 60.0
  }

  /** The wants of a decision rule go between the three buckets and use those dwell times. */
  ghost predicate Disciplined<R(!new)>(decide: (Bucket, R) -> Want) {
    forall b: Bucket, r: R :: !b.Unknown? && decide(b, r).candidate.Some? ==>
      !decide(b, r).candidate.value.Unknown? && decide(b, r).dwell == Dwell(b, decide(b, r).candidate.value)
  }

  lemma CpuIsDisciplined()
    ensures Disciplined(CpuWant)
  {
  }

  lemma MemoryIsDisciplined()
    ensures Disciplined(MemoryWant)
  {
  }

  /** The least time in which a run can make n changes and end in the bucket is at least this. */
  function Floor(b: Bucket, n: nat): real {
    35.0 * n as real +
    match b
    case Critical => if n % 3 == 0 then -15.0 else if n % 3 == 1 then -20.0 else -25.0
    case Warning => if n % 3 == 0 then 0.0 else if n % 3 == 1 then -5.0 else 5.0
    case _ => if n % 3 == 0 then 0.0 else if n % 3 == 1 then 10.0 else 5.0
  }

  /** The least time for n changes, wherever they end: 0, 15, 45, 90 seconds, and 105 more for every three changes. */
  function LeastTime(n: nat): real {
    if n == 0 then 0.0 else Floor(Critical, n)
  }

  /** One change costs its dwell time, and no dwell time is below what the floor asks for the change. */
  lemma ChangeMeetsFloor(from: Bucket, to: Bucket, n: nat)
    requires !from.Unknown? && !to.Unknown? && from != to
    ensures Floor(from, n) + Dwell(from, to) >= Floor(to, n + 1)
  {
    assert (n + 1) % 3 == if n % 3 == 2 then 0 else n % 3 + 1;
  }

  /** The changes so far took at least the floor, and a candidate is no older than the last one. */
  ghost predicate Paced(t: Tally, start: real, now: real) {
    && !t.state.bucket.Unknown?
    && start <= t.changedAt <= now
    && t.changedAt - start >= Floor(t.state.bucket, t.changes)
    && (t.state.candidate.Some? ==>
          t.state.candidate.value != t.state.bucket && t.changedAt <= t.state.since <= now)
  }

  lemma CountedKeepsPaced<R(!new)>(decide: (Bucket, R) -> Want, t: Tally, start: real, now: real, s: Sample<R>)
    requires Disciplined(decide) && Paced(t, start, now) && now <= s.at
    ensures Paced(Counted(decide, t, s), start, s.at)
  {
    var w := decide(t.state.bucket, s.reading);
    var next := Update(decide, t.state, s.reading, s.at);
    if next.bucket != t.state.bucket {
      assert s.at - t.changedAt >= Dwell(t.state.bucket, next.bucket);
      ChangeMeetsFloor(t.state.bucket, next.bucket, t.changes);
    }
  }

  lemma {:induction false} CountAllKeepsPaced<R(!new)>(decide: (Bucket, R) -> Want, t: Tally, start: real, now: real,
                                                       samples: seq<Sample<R>>)
    requires Disciplined(decide) && Paced(t, start, now) && InOrder(samples)
    requires samples != [] ==> now <= samples[0].at
    ensures Paced(CountAll(decide, t, samples), start, if samples == [] then now else samples[|samples| - 1].at)
    decreases |samples|
  {
    if samples != [] {
      CountedKeepsPaced(decide, t, start, now, samples[0]);
      assert forall i | 0 < i < |samples| - 1 :: samples[1..][i - 1] == samples[i] && samples[1..][i] == samples[i + 1];
      CountAllKeepsPaced(decide, Counted(decide, t, samples[0]), start, samples[0].at, samples[1..]);
    }
  }

  /** With no reading missing and a clock that never goes back, n changes take at least the least time. */
  lemma ChangesTakeTime<R(!new)>(decide: (Bucket, R) -> Want, samples: seq<Sample<R>>)
    requires Disciplined(decide) && samples != [] && InOrder(samples)
    ensures samples[|samples| - 1].at - samples[0].at >= LeastTime(Changes(decide, samples))
  {
    var first := samples[0];
    var t := Tally(Update(decide, FRESH, first.reading, first.at), 0, first.at);
    assert forall i | 0 < i < |samples| - 1 :: samples[1..][i - 1] == samples[i] && samples[1..][i] == samples[i + 1];
    CountAllKeepsPaced(decide, t, first.at, first.at, samples[1..]);
    assert |samples| > 1 ==> samples[1..][|samples| - 2] == samples[|samples| - 1];
  }

  lemma CpuChangesTakeTime(samples: seq<Sample<real>>)
    requires samples != [] && InOrder(samples)
    ensures samples[|samples| - 1].at - samples[0].at >= LeastTime(Changes(CpuWant, samples))
  {
    CpuIsDisciplined();
    ChangesTakeTime(CpuWant, samples);
  }

  lemma MemoryChangesTakeTime(samples: seq<Sample<Memory>>)
    requires samples != [] && InOrder(samples)
    ensures samples[|samples| - 1].at - samples[0].at >= LeastTime(Changes(MemoryWant, samples))
  {
    MemoryIsDisciplined();
    ChangesTakeTime(MemoryWant, samples);
  }

  // --- the least time is attained

  /** Readings that argue for normal, for warning and for critical wherever a fastest run needs them to. */
  datatype Readings<R> = Readings(low: R, middle: R, high: R)

  predicate Steers<R>(decide: (Bucket, R) -> Want, r: Readings<R>) {
    && decide(Normal, r.middle) == Want(Some(Warning), 30.0) && decide(Critical, r.middle) == Want(Some(Warning), 60.0)
    && decide(Normal, r.high) == decide(Warning, r.high) == Want(Some(Critical), 15.0)
    && decide(Critical, r.low) == Want(Some(Normal), 60.0)
  }

  /** A reading held from t on for a dwell time. */
  function Leg<R>(reading: R, t: real, dwell: real): seq<Sample<R>> {
    [Sample(reading, t), Sample(reading, t + dwell)]
  }

  /** From critical at time t over normal and warning back to critical. */
  function Round<R>(r: Readings<R>, t: real): seq<Sample<R>> {
    Leg(r.low, t, 60.0) + Leg(r.middle, t + 60.0, 30.0) + Leg(r.high, t + 90.0, 15.0)
  }

  /** A run of n changes in the least time: at most three to reach critical, then rounds. */
  function Fastest<R>(r: Readings<R>, n: nat): seq<Sample<R>> {
    if n == 0 then []
    else if n == 1 then Leg(r.high, 0.0, 15.0)
    else if n == 2 then Leg(r.middle, 0.0, 30.0) + Leg(r.high, 30.0, 15.0)
    else if n == 3 then Leg(r.high, 0.0, 15.0) + Leg(r.middle, 15.0, 60.0) + Leg(r.high, 75.0, 15.0)
    else Fastest(r, n - 3) + Round(r, LeastTime(n - 3))
  }

  /** The bucket has just changed to b: the n-th change, at time t. */
  function Just(b: Bucket, n: nat, t: real): Tally {
    Tally(State(b, None, 0.0), n, t)
  }

  lemma {:induction false} CountAllAppend<R>(decide: (Bucket, R) -> Want, t: Tally, a: seq<Sample<R>>,
                                             b: seq<Sample<R>>)
    ensures CountAll(decide, t, a + b) == CountAll(decide, CountAll(decide, t, a), b)
    decreases |a|
  {
    if a == [] {
      assert a + b == b;
    } else {
      assert (a + b)[1..] == a[1..] + b;
      CountAllAppend(decide, Counted(decide, t, a[0]), a[1..], b);
    }
  }

  lemma LegCounts<R>(decide: (Bucket, R) -> Want, reading: R, b: Bucket, to: Bucket, dwell: real, n: nat, c: real,
                     t: real)
    requires !b.Unknown? && b != to && dwell >= 0.0 && decide(b, reading) == Want(Some(to), dwell)
    ensures CountAll(decide, Just(b, n, c), Leg(reading, t, dwell)) == Just(to, n + 1, t + dwell)
  {
    var leg := Leg(reading, t, dwell);
    assert leg[1..] == [leg[1]] && [leg[1]][1..] == [];
    var waiting := Tally(State(b, Some(to), t), n, c);
    var done := Just(to, n + 1, t + dwell);
    assert Counted(decide, Just(b, n, c), leg[0]) == waiting;
    assert Counted(decide, waiting, leg[1]) == done;
    assert CountAll(decide, waiting, [leg[1]]) == CountAll(decide, done, []) == done;
  }

  lemma RoundCounts<R>(decide: (Bucket, R) -> Want, r: Readings<R>, n: nat, c: real, t: real)
    requires Steers(decide, r)
    ensures CountAll(decide, Just(Critical, n, c), Round(r, t)) == Just(Critical, n + 3, t + 105.0)
  {
    var fall, rise, top := Leg(r.low, t, 60.0), Leg(r.middle, t + 60.0, 30.0), Leg(r.high, t + 90.0, 15.0);
    CountAllAppend(decide, Just(Critical, n, c), fall + rise, top);
    CountAllAppend(decide, Just(Critical, n, c), fall, rise);
    LegCounts(decide, r.low, Critical, Normal, 60.0, n, c, t);
    LegCounts(decide, r.middle, Normal, Warning, 30.0, n + 1, t + 60.0, t + 60.0);
    LegCounts(decide, r.high, Warning, Critical, 15.0, n + 2, t + 90.0, t + 90.0);
  }

  lemma HeadCounts<R>(decide: (Bucket, R) -> Want, r: Readings<R>, n: nat)
    requires Steers(decide, r) && 1 <= n <= 3
    ensures CountAll(decide, Just(Normal, 0, 0.0), Fastest(r, n)) == Just(Critical, n, LeastTime(n))
  {
    var start := Just(Normal, 0, 0.0);
    if n == 2 {
      CountAllAppend(decide, start, Leg(r.middle, 0.0, 30.0), Leg(r.high, 30.0, 15.0));
      LegCounts(decide, r.middle, Normal, Warning, 30.0, 0, 0.0, 0.0);
      LegCounts(decide, r.high, Warning, Critical, 15.0, 1, 30.0, 30.0);
    } else {
      LegCounts(decide, r.high, Normal, Critical, 15.0, 0, 0.0, 0.0);
      if n == 3 {
        var up, down, top := Leg(r.high, 0.0, 15.0), Leg(r.middle, 15.0, 60.0), Leg(r.high, 75.0, 15.0);
        CountAllAppend(decide, start, up + down, top);
        CountAllAppend(decide, start, up, down);
        LegCounts(decide, r.middle, Critical, Warning, 60.0, 1, 15.0, 15.0);
        LegCounts(decide, r.high, Warning, Critical, 15.0, 2, 75.0, 75.0);
      }
    }
  }

  lemma LeastTimeOfThreeMore(n: nat)
    requires n > 0
    ensures LeastTime(n + 3) == LeastTime(n) + 105.0
  {
    assert (n + 3) % 3 == n % 3;
  }

  lemma {:induction false} FastestCounts<R>(decide: (Bucket, R) -> Want, r: Readings<R>, n: nat)
    requires Steers(decide, r) && n > 0
    ensures CountAll(decide, Just(Normal, 0, 0.0), Fastest(r, n)) == Just(Critical, n, LeastTime(n))
  {
    if n <= 3 {
      HeadCounts(decide, r, n);
    } else {
      FastestCounts(decide, r, n - 3);
      LeastTimeOfThreeMore(n - 3);
      CountAllAppend(decide, Just(Normal, 0, 0.0), Fastest(r, n - 3), Round(r, LeastTime(n - 3)));
      RoundCounts(decide, r, n - 3, LeastTime(n - 3), LeastTime(n - 3));
    }
  }

  lemma InOrderAppend<R(!new)>(a: seq<Sample<R>>, b: seq<Sample<R>>)
    requires InOrder(a) && InOrder(b) && a != [] && b != [] && a[|a| - 1].at <= b[0].at
    ensures InOrder(a + b)
  {
  }

  /** The samples start at the first time, end at the second, and do not go back in between. */
  ghost predicate Spans<R(!new)>(s: seq<Sample<R>>, from: real, to: real) {
    s != [] && InOrder(s) && s[0].at == from && s[|s| - 1].at == to
  }

  lemma SpansAppend<R(!new)>(a: seq<Sample<R>>, b: seq<Sample<R>>, from: real, mid: real, to: real)
    requires Spans(a, from, mid) && Spans(b, mid, to)
    ensures Spans(a + b, from, to)
  {
    InOrderAppend(a, b);
  }

  lemma HeadTiming<R(!new)>(r: Readings<R>, n: nat)
    requires 1 <= n <= 3
    ensures Spans(Fastest(r, n), 0.0, LeastTime(n))
  {
    if n == 2 {
      SpansAppend(Leg(r.middle, 0.0, 30.0), Leg(r.high, 30.0, 15.0), 0.0, 30.0, 45.0);
    } else if n == 3 {
      var up, down, top := Leg(r.high, 0.0, 15.0), Leg(r.middle, 15.0, 60.0), Leg(r.high, 75.0, 15.0);
      SpansAppend(up, down, 0.0, 15.0, 75.0);
      SpansAppend(up + down, top, 0.0, 75.0, 90.0);
    }
  }

  lemma RoundTiming<R(!new)>(r: Readings<R>, t: real)
    ensures Spans(Round(r, t), t, t + 105.0)
  {
    var fall, rise, top := Leg(r.low, t, 60.0), Leg(r.middle, t + 60.0, 30.0), Leg(r.high, t + 90.0, 15.0);
    SpansAppend(fall, rise, t, t + 60.0, t + 90.0);
    SpansAppend(fall + rise, top, t, t + 90.0, t + 105.0);
  }

  lemma {:induction false} FastestTiming<R(!new)>(r: Readings<R>, n: nat)
    requires n > 0
    ensures Spans(Fastest(r, n), 0.0, LeastTime(n))
  {
    if n <= 3 {
      HeadTiming(r, n);
    } else {
      FastestTiming(r, n - 3);
      LeastTimeOfThreeMore(n - 3);
      RoundTiming(r, LeastTime(n - 3));
      SpansAppend(Fastest(r, n - 3), Round(r, LeastTime(n - 3)), 0.0, LeastTime(n - 3), LeastTime(n));
    }
  }

  /** A fresh sampler goes on from its first sample as one that has just become normal. */
  lemma ChangesFromNormal<R>(decide: (Bucket, R) -> Want, samples: seq<Sample<R>>)
    requires samples != [] && samples[0].at == 0.0
    ensures Changes(decide, samples) == CountAll(decide, Just(Normal, 0, 0.0), samples).changes
  {
    assert Counted(decide, Just(Normal, 0, 0.0), samples[0])
        == Tally(Update(decide, FRESH, samples[0].reading, 0.0), 0, 0.0);
  }

  /** The samples make n changes, and span at most the given time. */
  ghost predicate MakesIn<R>(decide: (Bucket, R) -> Want, samples: seq<Sample<R>>, n: nat, span: real) {
    && samples != [] && InOrder(samples) && Changes(decide, samples) == n
    && samples[|samples| - 1].at - samples[0].at <= span
  }

  lemma FastestMakes<R(!new)>(decide: (Bucket, R) -> Want, r: Readings<R>, n: nat, span: real)
    requires Steers(decide, r) && span >= LeastTime(n)
    ensures exists samples :: MakesIn(decide, samples, n, span)
  {
    var samples := if n == 0 then [Sample(r.low, 0.0)] else Fastest(r, n);
    if n > 0 {
      FastestTiming(r, n);
      FastestCounts(decide, r, n);
      ChangesFromNormal(decide, samples);
    }
    assert MakesIn(decide, samples, n, span);
  }

  /** A fresh CPU sampler can change n times within a time exactly when that is at least the least time. */
  lemma CpuChangesFitExactly(n: nat, span: real)
    ensures (exists samples :: MakesIn(CpuWant, samples, n, span)) <==> span >= LeastTime(n)
  {
    if span >= LeastTime(n) {
      FastestMakes(CpuWant, Readings(50.0, 78.0, 95.0), n, span);
    }
    forall samples | MakesIn(CpuWant, samples, n, span)
      ensures span >= LeastTime(n)
    {
      CpuChangesTakeTime(samples);
    }
  }

  lemma MemoryChangesFitExactly(n: nat, span: real)
    ensures (exists samples :: MakesIn(MemoryWant, samples, n, span)) <==> span >= LeastTime(n)
  {
    if span >= LeastTime(n) {
      var r := Readings(Memory(0.5, 4 * GIB), Memory(0.14, 4 * GIB), Memory(0.05, 4 * GIB));
      FastestMakes(MemoryWant, r, n, span);
    }
    forall samples | MakesIn(MemoryWant, samples, n, span)
      ensures span >= LeastTime(n)
    {
      MemoryChangesTakeTime(samples);
    }
  }

  // --- sustained readings win

  /** The reading argues for `goal` from every other bucket, for at most `dwell`, and for nothing else from it. */
  ghost predicate Drives<R>(decide: (Bucket, R) -> Want, r: R, goal: Bucket, dwell: real) {
    && decide(goal, r).candidate.None?
    && forall b: Bucket | !b.Unknown? && b != goal ::
         decide(b, r).candidate == Some(goal) && decide(b, r).dwell <= dwell
  }

  function Last<R>(decide: (Bucket, R) -> Want, s: State, samples: seq<Sample<R>>): State
    decreases |samples|
  {
    if samples == [] then s else Last(decide, Update(decide, s, samples[0].reading, samples[0].at), samples[1..])
  }

  lemma {:induction false} PendingArrives<R>(decide: (Bucket, R) -> Want, s: State, samples: seq<Sample<R>>,
                                             goal: Bucket, dwell: real)
    requires samples != [] && InOrder(samples) && !goal.Unknown? && !s.bucket.Unknown?
    requires forall i | 0 <= i < |samples| :: Drives(decide, samples[i].reading, goal, dwell)
    requires s.bucket == goal || (s.candidate == Some(goal) && samples[|samples| - 1].at - s.since >= dwell)
    ensures Last(decide, s, samples).bucket == goal
    decreases |samples|
  {
    var next := Update(decide, s, samples[0].reading, samples[0].at);
    assert Drives(decide, samples[0].reading, goal, dwell);
    var rest := samples[1..];
    if rest != [] {
      assert forall i | 0 < i < |rest| :: rest[i - 1] == samples[i] && rest[i] == samples[i + 1];
      assert forall i | 0 <= i < |rest| :: rest[i] == samples[i + 1];
      PendingArrives(decide, next, rest, goal, dwell);
    }
  }

  /**
   * Readings that all argue for one bucket, over a span of at least its dwell time, end with that bucket reported, from
   * any state whose pending candidate is not from the future, whatever the sample spacing.
   */
  lemma SustainedReadingsWin<R>(decide: (Bucket, R) -> Want, s: State, samples: seq<Sample<R>>, goal: Bucket,
                                dwell: real)
    requires |samples| >= 2 && InOrder(samples) && !goal.Unknown?
    requires forall i | 0 <= i < |samples| :: Drives(decide, samples[i].reading, goal, dwell)
    requires samples[|samples| - 1].at - samples[0].at >= dwell
    requires s.candidate.Some? ==> s.since <= samples[0].at
    ensures Last(decide, s, samples).bucket == goal
  {
    assert Drives(decide, samples[0].reading, goal, dwell);
    var rest := samples[1..];
    assert forall i | 0 < i < |rest| :: rest[i - 1] == samples[i] && rest[i] == samples[i + 1];
    assert forall i | 0 <= i < |rest| :: rest[i] == samples[i + 1];
    PendingArrives(decide, Update(decide, s, samples[0].reading, samples[0].at), rest, goal, dwell);
  }

  /** At least 15 seconds of CPU readings of 90 or more end critical; at least 60 seconds below 65 end normal. */
  lemma SustainedCpu(s: State, samples: seq<Sample<real>>)
    requires |samples| >= 2 && InOrder(samples) && (s.candidate.Some? ==> s.since <= samples[0].at)
    ensures samples[|samples| - 1].at - samples[0].at >= 15.0
            && (forall i | 0 <= i < |samples| :: samples[i].reading >= 90.0)
            ==> Last(CpuWant, s, samples).bucket == Critical
    ensures samples[|samples| - 1].at - samples[0].at >= 60.0
            && (forall i | 0 <= i < |samples| :: samples[i].reading < 65.0)
            ==> Last(CpuWant, s, samples).bucket == Normal
  {
    var span := samples[|samples| - 1].at - samples[0].at;
    if span >= 15.0 && forall i | 0 <= i < |samples| :: samples[i].reading >= 90.0 {
      SustainedReadingsWin(CpuWant, s, samples, Critical, 15.0);
    }
    if span >= 60.0 && forall i | 0 <= i < |samples| :: samples[i].reading < 65.0 {
      SustainedReadingsWin(CpuWant, s, samples, Normal, 60.0);
    }
  }

  /** The same for memory, with its enter condition for critical and its exit condition for warning. */
  lemma SustainedMemory(s: State, samples: seq<Sample<Memory>>)
    requires |samples| >= 2 && InOrder(samples) && (s.candidate.Some? ==> s.since <= samples[0].at)
    ensures samples[|samples| - 1].at - samples[0].at >= 15.0
            && (forall i | 0 <= i < |samples| :: CriticalEnter(samples[i].reading))
            ==> Last(MemoryWant, s, samples).bucket == Critical
    ensures samples[|samples| - 1].at - samples[0].at >= 60.0
            && (forall i | 0 <= i < |samples| :: WarningExit(samples[i].reading))
            ==> Last(MemoryWant, s, samples).bucket == Normal
  {
    var span := samples[|samples| - 1].at - samples[0].at;
    if span >= 15.0 && forall i | 0 <= i < |samples| :: CriticalEnter(samples[i].reading) {
      SustainedReadingsWin(MemoryWant, s, samples, Critical, 15.0);
    }
    if span >= 60.0 && forall i | 0 <= i < |samples| :: WarningExit(samples[i].reading) {
      SustainedReadingsWin(MemoryWant, s, samples, Normal, 60.0);
    }
  }

  // --- which readings argue for what

  /** The CPU thresholds, bucket by bucket wanted; in every band between them the bucket stays. */
  lemma CpuWantsExactly(b: Bucket, percent: real)
    ensures CpuWant(b, percent).candidate == Some(Critical) <==> !b.Critical? && percent >= 90.0
    ensures CpuWant(b, percent).candidate == Some(Warning) <==>
              (b.Critical? && 65.0 <= percent < 80.0) || ((b.Normal? || b.Unknown?) && 75.0 <= percent < 90.0)
    ensures CpuWant(b, percent).candidate == Some(Normal) <==> (b.Critical? || b.Warning?) && percent < 65.0
    ensures CpuWant(b, percent).candidate != Some(Unknown)
  {
  }

  /** The memory thresholds: a share of what there is and an amount in bytes, of which the worse decides. */
  lemma MemoryWantsExactly(b: Bucket, m: Memory)
    ensures MemoryWant(b, m).candidate == Some(Critical) <==> !b.Critical? && (m.ratio <= 0.08 || m.bytes <= 536870912)
    ensures MemoryWant(b, m).candidate == Some(Warning) <==>
              if b.Critical? then m.ratio >= 0.12 && m.bytes >= 1073741824 && (m.ratio < 0.20 || m.bytes < 2147483648)
              else !b.Warning? && m.ratio > 0.08 && m.bytes > 536870912 && (m.ratio <= 0.15 || m.bytes <= 1610612736)
    ensures MemoryWant(b, m).candidate == Some(Normal) <==>
              (b.Critical? || b.Warning?) && m.ratio >= 0.20 && m.bytes >= 2147483648
    ensures MemoryWant(b, m).candidate != Some(Unknown)
  {
  }

  /** Readings that argue for no other bucket leave the bucket as it is, however many and however spaced. */
  lemma {:induction false} QuietReadingsStay<R>(decide: (Bucket, R) -> Want, s: State, samples: seq<Sample<R>>)
    requires !s.bucket.Unknown?
    requires forall i | 0 <= i < |samples| :: decide(s.bucket, samples[i].reading).candidate.None?
    ensures Last(decide, s, samples).bucket == s.bucket
    decreases |samples|
  {
    if samples != [] {
      var rest := samples[1..];
      assert forall i | 0 <= i < |rest| :: rest[i] == samples[i + 1];
      QuietReadingsStay(decide, Update(decide, s, samples[0].reading, samples[0].at), rest);
    }
  }

  /** So CPU stays critical at 80 or more, in warning from 65 to 90, and normal below 75. */
  lemma CpuBandsHold(s: State, samples: seq<Sample<real>>)
    ensures s.bucket.Critical? && (forall i | 0 <= i < |samples| :: samples[i].reading >= 80.0)
            ==> Last(CpuWant, s, samples).bucket == Critical
    ensures s.bucket.Warning? && (forall i | 0 <= i < |samples| :: 65.0 <= samples[i].reading < 90.0)
            ==> Last(CpuWant, s, samples).bucket == Warning
    ensures s.bucket.Normal? && (forall i | 0 <= i < |samples| :: samples[i].reading < 75.0)
            ==> Last(CpuWant, s, samples).bucket == Normal
  {
    if !s.bucket.Unknown? && forall i | 0 <= i < |samples| :: CpuWant(s.bucket, samples[i].reading).candidate.None? {
      QuietReadingsStay(CpuWant, s, samples);
    }
  }

  /** A missing reading makes the bucket unknown at once, and what was pending is forgotten. */
  lemma MissingReadingForgets(s: State, now: real, bytes: Option<int>, ratio: Option<real>)
    ensures CpuUpdate(s, None, now) == State(Unknown, None, 0.0)
    ensures ratio.None? || bytes.None? ==> MemoryUpdate(s, ratio, bytes, now) == State(Unknown, None, 0.0)
  {
  }

  /** An unknown bucket is taken for normal by the next reading. */
  lemma UnknownIsNormal<R>(decide: (Bucket, R) -> Want, s: State, reading: R, now: real)
    requires s.bucket.Unknown?
    ensures Update(decide, s, reading, now) == Update(decide, s.(bucket := Normal), reading, now)
  {
  }

  // --- a change is earned

  /** From the k-th on, every reading argues for the bucket. */
  ghost predicate ArguedFrom<R>(decide: (Bucket, R) -> Want, b: Bucket, goal: Bucket, samples: seq<Sample<R>>, k: int) {
    0 <= k < |samples| && forall i | k <= i < |samples| :: decide(b, samples[i].reading).candidate == Some(goal)
  }

  lemma {:induction false} LastOneMore<R>(decide: (Bucket, R) -> Want, s: State, samples: seq<Sample<R>>, x: Sample<R>)
    ensures Last(decide, s, samples + [x]) == Update(decide, Last(decide, s, samples), x.reading, x.at)
    decreases |samples|
  {
    if samples == [] {
      assert samples + [x] == [x] && [x][1..] == [];
    } else {
      assert (samples + [x])[1..] == samples[1..] + [x];
      LastOneMore(decide, Update(decide, s, samples[0].reading, samples[0].at), samples[1..], x);
    }
  }

  /** What is pending has been argued for by every reading since it became so. */
  ghost predicate Earned<R>(decide: (Bucket, R) -> Want, samples: seq<Sample<R>>, s: State) {
    s.candidate.Some? ==>
      exists k :: ArguedFrom(decide, s.bucket, s.candidate.value, samples, k) && samples[k].at == s.since
  }

  lemma EarnedOneMore<R>(decide: (Bucket, R) -> Want, samples: seq<Sample<R>>, s: State, x: Sample<R>)
    requires Earned(decide, samples, s) && !s.bucket.Unknown?
    ensures Earned(decide, samples + [x], Update(decide, s, x.reading, x.at))
    ensures var n := Update(decide, s, x.reading, x.at);
            n.bucket != s.bucket ==>
              exists k :: ArguedFrom(decide, s.bucket, n.bucket, samples + [x], k)
                          && x.at - (samples + [x])[k].at >= decide(s.bucket, x.reading).dwell
  {
    var n, all := Update(decide, s, x.reading, x.at), samples + [x];
    if s.candidate.Some? {
      var k :| ArguedFrom(decide, s.bucket, s.candidate.value, samples, k) && samples[k].at == s.since;
      assert all[k] == samples[k];
      if decide(s.bucket, x.reading).candidate == s.candidate {
        assert ArguedFrom(decide, s.bucket, s.candidate.value, all, k);
      }
    }
    assert all[|samples|] == x;
    if n.candidate.Some? && n != s {
      assert ArguedFrom(decide, n.bucket, n.candidate.value, all, |samples|);
    }
  }

  lemma {:induction false} RunIsEarned<R(!new)>(decide: (Bucket, R) -> Want, s: State, samples: seq<Sample<R>>)
    requires Disciplined(decide) && !s.bucket.Unknown? && s.candidate.None?
    ensures Earned(decide, samples, Last(decide, s, samples)) && !Last(decide, s, samples).bucket.Unknown?
    decreases |samples|
  {
    if samples != [] {
      var front, x := samples[..|samples| - 1], samples[|samples| - 1];
      RunIsEarned(decide, s, front);
      assert samples == front + [x];
      LastOneMore(decide, s, front, x);
      EarnedOneMore(decide, front, Last(decide, s, front), x);
    }
  }

  /**
   * A bucket changes only to one that every reading of a stretch up to that moment has argued for, and the stretch is
   * at least as long as the dwell time of that change.
   */
  lemma ChangesAreEarned<R(!new)>(decide: (Bucket, R) -> Want, s: State, samples: seq<Sample<R>>, x: Sample<R>)
    requires Disciplined(decide) && !s.bucket.Unknown? && s.candidate.None?
    ensures var from, to := Last(decide, s, samples).bucket, Last(decide, s, samples + [x]).bucket;
            to != from ==>
              exists k :: ArguedFrom(decide, from, to, samples + [x], k)
                          && x.at - (samples + [x])[k].at >= Dwell(from, to)
  {
    RunIsEarned(decide, s, samples);
    LastOneMore(decide, s, samples, x);
    var l := Last(decide, s, samples);
    EarnedOneMore(decide, samples, l, x);
    if Last(decide, s, samples + [x]).bucket != l.bucket {
      assert decide(l.bucket, x.reading).candidate.Some?;
    }
  }

  // --- what the sampler reports

  /** The sampler's state after these samples, some of which have no reading. */
  function CpuAfter(samples: seq<Sample<Option<real>>>): State
    decreases |samples|
  {
    if samples == [] then FRESH
    else
      var x := samples[|samples| - 1];
      CpuUpdate(CpuAfter(samples[..|samples| - 1]), x.reading, x.at)
  }

  lemma {:induction false} CandidatesAreNotFromTheFuture(samples: seq<Sample<Option<real>>>, now: real)
    requires forall i | 0 <= i < |samples| :: samples[i].at <= now
    ensures CpuAfter(samples).candidate.Some? ==> CpuAfter(samples).since <= now
    decreases |samples|
  {
    if samples != [] {
      CandidatesAreNotFromTheFuture(samples[..|samples| - 1], now);
    }
  }

  function Present(samples: seq<Sample<real>>): seq<Sample<Option<real>>> {
    seq(|samples|, i requires 0 <= i < |samples| => Sample(Some(samples[i].reading), samples[i].at))
  }

  lemma {:induction false} PresentReadingsDecide(before: seq<Sample<Option<real>>>, samples: seq<Sample<real>>)
    ensures CpuAfter(before + Present(samples)) == Last(CpuWant, CpuAfter(before), samples)
    decreases |samples|
  {
    if samples == [] {
      assert before + Present(samples) == before;
    } else {
      var front, x := samples[..|samples| - 1], samples[|samples| - 1];
      var all := before + Present(samples);
      assert all[..|all| - 1] == before + Present(front) && all[|all| - 1] == Sample(Some(x.reading), x.at);
      PresentReadingsDecide(before, front);
      LastOneMore(CpuWant, CpuAfter(before), front, x);
      assert samples == front + [x];
    }
  }

  /**
   * Whatever was sampled before, with or without readings: after at least 15 seconds of readings of 90 or more the
   * sampler reports critical, and after at least 60 seconds below 65 it reports normal.
   */
  lemma SustainedCpuIsReported(before: seq<Sample<Option<real>>>, samples: seq<Sample<real>>)
    requires |samples| >= 2 && InOrder(samples) && forall i | 0 <= i < |before| :: before[i].at <= samples[0].at
    ensures samples[|samples| - 1].at - samples[0].at >= 15.0
            && (forall i | 0 <= i < |samples| :: samples[i].reading >= 90.0)
            ==> CpuAfter(before + Present(samples)).bucket == Critical
    ensures samples[|samples| - 1].at - samples[0].at >= 60.0
            && (forall i | 0 <= i < |samples| :: samples[i].reading < 65.0)
            ==> CpuAfter(before + Present(samples)).bucket == Normal
  {
    CandidatesAreNotFromTheFuture(before, samples[0].at);
    PresentReadingsDecide(before, samples);
    SustainedCpu(CpuAfter(before), samples);
  }

  /** A memory sample is judged by its two readings together. */
  lemma MemoryReadingsDecide(s: State, m: Memory, now: real)
    ensures MemoryUpdate(s, Some(m.ratio), Some(m.bytes), now) == Update(MemoryWant, s, m, now)
  {
  }
}

/**
 * Builds shared by idempotency key: a cache of finished responses with an age limit, and the builds still in flight.
 * Requests, completions, failures and cleanup callbacks interleave in any order, each as one atomic step of the loop.
 */
module Idempotency {
  import opened Basics

  /** A key and the fingerprint of the request body sent with it. */
  datatype Ask = Ask(key: string, fingerprint: string)

  datatype Status = Running | Succeeded(at: int) | Broke

  /** A build task. Its cleanup callback runs some time after it ends. */
  datatype Build = Build(ask: Ask, status: Status, cleared: bool)

  datatype Cached = Cached(fingerprint: string, build: nat, at: int)

  datatype Reply = Reply(ask: Ask, build: nat)

  /**
   * A request that did not find a cached response waits for its build. The program does not keep `latest`, the last
   * successful build of each key, nor `judged`, the greatest clock reading since that success by which its response was
   * judged: let stay or thrown out. Readings are those of a wall clock: nothing is assumed about their order.
   */
  datatype World = World(
    builds: seq<Build>, cache: map<string, Cached>, inflight: map<Ask, nat>, waiting: multiset<Reply>,
    replies: seq<Reply>, latest: map<string, nat>, judged: map<string, int>)

  const EMPTY := World([], map[], map[], multiset{}, [], map[], map[])

  datatype Step =
    | Request(ask: Ask, first: int, second: int)
    | Succeed(build: nat, now: int)
    | Break(build: nat)
    | Callback(build: nat)
    | Wake(reply: Reply)
    | Sweep(now: int)

  predicate Hit(w: World, ttl: nat, ask: Ask, now: int) {
    ask.key in w.cache && now - w.cache[ask.key].at <= ttl && w.cache[ask.key].fingerprint == ask.fingerprint
  }

  /** The stale entry is judged by a second reading of the clock. */
  function Evicted(w: World, ttl: nat, ask: Ask, now: int): map<string, Cached> {
    if ask.key in w.cache && now - w.cache[ask.key].at > ttl then w.cache - {ask.key} else w.cache
  }

  /** A reading judges what is cached under these keys. */
  function Judged(judged: map<string, int>, cached: set<string>, now: int): map<string, int> {
    map k | k in judged :: if k in cached then Max(judged[k], now) else judged[k]
  }

  function Requested(w: World, ttl: nat, ask: Ask, first: int, second: int): World {
    if Hit(w, ttl, ask, first) then w.(replies := w.replies + [Reply(ask, w.cache[ask.key].build)])
    else
      var v := w.(cache := Evicted(w, ttl, ask, second), judged := Judged(w.judged, w.cache.Keys * {ask.key}, second));
      if ask in w.inflight then v.(waiting := w.waiting + multiset{Reply(ask, w.inflight[ask])})
      else
        v.(builds := w.builds + [Build(ask, Running, false)], inflight := w.inflight[ask := |w.builds|],
           waiting := w.waiting + multiset{Reply(ask, |w.builds|)})
  }

  predicate CanSucceed(w: World, b: nat) {
    b < |w.builds| && w.builds[b].status.Running?
  }

  function Done(w: World, b: nat, now: int): World
    requires CanSucceed(w, b)
  {
    var ask := w.builds[b].ask;
    w.(builds := w.builds[b := w.builds[b].(status := Succeeded(now))],
       cache := w.cache[ask.key := Cached(ask.fingerprint, b, now)], latest := w.latest[ask.key := b],
       judged := w.judged[ask.key := now])
  }

  predicate CanCall(w: World, b: nat) {
    b < |w.builds| && !w.builds[b].status.Running? && !w.builds[b].cleared
  }

  function Cleared(w: World, b: nat): World
    requires CanCall(w, b)
  {
    var ask := w.builds[b].ask;
    w.(builds := w.builds[b := w.builds[b].(cleared := true)],
       inflight := if ask in w.inflight && w.inflight[ask] == b then w.inflight - {ask} else w.inflight)
  }

  predicate CanWake(w: World, r: Reply) {
    r in w.waiting && r.build < |w.builds| && !w.builds[r.build].status.Running?
  }

  function Woken(w: World, r: Reply): World
    requires CanWake(w, r)
  {
    w.(waiting := w.waiting - multiset{r},
       replies := if w.builds[r.build].status.Succeeded? then w.replies + [r] else w.replies)
  }

  function Swept(w: World, ttl: nat, now: int): World {
    w.(cache := map k | k in w.cache && now - w.cache[k].at <= ttl :: w.cache[k],
       judged := Judged(w.judged, w.cache.Keys, now))
  }

  /** The effect of a step, whatever the clock says; a step that is not possible changes nothing. */
  function Apply(w: World, ttl: nat, s: Step): World {
    match s
    case Request(ask, first, second) => Requested(w, ttl, ask, first, second)
    case Succeed(b, now) => if CanSucceed(w, b) then Done(w, b, now) else w
    case Break(b) => if CanSucceed(w, b) then w.(builds := w.builds[b := w.builds[b].(status := Broke)]) else w
    case Callback(b) => if CanCall(w, b) then Cleared(w, b) else w
    case Wake(r) => if CanWake(w, r) then Woken(w, r) else w
    case Sweep(now) => Swept(w, ttl, now)
  }

  function Run(w: World, ttl: nat, steps: seq<Step>): World
    decreases |steps|
  {
    if steps == [] then w else Run(Apply(w, ttl, steps[0]), ttl, steps[1..])
  }

  // --- what every run keeps

  ghost predicate InflightKnown(builds: seq<Build>, inflight: map<Ask, nat>) {
    forall a | a in inflight :: inflight[a] < |builds| && builds[inflight[a]].ask == a && !builds[inflight[a]].cleared
  }

  /** A build is in flight under its own key and fingerprint until its callback has run. */
  ghost predicate UnclearedInflight(builds: seq<Build>, inflight: map<Ask, nat>) {
    forall b | 0 <= b < |builds| ::
      (builds[b].status.Running? ==> !builds[b].cleared)
      && (!builds[b].cleared ==> builds[b].ask in inflight && inflight[builds[b].ask] == b)
  }

  ghost predicate CacheLatest(builds: seq<Build>, cache: map<string, Cached>, latest: map<string, nat>) {
    forall k | k in cache ::
      && k in latest && cache[k].build == latest[k] && latest[k] < |builds|
      && builds[latest[k]].status == Succeeded(cache[k].at) && builds[latest[k]].ask == Ask(k, cache[k].fingerprint)
  }

  /** The last success of a key is cached exactly when no reading since has been past its age. */
  ghost predicate LatestCached(builds: seq<Build>, cache: map<string, Cached>, latest: map<string, nat>,
                               judged: map<string, int>, ttl: nat)
  {
    forall k | k in latest ::
      && latest[k] < |builds| && builds[latest[k]].ask.key == k && builds[latest[k]].status.Succeeded? && k in judged
      && (k in cache <==> judged[k] - builds[latest[k]].status.at <= ttl)
  }

  predicate Uncached(cache: map<string, Cached>, ask: Ask) {
    ask.key in cache ==> cache[ask.key].fingerprint != ask.fingerprint
  }

  ghost predicate OwnBuild(builds: seq<Build>, r: Reply) {
    r.build < |builds| && builds[r.build].ask == r.ask
  }

  ghost predicate Answers(builds: seq<Build>, waiting: multiset<Reply>, replies: seq<Reply>) {
    && (forall r | r in waiting :: OwnBuild(builds, r))
    && (forall r | r in replies :: OwnBuild(builds, r) && builds[r.build].status.Succeeded?)
  }

  /** What holds in every run, under any clock. */
  ghost predicate Inv(w: World, ttl: nat) {
    && InflightKnown(w.builds, w.inflight) && UnclearedInflight(w.builds, w.inflight)
    && CacheLatest(w.builds, w.cache, w.latest) && LatestCached(w.builds, w.cache, w.latest, w.judged, ttl)
    && Answers(w.builds, w.waiting, w.replies)
  }

  /** Builds keep their request, and a build that has ended keeps how it ended. */
  ghost predicate Grows(a: World, b: World) {
    && |a.builds| <= |b.builds|
    && forall i | 0 <= i < |a.builds| ::
         && b.builds[i].ask == a.builds[i].ask
         && (!a.builds[i].status.Running? ==> b.builds[i].status == a.builds[i].status)
  }

  lemma EvictionKeeps(w: World, ttl: nat, ask: Ask, now: int)
    requires Inv(w, ttl)
    ensures var cache := Evicted(w, ttl, ask, now);
            && CacheLatest(w.builds, cache, w.latest)
            && LatestCached(w.builds, cache, w.latest, Judged(w.judged, w.cache.Keys * {ask.key}, now), ttl)
  {
  }

  lemma NewBuildKeeps(w: World, ttl: nat, ask: Ask)
    requires Inv(w, ttl) && ask !in w.inflight
    ensures Inv(w.(builds := w.builds + [Build(ask, Running, false)], inflight := w.inflight[ask := |w.builds|],
                   waiting := w.waiting + multiset{Reply(ask, |w.builds|)}), ttl)
  {
    var builds := w.builds + [Build(ask, Running, false)];
    assert forall r | OwnBuild(w.builds, r) :: OwnBuild(builds, r);
    assert OwnBuild(builds, Reply(ask, |w.builds|));
  }

  lemma RequestKeepsInv(w: World, ttl: nat, ask: Ask, first: int, second: int)
    requires Inv(w, ttl)
    ensures Inv(Requested(w, ttl, ask, first, second), ttl) && Grows(w, Requested(w, ttl, ask, first, second))
  {
    if Hit(w, ttl, ask, first) {
      assert OwnBuild(w.builds, Reply(ask, w.cache[ask.key].build));
    } else {
      EvictionKeeps(w, ttl, ask, second);
      var v := w.(cache := Evicted(w, ttl, ask, second), judged := Judged(w.judged, w.cache.Keys * {ask.key}, second));
      if ask in w.inflight {
        assert OwnBuild(w.builds, Reply(ask, w.inflight[ask]));
      } else {
        NewBuildKeeps(v, ttl, ask);
      }
    }
  }

  lemma EndKeeps(w: World, b: nat, status: Status)
    requires InflightKnown(w.builds, w.inflight) && UnclearedInflight(w.builds, w.inflight) && CanSucceed(w, b)
    requires Answers(w.builds, w.waiting, w.replies) && !status.Running?
    ensures var builds := w.builds[b := w.builds[b].(status := status)];
            && InflightKnown(builds, w.inflight) && UnclearedInflight(builds, w.inflight)
            && Answers(builds, w.waiting, w.replies)
  {
    var builds := w.builds[b := w.builds[b].(status := status)];
    assert forall r | OwnBuild(w.builds, r) :: OwnBuild(builds, r);
  }

  lemma DoneKeepsInv(w: World, ttl: nat, b: nat, now: int)
    requires Inv(w, ttl) && CanSucceed(w, b)
    ensures Inv(Done(w, b, now), ttl) && Grows(w, Done(w, b, now))
  {
    EndKeeps(w, b, Succeeded(now));
    var n, ask := Done(w, b, now), w.builds[b].ask;
    forall k | k in n.cache
      ensures && k in n.latest && n.cache[k].build == n.latest[k] && n.latest[k] < |n.builds|
              && n.builds[n.latest[k]].status == Succeeded(n.cache[k].at)
              && n.builds[n.latest[k]].ask == Ask(k, n.cache[k].fingerprint)
    {
      if k != ask.key {
        assert k in w.cache && w.latest[k] != b;
      }
    }
  }

  lemma BrokenKeepsInv(w: World, ttl: nat, b: nat)
    requires Inv(w, ttl) && CanSucceed(w, b)
    ensures var n := w.(builds := w.builds[b := w.builds[b].(status := Broke)]); Inv(n, ttl) && Grows(w, n)
  {
    EndKeeps(w, b, Broke);
  }

  lemma ClearedKeepsInv(w: World, ttl: nat, b: nat)
    requires Inv(w, ttl) && CanCall(w, b)
    ensures Inv(Cleared(w, b), ttl) && Grows(w, Cleared(w, b))
  {
    var n := Cleared(w, b);
    assert forall i | 0 <= i < |n.builds| ::
        n.builds[i].ask == w.builds[i].ask && n.builds[i].status == w.builds[i].status;
    assert w.inflight[w.builds[b].ask] == b;
    SameOutcomes(w, n, ttl);
  }

  /** What the cache and the answers rest on is how builds ended, not whether their callbacks have run. */
  lemma SameOutcomes(w: World, n: World, ttl: nat)
    requires Inv(w, ttl) && |n.builds| == |w.builds| && n.cache == w.cache && n.latest == w.latest
            && n.judged == w.judged
    requires n.waiting == w.waiting && n.replies == w.replies
    requires forall i | 0 <= i < |n.builds| ::
               n.builds[i].ask == w.builds[i].ask && n.builds[i].status == w.builds[i].status
    ensures CacheLatest(n.builds, n.cache, n.latest) && LatestCached(n.builds, n.cache, n.latest, n.judged, ttl)
    ensures Answers(n.builds, n.waiting, n.replies)
  {
    assert forall r | OwnBuild(w.builds, r) :: OwnBuild(n.builds, r);
  }

  lemma WokenKeepsInv(w: World, ttl: nat, r: Reply)
    requires Inv(w, ttl) && CanWake(w, r)
    ensures Inv(Woken(w, r), ttl) && Grows(w, Woken(w, r))
  {
    assert forall x | x in Woken(w, r).waiting :: x in w.waiting;
  }

  lemma SweptKeepsInv(w: World, ttl: nat, now: int)
    requires Inv(w, ttl)
    ensures Inv(Swept(w, ttl, now), ttl) && Grows(w, Swept(w, ttl, now))
  {
  }

  lemma ApplyKeepsInv(w: World, ttl: nat, s: Step)
    requires Inv(w, ttl)
    ensures Inv(Apply(w, ttl, s), ttl) && Grows(w, Apply(w, ttl, s))
  {
    match s
    case Request(ask, first, second) => RequestKeepsInv(w, ttl, ask, first, second);
    case Succeed(b, now) => if CanSucceed(w, b) { DoneKeepsInv(w, ttl, b, now); }
    case Break(b) => if CanSucceed(w, b) { BrokenKeepsInv(w, ttl, b); }
    case Callback(b) => if CanCall(w, b) { ClearedKeepsInv(w, ttl, b); }
    case Wake(r) => if CanWake(w, r) { WokenKeepsInv(w, ttl, r); }
    case Sweep(now) => SweptKeepsInv(w, ttl, now);
  }

  lemma {:induction false} RunKeepsInv(w: World, ttl: nat, steps: seq<Step>)
    requires Inv(w, ttl)
    ensures Inv(Run(w, ttl, steps), ttl) && Grows(w, Run(w, ttl, steps))
    decreases |steps|
  {
    if steps != [] {
      ApplyKeepsInv(w, ttl, steps[0]);
      RunKeepsInv(Apply(w, ttl, steps[0]), ttl, steps[1..]);
    }
  }

  /**
   * In every run, under any clock, at most one build of a key and fingerprint is unfinished, and
   * every reply comes from a success of its own request.
   */
  lemma OneBuildAtATime(ttl: nat, steps: seq<Step>)
    ensures var w := Run(EMPTY, ttl, steps);
            && (forall a, b | 0 <= a < |w.builds| && 0 <= b < |w.builds| && w.builds[a].status.Running?
                              && w.builds[b].status.Running? && w.builds[a].ask == w.builds[b].ask :: a == b)
            && (forall r | r in w.replies ::
                  r.build < |w.builds| && w.builds[r.build].ask == r.ask && w.builds[r.build].status.Succeeded?)
  {
    RunKeepsInv(EMPTY, ttl, steps);
  }

  /** The build that serves a request; the next free number means a new one. */
  function Serving(w: World, ttl: nat, ask: Ask, first: int): nat {
    if Hit(w, ttl, ask, first) then w.cache[ask.key].build
    else if ask in w.inflight then w.inflight[ask]
    else |w.builds|
  }

  predicate FreshSuccess(w: World, ttl: nat, ask: Ask, now: int) {
    ask.key in w.latest && var b := w.latest[ask.key];
      b < |w.builds| && w.builds[b].ask == ask && w.builds[b].status.Succeeded? && now - w.builds[b].status.at <= ttl
  }

  predicate AllCleared(w: World, ask: Ask) {
    forall b | 0 <= b < |w.builds| :: w.builds[b].ask == ask ==> w.builds[b].cleared
  }

  /** No reading since the last success of the key has been past its age. */
  predicate JudgedFresh(w: World, ttl: nat, key: string) {
    key in w.latest && key in w.judged && w.latest[key] < |w.builds|
    && var status := w.builds[w.latest[key]].status; status.Succeeded? && w.judged[key] - status.at <= ttl
  }

  /** Exactly: an answer is cached for a request when its last success is fresh by this reading and by all since it. */
  lemma HitIsFreshSuccess(w: World, ttl: nat, ask: Ask, now: int)
    requires Inv(w, ttl)
    ensures Hit(w, ttl, ask, now) <==> FreshSuccess(w, ttl, ask, now) && JudgedFresh(w, ttl, ask.key)
  {
  }

  /**
   * Under any clock, a request starts a build exactly when no build of it is waiting for its callback and the last
   * success under its key is missing, of another body, or was too old by this reading or by one taken since it
   * succeeded.
   */
  lemma NewBuildOnlyWhenNeeded(w: World, ttl: nat, ask: Ask, first: int, second: int)
    requires Inv(w, ttl)
    ensures var n := Requested(w, ttl, ask, first, second);
            && (|n.builds| == |w.builds| + 1 || n.builds == w.builds)
            && (n.builds != w.builds <==> Serving(w, ttl, ask, first) == |w.builds|)
            && (n.builds != w.builds <==>
                  AllCleared(w, ask) && !(FreshSuccess(w, ttl, ask, first) && JudgedFresh(w, ttl, ask.key)))
  {
    HitIsFreshSuccess(w, ttl, ask, first);
    if ask in w.inflight {
      assert !w.builds[w.inflight[ask]].cleared;
    }
  }

  /** A reply or a place in the queue goes to the serving build. */
  lemma RequestIsServed(w: World, ttl: nat, ask: Ask, first: int, second: int)
    ensures var n, r := Requested(w, ttl, ask, first, second), Reply(ask, Serving(w, ttl, ask, first));
            (n.replies == w.replies + [r] && n.waiting == w.waiting) || (n.replies == w.replies && r in n.waiting)
  {
  }

  // --- a request served by an old answer while its own build runs

  /** While a build runs, no answer to the same request is cached. */
  ghost predicate RunningNotCached(w: World) {
    forall b | 0 <= b < |w.builds| && w.builds[b].status.Running? :: Uncached(w.cache, w.builds[b].ask)
  }

  /** Every running build serves the requests for it, whenever they come. */
  ghost predicate RunningServes(w: World, ttl: nat) {
    forall b, later: int | 0 <= b < |w.builds| && w.builds[b].status.Running? ::
      Serving(w, ttl, w.builds[b].ask, later) == b
  }

  /** The request starts a build, its answer being too old by the first reading, and keeps that answer by the second. */
  predicate Straddles(w: World, ttl: nat, s: Step) {
    && s.Request? && s.ask !in w.inflight && s.ask.key in w.cache && w.cache[s.ask.key].fingerprint == s.ask.fingerprint
    && s.first - w.cache[s.ask.key].at > ttl && s.second - w.cache[s.ask.key].at <= ttl
  }

  /** The second reading is not below the first. */
  predicate Paired(s: Step) {
    s.Request? ==> s.first <= s.second
  }

  lemma NotCachedIsServing(w: World, ttl: nat)
    requires Inv(w, ttl)
    ensures RunningNotCached(w) <==> RunningServes(w, ttl)
  {
    if RunningServes(w, ttl) {
      forall b | 0 <= b < |w.builds| && w.builds[b].status.Running?
        ensures Uncached(w.cache, w.builds[b].ask)
      {
        var ask := w.builds[b].ask;
        var at := if ask.key in w.cache then w.cache[ask.key].at else 0;
        assert Serving(w, ttl, ask, at) == b;
      }
    }
    if RunningNotCached(w) {
      forall b, later: int | 0 <= b < |w.builds| && w.builds[b].status.Running?
        ensures Serving(w, ttl, w.builds[b].ask, later) == b
      {
        assert Uncached(w.cache, w.builds[b].ask);
      }
    }
  }

  lemma RequestKeepsRunningNotCached(w: World, ttl: nat, ask: Ask, first: int, second: int)
    requires RunningNotCached(w)
    ensures RunningNotCached(Requested(w, ttl, ask, first, second)) <==> !Straddles(w, ttl, Request(ask, first, second))
  {
    var n := Requested(w, ttl, ask, first, second);
    if Straddles(w, ttl, Request(ask, first, second)) {
      assert n.builds[|w.builds|].status.Running? && !Uncached(n.cache, n.builds[|w.builds|].ask);
    } else {
      forall i | 0 <= i < |n.builds| && n.builds[i].status.Running?
        ensures Uncached(n.cache, n.builds[i].ask)
      {
        assert i < |w.builds| ==> w.builds[i] == n.builds[i] && Uncached(w.cache, w.builds[i].ask);
      }
    }
  }

  lemma DoneKeepsRunningNotCached(w: World, b: nat, now: int)
    requires UnclearedInflight(w.builds, w.inflight) && RunningNotCached(w) && CanSucceed(w, b)
    ensures RunningNotCached(Done(w, b, now))
  {
    var n := Done(w, b, now);
    forall i | 0 <= i < |n.builds| && n.builds[i].status.Running?
      ensures Uncached(n.cache, n.builds[i].ask)
    {
      assert i != b && w.builds[i].status.Running? && Uncached(w.cache, w.builds[i].ask);
      assert w.builds[i].ask != w.builds[b].ask;
    }
  }

  lemma FewerKeepRunningNotCached(w: World, n: World)
    requires RunningNotCached(w) && |n.builds| == |w.builds|
    requires forall k | k in n.cache :: k in w.cache && n.cache[k] == w.cache[k]
    requires forall i | 0 <= i < |n.builds| ::
               n.builds[i].ask == w.builds[i].ask && (n.builds[i].status.Running? ==> w.builds[i].status.Running?)
    ensures RunningNotCached(n)
  {
    forall i | 0 <= i < |n.builds| && n.builds[i].status.Running?
      ensures Uncached(n.cache, n.builds[i].ask)
    {
      assert Uncached(w.cache, w.builds[i].ask);
    }
  }

  /** One step: exactly a straddling request brings an old answer beside a running build. */
  lemma StepKeepsRunningNotCached(w: World, ttl: nat, s: Step)
    requires Inv(w, ttl) && RunningNotCached(w)
    ensures RunningNotCached(Apply(w, ttl, s)) <==> !Straddles(w, ttl, s)
  {
    match s
    case Request(ask, first, second) => RequestKeepsRunningNotCached(w, ttl, ask, first, second);
    case Succeed(b, now) => if CanSucceed(w, b) { DoneKeepsRunningNotCached(w, b, now); }
    case _ => FewerKeepRunningNotCached(w, Apply(w, ttl, s));
  }

  lemma {:induction false} RunOneMore(w: World, ttl: nat, steps: seq<Step>, s: Step)
    ensures Run(w, ttl, steps + [s]) == Apply(Run(w, ttl, steps), ttl, s)
    decreases |steps|
  {
    if steps == [] {
      assert [] + [s] == [s] && [s][1..] == [];
    } else {
      assert (steps + [s])[1..] == steps[1..] + [s];
      RunOneMore(Apply(w, ttl, steps[0]), ttl, steps[1..], s);
    }
  }

  /** The state after the first i steps of a run from nothing. */
  function At(ttl: nat, steps: seq<Step>, i: nat): World
    requires i <= |steps|
  {
    Run(EMPTY, ttl, steps[..i])
  }

  lemma AtNext(ttl: nat, steps: seq<Step>, i: nat)
    requires i < |steps|
    ensures At(ttl, steps, i + 1) == Apply(At(ttl, steps, i), ttl, steps[i]) && Inv(At(ttl, steps, i), ttl)
  {
    assert steps[..i + 1] == steps[..i] + [steps[i]];
    RunOneMore(EMPTY, ttl, steps[..i], steps[i]);
    RunKeepsInv(EMPTY, ttl, steps[..i]);
  }

  ghost predicate ServesUpTo(ttl: nat, steps: seq<Step>, n: nat)
    requires n <= |steps|
  {
    forall i | 0 <= i <= n :: RunningNotCached(At(ttl, steps, i))
  }

  ghost predicate NoneStraddles(ttl: nat, steps: seq<Step>, n: nat)
    requires n <= |steps|
  {
    forall i | 0 <= i < n :: !Straddles(At(ttl, steps, i), ttl, steps[i])
  }

  lemma AtKeepsRunningNotCached(ttl: nat, steps: seq<Step>, n: nat)
    requires n < |steps| && RunningNotCached(At(ttl, steps, n))
    ensures RunningNotCached(At(ttl, steps, n + 1)) <==> !Straddles(At(ttl, steps, n), ttl, steps[n])
  {
    AtNext(ttl, steps, n);
    StepKeepsRunningNotCached(At(ttl, steps, n), ttl, steps[n]);
  }

  lemma {:induction false} ServesUpToIffNoneStraddles(ttl: nat, steps: seq<Step>, n: nat)
    requires n <= |steps|
    ensures ServesUpTo(ttl, steps, n) <==> NoneStraddles(ttl, steps, n)
  {
    if n == 0 {
      assert steps[..0] == [];
      assert At(ttl, steps, 0) == EMPTY && RunningNotCached(EMPTY);
    } else {
      ServesUpToIffNoneStraddles(ttl, steps, n - 1);
      if ServesUpTo(ttl, steps, n - 1) {
        assert RunningNotCached(At(ttl, steps, n - 1));
        AtKeepsRunningNotCached(ttl, steps, n - 1);
      }
    }
  }

  /**
   * In every run from nothing: a running build serves the requests for it at every moment, by any reading, exactly when
   * no request of the run finds its answer too old by its first reading and not by its second, and so starts a build
   * beside it.
   */
  lemma RunningBuildServesIffNoneStraddles(ttl: nat, steps: seq<Step>)
    ensures (forall i | 0 <= i <= |steps| :: RunningServes(At(ttl, steps, i), ttl)) <==>
            NoneStraddles(ttl, steps, |steps|)
  {
    forall i | 0 <= i <= |steps|
      ensures RunningServes(At(ttl, steps, i), ttl) <==> RunningNotCached(At(ttl, steps, i))
    {
      RunKeepsInv(EMPTY, ttl, steps[..i]);
      NotCachedIsServing(At(ttl, steps, i), ttl);
    }
    ServesUpToIffNoneStraddles(ttl, steps, |steps|);
  }

  /** So it does in every run in which no request's two readings step back. */
  lemma PairedRunKeepsRunningNotCached(ttl: nat, steps: seq<Step>)
    requires forall s | s in steps :: Paired(s)
    ensures forall i | 0 <= i <= |steps| :: RunningNotCached(At(ttl, steps, i)) && RunningServes(At(ttl, steps, i), ttl)
  {
    forall i | 0 <= i < |steps|
      ensures !Straddles(At(ttl, steps, i), ttl, steps[i])
    {
      assert Paired(steps[i]);
    }
    ServesUpToIffNoneStraddles(ttl, steps, |steps|);
    RunningBuildServesIffNoneStraddles(ttl, steps);
  }

  /** A run in which one does: the answer of build 0 stays while build 1 runs, and serves the next request. */
  lemma SteppingBackServesAnOldAnswer(ttl: nat, ask: Ask)
    ensures var steps := [Request(ask, 0, 0)] + [Succeed(0, 0)] + [Callback(0)] + [Request(ask, ttl + 1, ttl)];
            var n := Run(EMPTY, ttl, steps);
            && |n.builds| == 2 && n.builds[1] == Build(ask, Running, false)
            && Serving(n, ttl, ask, ttl) == 0 && Serving(n, ttl, ask, ttl + 1) == 1
  {
    var s0, s1, s2, s3 := Request(ask, 0, 0), Succeed(0, 0), Callback(0), Request(ask, ttl + 1, ttl);
    var w1 := Apply(EMPTY, ttl, s0);
    assert [] + [s0] == [s0];
    RunOneMore(EMPTY, ttl, [], s0);
    RunOneMore(EMPTY, ttl, [s0], s1);
    RunOneMore(EMPTY, ttl, [s0] + [s1], s2);
    RunOneMore(EMPTY, ttl, [s0] + [s1] + [s2], s3);
    assert w1.builds == [Build(ask, Running, false)] && CanSucceed(w1, 0);
    var w2 := Apply(w1, ttl, s1);
    assert w2.builds == [Build(ask, Succeeded(0), false)] && CanCall(w2, 0);
    var w3 := Apply(w2, ttl, s2);
    assert w3.builds == [Build(ask, Succeeded(0), true)] && ask !in w3.inflight;
  }

  // --- repeated requests

  lemma ServingIsOwn(w: World, ttl: nat, ask: Ask, first: int, second: int)
    requires Inv(w, ttl)
    ensures var b, n := Serving(w, ttl, ask, first), Requested(w, ttl, ask, first, second);
            b < |n.builds| && n.builds[b].ask == ask
  {
  }

  /** Which requests a build serves. */
  lemma ServedBy(n: World, ttl: nat, ask: Ask, b: nat, later: int)
    requires Inv(n, ttl) && b < |n.builds| && n.builds[b].ask == ask
    ensures Serving(n, ttl, ask, later) == b <==>
              if FreshSuccess(n, ttl, ask, later) && JudgedFresh(n, ttl, ask.key) then n.latest[ask.key] == b
              else !n.builds[b].cleared
  {
    HitIsFreshSuccess(n, ttl, ask, later);
  }

  /**
   * Whatever happens in between, and under any clock, a repeated request is served by the build that served it before
   * exactly when that is the last success of the key, where the last success answers it: it is of this body, and fresh
   * by this reading and by every one since it succeeded; and otherwise exactly when that build still awaits its
   * callback. In particular a running build serves it exactly where no last success does.
   */
  lemma RepeatedRequestsShareABuild(w: World, ttl: nat, ask: Ask, first: int, second: int, steps: seq<Step>, later: int)
    requires Inv(w, ttl)
    ensures var b, n := Serving(w, ttl, ask, first), Run(Requested(w, ttl, ask, first, second), ttl, steps);
            var answered := FreshSuccess(n, ttl, ask, later) && JudgedFresh(n, ttl, ask.key);
            && b < |n.builds| && n.builds[b].ask == ask
            && (Serving(n, ttl, ask, later) == b <==> if answered then n.latest[ask.key] == b else !n.builds[b].cleared)
            && (n.builds[b].status.Running? ==> (Serving(n, ttl, ask, later) == b <==> !answered))
  {
    var m := Requested(w, ttl, ask, first, second);
    RequestKeepsInv(w, ttl, ask, first, second);
    RunKeepsInv(m, ttl, steps);
    ServingIsOwn(w, ttl, ask, first, second);
    ServedBy(Run(m, ttl, steps), ttl, ask, Serving(w, ttl, ask, first), later);
  }

  // --- every request is answered once, waits, or failed with its build

  /** The step is a request that gets its answer, or will, as this reply. */
  predicate AsksFor(w: World, ttl: nat, s: Step, r: Reply) {
    s.Request? && s.ask == r.ask && Serving(w, ttl, s.ask, s.first) == r.build
  }

  /** The step wakes a waiter of a build that failed. */
  predicate FailsFor(w: World, s: Step, r: Reply) {
    s == Wake(r) && CanWake(w, r) && w.builds[r.build].status.Broke?
  }

  function Asked(w: World, ttl: nat, steps: seq<Step>, r: Reply): nat
    decreases |steps|
  {
    if steps == [] then 0
    else (if AsksFor(w, ttl, steps[0], r) then 1 else 0) + Asked(Apply(w, ttl, steps[0]), ttl, steps[1..], r)
  }

  function Failures(w: World, ttl: nat, steps: seq<Step>, r: Reply): nat
    decreases |steps|
  {
    if steps == [] then 0
    else (if FailsFor(w, steps[0], r) then 1 else 0) + Failures(Apply(w, ttl, steps[0]), ttl, steps[1..], r)
  }

  /** How many requests have had, or wait for, this reply. */
  function Owed(w: World, r: Reply): nat {
    multiset(w.replies)[r] + w.waiting[r]
  }

  lemma OneMoreReply(replies: seq<Reply>, given: Reply, r: Reply)
    ensures multiset(replies + [given])[r] == multiset(replies)[r] + if given == r then 1 else 0
  {
  }

  lemma RequestAccounts(w: World, ttl: nat, ask: Ask, first: int, second: int, r: Reply)
    ensures Owed(Requested(w, ttl, ask, first, second), r)
            == Owed(w, r) + if AsksFor(w, ttl, Request(ask, first, second), r) then 1 else 0
  {
    OneMoreReply(w.replies, Reply(ask, Serving(w, ttl, ask, first)), r);
  }

  lemma WakeAccounts(w: World, x: Reply, r: Reply)
    requires CanWake(w, x)
    ensures Owed(Woken(w, x), r) + (if FailsFor(w, Wake(x), r) then 1 else 0) == Owed(w, r)
  {
    OneMoreReply(w.replies, x, r);
  }

  lemma StepAccounts(w: World, ttl: nat, s: Step, r: Reply)
    ensures Owed(Apply(w, ttl, s), r) + (if FailsFor(w, s, r) then 1 else 0)
            == Owed(w, r) + if AsksFor(w, ttl, s, r) then 1 else 0
  {
    match s
    case Request(ask, first, second) => RequestAccounts(w, ttl, ask, first, second, r);
    case Wake(x) => if CanWake(w, x) { WakeAccounts(w, x, r); }
    case _ => assert Apply(w, ttl, s).replies == w.replies && Apply(w, ttl, s).waiting == w.waiting;
  }

  lemma {:induction false} RunAccounts(w: World, ttl: nat, steps: seq<Step>, r: Reply)
    ensures Owed(Run(w, ttl, steps), r) + Failures(w, ttl, steps, r) == Owed(w, r) + Asked(w, ttl, steps, r)
    decreases |steps|
  {
    if steps != [] {
      StepAccounts(w, ttl, steps[0], r);
      RunAccounts(Apply(w, ttl, steps[0]), ttl, steps[1..], r);
    }
  }

  lemma {:induction false} NoFailureBeforeSuccess(w: World, ttl: nat, steps: seq<Step>, r: Reply)
    requires Inv(w, ttl)
    requires r.build < |Run(w, ttl, steps).builds| && Run(w, ttl, steps).builds[r.build].status.Succeeded?
    ensures Failures(w, ttl, steps, r) == 0
    decreases |steps|
  {
    if steps != [] {
      ApplyKeepsInv(w, ttl, steps[0]);
      RunKeepsInv(w, ttl, steps);
      NoFailureBeforeSuccess(Apply(w, ttl, steps[0]), ttl, steps[1..], r);
    }
  }

  /**
   * In every run from nothing, whatever the clock says: the requests served by a build that succeeded are as many as
   * the replies it has given and the requests still to be woken; each has exactly one.
   */
  lemma EveryRequestIsAnsweredOnce(ttl: nat, steps: seq<Step>, r: Reply)
    ensures var w := Run(EMPTY, ttl, steps);
            && multiset(w.replies)[r] + w.waiting[r] + Failures(EMPTY, ttl, steps, r) == Asked(EMPTY, ttl, steps, r)
            && (r.build < |w.builds| && w.builds[r.build].status.Succeeded? ==>
                  multiset(w.replies)[r] + w.waiting[r] == Asked(EMPTY, ttl, steps, r))
  {
    RunAccounts(EMPTY, ttl, steps, r);
    var w := Run(EMPTY, ttl, steps);
    if r.build < |w.builds| && w.builds[r.build].status.Succeeded? {
      NoFailureBeforeSuccess(EMPTY, ttl, steps, r);
    }
  }

  /** A waiter can be woken as soon as its build has ended, and then waits no more. */
  lemma EndedBuildsRelease(w: World, ttl: nat, r: Reply)
    requires Inv(w, ttl) && r in w.waiting && !w.builds[r.build].status.Running?
    ensures CanWake(w, r)
    ensures var n := Apply(w, ttl, Wake(r));
            && n.waiting[r] == w.waiting[r] - 1
            && multiset(n.replies)[r] == multiset(w.replies)[r] + (if w.builds[r.build].status.Succeeded? then 1 else 0)
            && n.builds == w.builds && n.cache == w.cache && n.inflight == w.inflight
  {
    assert OwnBuild(w.builds, r);
  }

  /** A failure answers nobody and caches nothing, and releases those who wait for it. */
  lemma FailureChangesOnlyItsBuild(w: World, ttl: nat, b: nat)
    requires Inv(w, ttl) && b < |w.builds| && w.builds[b].status.Running?
    ensures var n := Apply(w, ttl, Break(b));
            && n == w.(builds := w.builds[b := Build(w.builds[b].ask, Broke, false)])
            && forall r | r in w.waiting && r.build == b :: CanWake(n, r)
  {
  }

  /** Once the callback of a build that ended has run, the next request that finds no answer builds anew. */
  lemma ClearedBuildIsReplaced(w: World, ttl: nat, b: nat, first: int, second: int)
    requires Inv(w, ttl) && CanCall(w, b) && !Hit(w, ttl, w.builds[b].ask, first)
    ensures var ask := w.builds[b].ask;
            var n := Apply(Apply(w, ttl, Callback(b)), ttl, Request(ask, first, second));
            && n.builds == w.builds[b := w.builds[b].(cleared := true)] + [Build(ask, Running, false)]
            && n.waiting == w.waiting + multiset{Reply(ask, |w.builds|)} && n.replies == w.replies
  {
    var ask, v := w.builds[b].ask, Cleared(w, b);
    assert w.inflight[ask] == b && ask !in v.inflight && !Hit(v, ttl, ask, first);
  }

  /** So a failed build is retried: after it broke and its callback ran, the next request builds anew. */
  lemma FailedBuildIsRetried(w: World, ttl: nat, b: nat, first: int, second: int)
    requires Inv(w, ttl) && b < |w.builds| && w.builds[b].status.Running? && !Hit(w, ttl, w.builds[b].ask, first)
    ensures var ask := w.builds[b].ask;
            var n := Run(w, ttl, [Break(b)] + [Callback(b)] + [Request(ask, first, second)]);
            && n.builds == w.builds[b := Build(ask, Broke, true)] + [Build(ask, Running, false)]
            && n.waiting == w.waiting + multiset{Reply(ask, |w.builds|)} && n.replies == w.replies
  {
    var ask, v := w.builds[b].ask, Apply(w, ttl, Break(b));
    assert [] + [Break(b)] == [Break(b)];
    RunOneMore(w, ttl, [], Break(b));
    RunOneMore(w, ttl, [Break(b)], Callback(b));
    RunOneMore(w, ttl, [Break(b)] + [Callback(b)], Request(ask, first, second));
    FailureChangesOnlyItsBuild(w, ttl, b);
    ApplyKeepsInv(w, ttl, Break(b));
    ClearedBuildIsReplaced(v, ttl, b, first, second);
    assert v.builds[b := Build(ask, Broke, true)] == w.builds[b := Build(ask, Broke, true)];
  }
}

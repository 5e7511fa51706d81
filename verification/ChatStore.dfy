/** The retained chat store: appends, renames, deletions and the garbage-collecting sweep, one transaction a step. */
module ChatStore {
  import opened Basics
  import opened Order
  import opened Text

  const INBOX := "inbox"

  /** Stamps are the ISO texts the store writes; they are compared as text. */
  datatype Event = Event(kind: string, payload: string, sizeBytes: nat, createdAt: string)

  /** A row of the chats table with its rows of the events table; deleting the row deletes its events. */
  datatype Chat = Chat(latest: int, floor: int, events: map<int, Event>, updatedAt: string, deletedAt: Option<string>)

  type Chats = map<string, Chat>

  datatype Config = Config(maxChats: nat, maxEventsPerChat: nat, maxEventBytes: nat, maxBytes: nat)

  datatype Error = InvalidChatId | InvalidKind | InvalidTitle | EventTooLarge(sizeBytes: nat, maxBytes: nat)

  // --- one chat

  /** Every number above the floor is retained, and nothing beyond the latest number exists. */
  ghost predicate Retained(c: Chat) {
    && 0 <= c.floor <= c.latest
    && (forall n | n in c.events :: 1 <= n <= c.latest)
    && (forall n | c.floor < n <= c.latest :: n in c.events)
  }

  /** What any later state of the same chat keeps: bounds only rise, and a number once given never changes its event. */
  ghost predicate Extends(a: Chat, b: Chat) {
    && a.latest <= b.latest && a.floor <= b.floor
    && forall n | n in b.events && n <= a.latest :: n in a.events && a.events[n] == b.events[n]
  }

  function FreshChat(iso: string): Chat {
    Chat(0, 0, map[], iso, None)
  }

  function Appended(c: Chat, e: Event): Chat {
    c.(latest := c.latest + 1, events := c.events[c.latest + 1 := e], updatedAt := e.createdAt)
  }

  function Marked(c: Chat, iso: string): Chat {
    c.(deletedAt := Some(iso), updatedAt := iso)
  }

  predicate IsMax(s: set<int>, m: int) {
    m in s && forall x | x in s :: x <= m
  }

  lemma {:induction false} MaxExists(s: set<int>)
    requires s != {}
    ensures exists m :: IsMax(s, m)
  {
    var m := Member(s);
    if s == {m} {
      assert IsMax(s, m);
    } else {
      MaxExists(s - {m});
      var k :| IsMax(s - {m}, k);
      var top := if m >= k then m else k;
      assert forall x | x in s :: x == m || x in s - {m};
      assert IsMax(s, top);
    }
  }

  function MaxOf(s: set<int>): (m: int)
    requires s != {}
    ensures IsMax(s, m)
  {
    MaxExists(s);
    var m :| m in s && IsMax(s, m);
    m
  }

  /** SELECT seq ... ORDER BY seq DESC LIMIT 1 OFFSET k. */
  function NthNewest(numbers: set<int>, k: nat): Option<int> {
    if numbers == {} then None
    else if k == 0 then Some(MaxOf(numbers))
    else NthNewest(numbers - {MaxOf(numbers)}, k - 1)
  }

  /** The row at offset k has exactly k rows above it. */
  lemma {:induction false} NthNewestRank(numbers: set<int>, k: nat)
    ensures NthNewest(numbers, k).Some? <==> |numbers| > k
    ensures var r := NthNewest(numbers, k);
            r.Some? ==> r.value in numbers && |set n | n in numbers && n >= r.value| == k + 1
    decreases k
  {
    if numbers != {} {
      var m := MaxOf(numbers);
      if k == 0 {
        assert (set n | n in numbers && n >= m) == {m};
      } else {
        NthNewestRank(numbers - {m}, k - 1);
        var r := NthNewest(numbers, k);
        if r.Some? {
          assert (set n | n in numbers && n >= r.value) == (set n | n in numbers - {m} && n >= r.value) + {m};
        }
      }
    }
  }

  /** The ttl pass over one chat: rows older than the cutoff go, whatever their order, and the floor covers them. */
  function Aged(c: Chat, cutoff: string): Chat {
    var stale := set n | n in c.events && TextLess(c.events[n].createdAt, cutoff);
    if stale == {} then c else c.(events := c.events - stale, floor := Max(c.floor, MaxOf(stale)))
  }

  /** The per-chat cap: only the newest rows stay. A cap of zero behaves as one, as a negative OFFSET does. */
  function Capped(c: Chat, maxEvents: nat): Chat {
    match NthNewest(c.events.Keys, if maxEvents == 0 then 0 else maxEvents - 1)
    case None => c
    case Some(n) => c.(events := map k | k in c.events && k > n - 1 :: c.events[k], floor := Max(c.floor, n - 1))
  }

  function EventsSwept(c: Chat, cutoff: string, maxEvents: nat): Chat {
    Capped(Aged(c, cutoff), maxEvents)
  }

  /** Garbage collection replaces every event of the chat by one numbered tombstone. */
  function TombstoneEvent(id: string, iso: string): Event {
    Event("chat.deleted", id, |id|, iso)
  }

  function Tombstoned(c: Chat, id: string, iso: string): Chat {
    Chat(c.latest + 1, c.latest, map[c.latest + 1 := TombstoneEvent(id, iso)], iso, Some(iso))
  }

  lemma AppendedKeeps(c: Chat, e: Event)
    requires Retained(c)
    ensures Retained(Appended(c, e)) && Extends(c, Appended(c, e))
  {
  }

  lemma AgedKeeps(c: Chat, cutoff: string)
    requires Retained(c)
    ensures Retained(Aged(c, cutoff)) && Extends(c, Aged(c, cutoff))
  {
  }

  /** The cap leaves exactly the newest rows, as many as the cap allows. */
  lemma CappedKeeps(c: Chat, maxEvents: nat)
    requires Retained(c)
    ensures Retained(Capped(c, maxEvents)) && Extends(c, Capped(c, maxEvents))
    ensures |Capped(c, maxEvents).events| == Min(|c.events|, Max(1, maxEvents))
    ensures forall n, m | n in Capped(c, maxEvents).events && m in c.events && m > n :: m in Capped(c, maxEvents).events
  {
    var k := if maxEvents == 0 then 0 else maxEvents - 1;
    NthNewestRank(c.events.Keys, k);
    var r := NthNewest(c.events.Keys, k);
    assert |c.events.Keys| == |c.events|;
    if r.Some? {
      var kept := Capped(c, maxEvents).events;
      assert kept.Keys == set n | n in c.events.Keys && n >= r.value;
      assert |kept| == |kept.Keys|;
    }
  }

  lemma TombstonedKeeps(c: Chat, id: string, iso: string)
    requires Retained(c)
    ensures Retained(Tombstoned(c, id, iso)) && Extends(c, Tombstoned(c, id, iso))
  {
  }

  /** The age pass removes exactly the rows before the cutoff, and the floor rises to the greatest of them. */
  lemma AgedExactly(c: Chat, cutoff: string)
    ensures var d := Aged(c, cutoff);
            && d.latest == c.latest && d.updatedAt == c.updatedAt && d.deletedAt == c.deletedAt
            && (forall n :: n in d.events <==> n in c.events && !TextLess(c.events[n].createdAt, cutoff))
            && (forall n | n in d.events :: d.events[n] == c.events[n])
            && (forall n | n in c.events && n !in d.events :: n <= d.floor)
            && (d.floor == c.floor || (d.floor in c.events && d.floor !in d.events))
  {
    var stale := set n | n in c.events && TextLess(c.events[n].createdAt, cutoff);
    assert forall n | n in c.events && TextLess(c.events[n].createdAt, cutoff) :: n in stale;
    if stale != {} {
      assert IsMax(stale, MaxOf(stale));
    }
  }

  /** The cap moves the floor only to a row it removed. */
  lemma CappedFloor(c: Chat, maxEvents: nat)
    requires Retained(c)
    ensures var d := Capped(c, maxEvents); d.floor == c.floor || (d.floor in c.events && d.floor !in d.events)
  {
    NthNewestRank(c.events.Keys, if maxEvents == 0 then 0 else maxEvents - 1);
  }

  lemma ExtendsTransitive(a: Chat, b: Chat, c: Chat)
    requires Extends(a, b) && Extends(b, c)
    ensures Extends(a, c)
  {
  }

  lemma EventsSweptKeeps(c: Chat, cutoff: string, maxEvents: nat)
    requires Retained(c)
    ensures Retained(EventsSwept(c, cutoff, maxEvents)) && Extends(c, EventsSwept(c, cutoff, maxEvents))
  {
    AgedKeeps(c, cutoff);
    CappedKeeps(Aged(c, cutoff), maxEvents);
    ExtendsTransitive(c, Aged(c, cutoff), EventsSwept(c, cutoff, maxEvents));
  }

  // --- replay

  datatype Numbered = Numbered(seqNo: int, event: Event)

  /** The rows numbered lo+1 .. hi, in ascending order. */
  function Scan(events: map<int, Event>, lo: int, hi: int): seq<Numbered>
    decreases hi - lo
  {
    if lo >= hi then []
    else (if lo + 1 in events then [Numbered(lo + 1, events[lo + 1])] else []) + Scan(events, lo + 1, hi)
  }

  function Take<T>(s: seq<T>, limit: Option<nat>): seq<T> {
    if limit.Some? && limit.value < |s| then s[..limit.value] else s
  }

  /** Replay of one chat row. A cursor below the floor is refused; the query itself never looks below 0. */
  function Replay(c: Chat, after: int, limit: Option<nat>): Result<seq<Numbered>, ResumeExpired> {
    if after < c.floor then Err(ResumeExpired(c.floor, c.latest))
    else Ok(Take(Scan(c.events, Max(0, after), c.latest), limit))
  }

  /** `Scan` is the query: ascending, and exactly the rows numbered above lo. */
  lemma {:induction false} ScanIsQuery(c: Chat, lo: int)
    requires Retained(c)
    ensures forall r :: r in Scan(c.events, lo, c.latest) <==>
              r.seqNo > lo && r.seqNo in c.events && r.event == c.events[r.seqNo]
    ensures forall i, j | 0 <= i < j < |Scan(c.events, lo, c.latest)| ::
              Scan(c.events, lo, c.latest)[i].seqNo < Scan(c.events, lo, c.latest)[j].seqNo
    decreases c.latest - lo
  {
    if lo < c.latest {
      ScanIsQuery(c, lo + 1);
      var rest := Scan(c.events, lo + 1, c.latest);
      assert forall i | 0 <= i < |rest| :: rest[i] in rest;
    }
  }

  lemma {:induction false} ScanConsecutive(c: Chat, lo: int)
    requires Retained(c) && c.floor <= lo
    ensures var s := Scan(c.events, lo, c.latest);
            && |s| == Max(0, c.latest - lo)
            && forall i | 0 <= i < |s| :: lo + 1 + i in c.events && s[i] == Numbered(lo + 1 + i, c.events[lo + 1 + i])
    decreases c.latest - lo
  {
    if lo < c.latest {
      ScanConsecutive(c, lo + 1);
      var s := Scan(c.events, lo, c.latest);
      assert s == [Numbered(lo + 1, c.events[lo + 1])] + Scan(c.events, lo + 1, c.latest);
    }
  }

  /** From any cursor at or above the floor, replay returns exactly the consecutive events up to the latest. */
  lemma ReplayIsConsecutive(c: Chat, after: int)
    requires Retained(c)
    ensures Replay(c, after, None).Ok? <==> after >= c.floor
    ensures var r := Replay(c, after, None);
            r.Ok? ==>
              && |r.value| == Max(0, c.latest - after)
              && forall i | 0 <= i < |r.value| ::
                   after + 1 + i in c.events && r.value[i] == Numbered(after + 1 + i, c.events[after + 1 + i])
  {
    if after >= c.floor {
      ScanConsecutive(c, after);
    }
  }

  /** Whoever has read everything receives an appended event next. */
  lemma AppendedIsNext(c: Chat, e: Event)
    requires Retained(c)
    ensures Replay(Appended(c, e), c.latest, None) == Ok([Numbered(c.latest + 1, e)])
  {
    AppendedKeeps(c, e);
    ReplyIsOne(Appended(c, e), c.latest);
  }

  /** And from a collected chat nothing but the tombstone. An older cursor is told that it expired. */
  lemma TombstoneIsNext(c: Chat, id: string, iso: string)
    requires Retained(c)
    ensures var d := Tombstoned(c, id, iso);
            && Replay(d, c.latest, None) == Ok([Numbered(c.latest + 1, TombstoneEvent(id, iso))])
            && forall after | after < c.latest :: Replay(d, after, None) == Err(ResumeExpired(c.latest, c.latest + 1))
  {
    TombstonedKeeps(c, id, iso);
    ReplyIsOne(Tombstoned(c, id, iso), c.latest);
  }

  lemma ReplyIsOne(c: Chat, after: int)
    requires Retained(c) && c.floor <= after && c.latest == after + 1
    ensures after + 1 in c.events && Replay(c, after, None) == Ok([Numbered(after + 1, c.events[after + 1])])
  {
    ReplayIsConsecutive(c, after);
    var rows := Replay(c, after, None).value;
    assert rows == [rows[0]];
  }

  // --- the whole table

  ghost predicate AllRetained(chats: Chats) {
    forall id | id in chats :: Retained(chats[id])
  }

  function AppendTo(chats: Chats, id: string, e: Event): Chats {
    chats[id := Appended(if id in chats then chats[id] else FreshChat(e.createdAt), e)]
  }

  function MarkIn(chats: Chats, id: string, iso: string): Chats {
    chats[id := Marked(if id in chats then chats[id] else FreshChat(iso), iso)]
  }

  function AllEventsSwept(chats: Chats, cutoff: string, maxEvents: nat): Chats {
    map id | id in chats :: EventsSwept(chats[id], cutoff, maxEvents)
  }

  predicate LongDeleted(c: Chat, cutoff: string) {
    c.deletedAt.Some? && TextLess(c.deletedAt.value, cutoff)
  }

  function Purged(chats: Chats, cutoff: string): Chats {
    map id | id in chats && !LongDeleted(chats[id], cutoff) :: chats[id]
  }

  /** The chats a sweep may tombstone: live and not the inbox. */
  predicate Collectable(chats: Chats, id: string) {
    id in chats && chats[id].deletedAt.None? && id != INBOX
  }

  function LiveKeys(chats: Chats): set<Key> {
    set id | id in chats && Collectable(chats, id) :: Key(chats[id].updatedAt, id)
  }

  /** ORDER BY updated_at DESC, chat_id DESC LIMIT n. */
  function Newest(keys: set<Key>, n: nat): set<Key> {
    var s := Ascending(keys);
    if |s| <= n then keys else KeySet(s[|s| - n..])
  }

  function CapVictims(chats: Chats, active: set<string>, maxChats: nat): set<string> {
    set k | k in LiveKeys(chats) && k !in Newest(LiveKeys(chats), maxChats) && k.id !in active :: k.id
  }

  function TombstoneAll(chats: Chats, ids: set<string>, iso: string): Chats {
    map id | id in chats :: if id in ids then Tombstoned(chats[id], id, iso) else chats[id]
  }

  function Untailed(keys: seq<Key>, active: set<string>): seq<string> {
    if keys == [] then []
    else (if keys[0].id in active then [] else [keys[0].id]) + Untailed(keys[1..], active)
  }

  function IdSet(s: seq<string>): set<string> {
    set x | x in s
  }

  /** How many of `order`, oldest first, the byte pass has to tombstone: the fewest that meet the budget, or all. */
  function Needed(live: Chats -> nat, budget: nat, chats: Chats, order: seq<string>, iso: string, k: nat): (n: nat)
    requires k <= |order|
    ensures k <= n <= |order|
    decreases |order| - k
  {
    if k == |order| || live(TombstoneAll(chats, IdSet(order[..k]), iso)) <= budget then k
    else Needed(live, budget, chats, order, iso, k + 1)
  }

  function BytePass(live: Chats -> nat, budget: nat, chats: Chats, active: set<string>, iso: string): Chats {
    var order := Untailed(Ascending(LiveKeys(chats)), active);
    TombstoneAll(chats, IdSet(order[..Needed(live, budget, chats, order, iso, 0)]), iso)
  }

  lemma {:induction false} NeededIsLeast(live: Chats -> nat, budget: nat, chats: Chats, order: seq<string>,
                                         iso: string, k: nat)
    requires k <= |order|
    ensures var n := Needed(live, budget, chats, order, iso, k);
            && (n < |order| ==> live(TombstoneAll(chats, IdSet(order[..n]), iso)) <= budget)
            && forall j | k <= j < n :: live(TombstoneAll(chats, IdSet(order[..j]), iso)) > budget
    decreases |order| - k
  {
    if k == |order| || live(TombstoneAll(chats, IdSet(order[..k]), iso)) <= budget {
    } else {
      NeededIsLeast(live, budget, chats, order, iso, k + 1);
    }
  }

  /** The clock readings one sweep derives its cutoffs from. Nothing is assumed about how they are ordered. */
  datatype Clock = Clock(now: string, eventCutoff: string, deletedCutoff: string)

  function Rowed(cfg: Config, chats: Chats, clock: Clock): Chats {
    Purged(AllEventsSwept(chats, clock.eventCutoff, cfg.maxEventsPerChat), clock.deletedCutoff)
  }

  function CapPass(cfg: Config, chats: Chats, active: set<string>, iso: string): Chats {
    TombstoneAll(chats, CapVictims(chats, active, cfg.maxChats), iso)
  }

  function Swept(cfg: Config, live: Chats -> nat, chats: Chats, active: set<string>, clock: Clock): Chats {
    BytePass(live, cfg.maxBytes, CapPass(cfg, Rowed(cfg, chats, clock), active, clock.now), active, clock.now)
  }

  // --- whole runs

  /** One transaction. Deleting a chat is a mark followed, in its own transaction, by the append of its event. */
  datatype Op =
    | Append(id: string, event: Event)
    | Mark(id: string, iso: string)
    | Sweep(active: set<string>, clock: Clock)

  function Step(cfg: Config, live: Chats -> nat, chats: Chats, op: Op): Chats {
    match op
    case Append(id, e) => AppendTo(chats, id, e)
    case Mark(id, iso) => MarkIn(chats, id, iso)
    case Sweep(active, clock) => Swept(cfg, live, chats, active, clock)
  }

  function Run(cfg: Config, live: Chats -> nat, chats: Chats, ops: seq<Op>): Chats
    decreases |ops|
  {
    if ops == [] then chats else Run(cfg, live, Step(cfg, live, chats, ops[0]), ops[1..])
  }

  /** The row of the chat is never purged during the run: one lifetime of its numbering. */
  ghost predicate Survives(cfg: Config, live: Chats -> nat, chats: Chats, ops: seq<Op>, id: string)
    decreases |ops|
  {
    id in chats && (ops != [] ==> Survives(cfg, live, Step(cfg, live, chats, ops[0]), ops[1..], id))
  }

  ghost predicate Evolves(a: Chats, b: Chats) {
    forall id | id in a && id in b :: Extends(a[id], b[id])
  }

  lemma TombstoneAllKeeps(chats: Chats, ids: set<string>, iso: string)
    requires AllRetained(chats)
    ensures AllRetained(TombstoneAll(chats, ids, iso)) && Evolves(chats, TombstoneAll(chats, ids, iso))
  {
    forall id | id in chats
      ensures Retained(TombstoneAll(chats, ids, iso)[id]) && Extends(chats[id], TombstoneAll(chats, ids, iso)[id])
    {
      TombstonedKeeps(chats[id], id, iso);
    }
  }

  lemma RowedKeeps(cfg: Config, chats: Chats, clock: Clock)
    requires AllRetained(chats)
    ensures AllRetained(Rowed(cfg, chats, clock)) && Evolves(chats, Rowed(cfg, chats, clock))
  {
    forall id | id in chats
      ensures Retained(EventsSwept(chats[id], clock.eventCutoff, cfg.maxEventsPerChat))
      ensures Extends(chats[id], EventsSwept(chats[id], clock.eventCutoff, cfg.maxEventsPerChat))
    {
      EventsSweptKeeps(chats[id], clock.eventCutoff, cfg.maxEventsPerChat);
    }
  }

  lemma SweptKeeps(cfg: Config, live: Chats -> nat, chats: Chats, active: set<string>, clock: Clock)
    requires AllRetained(chats)
    ensures AllRetained(Swept(cfg, live, chats, active, clock))
            && Evolves(chats, Swept(cfg, live, chats, active, clock))
  {
    var a := Rowed(cfg, chats, clock);
    var b := CapPass(cfg, a, active, clock.now);
    var c := Swept(cfg, live, chats, active, clock);
    RowedKeeps(cfg, chats, clock);
    TombstoneAllKeeps(a, CapVictims(a, active, cfg.maxChats), clock.now);
    var order := Untailed(Ascending(LiveKeys(b)), active);
    TombstoneAllKeeps(b, IdSet(order[..Needed(live, cfg.maxBytes, b, order, clock.now, 0)]), clock.now);
    forall id | id in chats && id in c
      ensures Extends(chats[id], c[id])
    {
      ExtendsTransitive(chats[id], a[id], b[id]);
      ExtendsTransitive(chats[id], b[id], c[id]);
    }
  }

  lemma StepKeeps(cfg: Config, live: Chats -> nat, chats: Chats, op: Op)
    requires AllRetained(chats)
    ensures AllRetained(Step(cfg, live, chats, op)) && Evolves(chats, Step(cfg, live, chats, op))
  {
    match op
    case Append(id, e) => AppendedKeeps(if id in chats then chats[id] else FreshChat(e.createdAt), e);
    case Mark(id, iso) =>
    case Sweep(active, clock) => SweptKeeps(cfg, live, chats, active, clock);
  }

  /**
   * After any run, under any clock: every number above a chat's floor is still retained, and over one lifetime of a
   * chat its bounds never decrease and no number is ever given to a second event.
   */
  lemma {:induction false} RunKeeps(cfg: Config, live: Chats -> nat, chats: Chats, ops: seq<Op>)
    requires AllRetained(chats)
    ensures AllRetained(Run(cfg, live, chats, ops))
    ensures forall id | Survives(cfg, live, chats, ops, id) ::
              id in chats && id in Run(cfg, live, chats, ops) && Extends(chats[id], Run(cfg, live, chats, ops)[id])
    decreases |ops|
  {
    if ops != [] {
      var next := Step(cfg, live, chats, ops[0]);
      StepKeeps(cfg, live, chats, ops[0]);
      RunKeeps(cfg, live, next, ops[1..]);
      forall id | Survives(cfg, live, chats, ops, id)
        ensures id in chats && id in Run(cfg, live, chats, ops) && Extends(chats[id], Run(cfg, live, chats, ops)[id])
      {
        assert Survives(cfg, live, next, ops[1..], id);
        ExtendsTransitive(chats[id], next[id], Run(cfg, live, chats, ops)[id]);
      }
    }
  }

  /** Only a purge ends a lifetime: a step that loses a chat is a sweep, and the chat was deleted before its cutoff. */
  lemma OnlyPurgeRemoves(cfg: Config, live: Chats -> nat, chats: Chats, op: Op, id: string)
    requires id in chats
    ensures id !in Step(cfg, live, chats, op) <==> op.Sweep? && LongDeleted(chats[id], op.clock.deletedCutoff)
  {
  }

  // --- what a sweep collects

  /** The keys kept are as many as allowed and all greater, by (updated_at, chat_id), than those passed over. */
  lemma NewestAreGreatest(keys: set<Key>, n: nat)
    ensures Newest(keys, n) <= keys && |Newest(keys, n)| == Min(n, |keys|)
    ensures forall a, b | a in Newest(keys, n) && b in keys && b !in Newest(keys, n) :: KeyLess(b, a)
  {
    AscendingSorts(keys);
    var s := Ascending(keys);
    if |s| > n {
      var cut := |s| - n;
      DistinctKeySet(s[cut..]);
      forall a, b | a in Newest(keys, n) && b in keys && b !in Newest(keys, n)
        ensures KeyLess(b, a)
      {
        SortedSplit(s, cut, b, a);
      }
      forall k | k in s[cut..]
        ensures k in keys
      {
        assert k in s;
      }
    }
  }

  lemma SortedSplit(s: seq<Key>, cut: nat, b: Key, a: Key)
    requires Sorted(s) && cut <= |s| && b in s && b !in s[cut..] && a in s[cut..]
    ensures KeyLess(b, a)
  {
    assert s == s[..cut] + s[cut..];
    var i :| 0 <= i < cut && s[..cut][i] == b;
    var j :| 0 <= j < |s| - cut && s[cut..][j] == a;
    assert s[i] == b && s[cut + j] == a;
  }

  lemma VictimKeys(chats: Chats, active: set<string>, maxChats: nat, k: Key)
    requires k in LiveKeys(chats)
    ensures k.id in CapVictims(chats, active, maxChats) <==> k !in Newest(LiveKeys(chats), maxChats) && k.id !in active
  {
    if k.id in CapVictims(chats, active, maxChats) {
      var v :| v in LiveKeys(chats) && v.id == k.id && v !in Newest(LiveKeys(chats), maxChats) && v.id !in active;
      assert v == k;
    }
  }

  lemma {:induction false} DistinctKeySet(s: seq<Key>)
    requires Sorted(s)
    ensures |KeySet(s)| == |s|
  {
    if s != [] {
      DistinctKeySet(s[1..]);
      if s[0] in s[1..] {
        KeyTrichotomy(s[0], s[0]);
      }
      assert KeySet(s) == {s[0]} + KeySet(s[1..]);
    }
  }

  lemma TombstoneAllLive(chats: Chats, ids: set<string>, iso: string)
    ensures LiveKeys(TombstoneAll(chats, ids, iso)) == set k | k in LiveKeys(chats) && k.id !in ids
  {
    var after := TombstoneAll(chats, ids, iso);
    forall k
      ensures k in LiveKeys(after) <==> k in LiveKeys(chats) && k.id !in ids
    {
      if k in LiveKeys(chats) && k.id !in ids {
        assert Collectable(after, k.id) && after[k.id] == chats[k.id];
      }
      if k in LiveKeys(after) {
        assert Collectable(chats, k.id) && after[k.id] == chats[k.id];
      }
    }
  }

  /**
   * After the chat-cap pass the live chats other than the inbox are exactly the max_chats greatest, together with those
   * an active tailer is reading.
   */
  lemma CapPassKeepsGreatestAndTailed(cfg: Config, chats: Chats, active: set<string>, iso: string)
    ensures LiveKeys(CapPass(cfg, chats, active, iso))
            == Newest(LiveKeys(chats), cfg.maxChats) + set k | k in LiveKeys(chats) && k.id in active
  {
    TombstoneAllLive(chats, CapVictims(chats, active, cfg.maxChats), iso);
    NewestAreGreatest(LiveKeys(chats), cfg.maxChats);
    forall k | k in LiveKeys(chats)
      ensures k.id in CapVictims(chats, active, cfg.maxChats) <==>
                k !in Newest(LiveKeys(chats), cfg.maxChats) && k.id !in active
    {
      VictimKeys(chats, active, cfg.maxChats, k);
    }
  }

  lemma {:induction false} UntailedElements(keys: seq<Key>, active: set<string>, id: string)
    ensures id in Untailed(keys, active) <==> id !in active && exists k :: k in keys && k.id == id
  {
    if keys != [] {
      UntailedElements(keys[1..], active, id);
      assert forall k :: k in keys <==> k == keys[0] || k in keys[1..];
    }
  }

  /**
   * The byte pass tombstones the shortest oldest-first prefix of the live untailed chats that meets the budget, or all
   * of them; so it touches neither the inbox nor a tailed chat, and nothing at all when the budget is already met.
   */
  lemma BytePassIsShortest(live: Chats -> nat, budget: nat, chats: Chats, active: set<string>, iso: string)
    returns (order: seq<string>, n: nat)
    ensures order == Untailed(Ascending(LiveKeys(chats)), active) && n <= |order|
    ensures BytePass(live, budget, chats, active, iso) == TombstoneAll(chats, IdSet(order[..n]), iso)
    ensures n < |order| ==> live(BytePass(live, budget, chats, active, iso)) <= budget
    ensures forall j | 0 <= j < n :: live(TombstoneAll(chats, IdSet(order[..j]), iso)) > budget
    ensures live(chats) <= budget ==> BytePass(live, budget, chats, active, iso) == chats
    ensures forall id | id in chats && (id in active || !Collectable(chats, id)) ::
              BytePass(live, budget, chats, active, iso)[id] == chats[id]
  {
    order := Untailed(Ascending(LiveKeys(chats)), active);
    n := Needed(live, budget, chats, order, iso, 0);
    NeededIsLeast(live, budget, chats, order, iso, 0);
    assert TombstoneAll(chats, IdSet(order[..0]), iso) == chats;
    AscendingSorts(LiveKeys(chats));
    forall id | id in chats && (id in active || !Collectable(chats, id))
      ensures id !in IdSet(order[..n])
    {
      UntailedElements(Ascending(LiveKeys(chats)), active, id);
    }
  }

  /** After collecting the first j of the order the database is still over its budget. */
  ghost predicate StillOver(live: Chats -> nat, budget: nat, chats: Chats, order: seq<string>, iso: string, j: int) {
    0 <= j <= |order| && live(TombstoneAll(chats, IdSet(order[..j]), iso)) > budget
  }

  ghost predicate OverUpTo(live: Chats -> nat, budget: nat, chats: Chats, order: seq<string>, iso: string, k: int) {
    forall j | 0 <= j <= k :: StillOver(live, budget, chats, order, iso, j)
  }

  lemma OverOneMore(live: Chats -> nat, budget: nat, chats: Chats, order: seq<string>, iso: string, k: int)
    requires OverUpTo(live, budget, chats, order, iso, k - 1) && StillOver(live, budget, chats, order, iso, k)
    ensures OverUpTo(live, budget, chats, order, iso, k)
  {
  }

  lemma NeededUnique(live: Chats -> nat, budget: nat, chats: Chats, order: seq<string>, iso: string, n: nat)
    requires n <= |order|
    requires n == |order| || !StillOver(live, budget, chats, order, iso, n)
    requires OverUpTo(live, budget, chats, order, iso, n - 1)
    ensures Needed(live, budget, chats, order, iso, 0) == n
  {
    NeededIsLeast(live, budget, chats, order, iso, 0);
    var m := Needed(live, budget, chats, order, iso, 0);
    assert m < n ==> StillOver(live, budget, chats, order, iso, m);
  }

  /**
   * The early break of the cap loop is sound: once no more than max_chats live chats remain after collecting some
   * victims, there is no victim left.
   */
  lemma EarlyBreakIsSound(chats: Chats, active: set<string>, maxChats: nat, done: set<string>, iso: string)
    requires done <= CapVictims(chats, active, maxChats) && done != {}
    requires |LiveKeys(TombstoneAll(chats, done, iso))| <= maxChats
    ensures done == CapVictims(chats, active, maxChats)
  {
    var keys := LiveKeys(chats);
    var kept := Newest(keys, maxChats);
    var remaining := LiveKeys(TombstoneAll(chats, done, iso));
    NewestAreGreatest(keys, maxChats);
    TombstoneAllLive(chats, done, iso);
    assert kept <= remaining by {
      forall k | k in kept
        ensures k.id !in done
      {
        VictimKeys(chats, active, maxChats, k);
      }
    }
    var d := Member(done);
    var v :| v in keys && v !in kept && v.id == d;
    assert |kept| == maxChats by {
      if |keys| <= maxChats {
        SubsetEqual(kept, keys);
        assert false;
      }
    }
    SubsetEqual(kept, remaining);
    forall id | id in CapVictims(chats, active, maxChats)
      ensures id in done
    {
      var w :| w in keys && w !in kept && w.id == id;
      assert w !in remaining;
    }
  }

  lemma {:induction false} SubsetEqual<T>(a: set<T>, b: set<T>)
    requires a <= b && |b| <= |a|
    ensures a == b
  {
    if a != {} {
      var x :| x in a;
      SubsetEqual(a - {x}, b - {x});
    } else {
      assert |b| == 0;
    }
  }

  // --- the store

  class ChatStateStore {
    const config: Config
    const kindOk: string -> bool      // the event-kind syntax
    const liveBytes: Chats -> nat     // the size the database reports for its tables
    var chats: Chats

    ghost predicate Valid()
      reads this
    {
      AllRetained(chats)
    }

    constructor (config: Config, kindOk: string -> bool, liveBytes: Chats -> nat)
      ensures Valid() && chats == map[] && this.config == config && this.kindOk == kindOk && this.liveBytes == liveBytes
    {
      this.config := config;
      this.kindOk := kindOk;
      this.liveBytes := liveBytes;
      chats := map[];
    }

    /** The insert of a numbered row and the update of its chat, in one transaction. */
    method Insert(id: string, e: Event) returns (seqNo: int)
      requires Valid()
      modifies this`chats
      ensures Valid() && chats == AppendTo(old(chats), id, e) && seqNo == chats[id].latest
      ensures chats[id].events[seqNo] == e
    {
      StepKeeps(config, liveBytes, chats, Append(id, e));
      var row := if id in chats then chats[id] else FreshChat(e.createdAt);
      seqNo := row.latest + 1;
      row := row.(events := row.events[seqNo := e]);
      chats := chats[id := row.(latest := seqNo, updatedAt := e.createdAt)];
    }

    method AppendEvent(chatId: string, kind: string, payload: string, size: nat, iso: string)
      returns (r: Result<int, Error>)
      requires Valid()
      modifies this`chats
      ensures Valid()
      ensures r == if CleanId(chatId) == "" then Err(InvalidChatId)
                   else if !kindOk(kind) then Err(InvalidKind)
                   else if size > config.maxEventBytes then Err(EventTooLarge(size, config.maxEventBytes))
                   else Ok(if CleanId(chatId) in old(chats) then old(chats)[CleanId(chatId)].latest + 1 else 1)
      ensures chats == if r.Ok? then AppendTo(old(chats), CleanId(chatId), Event(kind, payload, size, iso))
                       else old(chats)
    {
      var id := CleanId(chatId);
      if id == "" {
        return Err(InvalidChatId);
      }
      if !kindOk(kind) {
        return Err(InvalidKind);
      }
      if size > config.maxEventBytes {
        return Err(EventTooLarge(size, config.maxEventBytes));
      }
      var seqNo := Insert(id, Event(kind, payload, size, iso));
      return Ok(seqNo);
    }

    /** A rename is an append of kind chat.renamed that needs a non-blank title and no kind check. */
    method RenameChat(chatId: string, title: string, payload: string, size: nat, iso: string)
      returns (r: Result<int, Error>)
      requires Valid()
      modifies this`chats
      ensures Valid()
      ensures r == if CleanId(chatId) == "" then Err(InvalidChatId)
                   else if Strip(title) == "" then Err(InvalidTitle)
                   else if size > config.maxEventBytes then Err(EventTooLarge(size, config.maxEventBytes))
                   else Ok(if CleanId(chatId) in old(chats) then old(chats)[CleanId(chatId)].latest + 1 else 1)
      ensures chats == if r.Ok? then AppendTo(old(chats), CleanId(chatId), Event("chat.renamed", payload, size, iso))
                       else old(chats)
    {
      var id := CleanId(chatId);
      if id == "" {
        return Err(InvalidChatId);
      }
      if Strip(title) == "" {
        return Err(InvalidTitle);
      }
      if size > config.maxEventBytes {
        return Err(EventTooLarge(size, config.maxEventBytes));
      }
      var seqNo := Insert(id, Event("chat.renamed", payload, size, iso));
      return Ok(seqNo);
    }

    /** The mark is committed before the append, so it stays even when the append is refused. */
    method MarkDeleted(chatId: string, payload: string, size: nat, iso: string) returns (r: Result<int, Error>)
      requires Valid() && kindOk("chat.deleted")
      modifies this`chats
      ensures Valid()
      ensures CleanId(chatId) == "" ==> r == Err(InvalidChatId) && chats == old(chats)
      ensures CleanId(chatId) != "" ==>
        && r.Ok? == (size <= config.maxEventBytes)
        && var marked := MarkIn(old(chats), CleanId(chatId), iso);
           chats == if r.Ok? then AppendTo(marked, CleanId(chatId), Event("chat.deleted", payload, size, iso))
                    else marked
      ensures CleanId(chatId) != "" ==> CleanId(chatId) in chats && chats[CleanId(chatId)].deletedAt == Some(iso)
    {
      var id := CleanId(chatId);
      if id == "" {
        return Err(InvalidChatId);
      }
      StepKeeps(config, liveBytes, chats, Mark(id, iso));
      chats := chats[id := Marked(if id in chats then chats[id] else FreshChat(iso), iso)];
      r := AppendEvent(id, "chat.deleted", payload, size, iso);
    }

    /** `replay_after` on the table: a chat that does not exist has nothing to replay. */
    method ReplayAfter(chatId: string, after: int, limit: Option<nat>)
      returns (r: Result<Result<seq<Numbered>, ResumeExpired>, Error>)
      ensures r == if CleanId(chatId) == "" then Err(InvalidChatId)
                   else if CleanId(chatId) !in chats then Ok(Result.Ok([]))
                   else Ok(Replay(chats[CleanId(chatId)], after, limit))
    {
      var id := CleanId(chatId);
      if id == "" {
        return Err(InvalidChatId);
      }
      if id !in chats {
        return Ok(Result.Ok([]));
      }
      return Ok(Replay(chats[id], after, limit));
    }

    /** One chat's garbage-collection tombstone; a chat that is gone or already deleted is left alone. */
    method TombstoneForGc(id: string, iso: string)
      modifies this`chats
      ensures chats == if Collected(old(chats), id) then old(chats)[id := Tombstoned(old(chats)[id], id, iso)]
                       else old(chats)
    {
      if id !in chats || chats[id].deletedAt.Some? {
        return;
      }
      var row := chats[id];
      var seqNo := row.latest + 1;
      row := row.(events := map[seqNo := TombstoneEvent(id, iso)]);
      chats := chats[id := row.(deletedAt := Some(iso), updatedAt := iso, latest := seqNo, floor := row.latest)];
    }

    /** First phase: every chat loses its aged events and then those over its cap. */
    method SweepEvents(cutoff: string)
      modifies this`chats
      ensures chats == AllEventsSwept(old(chats), cutoff, config.maxEventsPerChat)
    {
      ghost var before := chats;
      var todo := chats.Keys;
      while todo != {}
        invariant todo <= before.Keys && chats.Keys == before.Keys
        invariant forall id | id in before ::
                    chats[id] == if id in todo then before[id]
                                 else EventsSwept(before[id], cutoff, config.maxEventsPerChat)
      {
        var id :| id in todo;
        chats := chats[id := Aged(chats[id], cutoff)];
        chats := chats[id := Capped(chats[id], config.maxEventsPerChat)];
        todo := todo - {id};
      }
    }

    /** Second phase: oldest first, collect what is neither kept nor tailed, and stop early once few enough remain. */
    method CollectOverCap(active: set<string>, iso: string)
      modifies this`chats
      ensures chats == CapPass(config, old(chats), active, iso)
    {
      ghost var before := chats;
      ghost var victims := CapVictims(before, active, config.maxChats);
      ghost var done: set<string> := {};
      var keep := Newest(LiveKeys(chats), config.maxChats);
      var over := Ascending(LiveKeys(chats));
      assert TombstoneAll(before, done, iso) == before;
      var i := 0;
      while i < |over|
        invariant i <= |over| && done <= victims && chats == TombstoneAll(before, done, iso)
        invariant DoneUpTo(over, victims, done, i)
      {
        var key := over[i];
        OverStep(before, active, config.maxChats, i);
        i := i + 1;
        if key in keep || key.id in active {
          continue;
        }
        TombstoneOneMore(before, done, key.id, iso);
        TombstoneForGc(key.id, iso);
        done := done + {key.id};
        if |LiveKeys(chats)| <= config.maxChats {
          EarlyBreakIsSound(before, active, config.maxChats, done, iso);
          return;
        }
      }
      AllVictimsDone(before, active, config.maxChats, done);
    }

    /** Third phase: while the database is over its byte budget, collect untailed chats, oldest first. */
    method CollectOverBytes(active: set<string>, iso: string)
      modifies this`chats
      ensures chats == BytePass(liveBytes, config.maxBytes, old(chats), active, iso)
    {
      ghost var before := chats;
      var inactive := Ascending(LiveKeys(chats));
      ghost var order := Untailed(inactive, active);
      ghost var k := 0;
      var live, budget := liveBytes, config.maxBytes;
      assert TombstoneAll(before, IdSet(order[..0]), iso) == before;
      AscendingSorts(LiveKeys(before));
      assert inactive[0..] == inactive && order[0..] == order;
      if live(chats) > budget {
        var i := 0;
        while i < |inactive|
          invariant i <= |inactive| && k <= |order| && order[k..] == Untailed(inactive[i..], active)
          invariant chats == TombstoneAll(before, IdSet(order[..k]), iso)
          invariant OverUpTo(live, budget, before, order, iso, k)
        {
          var id := inactive[i].id;
          UntailedStep(inactive, active, i, order, k);
          assert inactive[i] in LiveKeys(before);
          i := i + 1;
          if id in active {
            continue;
          }
          TombstoneOneMore(before, IdSet(order[..k]), id, iso);
          TombstoneForGc(id, iso);
          k := k + 1;
          ghost var reached := TombstoneAll(before, IdSet(order[..k]), iso);
          assert chats == reached;
          if live(chats) <= budget {
            assert live(reached) <= budget;
            NeededUnique(live, budget, before, order, iso, k);
            return;
          }
          assert live(reached) > budget;
          OverOneMore(live, budget, before, order, iso, k);
        }
      }
      NeededUnique(live, budget, before, order, iso, k);
    }

    method Sweep(active: set<string>, clock: Clock)
      requires Valid()
      modifies this`chats
      ensures Valid() && chats == Swept(config, liveBytes, old(chats), active, clock)
    {
      SweptKeeps(config, liveBytes, chats, active, clock);
      SweepEvents(clock.eventCutoff);
      chats := Purged(chats, clock.deletedCutoff);
      CollectOverCap(active, clock.now);
      CollectOverBytes(active, clock.now);
    }
  }

  ghost predicate DoneUpTo(over: seq<Key>, victims: set<string>, done: set<string>, i: int) {
    forall j | 0 <= j < i && j < |over| && over[j].id in victims :: over[j].id in done
  }

  /**
   * The i-th chat of the oldest-first walk is one a sweep may tombstone, and the pass collects it unless kept or
   * tailed.
   */
  lemma OverStep(chats: Chats, active: set<string>, maxChats: nat, i: nat)
    requires i < |Ascending(LiveKeys(chats))|
    ensures var k := Ascending(LiveKeys(chats))[i];
            && Collectable(chats, k.id)
            && (k.id in CapVictims(chats, active, maxChats) <==>
                  k !in Newest(LiveKeys(chats), maxChats) && k.id !in active)
  {
    AscendingSorts(LiveKeys(chats));
    assert Ascending(LiveKeys(chats))[i] in LiveKeys(chats);
    VictimKeys(chats, active, maxChats, Ascending(LiveKeys(chats))[i]);
  }

  lemma AllVictimsDone(chats: Chats, active: set<string>, maxChats: nat, done: set<string>)
    requires done <= CapVictims(chats, active, maxChats)
    requires var over := Ascending(LiveKeys(chats)); DoneUpTo(over, CapVictims(chats, active, maxChats), done, |over|)
    ensures done == CapVictims(chats, active, maxChats)
  {
    var over := Ascending(LiveKeys(chats));
    AscendingSorts(LiveKeys(chats));
    forall id | id in CapVictims(chats, active, maxChats)
      ensures id in done
    {
      var k :| k in LiveKeys(chats) && k.id == id;
      var j :| 0 <= j < |over| && over[j] == k;
    }
  }

  /** One row of the oldest-first walk either is skipped or is the next of the untailed order. */
  lemma UntailedStep(keys: seq<Key>, active: set<string>, i: nat, order: seq<string>, k: nat)
    requires i < |keys| && k <= |order| && order[k..] == Untailed(keys[i..], active)
    ensures keys[i].id in active ==> order[k..] == Untailed(keys[i + 1..], active)
    ensures keys[i].id !in active ==>
      && k < |order| && order[k] == keys[i].id && order[k + 1..] == Untailed(keys[i + 1..], active)
      && IdSet(order[..k + 1]) == IdSet(order[..k]) + {keys[i].id}
  {
    assert keys[i..][0] == keys[i] && keys[i..][1..] == keys[i + 1..];
    if keys[i].id !in active {
      assert order[k] == order[k..][0] && order[k..][1..] == order[k + 1..];
      assert order[..k + 1] == order[..k] + [order[k]];
    }
  }

  predicate Collected(chats: Chats, id: string) {
    id in chats && chats[id].deletedAt.None?
  }

  /** Tombstoning one more live chat extends the set of tombstoned chats by it; repeating one changes nothing. */
  lemma TombstoneOneMore(chats: Chats, done: set<string>, id: string, iso: string)
    requires Collectable(chats, id)
    ensures var now := TombstoneAll(chats, done, iso);
            TombstoneAll(chats, done + {id}, iso)
            == if Collected(now, id) then now[id := Tombstoned(now[id], id, iso)] else now
  {
  }
}

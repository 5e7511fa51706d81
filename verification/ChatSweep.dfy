/** What the transactions of the chat store come to, chat by chat, in terms of the rows alone. */
module ChatSweep {
  import opened Basics
  import opened ChatStore
  import opened Order

  // --- appends and deletions

  /** An append changes its own chat only, and keeps all that was there. */
  lemma AppendMeans(chats: Chats, id: string, e: Event)
    ensures var after := AppendTo(chats, id, e);
            && after.Keys == chats.Keys + {id}
            && (forall other | other in chats && other != id :: after[other] == chats[other])
            && var d := after[id];
               && d.events[d.latest] == e && d.updatedAt == e.createdAt
               && if id in chats then
                    var c := chats[id];
                    && d.latest == c.latest + 1 && d.floor == c.floor && d.deletedAt == c.deletedAt
                    && d.events.Keys == c.events.Keys + {d.latest}
                    && forall n | n in c.events && n != d.latest :: d.events[n] == c.events[n]
                  else d.latest == 1 && d.floor == 0 && d.deletedAt.None? && d.events.Keys == {1}
  {
  }

  /** A mark makes its chat a deleted one, with the stamp given, and leaves its events and every other chat alone. */
  lemma MarkMeans(chats: Chats, id: string, iso: string)
    ensures var after := MarkIn(chats, id, iso);
            && after.Keys == chats.Keys + {id}
            && (forall other | other in chats && other != id :: after[other] == chats[other])
            && after[id].deletedAt == Some(iso) && after[id].updatedAt == iso
            && if id in chats then
                 after[id].events == chats[id].events && after[id].latest == chats[id].latest
                 && after[id].floor == chats[id].floor
               else after[id].events == map[] && after[id].latest == after[id].floor == 0
  {
  }

  /** A collected chat is a deleted one whose only event is its numbered tombstone. */
  lemma TombstoneMeans(c: Chat, id: string, iso: string)
    ensures var d := Tombstoned(c, id, iso);
            && d.latest == c.latest + 1 && d.floor == c.latest && d.updatedAt == iso && d.deletedAt == Some(iso)
            && d.events.Keys == {d.latest}
            && d.events[d.latest].kind == "chat.deleted" && d.events[d.latest].createdAt == iso
  {
  }

  /** A deleted chat stays deleted until it is purged, whatever is appended to it. */
  lemma DeletedStaysDeleted(cfg: Config, live: Chats -> nat, chats: Chats, op: Op, id: string)
    requires id in chats && chats[id].deletedAt.Some? && id in Step(cfg, live, chats, op)
    ensures Step(cfg, live, chats, op)[id].deletedAt.Some?
  {
  }

  // --- one chat in a sweep

  /** The events of the chat that are not before the cutoff and newer than n. */
  function NewerFresh(c: Chat, cutoff: string, n: int): set<int> {
    set m | m in c.events && m > n && !TextLess(c.events[m].createdAt, cutoff)
  }

  lemma CappedByRank(c: Chat, maxEvents: nat, n: int)
    requires Retained(c)
    ensures n in Capped(c, maxEvents).events <==>
              n in c.events && |set m | m in c.events && m > n| < Max(1, maxEvents)
    ensures n in Capped(c, maxEvents).events ==> Capped(c, maxEvents).events[n] == c.events[n]
  {
    CappedKeeps(c, maxEvents);
    var kept, newer := Capped(c, maxEvents).events, set m | m in c.events && m > n;
    assert |kept| == |kept.Keys| && |c.events| == |c.events.Keys|;
    if n in kept {
      assert newer <= kept.Keys - {n};
      Subset(newer, kept.Keys - {n});
    } else if n in c.events {
      assert kept.Keys <= newer;
      Subset(kept.Keys, newer);
      if |kept| == |c.events| {
        SubsetEqual(kept.Keys, c.events.Keys);
        assert false;
      }
    }
  }

  lemma {:induction false} Subset<T>(a: set<T>, b: set<T>)
    requires a <= b
    ensures |a| <= |b|
  {
    if a != {} {
      var x :| x in a;
      Subset(a - {x}, b - {x});
    }
  }

  /**
   * The event passes over one chat: an event stays exactly when it is not before the cutoff and fewer than the allowed
   * number of such events are newer; the floor covers what went, and moves only to something that went.
   */
  lemma EventsSweptMeans(c: Chat, cutoff: string, maxEvents: nat)
    requires Retained(c)
    ensures var d := EventsSwept(c, cutoff, maxEvents);
            && d.latest == c.latest && d.updatedAt == c.updatedAt && d.deletedAt == c.deletedAt
            && (forall n :: n in d.events <==>
                  && n in c.events && !TextLess(c.events[n].createdAt, cutoff)
                  && |NewerFresh(c, cutoff, n)| < Max(1, maxEvents))
            && (forall n | n in d.events :: d.events[n] == c.events[n])
            && (forall n | n in c.events && n !in d.events :: n <= d.floor)
            && (d.floor == c.floor || (d.floor in c.events && d.floor !in d.events))
  {
    var a, d := Aged(c, cutoff), EventsSwept(c, cutoff, maxEvents);
    AgedKeeps(c, cutoff);
    AgedExactly(c, cutoff);
    CappedKeeps(a, maxEvents);
    CappedFloor(a, maxEvents);
    forall n
      ensures n in d.events <==> n in a.events && |NewerFresh(c, cutoff, n)| < Max(1, maxEvents)
      ensures n in d.events ==> d.events[n] == a.events[n]
    {
      CappedByRank(a, maxEvents, n);
      assert NewerFresh(c, cutoff, n) == set m | m in a.events && m > n;
    }
  }

  // --- the chat cap

  /** Chat a comes before chat b in the order of update stamps and then of ids, all compared as text. */
  predicate Older(chats: Chats, a: string, b: string)
    requires a in chats && b in chats
  {
    || TextLess(chats[a].updatedAt, chats[b].updatedAt)
    || (chats[a].updatedAt == chats[b].updatedAt && TextLess(a, b))
  }

  /** The live chats other than the inbox that were updated after this one. */
  function Rivals(chats: Chats, id: string): set<string>
    requires id in chats
  {
    set other | other in chats && other != "inbox" && chats[other].deletedAt.None? && Older(chats, id, other)
  }

  lemma NewestByRank(keys: set<Key>, n: nat, k: Key)
    requires k in keys
    ensures k in Newest(keys, n) <==> |set g | g in keys && KeyLess(k, g)| < n
  {
    NewestAreGreatest(keys, n);
    var newest, greater := Newest(keys, n), set g | g in keys && KeyLess(k, g);
    KeyTrichotomy(k, k);
    if k in newest {
      forall g | g in greater
        ensures g in newest - {k}
      {
        KeyTrichotomy(k, g);
      }
      Subset(greater, newest - {k});
    } else {
      Subset(newest, greater);
      if |newest| == |keys| {
        SubsetEqual(newest, keys);
        assert false;
      }
    }
  }

  lemma {:induction false} IdsOfKeys(keys: set<Key>, ids: set<string>)
    requires forall k | k in keys :: k.id in ids
    requires forall id | id in ids :: exists k :: k in keys && k.id == id
    requires forall a, b | a in keys && b in keys && a.id == b.id :: a == b
    ensures |keys| == |ids|
  {
    if keys == {} {
      assert ids == {};
    } else {
      var k :| k in keys;
      IdsOfKeys(keys - {k}, ids - {k.id});
    }
  }

  lemma RivalsAreGreater(chats: Chats, id: string)
    requires id in chats
    ensures var k := Key(chats[id].updatedAt, id);
            |Rivals(chats, id)| == |set g | g in LiveKeys(chats) && KeyLess(k, g)|
  {
    var k := Key(chats[id].updatedAt, id);
    var greater := set g | g in LiveKeys(chats) && KeyLess(k, g);
    forall other | other in Rivals(chats, id)
      ensures exists g :: g in greater && g.id == other
    {
      assert Collectable(chats, other) && Key(chats[other].updatedAt, other) in greater;
    }
    IdsOfKeys(greater, Rivals(chats, id));
  }

  /**
   * The chat cap: a chat is collected exactly when it is live, not the inbox, not being tailed, and at least max_chats
   * live chats other than the inbox were updated after it. Every other chat is left as it was.
   */
  lemma CapPassMeans(cfg: Config, chats: Chats, active: set<string>, iso: string, id: string)
    requires id in chats
    ensures CapPass(cfg, chats, active, iso).Keys == chats.Keys
    ensures CapPass(cfg, chats, active, iso)[id]
            == if id != "inbox" && chats[id].deletedAt.None? && id !in active && |Rivals(chats, id)| >= cfg.maxChats
               then Tombstoned(chats[id], id, iso) else chats[id]
  {
    var k := Key(chats[id].updatedAt, id);
    RivalsAreGreater(chats, id);
    if Collectable(chats, id) {
      assert k in LiveKeys(chats);
      NewestByRank(LiveKeys(chats), cfg.maxChats, k);
      VictimKeys(chats, active, cfg.maxChats, k);
    }
  }

  // --- the byte budget

  /** A chat the byte pass may collect. */
  predicate MayGo(chats: Chats, active: set<string>, id: string) {
    id in chats && id != "inbox" && chats[id].deletedAt.None? && id !in active
  }

  /** A choice of chats to collect that spares no chat older than one it takes. */
  ghost predicate OldestFirst(chats: Chats, active: set<string>, ids: set<string>) {
    && (forall id | id in ids :: MayGo(chats, active, id))
    && forall id, other | id in ids && MayGo(chats, active, other) && Older(chats, other, id) :: other in ids
  }

  /** The ids are those that may go, oldest first. */
  ghost predicate Queue(chats: Chats, active: set<string>, order: seq<string>) {
    (forall id :: id in order <==> MayGo(chats, active, id)) && InOrder(chats, order)
  }

  predicate Before(chats: Chats, a: string, b: string) {
    a in chats && b in chats && Older(chats, a, b)
  }

  ghost predicate InOrder(chats: Chats, order: seq<string>) {
    forall i, j | 0 <= i < j < |order| :: Before(chats, order[i], order[j])
  }

  lemma InOrderBefore(chats: Chats, first: string, rest: seq<string>)
    requires InOrder(chats, rest) && forall x | x in rest :: Before(chats, first, x)
    ensures InOrder(chats, [first] + rest)
  {
    var order := [first] + rest;
    forall i, j | 0 <= i < j < |order|
      ensures Before(chats, order[i], order[j])
    {
      assert order[j] == rest[j - 1] && rest[j - 1] in rest;
      assert i > 0 ==> order[i] == rest[i - 1];
    }
  }

  lemma {:induction false} UntailedSorted(chats: Chats, keys: seq<Key>, active: set<string>)
    requires Sorted(keys) && forall k | k in keys :: k.id in chats && k.stamp == chats[k.id].updatedAt
    ensures InOrder(chats, Untailed(keys, active))
  {
    if keys != [] {
      var first, rest := keys[0], Untailed(keys[1..], active);
      UntailedSorted(chats, keys[1..], active);
      forall x | x in rest
        ensures Before(chats, first.id, x)
      {
        UntailedElements(keys[1..], active, x);
        var k :| k in keys[1..] && k.id == x;
        assert k in keys && KeyLess(first, k);
      }
      InOrderBefore(chats, first.id, rest);
      assert Untailed(keys, active) == if first.id in active then rest else [first.id] + rest;
    }
  }

  lemma OrderIsQueue(chats: Chats, active: set<string>)
    ensures Queue(chats, active, Untailed(Ascending(LiveKeys(chats)), active))
  {
    var keys := Ascending(LiveKeys(chats));
    AscendingSorts(LiveKeys(chats));
    forall id
      ensures id in Untailed(keys, active) <==> MayGo(chats, active, id)
    {
      UntailedElements(keys, active, id);
      if MayGo(chats, active, id) {
        assert Collectable(chats, id) && Key(chats[id].updatedAt, id) in LiveKeys(chats);
        assert Key(chats[id].updatedAt, id) in keys;
      }
    }
    UntailedSorted(chats, keys, active);
  }

  lemma BeforeTrichotomy(chats: Chats, a: string, b: string)
    requires a in chats && b in chats
    ensures !(Before(chats, a, b) && Before(chats, b, a)) && !Before(chats, a, a)
  {
    KeyTrichotomy(Key(chats[a].updatedAt, a), Key(chats[b].updatedAt, b));
    KeyTrichotomy(Key(chats[a].updatedAt, a), Key(chats[a].updatedAt, a));
  }

  lemma PrefixIsOldestFirst(chats: Chats, active: set<string>, order: seq<string>, n: nat)
    requires Queue(chats, active, order) && n <= |order|
    ensures OldestFirst(chats, active, IdSet(order[..n]))
  {
    forall id | id in IdSet(order[..n])
      ensures MayGo(chats, active, id)
    {
      assert id in order;
    }
    forall id, other | id in IdSet(order[..n]) && MayGo(chats, active, other) && Older(chats, other, id)
      ensures other in IdSet(order[..n])
    {
      var i :| 0 <= i < n && order[i] == id;
      assert other in order;
      var j :| 0 <= j < |order| && order[j] == other;
      assert j > i ==> Before(chats, order[i], order[j]);
      BeforeTrichotomy(chats, id, other);
      assert order[..n][j] == other;
    }
  }

  lemma TakenFromTheHead(chats: Chats, active: set<string>, order: seq<string>, ids: set<string>)
    requires Queue(chats, active, order) && OldestFirst(chats, active, ids)
    ensures forall j, i | 0 <= j < i < |order| && order[i] in ids :: order[j] in ids
  {
    forall j, i | 0 <= j < i < |order| && order[i] in ids
      ensures order[j] in ids
    {
      assert order[j] in order;
      assert Before(chats, order[j], order[i]);
    }
  }

  /** A choice that spares no older chat is the head of the queue. */
  lemma OldestFirstIsPrefix(chats: Chats, active: set<string>, order: seq<string>, ids: set<string>) returns (j: nat)
    requires Queue(chats, active, order) && OldestFirst(chats, active, ids)
    ensures j <= |order| && ids == IdSet(order[..j])
  {
    j := 0;
    while j < |order| && order[j] in ids
      invariant j <= |order| && forall i | 0 <= i < j :: order[i] in ids
    {
      j := j + 1;
    }
    TakenFromTheHead(chats, active, order, ids);
    forall id | id in ids
      ensures id in IdSet(order[..j])
    {
      assert id in order;
      var i :| 0 <= i < |order| && order[i] == id;
      assert i < j;
      assert order[..j][i] == id;
    }
  }

  lemma LongerPrefix(order: seq<string>, n: nat, j: nat)
    requires n <= j <= |order|
    ensures IdSet(order[..n]) <= IdSet(order[..j])
  {
    forall id | id in IdSet(order[..n])
      ensures id in IdSet(order[..j])
    {
      var i :| 0 <= i < n && order[i] == id;
      assert order[..j][i] == id;
    }
  }

  /**
   * The byte budget: the chats collected are live, untailed and not the inbox; none is spared that is older than one
   * taken; the database is then within its budget, or every such chat is gone; and no fewer would have done: with any
   * smaller choice of that kind the database would still be over its budget.
   */
  lemma BytePassMeans(live: Chats -> nat, budget: nat, chats: Chats, active: set<string>, iso: string)
    returns (gone: set<string>)
    ensures var after := BytePass(live, budget, chats, active, iso);
            && after.Keys == chats.Keys
            && (forall id | id in chats ::
                  after[id] == if id in gone then Tombstoned(chats[id], id, iso) else chats[id])
            && OldestFirst(chats, active, gone)
            && (live(after) <= budget || forall id | MayGo(chats, active, id) :: id in gone)
            && forall fewer: set<string> | fewer < gone && OldestFirst(chats, active, fewer) ::
                 live(TombstoneAll(chats, fewer, iso)) > budget
  {
    var order, n := BytePassIsShortest(live, budget, chats, active, iso);
    gone := IdSet(order[..n]);
    OrderIsQueue(chats, active);
    PrefixIsOldestFirst(chats, active, order, n);
    if n == |order| {
      assert order[..n] == order;
    }
    forall fewer: set<string> | fewer < gone && OldestFirst(chats, active, fewer)
      ensures live(TombstoneAll(chats, fewer, iso)) > budget
    {
      var j := OldestFirstIsPrefix(chats, active, order, fewer);
      if j >= n {
        LongerPrefix(order, n, j);
      }
      assert j < n;
    }
  }

  // --- a whole sweep

  /** No pass of a sweep collects the inbox, a tailed chat, or a chat already deleted. */
  lemma SweepSpares(live: Chats -> nat, cfg: Config, chats: Chats, active: set<string>, iso: string, id: string)
    requires id in chats && (id == "inbox" || id in active || chats[id].deletedAt.Some?)
    ensures id in CapPass(cfg, chats, active, iso) && CapPass(cfg, chats, active, iso)[id] == chats[id]
    ensures var after := BytePass(live, cfg.maxBytes, chats, active, iso); id in after && after[id] == chats[id]
  {
    CapPassMeans(cfg, chats, active, iso, id);
    var gone := BytePassMeans(live, cfg.maxBytes, chats, active, iso);
    assert !MayGo(chats, active, id);
  }

  /**
   * A sweep, chat by chat: a chat vanishes exactly when it was deleted before the cutoff; the inbox, a tailed chat and
   * a deleted chat only lose events; any other chat loses events and may be collected.
   */
  lemma SweepMeans(cfg: Config, live: Chats -> nat, chats: Chats, active: set<string>, clock: Clock, id: string)
    requires id in chats
    ensures var after, c := Swept(cfg, live, chats, active, clock), chats[id];
            var d := EventsSwept(c, clock.eventCutoff, cfg.maxEventsPerChat);
            && after.Keys <= chats.Keys
            && (id !in after <==> c.deletedAt.Some? && TextLess(c.deletedAt.value, clock.deletedCutoff))
            && (id in after ==>
                  || after[id] == d
                  || (after[id] == Tombstoned(d, id, clock.now)
                      && id != "inbox" && id !in active && c.deletedAt.None?))
  {
    var rowed := Rowed(cfg, chats, clock);
    var capped := CapPass(cfg, rowed, active, clock.now);
    if id in rowed {
      CapPassMeans(cfg, rowed, active, clock.now, id);
      var gone := BytePassMeans(live, cfg.maxBytes, capped, active, clock.now);
    }
  }
}

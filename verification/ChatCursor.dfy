/** Snapshot pages bounded by count and by frame bytes, and a client that follows them. */
module ChatCursor {
  import opened Basics
  import opened ChatStore
  import opened Text

  const TARGET_BYTES := 2 * 1024 * 1024 - 64 * 1024

  // --- the store's page

  datatype SnapshotPage = SnapshotPage(row: Option<Row>, events: seq<Numbered>, nextAfter: int, hasMore: bool,
                                       deleted: bool)

  /** The chat row as a response shows it. */
  datatype Row = Row(latest: int, floor: int, updatedAt: string, deletedAt: Option<string>)

  function RowOf(c: Chat): Row {
    Row(c.latest, c.floor, c.updatedAt, c.deletedAt)
  }

  function PageLimit(limit: int): (n: nat)
    ensures 1 <= n <= 1000 && (1 <= limit <= 1000 ==> n == limit)
  {
    Min(Max(1, limit), 1000)
  }

  /** One row more than the page holds is read, to know whether there is more. */
  function ChatPage(c: Chat, after: int, limit: int): Result<SnapshotPage, ResumeExpired> {
    var from := Max(0, after);
    match Replay(c, from, Some(PageLimit(limit) + 1))
    case Err(e) => Err(e)
    case Ok(rows) =>
      var events := Take(rows, Some(PageLimit(limit)));
      var next := if events == [] then from else events[|events| - 1].seqNo;
      Ok(SnapshotPage(Some(RowOf(c)), events, next, |rows| > |events|, c.deletedAt.Some?))
  }

  function Snapshot(chats: Chats, id: string, after: int, limit: int): Result<SnapshotPage, ResumeExpired> {
    if id in chats then ChatPage(chats[id], after, limit)
    else Ok(SnapshotPage(None, [], Max(0, after), false, false))
  }

  /** Everything replay would give from this cursor. */
  function Rest(c: Chat, after: int): seq<Numbered> {
    Scan(c.events, Max(0, after), c.latest)
  }

  /** A page is the head of all that replay would give, and says whether that is everything. */
  lemma PageIsHead(c: Chat, after: int, limit: int)
    requires Retained(c)
    ensures ChatPage(c, after, limit).Ok? <==> Max(0, after) >= c.floor
    ensures var r := ChatPage(c, after, limit);
            r.Ok? ==>
              && r.value.events == Take(Rest(c, after), Some(PageLimit(limit)))
              && r.value.hasMore == (|Rest(c, after)| > PageLimit(limit))
              && r.value.nextAfter == Max(0, after) + |r.value.events|
  {
    if Max(0, after) >= c.floor {
      ScanConsecutive(c, Max(0, after));
    }
  }

  // --- the frame sent

  datatype Frame = Frame(requestId: string, chatId: string, row: Option<Row>, events: seq<Numbered>,
                         nextAfter: int, hasMore: bool, deleted: bool)

  /** `Failed` carries the code of the exception the store raised, or the code for any other exception. */
  datatype Refusal = CursorsDisabled | SnapshotInvalid | Unavailable | TooLarge | Failed(code: string)

  datatype Reply = Sent(frame: Frame) | Refused(why: Refusal) | Expired(floor: int, latest: int)

  /** What a request fixes for its reply: its id, its chat, and how large a frame is as JSON text. */
  datatype Asked = Asked(size: Frame -> nat, requestId: string, chatId: string)

  function WholeFrame(q: Asked, p: SnapshotPage): Frame {
    Frame(q.requestId, q.chatId, p.row, p.events, p.nextAfter, p.hasMore, p.deleted)
  }

  /** The frame with the first k events of the page. */
  function FrameOf(q: Asked, p: SnapshotPage, k: nat): Frame
    requires 0 < k <= |p.events|
  {
    Frame(q.requestId, q.chatId, p.row, p.events[..k], p.events[k - 1].seqNo, p.hasMore || k < |p.events|, p.deleted)
  }

  predicate Fits(q: Asked, p: SnapshotPage, k: nat) {
    0 < k <= |p.events| && q.size(FrameOf(q, p, k)) <= TARGET_BYTES
  }

  ghost predicate AllFit(q: Asked, p: SnapshotPage, from: nat, n: nat) {
    forall j | from < j <= n :: Fits(q, p, j)
  }

  /** How many events of the page are taken: every frame on the way is measured, and the first too large stops it. */
  function Fitting(q: Asked, p: SnapshotPage, k: nat): (n: nat)
    requires k <= |p.events|
    ensures k <= n <= |p.events| && !Fits(q, p, n + 1)
    ensures AllFit(q, p, k, n)
    decreases |p.events| - k
  {
    if Fits(q, p, k + 1) then Fitting(q, p, k + 1) else k
  }

  function PageReply(q: Asked, p: SnapshotPage): Reply {
    var n := Fitting(q, p, 0);
    if p.events == [] then Sent(WholeFrame(q, p))
    else if n == 0 then Refused(TooLarge)
    else Sent(FrameOf(q, p, n))
  }

  function ReplyTo(q: Asked, r: Result<SnapshotPage, ResumeExpired>): Reply {
    match r
    case Err(e) => Expired(e.floor, e.latest)
    case Ok(p) => PageReply(q, p)
  }

  lemma {:induction false} FittingUnique(q: Asked, p: SnapshotPage, k: nat, n: nat)
    requires k <= n <= |p.events|
    requires AllFit(q, p, k, n) && !Fits(q, p, n + 1)
    ensures Fitting(q, p, k) == n
    decreases n - k
  {
    if k < n {
      assert Fits(q, p, k + 1);
      FittingUnique(q, p, k + 1, n);
    }
  }

  /** Frames grow with the events they hold. */
  ghost predicate Grows(q: Asked, p: SnapshotPage) {
    forall i, j | 0 < i <= j <= |p.events| ::
      q.size(FrameOf(q, p, i)) <= q.size(FrameOf(q, p, j))
  }

  /** A frame sent with events meets the byte target, and no longer prefix of the page would. */
  lemma SentFrameIsLongest(q: Asked, p: SnapshotPage)
    requires p.events != []
    ensures var r := PageReply(q, p);
            && (r.Sent? ==> q.size(r.frame) <= TARGET_BYTES && 0 < |r.frame.events| && r.frame.events <= p.events)
            && (r.Sent? && Grows(q, p) ==>
                  forall j | |r.frame.events| < j <= |p.events| :: q.size(FrameOf(q, p, j)) > TARGET_BYTES)
            && (r.Sent? || (r == Refused(TooLarge) && q.size(FrameOf(q, p, 1)) > TARGET_BYTES))
  {
    var n := Fitting(q, p, 0);
    if n > 0 {
      assert Fits(q, p, n);
      if n < |p.events| && Grows(q, p) {
        assert !Fits(q, p, n + 1);
        forall j | n < j <= |p.events|
          ensures q.size(FrameOf(q, p, j)) > TARGET_BYTES
        {
          assert q.size(FrameOf(q, p, n + 1)) <= q.size(FrameOf(q, p, j));
        }
      }
    } else {
      assert !Fits(q, p, 1);
    }
  }

  /** A frame over the byte target is sent exactly for a page without events whose bare frame is over it. */
  lemma OnlyEmptyPagesAreSentUnmeasured(q: Asked, p: SnapshotPage)
    ensures PageReply(q, p).Sent? && q.size(PageReply(q, p).frame) > TARGET_BYTES
            <==> p.events == [] && q.size(WholeFrame(q, p)) > TARGET_BYTES
  {
    if p.events != [] {
      SentFrameIsLongest(q, p);
    }
  }

  /** A missing or unreadable number in the request. */
  function ParseSeq(v: Option<int>): int {
    if v.Some? then Max(0, v.value) else 0
  }

  function ParseLimit(v: Option<int>, default: int, maximum: int): int {
    if v.Some? then Min(Max(1, v.value), maximum) else default
  }

  /** The reply to a request that passes the handler's checks. */
  function Answer(q: Asked, chats: Chats, after: Option<int>, limit: Option<int>): Reply {
    ReplyTo(q, Snapshot(chats, q.chatId, ParseSeq(after), ParseLimit(limit, 500, 1000)))
  }

  /** Events join the frame one by one; the one that makes it too large is taken out again. */
  method FillFrame(q: Asked, page: SnapshotPage) returns (reply: Reply)
    ensures reply == PageReply(q, page)
  {
    var response := WholeFrame(q, page);
    var selected: seq<Numbered> := [];
    var index := 0;
    while index < |page.events|
      invariant 0 <= index <= |page.events| && selected == page.events[..index]
      invariant AllFit(q, page, 0, index)
      invariant response == if index == 0 then WholeFrame(q, page) else FrameOf(q, page, index)
    {
      selected := selected + [page.events[index]];
      assert selected == page.events[..index + 1];
      response := response.(events := selected, nextAfter := page.events[index].seqNo,
                            hasMore := page.hasMore || index < |page.events| - 1);
      assert response == FrameOf(q, page, index + 1);
      if q.size(response) > TARGET_BYTES {
        FittingUnique(q, page, 0, index);
        selected := selected[..|selected| - 1];
        assert selected == page.events[..index];
        if selected == [] {
          return Refused(TooLarge);
        }
        response := response.(events := selected, nextAfter := selected[|selected| - 1].seqNo, hasMore := true);
        return Sent(response);
      }
      assert Fits(q, page, index + 1);
      index := index + 1;
    }
    FittingUnique(q, page, 0, |page.events|);
    return Sent(response);
  }

  /**
   * The handler. Frame sizes are those of its JSON text, a parameter here, as is the code of the exception, if any,
   * that the store raises instead of answering.
   */
  method HandleSnapshot(size: Frame -> nat, chats: Chats, disabled: bool, supported: bool, fault: Option<string>,
                        rawRequestId: string, rawChatId: string, after: Option<int>, limit: Option<int>)
    returns (reply: Option<Reply>)
    ensures var q := Asked(size, CleanId(rawRequestId), CleanId(rawChatId));
            reply == if q.requestId == "" then None
                     else if disabled then Some(Refused(CursorsDisabled))
                     else if q.chatId == "" then Some(Refused(SnapshotInvalid))
                     else if !supported then Some(Refused(Unavailable))
                     else if fault.Some? then Some(Refused(Failed(fault.value)))
                     else Some(Answer(q, chats, after, limit))
  {
    var q := Asked(size, CleanId(rawRequestId), CleanId(rawChatId));
    if q.requestId == "" {
      return None;
    }
    if disabled {
      return Some(Refused(CursorsDisabled));
    }
    if q.chatId == "" {
      return Some(Refused(SnapshotInvalid));
    }
    if !supported {
      return Some(Refused(Unavailable));
    }
    if fault.Some? {
      return Some(Refused(Failed(fault.value)));
    }
    var r := Snapshot(chats, q.chatId, ParseSeq(after), ParseLimit(limit, 500, 1000));
    if r.Err? {
      return Some(Expired(r.error.floor, r.error.latest));
    }
    var filled := FillFrame(q, r.value);
    return Some(filled);
  }

  // --- a client that follows next_after_seq

  datatype Ending = Complete | Oversized | CursorExpired

  datatype Walked = Walked(events: seq<Numbered>, ending: Ending)

  /** A sent frame holds a head of the page, and announces more exactly when something of the listing is left. */
  lemma PageReplyShape(q: Asked, p: SnapshotPage)
    ensures var r := PageReply(q, p);
            && !r.Expired?
            && (r.Refused? ==> p.events != [] && !Fits(q, p, 1))
            && (r.Sent? ==>
                  && r.frame.events <= p.events
                  && r.frame.hasMore == (p.hasMore || |r.frame.events| < |p.events|)
                  && (p.events != [] ==> 0 < |r.frame.events|)
                  && r.frame.nextAfter ==
                     if p.events == [] then p.nextAfter else r.frame.events[|r.frame.events| - 1].seqNo)
  {
  }

  /** The listing from a cursor is any head of it followed by the listing from the cursor moved past that head. */
  lemma RestSplits(c: Chat, after: int, head: seq<Numbered>)
    requires Retained(c) && c.floor <= Max(0, after) && head <= Rest(c, after)
    ensures Rest(c, after) == head + Rest(c, Max(0, after) + |head|)
    ensures head != [] ==> head[|head| - 1].seqNo == Max(0, after) + |head| <= c.latest
  {
    var from, all := Max(0, after), Rest(c, after);
    ScanConsecutive(c, from);
    ScanConsecutive(c, from + |head|);
    assert head == all[..|head|];
    assert all[|head|..] == Rest(c, from + |head|);
  }

  /** A sent frame holds the next events after the cursor, and announces more exactly when there are more. */
  ghost predicate Continues(c: Chat, after: int, f: Frame) {
    && f.nextAfter == Max(0, after) + |f.events|
    && Rest(c, after) == f.events + Rest(c, f.nextAfter)
    && f.hasMore == (Rest(c, f.nextAfter) != [])
    && (f.hasMore ==> Max(0, after) < f.nextAfter <= c.latest)
  }

  /** The next event does not fit in a frame of its own. */
  ghost predicate Stuck(q: Asked, c: Chat, after: int, limit: int) {
    var p := ChatPage(c, after, limit);
    p.Ok? && p.value.events != [] && !Fits(q, p.value, 1)
  }

  lemma SentContinues(c: Chat, after: int, p: SnapshotPage, f: Frame)
    requires Retained(c) && c.floor <= Max(0, after)
    requires p.events <= Rest(c, after) && f.events <= p.events && p.nextAfter == Max(0, after) + |p.events|
    requires p.hasMore == (|Rest(c, after)| > |p.events|)
    requires f.hasMore == (p.hasMore || |f.events| < |p.events|) && (p.events != [] ==> f.events != [])
    requires p.hasMore ==> p.events != []
    requires f.nextAfter == if p.events == [] then p.nextAfter else f.events[|f.events| - 1].seqNo
    ensures Continues(c, after, f)
  {
    RestSplits(c, after, f.events);
  }

  lemma ReplyContinues(q: Asked, c: Chat, after: int, limit: int)
    requires Retained(c)
    ensures var r := ReplyTo(q, ChatPage(c, after, limit));
            && r.Expired? == (Max(0, after) < c.floor)
            && (r.Sent? ==> Continues(c, after, r.frame))
            && (r.Refused? ==> Stuck(q, c, after, limit) && Rest(c, after) != [])
  {
    PageIsHead(c, after, limit);
    var page := ChatPage(c, after, limit);
    if page.Ok? {
      PageReplyShape(q, page.value);
      var r := PageReply(q, page.value);
      if r.Sent? {
        SentContinues(c, after, page.value, r.frame);
      }
    }
  }

  lemma AnswerContinues(q: Asked, chats: Chats, after: Option<int>, limit: Option<int>)
    requires q.chatId in chats && Retained(chats[q.chatId])
    ensures var c, r, from, n := chats[q.chatId], Answer(q, chats, after, limit), ParseSeq(after),
                                 ParseLimit(limit, 500, 1000);
            && from >= 0 && r.Expired? == (from < c.floor)
            && (r.Sent? ==> Continues(c, from, r.frame))
            && (r.Refused? ==> Stuck(q, c, from, n) && Rest(c, from) != [])
  {
    ReplyContinues(q, chats[q.chatId], ParseSeq(after), ParseLimit(limit, 500, 1000));
  }

  /**
   * The client asks again from next_after_seq, with the same limit, while more is announced; the store does not change
   * meanwhile.
   */
  function Walk(q: Asked, chats: Chats, after: Option<int>, limit: Option<int>): Walked
    requires q.chatId in chats && Retained(chats[q.chatId])
    decreases chats[q.chatId].latest - ParseSeq(after)
  {
    AnswerContinues(q, chats, after, limit);
    match Answer(q, chats, after, limit)
    case Expired(_, _) => Walked([], CursorExpired)
    case Refused(_) => Walked([], Oversized)
    case Sent(frame) =>
      if frame.hasMore then
        var rest := Walk(q, chats, Some(frame.nextAfter), limit);
        rest.(events := frame.events + rest.events)
      else Walked(frame.events, Complete)
  }

  /** What a walk from this cursor must come to. */
  ghost predicate Collected(q: Asked, c: Chat, after: int, limit: int, w: Walked) {
    && (w.ending.CursorExpired? <==> Max(0, after) < c.floor)
    && (w.ending.CursorExpired? ==> w.events == [])
    && (w.ending.Complete? ==> w.events == Rest(c, after))
    && (w.ending.Oversized? ==> w.events < Rest(c, after) && Stuck(q, c, Max(0, after) + |w.events|, limit))
  }

  lemma CollectedStep(q: Asked, c: Chat, after: int, limit: int, f: Frame, rest: Walked)
    requires c.floor <= Max(0, after) && Continues(c, after, f) && f.hasMore
            && Collected(q, c, f.nextAfter, limit, rest)
    ensures Collected(q, c, after, limit, rest.(events := f.events + rest.events))
  {
    ConcatPrefix(f.events, rest.events, Rest(c, f.nextAfter));
    assert Max(0, f.nextAfter) + |rest.events| == Max(0, after) + |f.events + rest.events|;
  }

  lemma {:induction false} WalkCollects(q: Asked, chats: Chats, after: Option<int>, limit: Option<int>)
    requires q.chatId in chats && Retained(chats[q.chatId])
    ensures Collected(q, chats[q.chatId], ParseSeq(after), ParseLimit(limit, 500, 1000), Walk(q, chats, after, limit))
    decreases chats[q.chatId].latest - ParseSeq(after)
  {
    AnswerContinues(q, chats, after, limit);
    var c, from, n, r := chats[q.chatId], ParseSeq(after), ParseLimit(limit, 500, 1000), Answer(q, chats, after, limit);
    if r.Sent? {
      if r.frame.hasMore {
        WalkCollects(q, chats, Some(r.frame.nextAfter), limit);
        CollectedStep(q, c, from, n, r.frame, Walk(q, chats, Some(r.frame.nextAfter), limit));
      } else {
        assert r.frame.events + [] == r.frame.events;
      }
    }
  }

  lemma ConcatPrefix<T>(a: seq<T>, x: seq<T>, y: seq<T>)
    ensures x < y ==> a + x < a + y
  {
  }

  /** The events numbered from+1, from+2, ... as the chat holds them. */
  ghost predicate Consecutive(c: Chat, from: int, events: seq<Numbered>) {
    forall i | 0 <= i < |events| :: Holds(c, from + 1 + i, events[i])
  }

  predicate Holds(c: Chat, n: int, e: Numbered) {
    n in c.events && e == Numbered(n, c.events[n])
  }

  lemma RestIsConsecutive(c: Chat, after: int)
    requires Retained(c) && c.floor <= Max(0, after)
    ensures |Rest(c, after)| == Max(0, c.latest - Max(0, after)) && Consecutive(c, Max(0, after), Rest(c, after))
  {
    ScanConsecutive(c, Max(0, after));
  }

  lemma ConsecutivePrefix(c: Chat, from: int, events: seq<Numbered>, head: seq<Numbered>)
    requires Consecutive(c, from, events) && head <= events
    ensures Consecutive(c, from, head)
  {
    forall i | 0 <= i < |head|
      ensures Holds(c, from + 1 + i, head[i])
    {
      assert head[i] == events[i];
    }
  }

  /** What a reply to a request from cursor a for at most n events says, in terms of the chat alone. */
  ghost predicate Replies(q: Asked, c: Chat, a: int, n: int, r: Reply) {
    match r
    case Expired(floor, latest) => a < c.floor && floor == c.floor && latest == c.latest
    case Refused(why) => why.TooLarge? && c.floor <= a < c.latest && TooLargeAlone(q, c, a)
    case Sent(f) =>
      && c.floor <= a && Consecutive(c, a, f.events) && |f.events| <= n
      && f.nextAfter == a + |f.events|
      && (f.hasMore <==> f.nextAfter < c.latest) && (f.hasMore ==> f.events != [])
      && f.requestId == q.requestId && f.chatId == q.chatId && f.deleted == c.deletedAt.Some?
      && f.row == Some(Row(c.latest, c.floor, c.updatedAt, c.deletedAt))
      && (f.events != [] ==> q.size(f) <= TARGET_BYTES)
      && (f.hasMore && |f.events| < n ==> OneMoreIsTooLarge(q, c, f))
  }

  /** The frame with the next event as well would be over the byte target. */
  ghost predicate OneMoreIsTooLarge(q: Asked, c: Chat, f: Frame) {
    var next := f.nextAfter + 1;
    && next in c.events
    && q.size(f.(events := f.events + [Numbered(next, c.events[next])], nextAfter := next, hasMore := next < c.latest))
       > TARGET_BYTES
  }

  /** A frame with just the event after the cursor is over the byte target. */
  ghost predicate TooLargeAlone(q: Asked, c: Chat, a: int) {
    && a + 1 in c.events
    && q.size(Frame(q.requestId, q.chatId, Some(RowOf(c)), [Numbered(a + 1, c.events[a + 1])], a + 1, a + 1 < c.latest,
                    c.deletedAt.Some?)) > TARGET_BYTES
  }

  /** A page of the chat, number by number. */
  lemma PageIsConsecutive(c: Chat, a: int, limit: int)
    requires Retained(c) && 0 <= a
    ensures ChatPage(c, a, limit).Ok? <==> c.floor <= a
    ensures var r := ChatPage(c, a, limit);
            if r.Err? then r.error == ResumeExpired(c.floor, c.latest)
            else
              var p := r.value;
              && Consecutive(c, a, p.events) && |p.events| == Min(PageLimit(limit), Max(0, c.latest - a))
              && p.nextAfter == a + |p.events| && (p.hasMore <==> p.nextAfter < c.latest)
              && p.row == Some(RowOf(c)) && p.deleted == c.deletedAt.Some?
  {
    PageIsHead(c, a, limit);
    if c.floor <= a {
      RestIsConsecutive(c, a);
    }
  }

  lemma ReplyFromPage(q: Asked, c: Chat, a: int, n: int, p: SnapshotPage)
    requires 0 <= a && c.floor <= a && Consecutive(c, a, p.events) && |p.events| <= n
    requires p.nextAfter == a + |p.events| && (p.hasMore <==> p.nextAfter < c.latest)
    requires (p.events == [] ==> !p.hasMore) && (p.hasMore ==> |p.events| == n)
    requires p.row == Some(RowOf(c)) && p.deleted == c.deletedAt.Some?
    requires p.events != [] ==> a + |p.events| <= c.latest
    ensures Replies(q, c, a, n, PageReply(q, p))
  {
    var k := Fitting(q, p, 0);
    if p.events != [] {
      assert p.events[0] == Numbered(a + 1, c.events[a + 1]);
      if k == 0 {
        assert !Fits(q, p, 1);
        assert p.events[..1] == [p.events[0]];
      } else {
        ConsecutivePrefix(c, a, p.events, p.events[..k]);
        assert Fits(q, p, k) && !Fits(q, p, k + 1);
        if k < |p.events| {
          assert p.events[k] == Numbered(a + k + 1, c.events[a + k + 1]);
          assert p.events[..k + 1] == p.events[..k] + [Numbered(a + k + 1, c.events[a + k + 1])];
        }
      }
    }
  }

  /**
   * The answer in terms of the raw request: a cursor that is missing or negative is answered from 0; a limit is
   * clamped to 1..1000 and is 500 when missing.
   */
  lemma AnswerMeans(q: Asked, chats: Chats, after: Option<int>, limit: Option<int>, a: int, n: int)
    requires q.chatId in chats && Retained(chats[q.chatId])
    requires if after.Some? && after.value >= 0 then a == after.value else a == 0
    requires if limit.None? then n == 500
             else if limit.value < 1 then n == 1
             else if limit.value > 1000 then n == 1000
             else n == limit.value
    ensures Replies(q, chats[q.chatId], a, n, Answer(q, chats, after, limit))
  {
    var c := chats[q.chatId];
    PageIsConsecutive(c, a, n);
    if c.floor <= a {
      ReplyFromPage(q, c, a, n, ChatPage(c, a, n).value);
    }
  }

  /** A chat that does not exist is answered with an empty frame that keeps the cursor. */
  lemma MissingChatIsEmpty(q: Asked, chats: Chats, after: Option<int>, limit: Option<int>)
    requires q.chatId !in chats
    ensures Answer(q, chats, after, limit)
            == Sent(Frame(q.requestId, q.chatId, None, [], if after.Some? && after.value >= 0 then after.value else 0,
                          false, false))
  {
  }

  /** What a walk from cursor a has read, in terms of the chat alone. */
  ghost predicate ReadFrom(q: Asked, c: Chat, a: int, w: Walked) {
    && Consecutive(c, a, w.events)
    && match w.ending
       case CursorExpired => a < c.floor && w.events == []
       case Complete => c.floor <= a && a + |w.events| == Max(a, c.latest)
       case Oversized => c.floor <= a && a + |w.events| < c.latest && TooLargeAlone(q, c, a + |w.events|)
  }

  /**
   * The walk, from the raw request: it ends for every limit and size function, and collects each event after the
   * cursor once and in order: all of them, or those before one that does not fit in a frame of its own, or none when
   * the cursor was already too old.
   */
  lemma WalkReadsTheChat(q: Asked, chats: Chats, after: Option<int>, limit: Option<int>, a: int)
    requires q.chatId in chats && Retained(chats[q.chatId])
    requires if after.Some? && after.value >= 0 then a == after.value else a == 0
    ensures ReadFrom(q, chats[q.chatId], a, Walk(q, chats, after, limit))
  {
    assert ParseSeq(after) == a;
    WalkCollects(q, chats, after, limit);
    CollectedMeans(q, chats[q.chatId], a, ParseLimit(limit, 500, 1000), Walk(q, chats, after, limit));
  }

  lemma CollectedMeans(q: Asked, c: Chat, a: int, n: int, w: Walked)
    requires Retained(c) && 0 <= a && Collected(q, c, a, n, w)
    ensures ReadFrom(q, c, a, w)
  {
    if c.floor <= a {
      RestIsConsecutive(c, a);
      ConsecutivePrefix(c, a, Rest(c, a), w.events);
      if w.ending.Oversized? {
        StuckIsTooLarge(q, c, a + |w.events|, n);
      }
    }
  }

  lemma StuckIsTooLarge(q: Asked, c: Chat, a: int, limit: int)
    requires Retained(c) && 0 <= a && Stuck(q, c, a, limit)
    ensures TooLargeAlone(q, c, a)
  {
    PageIsConsecutive(c, a, limit);
    var p := ChatPage(c, a, limit).value;
    assert p.events[0] == Numbered(a + 1, c.events[a + 1]) && p.events[..1] == [p.events[0]];
  }
}

# Verification of the Vylen gateway's resumable delivery

A Dafny model of the parts of the Hermes gateway plugin that make chat and response delivery resumable, with proofs of
what its documentation and comments promise. `dafny verify dfyconfig.toml` checks all of it.

What is modelled, one module per component:

- **Retained events.** `EventLog` is the bounded in-memory log: its incremental eviction refines a one-line retention
  rule over the whole history. `ChatStore` is the stored form: appends, renames, deletions and the multi-phase sweep (age,
  per-chat cap, chat cap, byte budget, tombstones), proved over any run; `ChatSweep` says chat by chat, from the rows
  alone, what each transaction does. `LogTailers` and `ChatTailers` put any number of tailers beside any number of
  writers; in the stored form a commit, the load and the store of the version counter, and the wake-up scheduled on the
  loop are separate steps. `TailerTurns` says what such a tailer comes to. Methods at the end of `LogTailers` and `Resume`
  show that the objects of `EventLog` and `Relay` take the steps of those systems.
- **Paging and pushes.** `ChatList` (keyset pagination and the LIKE search), `ChatCursor` (snapshot pages bounded by count
  and frame bytes, and a client that follows them), `ChatPush` (send with a number, then retain).
- **Resumable responses.** `ResponseBuffer` (chunk buffer and incremental event-stream scanner), `Relay` (the writer that
  splits, holds back, buffers and sends), `Resume` (that writer beside any number of resume readers). Of the line ends
  that section 9.2.6 of the WHATWG HTML Standard allows, the scanner handles only two line feeds, and so does the model.
- **Memory files.** `MemoryEntries` (the delimiter-joined format), `MemoryStore` (edits, validation, compare-and-set
  writes, restores, proposals), `MemoryRuns` (what every run of requests keeps), `MemoryMeaning` (what each request does,
  entry by entry).
- **Pressure.** `ResourcePressure`, the timed hysteresis and the exact least time in which a bucket can change n times.
- **Agent responses.** `StreamResponse` (event numbers, output items, stored envelope), `StreamCalls` (which of the calls
  announced are reported done), `Idempotency` (builds shared by key and body).
- `Basics`, `Text` and `Order` hold sequences, Python string helpers and the text order of rows.

Code that works by changing fields is a class or a method with a loop, each proved against a specification function;
the properties are lemmas about those functions. Concurrent code is a step system whose steps are the stretches between
two awaits or two database transactions, and its properties hold in every run.

Conventions:

- Stamps in the chat store are texts compared as text, as the program does (the program omits zero microseconds, so this
  is not exactly the order of time; nothing here needs it to be). Cutoffs are arbitrary texts, so a clock may go back.
- JSON sizes, hashing, the size SQLite reports, id extraction from an event, the threat scan, the "remember this" prefix
  and Python's full `str.lower` are parameters. Hashes are assumed injective where a lemma says `Collisionless`.
- The times in `EventLog`, `ResponseBuffer` and `Idempotency` are whole ticks; those in `ResourcePressure` are reals. No
  order of the wall-clock readings is assumed in `Idempotency`.

## Where the code does less than it seems to promise

Each is stated by the members named, with the exact condition under which the promise does hold where there is one.

- A memory write whose content holds a carriage return is refused with MEMORY_WRITE_VERIFY_FAILED after the file has been
  replaced (`RefusedWriteCanChangeTheFile`; exactly when, in `WriteRefusals`).
- Entries may contain the delimiter or overlap it, so a successful write can read back as other entries (`WriteReadsBack`,
  `RoundTrip`), and parsing is not even a canonicalisation (`ReparseCanDiffer`; exactly when, in
  `ReparseAgreesUnlessOverlap`).
- `_version += 1` in the stored log is a load and a store. A tailer can be left asleep and behind with nothing in flight
  exactly when the counter returns, with no writer in flight, to a value it had before a later-numbered commit
  (`LostWakeupIffTheCounterReturned`). That needs a store that lowers the counter (`NoLoweringNoLoss`), as when one
  increment overlaps two others and stores last (`OverlappingBumpsLoseAWakeup`). This is a statement about the language
  level: an interpreter that does not switch threads inside the statement never shows it.
- A tailer of a stored chat compares its cursor with a latest number it read before it looks at the closed flag, so it
  can end without the last events: exactly when, in `EndsIncompleteIff`; that it can, in `EndedTailerCanMiss`. The
  in-memory log has no such gap (`EndedMeansComplete`).
- A push is sent with the number that is next at that moment; with another writer it can be retained under a later one
  (`AnotherWriterShiftsTheNumber`; by exactly how much, in `RetainedNumberIsCarriedPlusForeign`). The drop after a failed
  first push can remove another writer's event (`DropCanLoseAnotherWritersEvent`): it forgets numbers exactly when some
  were taken since the log was found empty (`DropForgetsExactlyWhatOthersTook`).
- The cache of responses compares two readings of the wall clock. A request can be served by an old answer while its own
  build runs (`SteppingBackServesAnOldAnswer`), exactly in the runs in which some request that no build awaits finds its
  answer too old by its first reading and young enough by its second (`RunningBuildServesIffNoneStraddles`).
- Title search lowers the query by Python and the title by SQLite, so a title outside ASCII can miss itself
  (`SearchCanMissTheTitle`; exactly when, in `TitleFindsItself`).
- The page frame without events is sent without being measured, and is the only one ever sent over the byte target
  (`OnlyEmptyPagesAreSentUnmeasured`).
- An agent that raises an exception with an empty message ends the stream with response.completed
  (`SilentExceptionCompletes`). A call started under an id that is still pending replaces the pending one, which is then
  never reported done (`CallsLostAreThoseRepeated`); ids made up for unnamed calls can repeat (`MadeUpCallIdsCanRepeat`).
  A completion without an id is ignored, so an unnamed call is reported done exactly when a completion carries the id
  made up for it in time (`UnnamedCompletionIsIgnored`, `CallIsDoneIffItsIdIsCompleted`).
- Cut into chunks, an event of 65536 bytes or more may or may not be recognised (`ChunkingDoesNotMatter` is an
  if-and-only-if). One that comes after the first event with an id does no harm (`EarlyFittingEventsAreFound`).

## Model

| member | source | states |
|---|---|---|
| `EventLog.LongestSuffixIsLongest` | src/hermes_vylen_gateway/event_log.py:161-169 | The one-line retention rule is what it says: a suffix of the history within the age, count and byte limits, and no longer suffix is within them. |
| `EventLog.KeptIsLongest` | src/hermes_vylen_gateway/event_log.py:161-169 | A retained stretch within the limits, each extension of which would break them, is that longest suffix. |
| `EventLog.EvictedStaysEvicted` | src/hermes_vylen_gateway/event_log.py:161-173 | With a clock that does not go back, what was rightly evicted stays rightly evicted whatever is appended later. |
| `EventLog.AboveKept` | src/hermes_vylen_gateway/event_log.py:124-128 | Filtering the retained events above a cursor at or above the floor gives the history from that cursor on. |
| `EventLog.RetainedEventLog.constructor` | src/hermes_vylen_gateway/event_log.py:41-63 | A new log is empty, open, numbered from 1, with count and byte limits of at least one. |
| `EventLog.RetainedEventLog.DropOldest` | src/hermes_vylen_gateway/event_log.py:171-173 | Dropping the front keeps the byte total exact, the history complete and every reason for an eviction. |
| `EventLog.RetainedEventLog.Evict` | src/hermes_vylen_gateway/event_log.py:161-169 | The three loops bring the log within its count and byte limits (and, in order of time, its age limit), and spare an event appended at this very moment. |
| `EventLog.RetainedEventLog.SteadyLogIsLongestSuffix` | src/hermes_vylen_gateway/event_log.py:95-128 | With a clock that never went back, the incrementally evicted log equals the longest suffix of its whole append history within the limits at the last eviction. |
| `EventLog.NewestSurvivesIffItFits` | src/hermes_vylen_gateway/event_log.py:161-169 | Whatever the history, the newest event is in the longest suffix at its own append exactly when it alone is within the byte budget. |
| `EventLog.RetainedEventLog.RefusedIffItCouldNotStay` | src/hermes_vylen_gateway/event_log.py:113-117 | An event is refused exactly when, however much else were evicted, it could not be retained at its own append. |
| `EventLog.RetainedEventLog.Append` | src/hermes_vylen_gateway/event_log.py:95-111 | A refused event changes nothing; an accepted one takes the next number, extends the history, raises no floor past itself, and bumps the version. |
| `EventLog.RetainedEventLog.Close` | src/hermes_vylen_gateway/event_log.py:119-122 | Closing sets the closed flag and bumps. |
| `EventLog.RetainedEventLog.EvictNow` | src/hermes_vylen_gateway/event_log.py:235-240 | A sweep between appends evicts and only raises the floor; the history stays. |
| `EventLog.RetainedEventLog.ReplayAfter` | src/hermes_vylen_gateway/event_log.py:124-128 | From a cursor at or above the floor, exactly the later events of the history in order; below it, ResumeExpired with the bounds; the history never changes. |
| `EventLog.RetainedEventLog.FloorIsEvictedCount` | src/hermes_vylen_gateway/event_log.py:74-82 | The floor is the number of evicted events and the latest number that of all events. |
| `LogTailers.BumpKeepsFine` | src/hermes_vylen_gateway/event_log.py:175-177 | A bump makes batches read before it stale and wakes every waiter, so no tailer sleeps through an append or a close. |
| `LogTailers.ApplyKeepsInv` | src/hermes_vylen_gateway/event_log.py:95-177 | Every step of the log and of any tailer keeps the invariant below; the history only grows and the floor only rises. |
| `LogTailers.RunKeepsInv` | src/hermes_vylen_gateway/event_log.py:130-159 | The same over any run of steps. |
| `LogTailers.TailersDeliverInOrder` | src/hermes_vylen_gateway/event_log.py:130-159 | From a fresh log, for every interleaving of appends, evictions, close, starts, deliveries, time-outs and cancellations: each tailer has delivered exactly after+1 .. cursor, and one that waits is fully caught up on an open log. |
| `LogTailers.EndedMeansComplete` | src/hermes_vylen_gateway/event_log.py:147-148 | A tailer that ends by itself has delivered every event of a closed log after its cursor. |
| `LogTailers.ExpiresOnlyForCause` | src/hermes_vylen_gateway/event_log.py:139-144 | A tailer expires only below the floor or, if it asked, for starting beyond the latest number. |
| `LogTailers.FutureCursorsAreRefused` | src/hermes_vylen_gateway/event_log.py:139-140 | A tailer that asks to be refused beyond the latest number is refused, at once and for good, exactly when it starts there; in every run any other expires only with its cursor below the floor. |
| `LogTailers.TooOldATurnExpires` | src/hermes_vylen_gateway/event_log.py:142-144 | A tailer whose cursor the floor has passed is told so in its next turn, and delivers nothing. |
| `LogTailers.OneTurnCatchesUp` | src/hermes_vylen_gateway/event_log.py:142-157 | Undisturbed, one turn of a tailer's loop delivers every event after its cursor in order, and then it ends on a closed log and waits on an open one. |
| `LogTailers.WakingIsToTheTop` | src/hermes_vylen_gateway/event_log.py:149-157 | An append, a close or its own time-out brings a waiting tailer back to the top of its loop. |
| `LogTailers.NoTailerIsStuck` | src/hermes_vylen_gateway/event_log.py:130-159 | A tailer that has neither ended nor expired always has a next step. |
| `LogTailers.StepTouches` | src/hermes_vylen_gateway/event_log.py:130-159 | No step changes a tailer but its own, except for waking it; a cancelled one is gone. |
| `LogTailers.AppendIsAStep` | src/hermes_vylen_gateway/event_log.py:95-111 | An append of the log object is the append of the step system, with the floor its eviction leaves; a refused one is no step. |
| `LogTailers.CloseIsAStep` | src/hermes_vylen_gateway/event_log.py:119-122 | Closing the log object is the step. |
| `LogTailers.SweepIsAStep` | src/hermes_vylen_gateway/event_log.py:235-240 | A sweep of the log object is the step. |
| `LogTailers.ReplayIsAPoll` | src/hermes_vylen_gateway/event_log.py:124-128 | A replay of the log object is the poll: it refuses exactly when the tailer expires, and else gives its batch. |
| `ChatStore.NthNewestRank` | src/hermes_vylen_gateway/chat_store.py:692-700 | The row found at offset k in descending order has exactly k rows above it. |
| `ChatStore.CappedKeeps` | src/hermes_vylen_gateway/chat_store.py:692-711 | The per-chat cap leaves exactly the newest rows, as many as allowed, and keeps the chat consistent. |
| `ChatStore.AgedKeeps` | src/hermes_vylen_gateway/chat_store.py:678-691 | The age pass keeps every number above the raised floor, for any stamps. |
| `ChatStore.AgedExactly` | src/hermes_vylen_gateway/chat_store.py:678-691 | The age pass removes exactly the rows before the cutoff, and the floor covers them and rises only to one of them. |
| `ChatStore.CappedFloor` | src/hermes_vylen_gateway/chat_store.py:701-711 | The cap moves the floor only to a row it removed. |
| `ChatStore.TombstonedKeeps` | src/hermes_vylen_gateway/chat_store.py:873-899 | A garbage-collection tombstone takes the next number and raises the floor to just below it. |
| `ChatStore.ScanIsQuery` | src/hermes_vylen_gateway/chat_store.py:546-556 | The modelled scan is the query: exactly the rows above the cursor, ascending. |
| `ChatStore.ReplayIsConsecutive` | src/hermes_vylen_gateway/chat_store.py:536-557 | Replay succeeds exactly at or above the floor and then gives the consecutive events after+1 .. latest. |
| `ChatStore.AppendedIsNext` | src/hermes_vylen_gateway/chat_store.py:371-452 | Whoever has read everything receives an appended event next, under the next number. |
| `ChatStore.TombstoneIsNext` | src/hermes_vylen_gateway/chat_store.py:873-899 | Whoever has read everything receives the tombstone next, and an older cursor is told that it expired. |
| `ChatStore.StepKeeps` | src/hermes_vylen_gateway/chat_store.py:371-452 | Each transaction (append or rename, delete mark, sweep) keeps every number in (floor, latest] retained and never lowers a bound or reuses a number. |
| `ChatStore.SweptKeeps` | src/hermes_vylen_gateway/chat_store.py:662-785 | A whole multi-phase sweep, under any clock and any tailed chats, keeps the same. |
| `ChatStore.RunKeeps` | src/hermes_vylen_gateway/chat_store.py:347-785 | After any run under any clock: everything above a chat's floor is retained, and over one lifetime of a chat its bounds never fall and no number is given to a second event. |
| `ChatStore.OnlyPurgeRemoves` | src/hermes_vylen_gateway/chat_store.py:712-715 | A lifetime ends exactly when a sweep finds the chat deleted before its cutoff. |
| `ChatSweep.AppendMeans` | src/hermes_vylen_gateway/chat_store.py:374-441 | An append gives its chat the next number, the event and the stamp, keeps all that was there, and leaves every other chat alone. |
| `ChatSweep.MarkMeans` | src/hermes_vylen_gateway/chat_store.py:650-660 | A mark makes its chat a deleted one with the stamp given, and changes no event and no other chat. |
| `ChatSweep.DeletedStaysDeleted` | src/hermes_vylen_gateway/chat_store.py:374-441 | Nothing but the purge ends a deletion: a deleted chat stays deleted whatever is appended. |
| `ChatSweep.EventsSweptMeans` | src/hermes_vylen_gateway/chat_store.py:679-712 | An event survives a sweep of its chat exactly when it is not before the cutoff and fewer than the allowed number of such events are newer; the floor covers what went and moves only to something that went. |
| `ChatStore.NewestAreGreatest` | src/hermes_vylen_gateway/chat_store.py:716-727 | The kept chats are as many as allowed and all greater by (updated_at, chat_id) than those passed over. |
| `ChatStore.CapPassKeepsGreatestAndTailed` | src/hermes_vylen_gateway/chat_store.py:716-748 | After the chat-cap pass the live chats other than the inbox are exactly the max_chats greatest plus those with an active tailer. |
| `ChatSweep.CapPassMeans` | src/hermes_vylen_gateway/chat_store.py:717-753 | The chat cap collects a chat exactly when it is live, not the inbox, not tailed, and at least max_chats live chats other than the inbox were updated after it, by stamp and then id; every other chat is as it was. |
| `ChatStore.EarlyBreakIsSound` | src/hermes_vylen_gateway/chat_store.py:744-748 | Once no more than max_chats remain, no chat to collect is left, so the early break changes nothing. |
| `ChatStore.NeededIsLeast` | src/hermes_vylen_gateway/chat_store.py:749-764 | The number of chats the byte pass collects is the least that meets the budget. |
| `ChatStore.BytePassIsShortest` | src/hermes_vylen_gateway/chat_store.py:749-764 | The byte pass tombstones the shortest oldest-first prefix of untailed live chats that meets the budget, or all of them, and never the inbox or a tailed chat. |
| `ChatSweep.BytePassMeans` | src/hermes_vylen_gateway/chat_store.py:754-770 | The byte pass collects live, untailed chats other than the inbox, sparing none older than one it takes; then the database is within its budget or all of them are gone; and with any smaller such choice it would still be over. |
| `ChatSweep.SweepSpares` | src/hermes_vylen_gateway/chat_store.py:717-770 | Neither pass touches the inbox, a tailed chat or a deleted one. |
| `ChatSweep.TombstoneMeans` | src/hermes_vylen_gateway/chat_store.py:873-905 | A collected chat is a deleted one with the stamp given, whose only event is its tombstone, numbered next with the floor just below it. |
| `ChatSweep.SweepMeans` | src/hermes_vylen_gateway/chat_store.py:662-789 | A sweep, chat by chat: it vanishes exactly when deleted before the cutoff; the inbox, a tailed and a deleted chat only lose events; any other loses events and may be collected. |
| `ChatStore.ChatStateStore.constructor` | src/hermes_vylen_gateway/chat_store.py:124-144 | A new store has no chats. |
| `ChatStore.ChatStateStore.Insert` | src/hermes_vylen_gateway/chat_store.py:373-452 | The transaction inserts the event under latest + 1 and updates its chat, creating the row when missing. |
| `ChatStore.ChatStateStore.AppendEvent` | src/hermes_vylen_gateway/chat_store.py:347-464 | Refusals in their order (id, kind, size) with nothing changed; otherwise the next number and the extended table. |
| `ChatStore.ChatStateStore.RenameChat` | src/hermes_vylen_gateway/chat_store.py:466-527 | A rename is refused for a bad id, a blank title or its size, and otherwise is an append of kind chat.renamed. |
| `ChatStore.ChatStateStore.MarkDeleted` | src/hermes_vylen_gateway/chat_store.py:644-660 | The deletion mark is committed first and stays even when the append of its event is refused. |
| `ChatStore.ChatStateStore.ReplayAfter` | src/hermes_vylen_gateway/chat_store.py:536-557 | A missing chat has nothing to replay; an existing one is replayed from its row. |
| `ChatStore.ChatStateStore.TombstoneForGc` | src/hermes_vylen_gateway/chat_store.py:873-899 | A missing or deleted chat is left alone; a live one keeps only its numbered tombstone. |
| `ChatStore.ChatStateStore.SweepEvents` | src/hermes_vylen_gateway/chat_store.py:676-711 | Every chat loses its aged events and then those over its cap. |
| `ChatStore.ChatStateStore.CollectOverCap` | src/hermes_vylen_gateway/chat_store.py:733-748 | The oldest-first loop with its early break computes the chat-cap pass. |
| `ChatStore.ChatStateStore.CollectOverBytes` | src/hermes_vylen_gateway/chat_store.py:749-764 | The oldest-first loop that re-measures after each tombstone computes the byte pass. |
| `ChatStore.ChatStateStore.Sweep` | src/hermes_vylen_gateway/chat_store.py:662-785 | The phases in order; the table stays consistent. |
| `ChatTailers.WriterKeepsExact` | src/hermes_vylen_gateway/chat_store.py:449-463 | A commit, a close, and the load, the store and the wake-up of a bump each leave every tailer exact. |
| `ChatTailers.OwnStepKeepsExact` | src/hermes_vylen_gateway/chat_store.py:1058-1091 | Each step of a tailer leaves it exact, with database reads as steps of their own. |
| `ChatTailers.TailersNeverMissAnEvent` | src/hermes_vylen_gateway/chat_store.py:1058-1091 | In every run each tailer has delivered exactly after+1 .. cursor or ended with ResumeExpired. |
| `ChatTailers.TailersRemember` | src/hermes_vylen_gateway/chat_store.py:1075-1091 | In every run, what a tailer has read was current at or after a moment when the counter had the value it remembers. |
| `ChatTailers.LostOnlyIfReturned` | src/hermes_vylen_gateway/chat_store.py:1075-1102 | In every run a tailer sleeps behind with nothing in flight only when the counter has returned to a value it had before a later-numbered commit. |
| `ChatTailers.NoLoweringNoLoss` | src/hermes_vylen_gateway/chat_store.py:1093-1102 | In a run in which no store writes less than the counter holds, that never happens: a waiting tailer that is behind has a wake-up in flight. |
| `ChatTailers.LostWakeupIffTheCounterReturned` | src/hermes_vylen_gateway/chat_store.py:1058-1102 | Exactly: a schedule of the writers can lose a tailer, for some interleaving of tailers with it, if and only if at its end nothing is in flight and the counter has so returned. |
| `ChatTailers.ExpiresOnlyForCause` | src/hermes_vylen_gateway/chat_store.py:1066-1074 | The same for the stored log, judged by what the database said at that step. |
| `TailerTurns.AskRefusesTheFuture` | src/hermes_vylen_gateway/chat_store.py:1067-1070 | Asking refuses a cursor exactly when it is beyond the latest number the database then has. |
| `TailerTurns.FutureCursorsAreRefused` | src/hermes_vylen_gateway/chat_store.py:1067-1070 | In every run a tailer that asks goes on only with a cursor not beyond the latest number; one that does not ask expires only below the floor. |
| `TailerTurns.TooOldATurnExpires` | src/hermes_vylen_gateway/chat_store.py:1072-1074 | A tailer whose cursor the floor has passed is told so in its next turn, and delivers nothing. |
| `TailerTurns.OneTurnCatchesUp` | src/hermes_vylen_gateway/chat_store.py:1072-1089 | Undisturbed, one turn of a tailer's loop delivers every event after its cursor in order, and then it ends on a closed log and waits on an open one. |
| `TailerTurns.WakingIsToTheTop` | src/hermes_vylen_gateway/chat_store.py:1083-1102 | A wake-up brings every waiting tailer back to the top of its loop, a time-out its own. |
| `TailerTurns.NoTailerIsStuck` | src/hermes_vylen_gateway/chat_store.py:1058-1091 | A tailer that has neither ended nor expired always has a next step. |
| `TailerTurns.StepTouches` | src/hermes_vylen_gateway/chat_store.py:1058-1102 | No step changes a tailer but its own, except for waking it; a cancelled one is gone. |
| `TailerTurns.EndsIncompleteIff` | src/hermes_vylen_gateway/chat_store.py:1078-1080 | In every run: a tailer ends without some event exactly when the log is closed as it looks, it had delivered all there was when it read the latest number before, and more has been numbered since. |
| `TailerTurns.EndedTailerCanMiss` | src/hermes_vylen_gateway/chat_store.py:1078-1080 | And that can happen: a commit and the close between the reading and the look, from any state with a caught-up tailer. |
| `ChatTailers.OverlappingBumpsLoseAWakeup` | src/hermes_vylen_gateway/chat_store.py:1093-1102 | Such schedules exist: an increment that overlaps two others, one after the other, stores last and brings the counter back. |
| `ChatTailers.StoreStepsAreCommits` | src/hermes_vylen_gateway/chat_store.py:371-463 | Every transaction of the store that keeps a chat is a commit of this step system; the deletion mark alone bumps nothing. |
| `ChatList.EscapeIsCharwise` | src/hermes_vylen_gateway/chat_store.py:1191-1192 | The three replacements in sequence put exactly one backslash before each special character and before nothing else. |
| `ChatList.EscapedMatchesPrefix` | src/hermes_vylen_gateway/chat_store.py:584-586 | An escaped query followed by a percent sign matches exactly the texts that start with the query, up to ASCII case. |
| `ChatList.LikeIsSubstring` | src/hermes_vylen_gateway/chat_store.py:584-586 | For every query and title the pattern matches exactly when the query is a substring, up to ASCII case. |
| `ChatList.BareWildcardsMatch` | src/hermes_vylen_gateway/chat_store.py:1191-1192 | Why a query is escaped: a bare underscore would match every text that is not empty, a percent sign every text. |
| `ChatList.FoldedTogether` | src/hermes_vylen_gateway/chat_store.py:584-586 | Two characters match exactly when they are the same or the two cases of an ASCII letter. |
| `ChatList.CleanQueryMeans` | src/hermes_vylen_gateway/chat_store.py:1187-1188 | The query is the stripped text, cut after 128 characters. |
| `ChatList.ContainsSomewhere` | src/hermes_vylen_gateway/chat_store.py:584-586 | Substring means at some position. |
| `ChatList.SearchMeaning` | src/hermes_vylen_gateway/chat_store.py:577-594 | A row is listed exactly when it is visible and its title contains the lowered query. |
| `ChatList.TitleFindsItself` | src/hermes_vylen_gateway/chat_store.py:584-586 | A visible chat is found by its own title exactly when the title's lowered form is in it up to ASCII case. |
| `ChatList.SearchCanMissTheTitle` | src/hermes_vylen_gateway/chat_store.py:584-586 | A title outside ASCII can fail to match itself: the query is lowered by Python, the title by SQLite. |
| `ChatList.SafeLimit` | src/hermes_vylen_gateway/chat_store.py:577 | A page holds between 1 and 200 rows, as many as asked for within that. |
| `ChatList.SelectedAfter` | src/hermes_vylen_gateway/chat_store.py:587-594 | Going on from a row selects exactly the rows below it, also among rows with one stamp. |
| `ChatList.PageIsHead` | src/hermes_vylen_gateway/chat_store.py:595-606 | A page is the head of what its cursor selects and announces more exactly when there is more. |
| `ChatList.NextPageIsSmaller` | src/hermes_vylen_gateway/chat_store.py:587-606 | A page that announces more is full, and its last row as cursor selects the rest, which is smaller. |
| `ChatList.WalkIsListing` | src/hermes_vylen_gateway/chat_store.py:577-606 | From any cursor the pages together are the whole remaining listing; the walk ends for every page size. |
| `ChatList.WalkListsEveryChatOnce` | src/hermes_vylen_gateway/chat_store.py:577-606 | The whole walk yields every matching chat exactly once, in strictly descending (updated_at, chat_id) order. |
| `ChatCursor.PageLimit` | src/hermes_vylen_gateway/chat_store.py:633-634 | A snapshot page holds between 1 and 1000 events, as many as asked for within that. |
| `ChatCursor.PageIsHead` | src/hermes_vylen_gateway/chat_store.py:625-642 | A snapshot page is the head of what replay would give, with its has_more and next cursor. |
| `ChatCursor.Fitting` | src/hermes_vylen_gateway/chat_cursor.py:183-205 | The number of events taken: every frame on the way fits the target and the next does not. |
| `ChatCursor.SentFrameIsLongest` | src/hermes_vylen_gateway/chat_cursor.py:183-205 | A frame sent with events was measured within the target and, where frames grow with their events, no longer prefix fits; otherwise the first event alone is too large. |
| `ChatCursor.OnlyEmptyPagesAreSentUnmeasured` | src/hermes_vylen_gateway/chat_cursor.py:172-205 | A frame over the byte target is sent exactly for a page without events whose bare frame is over it. |
| `ChatCursor.FillFrame` | src/hermes_vylen_gateway/chat_cursor.py:172-205 | The append, measure and pop loop computes that reply. |
| `ChatCursor.HandleSnapshot` | src/hermes_vylen_gateway/chat_cursor.py:152-216 | Which request gets no reply, which refusal, ResumeExpired, or the page. |
| `ChatCursor.PageReplyShape` | src/hermes_vylen_gateway/chat_cursor.py:183-205 | The sent frame's next cursor and has_more match the events it carries. |
| `ChatCursor.ReplyContinues` | src/hermes_vylen_gateway/chat_cursor.py:152-205 | A sent frame holds the next events after the cursor and announces more exactly when there are more. |
| `ChatCursor.WalkCollects` | src/hermes_vylen_gateway/chat_cursor.py:163-205 | A client that follows next_after_seq terminates with every event above its cursor once and in order, or with those before one that does not fit, or with nothing when its cursor had expired. |
| `ChatCursor.AnswerMeans` | src/hermes_vylen_gateway/chat_cursor.py:152-216 | The answer in terms of the raw request: from the cursor given, or 0 when it is missing or negative; at most the limit given, clamped to 1..1000, or 500 when missing; a sent frame holds the consecutive next events, within the byte target, and fewer than the limit only when they are all or one more would be too large; it announces more exactly when there are more; ResumeExpired exactly below the floor. |
| `ChatCursor.MissingChatIsEmpty` | src/hermes_vylen_gateway/chat_cursor.py:163-182 | A chat that does not exist is answered with an empty frame that keeps the cursor. |
| `ChatCursor.WalkReadsTheChat` | src/hermes_vylen_gateway/chat_cursor.py:152-216 | The client's walk through the handler, from the raw request: it terminates, holds the consecutive events after its cursor, all of them when complete, and stops early exactly before an event too large for a frame of its own. |
| `ChatPush.RetainedNumberIsCarriedPlusForeign` | src/hermes_vylen_gateway/chat_cursor.py:66-88 | In every run a delivered push is retained under the number it carried plus the numbers others took meanwhile; under its own exactly when there were none. |
| `ChatPush.AnotherWriterShiftsTheNumber` | src/hermes_vylen_gateway/chat_cursor.py:75-87 | So another writer can make a delivered push carry a number that belongs to another event. |
| `ChatPush.DropCanLoseAnotherWritersEvent` | src/hermes_vylen_gateway/chat_cursor.py:82-86 | The drop after a failed first push takes along what another writer committed since the log was found empty, in a run from the start. |
| `ChatPush.DropOnlyWhenEmpty` | src/hermes_vylen_gateway/chat_cursor.py:82-86 | After a failed first push the log is dropped exactly when no event is retained at that look. |
| `ChatPush.DropForgetsExactlyWhatOthersTook` | src/hermes_vylen_gateway/chat_cursor.py:82-86 | In every run: between that look and the drop the latest number rises by exactly the numbers others took, so the drop forgets a number exactly when one was taken, loses a retained event only then, and restarts the numbering exactly when the chat has been given a number. |
| `ChatPush.ApplyKeepsOrderly` | src/hermes_vylen_gateway/chat_cursor.py:66-88 | Each step of pushes and event sweeps keeps the numbering invariant. |
| `ChatPush.PushesCarryTheirNumbers` | src/hermes_vylen_gateway/chat_cursor.py:66-88 | When pushes are the only writer, delivered numbers are consecutive, each push is retained under the number it carried, and an undelivered push takes no number. |
| `ChatPush.PushGoesThrough` | src/hermes_vylen_gateway/chat_cursor.py:66-91 | Undisturbed, a push is sent with the next number and retained under it with its payload, beside everything the chat had. |
| `ChatPush.PushThatFailsLeavesNoTrace` | src/hermes_vylen_gateway/chat_cursor.py:79-89 | Undisturbed, a push that does not fit or whose send fails leaves everything as it was. |
| `ChatPush.AppendsAreTransactions` | src/hermes_vylen_gateway/chat_cursor.py:78-91 | What a push retains, and what others append or mark meanwhile, are the store's transactions on the row of the chat. |
| `ChatPush.SweepsAreTransactions` | src/hermes_vylen_gateway/chat_store.py:679-770 | And so are the passes of a sweep. |
| `ChatPush.FailedPushChangesNothing` | src/hermes_vylen_gateway/chat_cursor.py:80-86 | When pushes are the only writer, an oversized or failed push and its drop leave the chat as it was. |
| `ResponseBuffer.ResponseBuffer.constructor` | src/hermes_vylen_gateway/response_buffer.py:27-39 | A new buffer is empty and open. |
| `ResponseBuffer.ResponseBuffer.Append` | src/hermes_vylen_gateway/response_buffer.py:41-46 | Non-empty chunks accumulate in order with their exact byte total and wake the readers. |
| `ResponseBuffer.ResponseBuffer.Finalize` | src/hermes_vylen_gateway/response_buffer.py:48-51 | Finalizing completes the buffer at its end time and wakes the readers. |
| `ResponseBuffer.ResponseBuffer.SliceFrom` | src/hermes_vylen_gateway/response_buffer.py:57-60 | The chunks after a cursor: prefix and slice make the whole; a negative cursor means all. |
| `ResponseBuffer.ScanFindsFirst` | src/hermes_vylen_gateway/response_buffer.py:146-165 | The id found is that of the first complete event that has one. |
| `ResponseBuffer.EventsAreTheStretches` | src/hermes_vylen_gateway/response_buffer.py:146-165 | The complete events are the stretches that two line feeds end, in order, none of which holds two together or ends in one; what is left holds no two together. |
| `ResponseBuffer.StretchesAreTheEvents` | src/hermes_vylen_gateway/response_buffer.py:146-165 | And no other way to cut the stream does that. |
| `ResponseBuffer.ScanResumes` | src/hermes_vylen_gateway/response_buffer.py:146-165 | Scanning may stop anywhere and resume with only the unfinished rest. |
| `ResponseBuffer.ResponseIdExtractor.constructor` | src/hermes_vylen_gateway/response_buffer.py:137-140 | A fresh scanner has found nothing. |
| `ResponseBuffer.ResponseIdExtractor.Feed` | src/hermes_vylen_gateway/response_buffer.py:146-165 | The loop computes the scan of buffer plus chunk; after any feed the buffer holds at most 65536 bytes and no blank line. |
| `ResponseBuffer.FeedAll` | src/hermes_vylen_gateway/response_buffer.py:128-165 | A scanner fed chunk by chunk computes the specified fold. |
| `ResponseBuffer.EarlyFittingEventsAreFound` | src/hermes_vylen_gateway/response_buffer.py:146-165 | For any one extractor: where every event up to and including the first with an id is shorter than 65536 bytes, that id is found however the stream is cut and whatever follows. |
| `ResponseBuffer.ChunkingDoesNotMatter` | src/hermes_vylen_gateway/response_buffer.py:146-165 | The id found is independent of how the stream is cut, and that of the first matching event, for every extractor exactly when every complete event is shorter than 65536 bytes. |
| `ResponseBuffer.BytewiseSeesNoLongEvent` | src/hermes_vylen_gateway/response_buffer.py:152-156 | Otherwise it is not: fed byte by byte, an event of that length is never seen whole. |
| `Relay.PartsAreTheChunk` | src/hermes_vylen_gateway/relay.py:365-366 | Cutting into 256 KiB parts loses, reorders and pads nothing. |
| `Relay.FrameStreamWriter.constructor` | src/hermes_vylen_gateway/relay.py:324-341 | A new writer has sent nothing and buffers only when it may. |
| `Relay.FrameStreamWriter.SendHeaders` | src/hermes_vylen_gateway/relay.py:346-358 | The filtered headers are sent once. |
| `Relay.FrameStreamWriter.NewBuffer` | src/hermes_vylen_gateway/relay.py:402-407 | A new buffer carries the id, status and headers, and holds the preroll and then the part that completed the event. |
| `Relay.FrameStreamWriter.AppendBuffer` | src/hermes_vylen_gateway/relay.py:392-407 | Until the scanner fed these parts finds an id the preroll holds every part; from then on the buffer of that id holds every part from the first on. |
| `Relay.FrameStreamWriter.SendPart` | src/hermes_vylen_gateway/relay.py:365-373 | A part is buffered and then sent. |
| `Relay.FrameStreamWriter.SendParts` | src/hermes_vylen_gateway/relay.py:365-373 | The loop cuts a chunk into its parts and buffers and sends each in order. |
| `Relay.FrameStreamWriter.SendChunk` | src/hermes_vylen_gateway/relay.py:360-373 | Default headers of status 200 if none were sent, then one frame per part, each buffered before it is sent; what the client was sent stays one headers frame and the parts in order. |
| `Relay.FrameStreamWriter.SendBody` | src/hermes_vylen_gateway/relay.py:365-373 | With the headers sent, the parts of a chunk continue what the client was sent: one headers frame first, then one frame per part in order. |
| `Relay.FrameStreamWriter.Finish` | src/hermes_vylen_gateway/relay.py:375-384 | One end frame, after default headers of status 204 if none were sent, and so the whole of what the client gets: headers, the parts in order, the end; the buffer is completed. |
| `Relay.FrameStreamWriter.Abandon` | src/hermes_vylen_gateway/relay.py:386-390 | An unfinished writer completes its buffer as it stands, so its readers end, and lets go of it. |
| `Resume.StepKeepsInv` | src/hermes_vylen_gateway/relay.py:203-237 | Every step of the writer and of any reader keeps the invariant. |
| `Resume.ReadersAreExact` | src/hermes_vylen_gateway/relay.py:203-237 | In every run each reader has sent exactly the chunks after its cursor; a waiting one has sent everything buffered; a finished one all of it and one end frame. |
| `Resume.ResumedClientHasTheBody` | src/hermes_vylen_gateway/relay.py:203-237 | A client that saw the first k chunk frames and resumed with cursor k ends with exactly the whole body, or all that was written when the writer was abandoned. |
| `Resume.OneTurnCatchesUp` | src/hermes_vylen_gateway/relay.py:203-237 | Undisturbed, one turn of a reader's loop sends every chunk after its cursor, one frame each, and then its end frame if the buffer is complete; otherwise it waits. |
| `Resume.WritingWakes` | src/hermes_vylen_gateway/relay.py:229-237 | Whatever the writer appends, and however it ends, brings every waiting reader back to the top of its loop. |
| `Resume.AttachedReadersStay` | src/hermes_vylen_gateway/relay.py:173-203 | A reader keeps the cursor it attached with until it is cancelled. |
| `Resume.NoReaderIsStuck` | src/hermes_vylen_gateway/relay.py:203-237 | A reader that is not done and not waiting always has a next step. |
| `Resume.NoWriterIsStuck` | src/hermes_vylen_gateway/relay.py:360-390 | A writer that is not done can always go on, and can be abandoned at any moment. |
| `Resume.StepTouches` | src/hermes_vylen_gateway/relay.py:203-237 | No step changes a reader but its own, except for waking it; a cancelled one is gone. |
| `Resume.WrittenIs` | src/hermes_vylen_gateway/relay.py:365-373 | The steps that write a chunk append all its parts and find the id exactly when the scanner does. |
| `Resume.SendChunkIsSteps` | src/hermes_vylen_gateway/relay.py:360-373 | The writer object's send_chunk is a dispatch followed by those steps, and its frames carry the chunks. |
| `Resume.FinishIsAStep` | src/hermes_vylen_gateway/relay.py:375-384 | The writer object's finish is the step. |
| `Resume.AbandonIsAStep` | src/hermes_vylen_gateway/relay.py:386-390 | After the writer object's abandon its readers see what the step leaves. |
| `Resume.SliceIsAStep` | src/hermes_vylen_gateway/relay.py:206-213 | A reader's slice of the buffer object is the step: what the step is about to send is that slice, and with the chunks before the cursor it makes the whole. |
| `Resume.CheckIsAStep` | src/hermes_vylen_gateway/relay.py:222-236 | What a reader does with the buffer object once its batch is sent is the step: it ends only at the end of a complete buffer and waits only at the end of an incomplete one. |
| `MemoryEntries.FirstDelimiter` | src/hermes_vylen_gateway/memory.py:32 | Where the first delimiter of a rendered list lies, with and without an entry that overlaps it. |
| `MemoryEntries.ParsedAreWellFormed` | src/hermes_vylen_gateway/memory.py:1052-1055 | Every parsed entry is non-empty, stripped and free of the delimiter. |
| `MemoryEntries.RoundTrip` | src/hermes_vylen_gateway/memory.py:797-798 | Parsing a rendered list gives it back exactly when every entry is non-empty and stripped, none contains the delimiter, and none but the last ends in newline and section sign. |
| `MemoryEntries.ReparseAgreesUnlessOverlap` | src/hermes_vylen_gateway/memory.py:1052-1055 | The entries read from a file, written back, read the same exactly when none but the last ends in newline and section sign. |
| `MemoryEntries.ReparseCanDiffer` | src/hermes_vylen_gateway/memory.py:1052-1055 | Parsing is not a canonicalisation: a file whose parsed entries, written back, parse differently. |
| `MemoryStore.MovedIsPermutation` | src/hermes_vylen_gateway/memory.py:606-612 | Reordering is a permutation. |
| `MemoryStore.MovedPlaces` | src/hermes_vylen_gateway/memory.py:606-612 | The moved entry lands just before what was at the destination, and the others keep their order. |
| `MemoryStore.RunEdits` | src/hermes_vylen_gateway/memory.py:588-626 | The loop over the operations computes the fold of single edits, the first failure ending it. |
| `MemoryMeaning.EditMeans` | src/hermes_vylen_gateway/memory.py:588-626 | Add appends the stripped content; replace puts it at its index and changes nothing else; remove takes out just the entry at its index; reorder moves one entry and keeps the others' order; each is refused exactly for a bad index or blank content. |
| `MemoryMeaning.EditsMean` | src/hermes_vylen_gateway/memory.py:588-615 | Each edit works on the list the one before it left; the first that is refused refuses them all, with its own error. |
| `MemoryMeaning.ValidateReports` | src/hermes_vylen_gateway/memory.py:629-641 | The fault reported is that of the first entry at fault, repeating before risky, and the size only when no entry is at fault. |
| `MemoryMeaning.OneEditWrite` | src/hermes_vylen_gateway/memory.py:201-222 | A successful write of one edit reports, and has put in the file, what that edit makes of the entries read. |
| `MemoryMeaning.WriteMeans` | src/hermes_vylen_gateway/memory.py:201-234 | A write succeeds exactly under its conditions and is otherwise refused for the first that fails; the state after it either way. |
| `MemoryMeaning.SnapshotMeans` | src/hermes_vylen_gateway/memory.py:267-284 | A snapshot is granted unless it names another revision, and then holds the text read. |
| `MemoryMeaning.RestoreMeans` | src/hermes_vylen_gateway/memory.py:311-346 | What a restore checks, in order, and what it leaves behind. |
| `MemoryMeaning.ProposeMeans` | src/hermes_vylen_gateway/memory.py:383-421 | A draft that is not empty and fits the list becomes a pending proposal to add it; anything else changes nothing. |
| `MemoryMeaning.ReviseMeans` | src/hermes_vylen_gateway/memory.py:424-449 | Revising changes only a pending proposal, to the new draft. |
| `MemoryMeaning.RejectMeans` | src/hermes_vylen_gateway/memory.py:493-506 | Rejecting settles a pending proposal and changes nothing else. |
| `MemoryMeaning.ApplyMeans` | src/hermes_vylen_gateway/memory.py:469-490 | Applying a pending proposal is a write of its edits against the current text, and settles it if that succeeds. |
| `MemoryMeaning.DraftKeepsWords` | src/hermes_vylen_gateway/memory.py:572-575 | A draft is the words of the text, from where a remember-this opening ends. |
| `MemoryMeaning.CollapseKeepsWords` | src/hermes_vylen_gateway/memory.py:573 | Collapsing white space keeps the words and leaves no two blanks together. |
| `MemoryMeaning.LineEndsReadAlike` | src/hermes_vylen_gateway/memory.py:786-790 | A text reads the same whichever of the three line ends its file uses. |
| `MemoryStore.EditsKeepTidy` | src/hermes_vylen_gateway/memory.py:588-615 | Edits keep every entry non-empty and stripped. |
| `MemoryStore.ValidateMeaning` | src/hermes_vylen_gateway/memory.py:629-641 | Validation passes exactly the lists without duplicates, without risky entries and within a positive limit. |
| `MemoryStore.CheckEntries` | src/hermes_vylen_gateway/memory.py:629-641 | The loop with its seen-set reports the first fault in entry order, the size last. |
| `MemoryStore.ReadsBackUnlessCR` | src/hermes_vylen_gateway/memory.py:786-790 | A written text reads back as written exactly when it has no carriage return. |
| `MemoryStore.DraftHasNoCR` | src/hermes_vylen_gateway/memory.py:572-575 | A drafted entry never holds a carriage return. |
| `MemoryStore.DraftIsWellFormed` | src/hermes_vylen_gateway/memory.py:572-575 | A drafted entry is one line: it neither contains nor overlaps the delimiter. |
| `MemoryRuns.WriteRefusals` | src/hermes_vylen_gateway/memory.py:201-222 | A write is refused before it begins, and then nothing changed, or after the file was replaced, exactly when the new text holds a carriage return. |
| `MemoryRuns.RefusedWriteCanChangeTheFile` | src/hermes_vylen_gateway/memory.py:217-222 | So a refused write can leave the file changed: a concrete one does. |
| `MemoryRuns.WriteReadsBack` | src/hermes_vylen_gateway/memory.py:201-222 | A successful write was made against the text the caller had seen, and reading it back gives the reported entries exactly under the round-trip condition. |
| `MemoryRuns.AddedDraftReadsBack` | src/hermes_vylen_gateway/memory.py:469-480 | Adding a drafted entry reads back as the earlier entries and the new one exactly when none of the earlier ones overlaps the delimiter. |
| `MemoryRuns.Footprint` | src/hermes_vylen_gateway/memory.py:201-234 | Any request leaves files and snapshots alone or first keeps the text of its one target. |
| `MemoryRuns.SnapshotsNeverChange` | src/hermes_vylen_gateway/memory.py:851-870 | Over any run no snapshot changes. |
| `MemoryRuns.ReplacedTextIsKept` | src/hermes_vylen_gateway/memory.py:216-217 | Every text replaced by a write, a restore or a proposal is kept as a snapshot. |
| `MemoryRuns.RestoreBringsBack` | src/hermes_vylen_gateway/memory.py:311-346 | A restore succeeds exactly when it names no revision or that of the current text, and the kept text passes validation; then the file reads as that text, and otherwise nothing changes. |
| `MemoryRuns.ReplacedTextCanBeRestored` | src/hermes_vylen_gateway/memory.py:311-346 | The text replaced by any request can be restored after any later requests exactly when the restore names no revision or that of the text then current, and the kept text passes validation. |
| `MemoryRuns.HandleKeepsQuiet` | src/hermes_vylen_gateway/memory.py:383-448 | No request puts a carriage return into a proposal or a snapshot. |
| `MemoryRuns.RunKeepsQuiet` | src/hermes_vylen_gateway/memory.py:383-448 | So no run does. |
| `MemoryRuns.ProposalStep` | src/hermes_vylen_gateway/memory.py:469-506 | Applying takes effect only from pending and ends it; a settled proposal stays settled. |
| `MemoryRuns.ProposalTakesEffectAtMostOnce` | src/hermes_vylen_gateway/memory.py:469-506 | Over any run a proposal's operations take effect at most once, and never once it is applied or rejected. |
| `MemoryRuns.EveryProposalTakesEffectAtMostOnce` | src/hermes_vylen_gateway/memory.py:469-506 | In every run from nothing, a proposal whose id is generated once takes effect at most once. |
| `MemoryRuns.RefusedRequestChangesNothing` | src/hermes_vylen_gateway/memory.py:201-506 | A refused request leaves everything as it was, except exactly a write that passes every earlier check and whose new text holds a carriage return; that one is refused with its text in the file. |
| `MemoryRuns.RefusalsInEveryRun` | src/hermes_vylen_gateway/memory.py:201-506 | So it is in every state a run from nothing comes to. |
| `MemoryRuns.MemoryFiles.WriteMemory` | src/hermes_vylen_gateway/memory.py:201-234 | Compare, edit, validate, snapshot, replace, verify: the state and reply of the specification. |
| `MemoryRuns.MemoryFiles.CreateSnapshot` | src/hermes_vylen_gateway/memory.py:267-284 | A snapshot keeps the current text, unless a given revision does not match. |
| `MemoryRuns.MemoryFiles.RestoreSnapshot` | src/hermes_vylen_gateway/memory.py:311-359 | Validate, compare, keep a rollback snapshot, replace, verify. |
| `MemoryRuns.MemoryFiles.DraftEdits` | src/hermes_vylen_gateway/memory.py:388-397 | A drafted entry is refused when empty or when the list with it fails validation. |
| `MemoryRuns.MemoryFiles.CreateProposal` | src/hermes_vylen_gateway/memory.py:383-421 | A valid draft becomes a pending proposal. |
| `MemoryRuns.MemoryFiles.UpdateProposal` | src/hermes_vylen_gateway/memory.py:424-449 | Only a pending proposal is revised. |
| `MemoryRuns.MemoryFiles.ApplyProposal` | src/hermes_vylen_gateway/memory.py:469-490 | The write comes first; only its success marks the proposal applied. |
| `MemoryRuns.MemoryFiles.RejectProposal` | src/hermes_vylen_gateway/memory.py:493-506 | Only a pending proposal is rejected. |
| `ResourcePressure.BucketState.constructor` | src/hermes_vylen_gateway/resource_pressure.py:63-66 | A sampler starts unknown, with no candidate. |
| `ResourcePressure.BucketState.Move` | src/hermes_vylen_gateway/resource_pressure.py:68-81 | The transition: stay, start a candidate, or follow one that has lasted its dwell time. |
| `ResourcePressure.BucketState.SetImmediate` | src/hermes_vylen_gateway/resource_pressure.py:83-87 | The bucket is set at once and the candidate dropped. |
| `ResourcePressure.BucketState.UpdateCpu` | src/hermes_vylen_gateway/resource_pressure.py:90-114 | The branches over the CPU reading compute the decision rule. |
| `ResourcePressure.BucketState.UpdateMemory` | src/hermes_vylen_gateway/resource_pressure.py:117-153 | The branches over the memory reading compute the decision rule. |
| `ResourcePressure.CpuIsDisciplined` | src/hermes_vylen_gateway/resource_pressure.py:91-114 | The CPU thresholds use only the dwell times 15, 30 and 60 between the three buckets. |
| `ResourcePressure.MemoryIsDisciplined` | src/hermes_vylen_gateway/resource_pressure.py:118-153 | So do the memory conditions. |
| `ResourcePressure.ChangesTakeTime` | src/hermes_vylen_gateway/resource_pressure.py:68-81 | From a fresh sampler with readings present and a non-decreasing clock, n bucket changes take at least the least time (0, 15, 45, 90 seconds for none to three, and 105 more for every three further), for any readings and spacing. |
| `ResourcePressure.CpuChangesTakeTime` | src/hermes_vylen_gateway/resource_pressure.py:90-114 | The bound for the CPU thresholds. |
| `ResourcePressure.MemoryChangesTakeTime` | src/hermes_vylen_gateway/resource_pressure.py:117-153 | The bound for the memory conditions. |
| `ResourcePressure.FastestCounts` | src/hermes_vylen_gateway/resource_pressure.py:68-81 | For every n above zero there are samples whose n-th change comes at exactly the least time, under any rule with readings that steer it. |
| `ResourcePressure.CpuChangesFitExactly` | src/hermes_vylen_gateway/resource_pressure.py:90-114 | A fresh CPU sampler can change n times within a time exactly when that is at least the least time, for every n. |
| `ResourcePressure.MemoryChangesFitExactly` | src/hermes_vylen_gateway/resource_pressure.py:117-153 | So can the memory sampler. |
| `ResourcePressure.SustainedReadingsWin` | src/hermes_vylen_gateway/resource_pressure.py:68-81 | Readings that all argue for one bucket for its dwell time end in it, from any state and for any spacing. |
| `ResourcePressure.SustainedCpu` | src/hermes_vylen_gateway/resource_pressure.py:91-114 | 15 seconds of readings of 90 or more end critical; 60 seconds below 65 end ok. |
| `ResourcePressure.SustainedMemory` | src/hermes_vylen_gateway/resource_pressure.py:118-153 | The same for memory, with its enter and exit conditions. |
| `ResourcePressure.ChangesAreEarned` | src/hermes_vylen_gateway/resource_pressure.py:68-81 | A bucket changes only to one that every reading of a stretch up to that moment has argued for, and the stretch is at least as long as the dwell time of that change. |
| `ResourcePressure.CpuWantsExactly` | src/hermes_vylen_gateway/resource_pressure.py:90-114 | For which CPU readings each bucket is wanted, and so in which bands the bucket stays. |
| `ResourcePressure.MemoryWantsExactly` | src/hermes_vylen_gateway/resource_pressure.py:117-153 | For which memory readings each bucket is wanted. |
| `ResourcePressure.CpuBandsHold` | src/hermes_vylen_gateway/resource_pressure.py:90-114 | Readings within the band of a bucket leave it as it is, however many and however spaced. |
| `ResourcePressure.MissingReadingForgets` | src/hermes_vylen_gateway/resource_pressure.py:91-92 | A missing reading makes the bucket unknown at once and forgets what was pending. |
| `ResourcePressure.SustainedCpuIsReported` | src/hermes_vylen_gateway/resource_pressure.py:90-114 | Whatever was sampled before, with or without readings, the sampler itself reports critical after 15 seconds of readings of 90 or more, and ok after 60 below 65. |
| `StreamResponse.ResponseStream.constructor` | src/hermes_vylen_gateway/agent_runner.py:771-778 | A stream begins with nothing sent and nothing stored. |
| `StreamResponse.ResponseStream.Emit` | src/hermes_vylen_gateway/agent_runner.py:780-784 | Each event takes the next sequence number. |
| `StreamResponse.ResponseStream.Persist` | src/hermes_vylen_gateway/agent_runner.py:795-809 | An envelope is stored only when storing is on. |
| `StreamResponse.ResponseStream.OpenMessage` | src/hermes_vylen_gateway/agent_runner.py:816-833 | The message is announced once, under the next output index. |
| `StreamResponse.ResponseStream.EmitDelta` | src/hermes_vylen_gateway/agent_runner.py:835-845 | A delta opens the message if needed and extends the text. |
| `StreamResponse.ResponseStream.EmitToolStarted` | src/hermes_vylen_gateway/agent_runner.py:847-873 | A call is announced and remembered under its id, given or made up. |
| `StreamResponse.ResponseStream.EmitToolCompleted` | src/hermes_vylen_gateway/agent_runner.py:875-917 | A pending call is reported done, then its output announced and done; an unknown call is ignored. |
| `StreamResponse.ResponseStream.Drain` | src/hermes_vylen_gateway/agent_runner.py:919-936 | The loop handles the queued items in order. |
| `StreamResponse.ResponseStream.Finish` | src/hermes_vylen_gateway/agent_runner.py:938-990 | Final text, closing events, the stored envelope and the terminal event. |
| `StreamResponse.ResponseStream.Stream` | src/hermes_vylen_gateway/agent_runner.py:771-990 | The whole stream, from the created event to the terminal one. |
| `StreamResponse.ToolCompletedKeepsLive` | src/hermes_vylen_gateway/agent_runner.py:875-917 | The three events of a completion are accepted: the call is done, and its output follows its own call. |
| `StreamResponse.AcceptedIsUnderstood` | src/hermes_vylen_gateway/agent_runner.py:780-784 | What an accepting client may conclude: event numbers 0, 1, 2, ...; announced indexes 0, 1, 2, ...; each done event names an index announced earlier and not yet done; the collected text is that of the deltas. |
| `StreamResponse.AcceptedEndsOnce` | src/hermes_vylen_gateway/agent_runner.py:970-990 | An accepted stream has ended exactly when its last event is the terminal one, and no earlier event is. |
| `StreamResponse.StreamIsAccepted` | src/hermes_vylen_gateway/agent_runner.py:771-990 | For every sequence of deltas, tool items and every outcome, a checking client accepts the whole stream: outputs follow their calls, the final output lists the announced tool items and the text, the terminal envelope is the last stored, and it is failed exactly when the agent's error text is not empty. |
| `StreamResponse.StreamEvents` | src/hermes_vylen_gateway/agent_runner.py:771-990 | The same said of the events sent. |
| `StreamResponse.FinalTextIsTheDeltas` | src/hermes_vylen_gateway/agent_runner.py:941-951 | The final text is the concatenation of the streamed deltas or, if there were none, the final response of a success. |
| `StreamResponse.TerminalEventMeans` | src/hermes_vylen_gateway/agent_runner.py:938-990 | The terminal event in terms of queue and outcome alone: failed exactly for an exception with a text or a run that reported failure, with which error, usage and text; and it is what was last stored. |
| `StreamResponse.OneDeltaEach` | src/hermes_vylen_gateway/agent_runner.py:816-845 | A stream sends one delta for each the agent gave, or a single one for the non-empty final response of a success that gave none, and announces one message exactly if it sends any. |
| `StreamCalls.CallsLostAreThoseRepeated` | src/hermes_vylen_gateway/agent_runner.py:847-917 | Of the calls a stream announces, those neither reported done nor left pending are exactly as many as were started under an id, given or made up, that was pending then; none is lost exactly when that never happens. |
| `StreamCalls.CallIsDoneIffItsIdIsCompleted` | src/hermes_vylen_gateway/agent_runner.py:847-917 | The call that an item starts is reported done exactly when a later completion carries the id it was announced under, given or made up, before another call is started under that id. |
| `StreamCalls.UnnamedCompletionIsIgnored` | src/hermes_vylen_gateway/agent_runner.py:875-880 | A completion without an id changes nothing, so a call that was given none is reported done only for its made-up id. |
| `StreamResponse.SilentExceptionCompletes` | src/hermes_vylen_gateway/agent_runner.py:947-976 | An exception with an empty message is reported as completed. |
| `StreamCalls.MadeUpCallIdsCanRepeat` | src/hermes_vylen_gateway/agent_runner.py:849-858 | Ids made from the number of pending calls can repeat: a queue of four items in which one does. |
| `StreamCalls.MadeUpCallIdsDiffer` | src/hermes_vylen_gateway/agent_runner.py:849 | Two made-up ids are the same exactly when as many calls were pending. |
| `Idempotency.RequestKeepsInv` | src/hermes_vylen_gateway/agent_runner.py:678-711 | A request keeps the invariant, whatever its two clock readings are. |
| `Idempotency.DoneKeepsInv` | src/hermes_vylen_gateway/agent_runner.py:694-701 | A completed build replaces the cached response of its key and keeps the invariant, whenever it thinks it is. |
| `Idempotency.ClearedKeepsInv` | src/hermes_vylen_gateway/agent_runner.py:706-710 | A cleanup callback removes only its own entry and keeps the invariant. |
| `Idempotency.RunKeepsInv` | src/hermes_vylen_gateway/agent_runner.py:678-718 | Any interleaving of requests, completions, failures, callbacks, wake-ups and sweeps keeps the invariant, under any clock. |
| `Idempotency.OneBuildAtATime` | src/hermes_vylen_gateway/agent_runner.py:678-718 | In every run, under any clock, at most one build per (key, fingerprint) is unfinished, and every reply comes from a successful build of the same key and fingerprint. |
| `Idempotency.HitIsFreshSuccess` | src/hermes_vylen_gateway/agent_runner.py:679-689 | A request finds a cached answer exactly when the last success of its key is of its body and within its time limit by this reading and by every one taken since it succeeded. |
| `Idempotency.NewBuildOnlyWhenNeeded` | src/hermes_vylen_gateway/agent_runner.py:678-711 | Under any clock a request starts a build exactly when no build of it awaits its callback and the last success under its key is missing, of another body, or past the time limit by this reading or one taken since it succeeded. |
| `Idempotency.RequestIsServed` | src/hermes_vylen_gateway/agent_runner.py:678-718 | A request is answered from, or waits for, the build that serves it. |
| `Idempotency.EveryRequestIsAnsweredOnce` | src/hermes_vylen_gateway/agent_runner.py:678-718 | In every run, under any clock, the requests served by a build that succeeded are as many as the replies it has given and the requests still to be woken; with failures, each request has one reply, waits, or failed with its build. |
| `Idempotency.EndedBuildsRelease` | src/hermes_vylen_gateway/agent_runner.py:714-718 | A waiter is woken once its build has ended, gets the reply exactly if that succeeded, and waits no more. |
| `Idempotency.FailedBuildIsRetried` | src/hermes_vylen_gateway/agent_runner.py:694-718 | A failed build answers nobody and caches nothing; after its callback the next request builds anew. |
| `Idempotency.StepKeepsRunningNotCached` | src/hermes_vylen_gateway/agent_runner.py:678-718 | One step brings a cached answer beside a running build of the same request exactly when it is a request whose answer is too old by its first reading and not by its second, with no build of it under way. |
| `Idempotency.RunningBuildServesIffNoneStraddles` | src/hermes_vylen_gateway/agent_runner.py:678-718 | In every run from nothing a running build serves the requests for it, at every moment and by any reading, exactly when no request of the run straddles the time limit in that way. |
| `Idempotency.RepeatedRequestsShareABuild` | src/hermes_vylen_gateway/agent_runner.py:678-718 | Whatever happens in between and under any clock, a repeated request is served by the same build exactly when that is the last success of the key, where the last success answers it, and exactly when that build still awaits its callback, where it does not. |
| `Idempotency.PairedRunKeepsRunningNotCached` | src/hermes_vylen_gateway/agent_runner.py:681-711 | So in a run in which no request's two readings step back, every running build serves the requests for it. |
| `Idempotency.SteppingBackServesAnOldAnswer` | src/hermes_vylen_gateway/agent_runner.py:683-688 | A run of four steps from nothing in which one steps back: an older answer serves a request while its build runs. |
| `Text.CleanId` | src/hermes_vylen_gateway/chat_store.py:1140-1144 | A cleaned id is empty or has the id syntax; an id with the syntax is kept. |
| `Text.StripSplits` | src/hermes_vylen_gateway/memory.py:1052-1055 | str.strip removes blanks at both ends only. |
| `Order.AscendingSorts` | src/hermes_vylen_gateway/chat_store.py:733-739 | Ordering by stamp and id lists every key once, strictly ascending. |
| `Order.TextLessMeans` | src/hermes_vylen_gateway/chat_store.py:717-739 | Texts are compared lexicographically: they agree up to a position where the first ends or has the smaller character. |

## Left out

- adapter.py: turn, cancel, queue and card handling rest on base classes and a runner that are not part of this model.
- Run-status bookkeeping in agent_runner.py: an executor thread can still set a status after cancellation.
- SQLite mechanics (opening, quarantine, schema, WAL, vacuum, page counts): tables are maps and transactions single steps.
- In the chat store: titles' derivation, previews, creator columns, the deduplication, cursor and maintenance tables, the
  garbage-collection counters and the count of deleted rows; `ChatList` has its own rows with titles.
- A negative limit in the chat-store configuration, which SQLite would read as no limit.
- `drop` and the purge of a long-deleted chat restart its numbering: statements about numbers are per lifetime of a chat.
- EventLogRegistry and ResponseBufferRegistry (recency order, byte cap and grace sweeps): easy members, and a reader keeps
  the buffer it holds.
- The log step system takes any eviction that raises the floor; which events go, and when, is in `EventLog`.
- Keepalive intervals are time-outs that may fire at any moment; asyncio cancellation is a step that removes a tailer or reader.
- Failures of the transport while a frame is sent, other than the failed send of a push and the abandoned writer.
- Base64 of buffered responses, and the header rules behind `filter`; item ids, created-at times and model names of streamed events.
- Memory: metadata of snapshots and proposals, listing and previews, the health report; an id with wrong syntax counts as
  not found; files that are not valid UTF-8; edits made to a file by another process between two requests. Requests are
  steps because each handler runs without an await.
- The agent's event queue: items put after its end marker are not seen, in the program as here; thread hand-over is not modelled.
- The idempotency cache of runs (as opposed to responses), and the request parsing in front of both.
- WebSocket client, supervisor, relay ranking, health frames, command-line tools, configuration parsing, blobs,
  transcription, slash commands.
- LIKE's treatment of embedded NUL characters and its pattern length limit, which a query of at most 128 characters keeps.
- On Python 3.10 and 3.11 `asyncio.wait_for` begins to wait in a later turn of the loop than the clearing of the flag, so
  for tailers with a keepalive another tailer may clear a flag set in between; the step systems take clear, check and wait
  as one step. Such a tailer goes on when its keepalive times out.
- ChatStore.ChatStateStore.constructor: the model starts with an empty database; the program opens what it finds.
- ChatStore.ChatStateStore.Insert: leaves out the title, preview and creator columns.
- ChatStore.ChatStateStore.AppendEvent: leaves out the counters that request a sweep; the bump is a step of `ChatTailers`.
- ChatStore.ChatStateStore.RenameChat: leaves out the title column; a rename is its event.
- ChatStore.ChatStateStore.TombstoneForGc: the tombstone's payload and size are stand-ins for its JSON text.
- ChatStore.ChatStateStore.Sweep: leaves out deduplication rows, the maintenance entry and the counters; its bumps are steps
  of `ChatTailers`.
- ChatCursor.HandleSnapshot: an exception raised after the store has answered is not modelled; one the store raises is a
  parameter.
- Relay.FrameStreamWriter.Abandon: the registry from which the buffer's entry is dropped is not modelled.
- ChatCursor.SentFrameIsLongest: that no longer prefix fits at all, and not just the next one, is stated for frames that grow with
  their events, as JSON texts do; the rest holds for any size function.
- Memory use, fairness and liveness beyond termination: a wake-up in flight is assumed to arrive.

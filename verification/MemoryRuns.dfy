/** What every sequence of memory requests keeps, and the store object that handles them. */
module MemoryRuns {
  import opened Basics
  import opened Text
  import opened MemoryEntries
  import opened MemoryStore

  // --- refusals

  ghost predicate QuietEdits(edits: seq<Edit>) {
    forall i | 0 <= i < |edits| && (edits[i].Add? || edits[i].Replace?) :: !HasCR(edits[i].content)
  }

  ghost predicate QuietEntries(entries: seq<string>) {
    forall i | 0 <= i < |entries| :: !HasCR(entries[i])
  }

  lemma PartHasNoCR(s: string, lo: nat, hi: nat)
    requires lo <= hi <= |s| && !HasCR(s)
    ensures !HasCR(s[lo..hi])
  {
    assert forall i | 0 <= i < hi - lo :: s[lo..hi][i] == s[lo + i];
  }

  lemma {:induction false} SplitIsQuiet(s: string)
    requires !HasCR(s)
    ensures QuietEntries(Split(s))
  {
    match FindFrom(s, 0)
    case None =>
    case Some(i) =>
      PartHasNoCR(s, 0, i);
      PartHasNoCR(s, i + 3, |s|);
      SplitIsQuiet(s[i + 3..]);
  }

  lemma {:induction false} NonBlankIsQuiet(pieces: seq<string>)
    requires QuietEntries(pieces)
    ensures QuietEntries(NonBlank(pieces))
  {
    if pieces != [] {
      StripHasNoCR(pieces[0]);
      assert forall i | 0 <= i < |pieces| - 1 :: pieces[1..][i] == pieces[i + 1];
      NonBlankIsQuiet(pieces[1..]);
    }
  }

  lemma ParsedIsQuiet(raw: string)
    requires !HasCR(raw)
    ensures QuietEntries(ParseEntries(raw))
  {
    SplitIsQuiet(raw);
    NonBlankIsQuiet(Split(raw));
  }

  lemma {:induction false} RenderIsQuiet(entries: seq<string>)
    requires QuietEntries(entries)
    ensures !HasCR(RenderEntries(entries))
  {
    if |entries| > 1 {
      assert forall i | 0 <= i < |entries| - 1 :: entries[1..][i] == entries[i + 1];
      RenderIsQuiet(entries[1..]);
      var a, b := entries[0], RenderEntries(entries[1..]);
      assert !HasCR(DELIMITER);
      var s := a + DELIMITER + b;
      assert forall i | 0 <= i < |s| :: s[i] in a || s[i] in DELIMITER || s[i] in b;
    }
  }

  lemma {:induction false} EditsKeepQuiet(entries: seq<string>, edits: seq<Edit>)
    requires QuietEntries(entries) && QuietEdits(edits) && ApplyEdits(entries, edits).Ok?
    ensures QuietEntries(ApplyEdits(entries, edits).value)
    decreases |edits|
  {
    if edits != [] {
      var next := ApplyEdit(entries, edits[0]).value;
      if edits[0].Add? || edits[0].Replace? {
        StripHasNoCR(edits[0].content);
      }
      if edits[0].Reorder? {
        MovedIsPermutation(entries, edits[0].source.value, edits[0].dest.value);
        forall k | 0 <= k < |next|
          ensures !HasCR(next[k])
        {
          assert next[k] in multiset(entries);
        }
      }
      assert forall i | 0 <= i < |edits| - 1 :: edits[1..][i] == edits[i + 1];
      EditsKeepQuiet(next, edits[1..]);
    }
  }

  lemma ReadHasNoCR(s: State, t: Target)
    ensures !HasCR(Read(s, t))
  {
    if t in s.files {
      UniversalHasNoCR(s.files[t]);
    }
  }

  /**
   * A write is refused in two ways. Before it begins, and then nothing changed; or because the text it has already put
   * in the file does not read back, which happens exactly when that text holds a carriage return.
   */
  lemma WriteRefusals(env: Env, s: State, t: Target, expected: string, edits: seq<Edit>, limit: int, freshId: string)
    requires Collisionless(env)
    ensures var plan := PlanWrite(env, s, t, expected, edits, limit);
            var s' := WriteEffect(env, s, t, expected, edits, limit, freshId);
            var r := WriteReply(env, s, t, expected, edits, limit, freshId);
            && (plan.Err? ==> s' == s && r == Err(plan.error))
            && (plan.Ok? ==> s'.files[t] == RenderEntries(plan.value))
            && (plan.Ok? ==> (r == Err(WriteVerifyFailed) <==> HasCR(RenderEntries(plan.value))))
            && (plan.Ok? && r.Ok? ==> Read(s', t) == RenderEntries(plan.value))
    ensures QuietEdits(edits) ==>
              (WriteReply(env, s, t, expected, edits, limit, freshId).Err?
               <==> PlanWrite(env, s, t, expected, edits, limit).Err?)
  {
    var plan := PlanWrite(env, s, t, expected, edits, limit);
    if plan.Ok? {
      ReadsBackUnlessCR(RenderEntries(plan.value));
      if QuietEdits(edits) {
        ReadHasNoCR(s, t);
        ParsedIsQuiet(Read(s, t));
        EditsKeepQuiet(ParseEntries(Read(s, t)), edits);
        RenderIsQuiet(plan.value);
      }
    }
  }

  /** So a refusal can leave the file changed: adding "a CR b" to an empty memory is refused and is in the file. */
  lemma RefusedWriteCanChangeTheFile(env: Env, freshId: string) returns (s: State, edits: seq<Edit>)
    requires Collisionless(env) && !env.risky("a\rb")
    ensures WriteReply(env, s, Memory, env.hash(""), edits, 0, freshId) == Err(WriteVerifyFailed)
    ensures Read(WriteEffect(env, s, Memory, env.hash(""), edits, 0, freshId), Memory) != Read(s, Memory)
  {
    s, edits := State(map[], map[], map[]), [Add("a\rb")];
    var text := "a\rb";
    StripOfStripped(text);
    assert Strip("") == "";
    assert Strip(text) == text && [] + [text] == [text];
    assert ApplyEdit([], Add(text)) == Ok([text]);
    assert ApplyEdits([text], edits[1..]) == Ok([text]);
    ValidateMeaning(env.risky, 0, [text]);
    assert text[1] == '\r';
    WriteRefusals(env, s, Memory, env.hash(""), edits, 0, freshId);
  }

  /**
   * A successful write was made against the text the caller had seen, and reading it back gives the entries it reports
   * exactly when none of them contains the delimiter or, before another entry, overlaps one.
   */
  lemma WriteReadsBack(env: Env, s: State, t: Target, seen: string, edits: seq<Edit>, limit: int, freshId: string)
    requires Collisionless(env) && WriteReply(env, s, t, env.hash(seen), edits, limit, freshId).Ok?
    ensures seen == Read(s, t)
    ensures var entries := WriteReply(env, s, t, env.hash(seen), edits, limit, freshId).value.entries;
            var s' := WriteEffect(env, s, t, env.hash(seen), edits, limit, freshId);
            && Acceptable(env.risky, limit, entries)
            && (ParseEntries(Read(s', t)) == entries
                <==> (forall i | 0 <= i < |entries| :: !Contains(entries[i]))
                     && (forall i | 0 <= i < |entries| - 1 :: !Overlaps(entries[i])))
  {
    WriteRefusals(env, s, t, env.hash(seen), edits, limit, freshId);
    var entries := PlanWrite(env, s, t, env.hash(seen), edits, limit).value;
    ValidateMeaning(env.risky, limit, entries);
    ParsedAreWellFormed(seen);
    assert forall i | 0 <= i < |ParseEntries(seen)| :: WellFormed(ParseEntries(seen)[i]);
    EditsKeepTidy(ParseEntries(seen), edits);
    RoundTrip(entries);
  }

  /**
   * Adding a drafted entry reads back as the earlier entries and the new one exactly when none of the earlier entries
   * overlaps the delimiter written after it.
   */
  lemma AddedDraftReadsBack(env: Env, s: State, t: Target, text: string, limit: int, freshId: string)
    requires Collisionless(env)
    requires WriteReply(env, s, t, env.hash(Read(s, t)), [Add(Draft(env, text))], limit, freshId).Ok?
    ensures var before := ParseEntries(Read(s, t));
            var after := WriteEffect(env, s, t, env.hash(Read(s, t)), [Add(Draft(env, text))], limit, freshId);
            ParseEntries(Read(after, t)) == before + [Draft(env, text)]
            <==> forall i | 0 <= i < |before| :: !Overlaps(before[i])
  {
    var before, d := ParseEntries(Read(s, t)), Draft(env, text);
    var edits := [Add(d)];
    WriteReadsBack(env, s, t, Read(s, t), edits, limit, freshId);
    DraftIsWellFormed(env, text);
    ParsedAreWellFormed(Read(s, t));
    assert Strip(d) == d by { StripOfStripped(d); }
    assert edits[1..] == [] && ApplyEdits(before, edits) == Ok(before + [d]);
    var entries := before + [d];
    assert forall i | 0 <= i < |before| :: entries[i] == before[i];
    assert forall i | 0 <= i < |entries| :: WellFormed(entries[i]);
  }

  // --- runs

  /** A request with the size limit configured when it arrives and the id it generates. */
  datatype Call = Call(req: Request, limit: int, freshId: string)

  function After(env: Env, s: State, c: Call): State {
    Handle(env, s, c.req, c.limit, c.freshId).0
  }

  function ReplyTo(env: Env, s: State, c: Call): Reply {
    Handle(env, s, c.req, c.limit, c.freshId).1
  }

  /** The file a request may edit. */
  function TargetOf(s: State, req: Request): Option<Target> {
    match req
    case Write(t, _, _) => Some(t)
    case Snapshot(t, _) => Some(t)
    case Restore(t, _, _) => Some(t)
    case Apply(id) => if id in s.proposals then Some(s.proposals[id].target) else None
    case _ => None
  }

  /** The text of the target is kept as a snapshot, and then no other file is changed. */
  ghost predicate KeptFirst(s: State, n: State, t: Target, freshId: string) {
    && n.snapshots == s.snapshots[(t, freshId) := Read(s, t)]
    && (n.files == s.files || (t in n.files && n.files == s.files[t := n.files[t]]))
  }

  lemma WriteFootprint(env: Env, s: State, t: Target, expected: string, edits: seq<Edit>, limit: int, freshId: string)
    ensures var n := WriteEffect(env, s, t, expected, edits, limit, freshId); n == s || KeptFirst(s, n, t, freshId)
  {
  }

  lemma RestoreFootprint(env: Env, s: State, t: Target, id: string, expected: string, limit: int, freshId: string)
    ensures var n := RestoreEffect(env, s, t, id, expected, limit, freshId); n == s || KeptFirst(s, n, t, freshId)
  {
  }

  /** A request leaves files and snapshots as they were, or keeps the text of its one target first. */
  lemma Footprint(env: Env, s: State, c: Call)
    ensures var n, t := After(env, s, c), TargetOf(s, c.req);
            (n.files == s.files && n.snapshots == s.snapshots) || (t.Some? && KeptFirst(s, n, t.value, c.freshId))
  {
    match c.req
    case Write(t, expected, edits) => WriteFootprint(env, s, t, expected, edits, c.limit, c.freshId);
    case Restore(t, id, expected) => RestoreFootprint(env, s, t, id, expected, c.limit, c.freshId);
    case Apply(id) =>
      if IsPending(s, id) {
        var p := s.proposals[id];
        WriteFootprint(env, s, p.target, env.hash(Read(s, p.target)), p.edits, c.limit, c.freshId);
      }
    case _ =>
  }

  function Run(env: Env, s: State, calls: seq<Call>): State
    decreases |calls|
  {
    if calls == [] then s else Run(env, After(env, s, calls[0]), calls[1..])
  }

  ghost predicate Generates(calls: seq<Call>, id: string) {
    exists i | 0 <= i < |calls| :: calls[i].freshId == id
  }

  /** No request changes a snapshot, except one that happens to generate its very id. */
  lemma {:induction false} SnapshotsNeverChange(env: Env, s: State, calls: seq<Call>, t: Target, id: string)
    requires (t, id) in s.snapshots && !Generates(calls, id)
    ensures (t, id) in Run(env, s, calls).snapshots && Run(env, s, calls).snapshots[(t, id)] == s.snapshots[(t, id)]
    decreases |calls|
  {
    if calls != [] {
      var next := After(env, s, calls[0]);
      assert calls[0].freshId != id;
      assert (t, id) in next.snapshots && next.snapshots[(t, id)] == s.snapshots[(t, id)];
      assert forall i | 0 <= i < |calls| - 1 :: calls[1..][i] == calls[i + 1];
      SnapshotsNeverChange(env, next, calls[1..], t, id);
    }
  }

  /** Whatever request replaces the text of a file has kept the replaced text as the snapshot it generated. */
  lemma ReplacedTextIsKept(env: Env, s: State, c: Call, t: Target)
    requires Read(After(env, s, c), t) != Read(s, t)
    ensures (t, c.freshId) in After(env, s, c).snapshots && After(env, s, c).snapshots[(t, c.freshId)] == Read(s, t)
  {
    Footprint(env, s, c);
  }

  /** The caller names no revision, or that of the text the file now has. */
  predicate Matches(env: Env, s: State, t: Target, expected: string) {
    expected == "" || expected == env.hash(Read(s, t))
  }

  /**
   * A restore succeeds exactly when its revision matches and the kept text passes validation; then the file reads as
   * that text again, and otherwise nothing changes.
   */
  lemma RestoreBringsBack(env: Env, s: State, t: Target, id: string, expected: string, limit: int, freshId: string)
    requires Collisionless(env) && (t, id) in s.snapshots && !HasCR(s.snapshots[(t, id)])
    ensures var text := s.snapshots[(t, id)];
            var r := RestoreReply(env, s, t, id, expected, limit, freshId);
            var s' := RestoreEffect(env, s, t, id, expected, limit, freshId);
            && (r.Ok? <==> Matches(env, s, t, expected) && Acceptable(env.risky, limit, ParseEntries(text)))
            && (if r.Ok? then Read(s', t) == text else s' == s)
  {
    var text := s.snapshots[(t, id)];
    ReadsBackUnlessCR(text);
    ValidateMeaning(env.risky, limit, ParseEntries(text));
  }

  /**
   * The history of a file is never lost: the text replaced by any request can, after any later requests, be restored
   * exactly when the restore's revision matches and it passes validation, and then the file reads as it did.
   */
  lemma ReplacedTextCanBeRestored(env: Env, s: State, c: Call, t: Target, later: seq<Call>, expected: string,
                                  limit: int, freshId: string)
    requires Collisionless(env) && Read(After(env, s, c), t) != Read(s, t) && !Generates(later, c.freshId)
    ensures var now := Run(env, After(env, s, c), later);
            var r := RestoreReply(env, now, t, c.freshId, expected, limit, freshId);
            && (r.Ok? <==> Matches(env, now, t, expected) && Acceptable(env.risky, limit, ParseEntries(Read(s, t))))
            && (r.Ok? ==> Read(RestoreEffect(env, now, t, c.freshId, expected, limit, freshId), t) == Read(s, t))
  {
    ReplacedTextIsKept(env, s, c, t);
    SnapshotsNeverChange(env, After(env, s, c), later, t, c.freshId);
    ReadHasNoCR(s, t);
    RestoreBringsBack(env, Run(env, After(env, s, c), later), t, c.freshId, expected, limit, freshId);
  }

  // --- proposals

  /** Proposals are drafted text and snapshots are texts once read, so using either never fails after it has written. */
  ghost predicate Quiet(s: State) {
    QuietProposals(s.proposals) && QuietSnapshots(s.snapshots)
  }

  ghost predicate QuietProposals(proposals: map<string, Proposal>) {
    forall id | id in proposals :: QuietEdits(proposals[id].edits)
  }

  ghost predicate QuietSnapshots(snapshots: map<(Target, string), string>) {
    forall key | key in snapshots :: !HasCR(snapshots[key])
  }

  const EMPTY := State(map[], map[], map[])

  lemma SnapshotsStayQuiet(env: Env, s: State, c: Call)
    requires QuietSnapshots(s.snapshots)
    ensures QuietSnapshots(After(env, s, c).snapshots)
  {
    Footprint(env, s, c);
    if TargetOf(s, c.req).Some? {
      ReadHasNoCR(s, TargetOf(s, c.req).value);
    }
  }

  lemma DraftIsQuiet(env: Env, s: State, t: Target, text: string, limit: int)
    ensures var r := PlanDraft(env, s, t, text, limit); r.Ok? ==> QuietEdits(r.value)
  {
    DraftHasNoCR(env, text);
  }

  lemma ProposalsStayQuiet(env: Env, s: State, c: Call)
    requires QuietProposals(s.proposals)
    ensures QuietProposals(After(env, s, c).proposals)
  {
    match c.req
    case Propose(t, text) => DraftIsQuiet(env, s, t, text, c.limit);
    case Revise(id, text) =>
      if IsPending(s, id) {
        DraftIsQuiet(env, s, s.proposals[id].target, text, c.limit);
      }
    case _ =>
  }

  lemma HandleKeepsQuiet(env: Env, s: State, c: Call)
    requires Quiet(s)
    ensures Quiet(After(env, s, c))
  {
    SnapshotsStayQuiet(env, s, c);
    ProposalsStayQuiet(env, s, c);
  }

  /** Every state a run from nothing comes to is quiet. */
  lemma {:induction false} RunKeepsQuiet(env: Env, s: State, calls: seq<Call>)
    requires Quiet(s)
    ensures Quiet(Run(env, s, calls))
    decreases |calls|
  {
    if calls != [] {
      HandleKeepsQuiet(env, s, calls[0]);
      RunKeepsQuiet(env, After(env, s, calls[0]), calls[1..]);
    }
  }

  /** The call applies the proposal and the edits reach the file. */
  ghost predicate TakesEffect(env: Env, s: State, c: Call, id: string) {
    c.req == Apply(id) && (ReplyTo(env, s, c).Edited? || After(env, s, c).files != s.files)
  }

  ghost function Effects(env: Env, s: State, calls: seq<Call>, id: string): nat
    decreases |calls|
  {
    if calls == [] then 0
    else (if TakesEffect(env, s, calls[0], id) then 1 else 0) + Effects(env, After(env, s, calls[0]), calls[1..], id)
  }

  /** Applying takes effect only from pending and ends it; a settled proposal stays settled. */
  lemma ProposalStep(env: Env, s: State, c: Call, id: string)
    requires Collisionless(env) && Quiet(s) && id in s.proposals && c.freshId != id
    ensures id in After(env, s, c).proposals
    ensures TakesEffect(env, s, c, id) ==> IsPending(s, id) && !IsPending(After(env, s, c), id)
    ensures !IsPending(s, id) ==> !IsPending(After(env, s, c), id)
  {
    if c.req == Apply(id) && IsPending(s, id) {
      var p := s.proposals[id];
      WriteRefusals(env, s, p.target, env.hash(Read(s, p.target)), p.edits, c.limit, c.freshId);
    }
  }

  /** In every run a proposal's edits take effect at most once, and never once it is applied or rejected. */
  lemma {:induction false} ProposalTakesEffectAtMostOnce(env: Env, s: State, calls: seq<Call>, id: string)
    requires Collisionless(env) && Quiet(s) && id in s.proposals && !Generates(calls, id)
    ensures Effects(env, s, calls, id) <= (if IsPending(s, id) then 1 else 0)
    decreases |calls|
  {
    if calls != [] {
      assert calls[0].freshId != id;
      assert forall i | 0 <= i < |calls| - 1 :: calls[1..][i] == calls[i + 1];
      ProposalStep(env, s, calls[0], id);
      HandleKeepsQuiet(env, s, calls[0]);
      ProposalTakesEffectAtMostOnce(env, After(env, s, calls[0]), calls[1..], id);
    }
  }

  ghost predicate GeneratedOnce(calls: seq<Call>, id: string) {
    forall i, j | 0 <= i < j < |calls| :: !(calls[i].freshId == id && calls[j].freshId == id)
  }

  lemma OnlyGeneratedIdsAppear(env: Env, s: State, c: Call, id: string)
    requires id !in s.proposals
    ensures id in After(env, s, c).proposals ==> c.freshId == id
    ensures !TakesEffect(env, s, c, id)
  {
  }

  lemma {:induction false} EffectsOfNewProposal(env: Env, s: State, calls: seq<Call>, id: string)
    requires Collisionless(env) && Quiet(s) && id !in s.proposals && GeneratedOnce(calls, id)
    ensures Effects(env, s, calls, id) <= 1
    decreases |calls|
  {
    if calls != [] {
      var c, next, rest := calls[0], After(env, s, calls[0]), calls[1..];
      OnlyGeneratedIdsAppear(env, s, c, id);
      HandleKeepsQuiet(env, s, c);
      assert forall i | 0 <= i < |rest| :: rest[i] == calls[i + 1];
      if id in next.proposals {
        ProposalTakesEffectAtMostOnce(env, next, rest, id);
      } else {
        EffectsOfNewProposal(env, next, rest, id);
      }
    }
  }

  /** In every run from nothing, a proposal whose id is generated once takes effect at most once. */
  lemma EveryProposalTakesEffectAtMostOnce(env: Env, calls: seq<Call>, id: string)
    requires Collisionless(env) && GeneratedOnce(calls, id)
    ensures Effects(env, EMPTY, calls, id) <= 1
  {
    EffectsOfNewProposal(env, EMPTY, calls, id);
  }

  // --- refused requests

  /** The request is a write that passes every check made before the file is touched, and its new text holds a CR. */
  ghost predicate WritesCR(env: Env, s: State, c: Call) {
    c.req.Write? && var plan := PlanWrite(env, s, c.req.target, c.req.expected, c.req.edits, c.limit);
      plan.Ok? && HasCR(RenderEntries(plan.value))
  }

  /**
   * A refused request leaves everything as it was, unless it is such a write; and such a write is refused with its text
   * in the file. `freshId` is new, as generated ids are.
   */
  lemma RefusedRequestChangesNothing(env: Env, s: State, c: Call)
    requires Collisionless(env) && Quiet(s) && forall t: Target :: (t, c.freshId) !in s.snapshots
    ensures ReplyTo(env, s, c).Refused? ==> (After(env, s, c) == s <==> !WritesCR(env, s, c))
    ensures WritesCR(env, s, c) ==> ReplyTo(env, s, c) == Refused(WriteVerifyFailed)
  {
    match c.req
    case Write(t, expected, edits) =>
      WriteRefusals(env, s, t, expected, edits, c.limit, c.freshId);
      if WritesCR(env, s, c) {
        assert (t, c.freshId) in After(env, s, c).snapshots;
      }
    case Restore(t, id, expected) =>
      if (t, id) in s.snapshots {
        ReadsBackUnlessCR(s.snapshots[(t, id)]);
      }
    case Apply(id) =>
      if IsPending(s, id) {
        var p := s.proposals[id];
        WriteRefusals(env, s, p.target, env.hash(Read(s, p.target)), p.edits, c.limit, c.freshId);
      }
    case _ =>
  }

  /** So it is in every state that a run from nothing comes to. */
  lemma RefusalsInEveryRun(env: Env, calls: seq<Call>, c: Call)
    requires Collisionless(env) && forall t: Target :: (t, c.freshId) !in Run(env, EMPTY, calls).snapshots
    ensures var s := Run(env, EMPTY, calls);
            ReplyTo(env, s, c).Refused? ==> (After(env, s, c) == s <==> !WritesCR(env, s, c))
  {
    RunKeepsQuiet(env, EMPTY, calls);
    RefusedRequestChangesNothing(env, Run(env, EMPTY, calls), c);
  }

  // --- the store object

  class MemoryFiles {
    const env: Env
    var files: map<Target, string>
    var snapshots: map<(Target, string), string>
    var proposals: map<string, Proposal>

    function Contents(): State
      reads this
    {
      State(files, snapshots, proposals)
    }

    constructor (env: Env)
      ensures this.env == env && Contents() == State(map[], map[], map[])
    {
      this.env := env;
      files, snapshots, proposals := map[], map[], map[];
    }

    method WriteMemory(t: Target, expected: string, edits: seq<Edit>, limit: int, freshId: string)
      returns (r: Result<Written, Error>)
      modifies this`files, this`snapshots
      ensures Contents() == WriteEffect(env, old(Contents()), t, expected, edits, limit, freshId)
      ensures r == WriteReply(env, old(Contents()), t, expected, edits, limit, freshId)
    {
      if edits == [] {
        return Err(BadRequest);
      }
      var before := Read(Contents(), t);
      var previousHash := env.hash(before);
      if expected != previousHash {
        return Err(RevisionConflict);
      }
      var edited := RunEdits(ParseEntries(before), edits);
      if edited.Err? {
        return Err(edited.error);
      }
      var fault := CheckEntries(env.risky, limit, edited.value);
      if fault.Some? {
        return Err(fault.value);
      }
      var text := RenderEntries(edited.value);
      snapshots := snapshots[(t, freshId) := before];
      files := files[t := text];
      var newHash := env.hash(Read(Contents(), t));
      if newHash != env.hash(text) {
        return Err(WriteVerifyFailed);
      }
      return Ok(Written(previousHash, newHash, freshId, edited.value));
    }

    method CreateSnapshot(t: Target, expected: string, freshId: string) returns (r: Reply)
      modifies this`snapshots
      ensures (Contents(), r) == Handle(env, old(Contents()), Snapshot(t, expected), 0, freshId)
    {
      var text := Read(Contents(), t);
      if expected != "" && expected != env.hash(text) {
        return Refused(RevisionConflict);
      }
      snapshots := snapshots[(t, freshId) := text];
      return Done;
    }

    method RestoreSnapshot(t: Target, id: string, expected: string, limit: int, freshId: string)
      returns (r: Result<Written, Error>)
      modifies this`files, this`snapshots
      ensures Contents() == RestoreEffect(env, old(Contents()), t, id, expected, limit, freshId)
      ensures r == RestoreReply(env, old(Contents()), t, id, expected, limit, freshId)
    {
      if (t, id) !in snapshots {
        return Err(SnapshotNotFound);
      }
      var body := Universal(snapshots[(t, id)]);
      var fault := CheckEntries(env.risky, limit, ParseEntries(body));
      if fault.Some? {
        return Err(fault.value);
      }
      var before := Read(Contents(), t);
      if expected != "" && expected != env.hash(before) {
        return Err(RevisionConflict);
      }
      snapshots := snapshots[(t, freshId) := before];
      files := files[t := body];
      var newHash := env.hash(Read(Contents(), t));
      if newHash != env.hash(body) {
        return Err(WriteVerifyFailed);
      }
      return Ok(Written(env.hash(before), newHash, freshId, ParseEntries(body)));
    }

    method DraftEdits(t: Target, text: string, limit: int) returns (r: Result<seq<Edit>, Error>)
      ensures r == PlanDraft(env, Contents(), t, text, limit)
    {
      var content := Draft(env, text);
      if content == "" {
        return Err(BadProposal);
      }
      var fault := CheckEntries(env.risky, limit, ParseEntries(Read(Contents(), t)) + [content]);
      if fault.Some? {
        return Err(fault.value);
      }
      return Ok([Add(content)]);
    }

    method CreateProposal(t: Target, text: string, limit: int, freshId: string) returns (r: Reply)
      modifies this`proposals
      ensures (Contents(), r) == Handle(env, old(Contents()), Propose(t, text), limit, freshId)
    {
      var edits := DraftEdits(t, text, limit);
      if edits.Err? {
        return Refused(edits.error);
      }
      proposals := proposals[freshId := Proposal(t, Pending, edits.value)];
      return Done;
    }

    method UpdateProposal(id: string, text: string, limit: int, freshId: string) returns (r: Reply)
      modifies this`proposals
      ensures (Contents(), r) == Handle(env, old(Contents()), Revise(id, text), limit, freshId)
    {
      if !IsPending(Contents(), id) {
        return Refused(NotPending(Contents(), id));
      }
      var edits := DraftEdits(proposals[id].target, text, limit);
      if edits.Err? {
        return Refused(edits.error);
      }
      proposals := proposals[id := proposals[id].(edits := edits.value)];
      return Done;
    }

    /** The write happens first; the proposal is marked only after it succeeded. */
    method ApplyProposal(id: string, limit: int, freshId: string) returns (r: Reply)
      modifies this
      ensures (Contents(), r) == Handle(env, old(Contents()), Apply(id), limit, freshId)
    {
      if !IsPending(Contents(), id) {
        return Refused(NotPending(Contents(), id));
      }
      var p := proposals[id];
      var written := WriteMemory(p.target, env.hash(Read(Contents(), p.target)), p.edits, limit, freshId);
      if written.Err? {
        return Refused(written.error);
      }
      proposals := proposals[id := p.(status := Applied)];
      return Edited(written.value);
    }

    method RejectProposal(id: string, limit: int, freshId: string) returns (r: Reply)
      modifies this`proposals
      ensures (Contents(), r) == Handle(env, old(Contents()), Reject(id), limit, freshId)
    {
      if !IsPending(Contents(), id) {
        return Refused(NotPending(Contents(), id));
      }
      proposals := proposals[id := proposals[id].(status := Rejected)];
      return Done;
    }
  }
}

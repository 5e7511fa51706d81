/** What edits, drafts and memory requests come to, in terms of entries, files and proposals alone. */
module MemoryMeaning {
  import opened Basics
  import opened Text
  import opened MemoryEntries
  import opened MemoryStore
  import opened MemoryRuns

  // --- text

  predicate Blank(s: string) {
    forall i | 0 <= i < |s| :: IsSpace(s[i])
  }

  lemma BlankHasNoCore(s: string)
    ensures Strip(s) == "" <==> Blank(s)
  {
    var front, back := StripSplits(s);
    if Strip(s) == "" {
      assert forall i | 0 <= i < |s| :: s[i] == if i < |front| then front[i] else back[i - |front|];
    } else {
      assert s[|front|] == Strip(s)[0];
    }
  }

  lemma {:induction false} StripLeftOfBlank(blank: string, core: string)
    requires Blank(blank) && (core != "" ==> !IsSpace(core[0]))
    ensures StripLeft(blank + core) == core
  {
    if blank == "" {
      assert blank + core == core;
    } else {
      assert (blank + core)[1..] == blank[1..] + core;
      StripLeftOfBlank(blank[1..], core);
    }
  }

  lemma {:induction false} StripRightOfBlank(core: string, blank: string)
    requires Blank(blank) && (core != "" ==> !IsSpace(core[|core| - 1]))
    ensures StripRight(core + blank) == core
  {
    if blank == "" {
      assert core + blank == core;
    } else {
      var s := core + blank;
      assert s[|s| - 1] == blank[|blank| - 1] && s[..|s| - 1] == core + blank[..|blank| - 1];
      StripRightOfBlank(core, blank[..|blank| - 1]);
    }
  }

  /** Stripping gives the one stripped text that the blanks at both ends enclose. */
  lemma StripIsTheCore(front: string, core: string, back: string)
    requires Blank(front) && Blank(back) && core != "" && Stripped(core)
    ensures Strip(front + core + back) == core
  {
    assert front + core + back == front + (core + back);
    StripLeftOfBlank(front, core + back);
    StripRightOfBlank(core, back);
  }

  /** The text with every line end written in another way. */
  function WithEnds(s: string, end: string): string {
    if s == "" then "" else (if s[0] == '\n' then end else [s[0]]) + WithEnds(s[1..], end)
  }

  /** A text reads the same whichever of the three line ends its file uses. */
  lemma {:induction false} LineEndsReadAlike(s: string)
    requires !HasCR(s)
    ensures Universal(WithEnds(s, "\r\n")) == s
    ensures Universal(WithEnds(s, "\r")) == s
  {
    if s != "" {
      assert forall i | 0 <= i < |s| - 1 :: s[1..][i] == s[i + 1];
      LineEndsReadAlike(s[1..]);
      var pairs, singles := WithEnds(s[1..], "\r\n"), WithEnds(s[1..], "\r");
      if s[0] == '\n' {
        assert ("\r\n" + pairs)[2..] == pairs && ("\r" + singles)[1..] == singles;
        SinglesHoldNoLineFeed(s[1..]);
        assert |s| > 1 ==> singles != "" && ("\r" + singles)[1] == singles[0] != '\n';
      } else {
        assert ([s[0]] + pairs)[1..] == pairs && ([s[0]] + singles)[1..] == singles;
      }
    }
  }

  lemma {:induction false} SinglesHoldNoLineFeed(s: string)
    ensures s != "" ==> WithEnds(s, "\r") != "" && WithEnds(s, "\r")[0] != '\n'
    ensures s == "" ==> WithEnds(s, "\r") == ""
  {
  }

  // --- edits

  /** The entry at i is gone, and the others keep their order. */
  ghost predicate Without(before: seq<string>, i: int, after: seq<string>) {
    && 0 <= i < |before| && |after| == |before| - 1
    && (forall k | 0 <= k < i :: after[k] == before[k])
    && forall k | i <= k < |after| :: after[k] == before[k + 1]
  }

  /** What one edit makes of a list, or why it is refused. */
  ghost predicate Edits(before: seq<string>, edit: Edit, r: Result<seq<string>, Error>) {
    match edit
    case Add(content) =>
      if Blank(content) then r == Err(BadRequest)
      else
        && r.Ok? && |r.value| == |before| + 1 && r.value[|before|] == Strip(content)
        && forall k | 0 <= k < |before| :: r.value[k] == before[k]
    case Replace(index, content) =>
      if index.None? || index.value < 0 || index.value >= |before| || Blank(content) then r == Err(BadRequest)
      else
        && r.Ok? && |r.value| == |before| && r.value[index.value] == Strip(content)
        && forall k | 0 <= k < |before| && k != index.value :: r.value[k] == before[k]
    case Remove(index) =>
      if index.None? || index.value < 0 || index.value >= |before| then r == Err(BadRequest)
      else r.Ok? && Without(before, index.value, r.value)
    case Reorder(source, dest) =>
      if source.None? || source.value < 0 || source.value >= |before| then r == Err(BadRequest)
      else if dest.None? || dest.value < 0 || dest.value > |before| then r == Err(BadRequest)
      else
        var at := if dest.value > source.value then dest.value - 1 else dest.value;
        && r.Ok? && |r.value| == |before| && r.value[at] == before[source.value]
        && r.value[..at] + r.value[at + 1..] == before[..source.value] + before[source.value + 1..]
    case Unsupported => r == Err(BadOperation)
  }

  lemma EditMeans(entries: seq<string>, edit: Edit)
    ensures Edits(entries, edit, ApplyEdit(entries, edit))
  {
    match edit
    case Add(content) => BlankHasNoCore(content);
    case Replace(_, content) => BlankHasNoCore(content);
    case Reorder(source, dest) =>
      if InRange(source, |entries| - 1) && InRange(dest, |entries|) {
        MovedPlaces(entries, source.value, dest.value);
      }
    case _ =>
  }

  /** The lists an accepted sequence of edits passes through. */
  ghost predicate Passes(before: seq<string>, edits: seq<Edit>, lists: seq<seq<string>>) {
    && |lists| == |edits| + 1 && lists[0] == before
    && forall k | 0 <= k < |edits| :: Edits(lists[k], edits[k], Ok(lists[k + 1]))
  }

  /** The edits up to the k-th are accepted and come to a list for which the k-th is refused. */
  ghost predicate FailsAt(before: seq<string>, edits: seq<Edit>, lists: seq<seq<string>>, k: int, e: Error) {
    && 0 <= k < |edits| && Passes(before, edits[..k], lists)
    && Edits(lists[k], edits[k], Err(e))
  }

  lemma PassesBefore(before: seq<string>, edit: Edit, next: seq<string>, edits: seq<Edit>, lists: seq<seq<string>>)
    requires Edits(before, edit, Ok(next)) && Passes(next, edits, lists)
    ensures Passes(before, [edit] + edits, [before] + lists)
  {
    var all, steps := [before] + lists, [edit] + edits;
    forall k | 0 <= k < |steps|
      ensures Edits(all[k], steps[k], Ok(all[k + 1]))
    {
      if k > 0 {
        assert Edits(lists[k - 1], edits[k - 1], Ok(lists[k]));
      }
    }
  }

  /** Each edit works on the list the one before it left; the first that is refused refuses them all. */
  lemma {:induction false} EditsMean(entries: seq<string>, edits: seq<Edit>)
    returns (lists: seq<seq<string>>, k: int)
    ensures match ApplyEdits(entries, edits)
            case Ok(after) => Passes(entries, edits, lists) && lists[|edits|] == after
            case Err(e) => FailsAt(entries, edits, lists, k, e)
    decreases |edits|
  {
    lists, k := [entries], 0;
    if edits != [] {
      EditMeans(entries, edits[0]);
      var r := ApplyEdit(entries, edits[0]);
      assert edits == [edits[0]] + edits[1..] && edits[..0] == [];
      if r.Ok? {
        lists, k := EditsMean(r.value, edits[1..]);
        if ApplyEdits(r.value, edits[1..]).Ok? {
          PassesBefore(entries, edits[0], r.value, edits[1..], lists);
        } else {
          PassesBefore(entries, edits[0], r.value, edits[1..][..k], lists);
          assert edits[..k + 1] == [edits[0]] + edits[1..][..k];
          k := k + 1;
        }
        lists := [entries] + lists;
      }
    }
  }

  // --- validation

  /** The entry at i repeats an earlier one. */
  predicate Repeats(entries: seq<string>, i: int) {
    0 <= i < |entries| && exists j | 0 <= j < i :: entries[j] == entries[i]
  }

  predicate FaultAt(risky: string -> bool, entries: seq<string>, i: int) {
    0 <= i < |entries| && (Repeats(entries, i) || risky(entries[i]))
  }

  /** The fault is that of the first entry that has one; repeating an earlier entry comes before being risky. */
  ghost predicate First(risky: string -> bool, entries: seq<string>, fault: Error) {
    exists i ::
      && FaultAt(risky, entries, i) && (forall j | 0 <= j < i :: !FaultAt(risky, entries, j))
      && fault == if Repeats(entries, i) then DuplicateEntry else RiskBlocked
  }

  function Elements(entries: seq<string>): set<string> {
    set x | x in entries
  }

  lemma {:induction false} FirstFaultFrom(risky: string -> bool, entries: seq<string>, k: nat)
    requires k <= |entries| && forall j | 0 <= j < k :: !FaultAt(risky, entries, j)
    ensures var fault := FirstFault(risky, Elements(entries[..k]), entries[k..]);
            if fault.Some? then First(risky, entries, fault.value)
            else forall j | 0 <= j < |entries| :: !FaultAt(risky, entries, j)
    decreases |entries| - k
  {
    if k < |entries| {
      var seen := Elements(entries[..k]);
      assert entries[k..][0] == entries[k] && entries[k..][1..] == entries[k + 1..];
      assert entries[k] in seen <==> Repeats(entries, k) by {
        if entries[k] in seen {
          var j :| 0 <= j < k && entries[..k][j] == entries[k];
          assert entries[j] == entries[k];
        }
        if Repeats(entries, k) {
          var j :| 0 <= j < k && entries[j] == entries[k];
          assert entries[..k][j] == entries[k];
        }
      }
      if FaultAt(risky, entries, k) {
        assert First(risky, entries, if Repeats(entries, k) then DuplicateEntry else RiskBlocked);
      } else {
        assert entries[..k + 1] == entries[..k] + [entries[k]];
        assert seen + {entries[k]} == Elements(entries[..k + 1]);
        FirstFaultFrom(risky, entries, k + 1);
      }
    }
  }

  /** Why a list is refused: the first entry at fault, or else the size of a list without such an entry. */
  lemma ValidateReports(risky: string -> bool, limit: int, entries: seq<string>)
    ensures var fault := Validate(risky, limit, entries);
            && (fault.None? <==> Acceptable(risky, limit, entries))
            && (fault.Some? ==>
                  if fault.value.LimitExceeded?
                  then (forall j | 0 <= j < |entries| :: !FaultAt(risky, entries, j))
                       && limit > 0 && |RenderEntries(entries)| > limit
                  else First(risky, entries, fault.value))
  {
    ValidateMeaning(risky, limit, entries);
    FirstFaultFrom(risky, entries, 0);
    assert Elements(entries[..0]) == {} && entries[0..] == entries;
  }

  // --- requests

  /** A write succeeds exactly under these conditions, and is otherwise refused for the first that fails. */
  lemma WriteMeans(env: Env, s: State, t: Target, expected: string, edits: seq<Edit>, limit: int, freshId: string)
    requires Collisionless(env)
    ensures var before, applied := Read(s, t), ApplyEdits(ParseEntries(Read(s, t)), edits);
            var r := WriteReply(env, s, t, expected, edits, limit, freshId);
            var n := WriteEffect(env, s, t, expected, edits, limit, freshId);
            if edits == [] then n == s && r == Err(BadRequest)
            else if expected != env.hash(before) then n == s && r == Err(RevisionConflict)
            else if applied.Err? then n == s && r == Err(applied.error)
            else if !Acceptable(env.risky, limit, applied.value) then
              n == s && r.Err? && Validate(env.risky, limit, applied.value) == Some(r.error)
            else
              && n == State(s.files[t := RenderEntries(applied.value)], s.snapshots[(t, freshId) := before],
                            s.proposals)
              && if HasCR(RenderEntries(applied.value)) then r == Err(WriteVerifyFailed)
                 else r == Ok(Written(env.hash(before), env.hash(RenderEntries(applied.value)), freshId, applied.value))
  {
    var applied := ApplyEdits(ParseEntries(Read(s, t)), edits);
    if applied.Ok? {
      ValidateMeaning(env.risky, limit, applied.value);
      ReadsBackUnlessCR(RenderEntries(applied.value));
    }
  }

  lemma ApplyOne(entries: seq<string>, edit: Edit)
    ensures ApplyEdits(entries, [edit]) == ApplyEdit(entries, edit)
  {
    assert [edit][1..] == [];
  }

  /** A write of one edit reports what that edit makes of the entries read. */
  lemma OneEditWrite(env: Env, s: State, t: Target, expected: string, edit: Edit, limit: int, freshId: string)
    requires Collisionless(env)
    ensures var r := WriteReply(env, s, t, expected, [edit], limit, freshId);
            var n := WriteEffect(env, s, t, expected, [edit], limit, freshId);
            r.Ok? ==> Edits(ParseEntries(Read(s, t)), edit, Ok(r.value.entries))
                      && n.files[t] == RenderEntries(r.value.entries)
  {
    WriteMeans(env, s, t, expected, [edit], limit, freshId);
    ApplyOne(ParseEntries(Read(s, t)), edit);
    EditMeans(ParseEntries(Read(s, t)), edit);
  }

  /** A snapshot is granted unless it names another revision, and then holds the text read. */
  lemma SnapshotMeans(env: Env, s: State, t: Target, expected: string, limit: int, freshId: string)
    ensures var (n, reply) := Handle(env, s, Snapshot(t, expected), limit, freshId);
            if expected != "" && expected != env.hash(Read(s, t)) then n == s && reply == Refused(RevisionConflict)
            else
              && reply == Done && n.files == s.files && n.proposals == s.proposals
              && n.snapshots.Keys == s.snapshots.Keys + {(t, freshId)} && n.snapshots[(t, freshId)] == Read(s, t)
              && forall key | key in s.snapshots && key != (t, freshId) :: n.snapshots[key] == s.snapshots[key]
  {
  }

  /** Only the proposal named is changed, and only as said. */
  ghost predicate OnlyProposal(s: State, n: State, id: string, p: Proposal) {
    && n.files == s.files && n.snapshots == s.snapshots && n.proposals.Keys == s.proposals.Keys + {id}
    && n.proposals[id] == p
    && forall other | other in s.proposals && other != id :: n.proposals[other] == s.proposals[other]
  }

  /** A drafted entry is refused when it is empty or makes the list unacceptable; otherwise it is to be added. */
  ghost predicate Drafted(env: Env, s: State, t: Target, text: string, limit: int, refusal: Option<Error>) {
    var entries := ParseEntries(Read(s, t)) + [Draft(env, text)];
    if Draft(env, text) == "" then refusal == Some(BadProposal)
    else if Acceptable(env.risky, limit, entries) then refusal.None?
    else refusal.Some? && Validate(env.risky, limit, entries) == refusal
  }

  lemma ProposeMeans(env: Env, s: State, t: Target, text: string, limit: int, freshId: string)
    ensures var (n, reply) := Handle(env, s, Propose(t, text), limit, freshId);
            if reply.Refused? then n == s && Drafted(env, s, t, text, limit, Some(reply.error))
            else
              && reply == Done && Drafted(env, s, t, text, limit, None)
              && OnlyProposal(s, n, freshId, Proposal(t, Pending, [Add(Draft(env, text))]))
  {
    ValidateMeaning(env.risky, limit, ParseEntries(Read(s, t)) + [Draft(env, text)]);
  }

  /** Revising, applying and rejecting work on a pending proposal alone. */
  ghost predicate NeedsPending(s: State, id: string, n: State, reply: Reply) {
    if id !in s.proposals then n == s && reply == Refused(ProposalNotFound)
    else !s.proposals[id].status.Pending? ==> n == s && reply == Refused(ProposalNotPending)
  }

  lemma ReviseMeans(env: Env, s: State, id: string, text: string, limit: int, freshId: string)
    ensures var (n, reply) := Handle(env, s, Revise(id, text), limit, freshId);
            && NeedsPending(s, id, n, reply)
            && (id in s.proposals && s.proposals[id].status.Pending? ==>
                  var p := s.proposals[id];
                  if reply.Refused? then n == s && Drafted(env, s, p.target, text, limit, Some(reply.error))
                  else
                    && reply == Done && Drafted(env, s, p.target, text, limit, None)
                    && OnlyProposal(s, n, id, Proposal(p.target, Pending, [Add(Draft(env, text))])))
  {
    if id in s.proposals {
      ValidateMeaning(env.risky, limit, ParseEntries(Read(s, s.proposals[id].target)) + [Draft(env, text)]);
    }
  }

  lemma RejectMeans(env: Env, s: State, id: string, limit: int, freshId: string)
    ensures var (n, reply) := Handle(env, s, Reject(id), limit, freshId);
            && NeedsPending(s, id, n, reply)
            && (id in s.proposals && s.proposals[id].status.Pending? ==>
                  reply == Done && OnlyProposal(s, n, id, s.proposals[id].(status := Rejected)))
  {
  }

  /** Applying a pending proposal is a write of its edits against the current text, and settles it if that succeeds. */
  lemma ApplyMeans(env: Env, s: State, id: string, limit: int, freshId: string)
    ensures var (n, reply) := Handle(env, s, Apply(id), limit, freshId);
            && NeedsPending(s, id, n, reply)
            && (id in s.proposals && s.proposals[id].status.Pending? ==>
                  var p := s.proposals[id];
                  var write := Write(p.target, env.hash(Read(s, p.target)), p.edits);
                  var (w, written) := Handle(env, s, write, limit, freshId);
                  && reply == written && n.files == w.files && n.snapshots == w.snapshots
                  && n.proposals == if reply.Edited? then s.proposals[id := p.(status := Applied)] else s.proposals)
  {
  }

  /** A restore of a kept text without a carriage return: what it checks, in this order, and what it does. */
  lemma RestoreMeans(env: Env, s: State, t: Target, id: string, expected: string, limit: int, freshId: string)
    requires (t, id) in s.snapshots ==> !HasCR(s.snapshots[(t, id)])
    ensures var (n, reply) := Handle(env, s, Restore(t, id, expected), limit, freshId);
            if (t, id) !in s.snapshots then n == s && reply == Refused(SnapshotNotFound)
            else
              var text := s.snapshots[(t, id)];
              if !Acceptable(env.risky, limit, ParseEntries(text)) then
                n == s && reply.Refused? && Validate(env.risky, limit, ParseEntries(text)) == Some(reply.error)
              else if expected != "" && expected != env.hash(Read(s, t)) then
                n == s && reply == Refused(RevisionConflict)
              else
                && n == State(s.files[t := text], s.snapshots[(t, freshId) := Read(s, t)], s.proposals)
                && reply == Edited(Written(env.hash(Read(s, t)), env.hash(text), freshId, ParseEntries(text)))
  {
    if (t, id) in s.snapshots {
      ReadsBackUnlessCR(s.snapshots[(t, id)]);
      ValidateMeaning(env.risky, limit, ParseEntries(s.snapshots[(t, id)]));
    }
  }

  // --- drafts

  /** The words of a text: its stretches without white space. */
  function Words(s: string): (w: seq<string>)
    ensures s != "" && !IsSpace(s[0]) ==> w != []
  {
    if s == "" then []
    else if IsSpace(s[0]) then Words(s[1..])
    else if |s| == 1 || IsSpace(s[1]) then [[s[0]]] + Words(s[1..])
    else [[s[0]] + Words(s[1..])[0]] + Words(s[1..])[1..]
  }

  lemma {:induction false} CollapseHead(s: string)
    requires s != ""
    ensures Collapse(s) != "" && (IsSpace(Collapse(s)[0]) <==> IsSpace(s[0]))
  {
    if |s| > 1 {
      CollapseHead(s[1..]);
    }
    assert IsSpace(' ');
  }

  /** Collapsing keeps the words, and puts one plain blank where there was any white space. */
  lemma {:induction false} CollapseKeepsWords(s: string)
    ensures Words(Collapse(s)) == Words(s)
    ensures forall i | 0 < i < |Collapse(s)| :: !(IsSpace(Collapse(s)[i - 1]) && IsSpace(Collapse(s)[i]))
  {
    if s != "" {
      var rest := Collapse(s[1..]);
      CollapseKeepsWords(s[1..]);
      assert IsSpace(' ');
      if |s| > 1 {
        CollapseHead(s[1..]);
      }
      if !IsSpace(s[0]) {
        assert ([s[0]] + rest)[1..] == rest;
        assert |s| == 1 ==> rest == "";
        assert |s| > 1 ==> ([s[0]] + rest)[1] == rest[0];
      } else if |s| == 1 || !IsSpace(s[1]) {
        assert ([' '] + rest)[1..] == rest;
      } else {
        assert [] + rest == rest;
      }
    }
  }

  lemma {:induction false} WordsOfLeft(blank: string, s: string)
    requires Blank(blank)
    ensures Words(blank + s) == Words(s)
  {
    if blank == "" {
      assert blank + s == s;
    } else {
      assert (blank + s)[1..] == blank[1..] + s;
      WordsOfLeft(blank[1..], s);
    }
  }

  lemma {:induction false} WordsOfBlank(blank: string)
    requires Blank(blank)
    ensures Words(blank) == []
  {
    if blank != "" {
      WordsOfBlank(blank[1..]);
    }
  }

  lemma {:induction false} WordsOfRight(s: string, blank: string)
    requires Blank(blank)
    ensures Words(s + blank) == Words(s)
  {
    if s == "" {
      assert s + blank == blank;
      WordsOfBlank(blank);
    } else {
      assert (s + blank)[1..] == s[1..] + blank;
      WordsOfRight(s[1..], blank);
      if |s| == 1 {
        assert blank != "" ==> IsSpace((s + blank)[1]);
      } else {
        assert (s + blank)[1] == s[1];
      }
    }
  }

  lemma StripKeepsWords(s: string)
    ensures Words(Strip(s)) == Words(s)
  {
    var front, back := StripSplits(s);
    assert s == front + (Strip(s) + back);
    WordsOfLeft(front, Strip(s) + back);
    WordsOfRight(Strip(s), back);
  }

  /** A draft is the words of the text, one blank between two of them, from where the "remember this" opening ends. */
  lemma DraftKeepsWords(env: Env, text: string)
    ensures Words(Collapse(Strip(text))) == Words(text)
    ensures var cut := env.promptLength(Collapse(Strip(text)));
            Words(Draft(env, text))
            == if cut <= |Collapse(Strip(text))| then Words(Collapse(Strip(text))[cut..]) else Words(text)
  {
    var content := Collapse(Strip(text));
    CollapseKeepsWords(Strip(text));
    StripKeepsWords(text);
    var cut := env.promptLength(content);
    StripKeepsWords(if cut <= |content| then content[cut..] else content);
  }
}

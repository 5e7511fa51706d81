/** The compare-and-set memory store: edits, writes, snapshots, restores and proposals over the entry format. */
module MemoryStore {
  import opened Basics
  import opened Text
  import opened MemoryEntries

  datatype Target = Memory | User

  /** An index of None is one that is not an integer. */
  datatype Edit =
    | Add(content: string)
    | Replace(index: Option<int>, content: string)
    | Remove(index: Option<int>)
    | Reorder(source: Option<int>, dest: Option<int>)
    | Unsupported

  datatype Error =
    | BadRequest | BadOperation | RevisionConflict | DuplicateEntry | RiskBlocked | LimitExceeded | WriteVerifyFailed
    | SnapshotNotFound | ProposalNotFound | ProposalNotPending | BadProposal

  // --- edits

  predicate InRange(index: Option<int>, upper: int) {
    index.Some? && 0 <= index.value <= upper
  }

  function ApplyEdit(entries: seq<string>, edit: Edit): Result<seq<string>, Error> {
    match edit
    case Add(content) =>
      if Strip(content) == "" then Err(BadRequest) else Ok(entries + [Strip(content)])
    case Replace(index, content) =>
      if !InRange(index, |entries| - 1) || Strip(content) == "" then Err(BadRequest)
      else Ok(entries[index.value := Strip(content)])
    case Remove(index) =>
      if !InRange(index, |entries| - 1) then Err(BadRequest)
      else Ok(entries[..index.value] + entries[index.value + 1..])
    case Reorder(source, dest) =>
      if !InRange(source, |entries| - 1) || !InRange(dest, |entries|) then Err(BadRequest)
      else Ok(Moved(entries, source.value, dest.value))
    case Unsupported => Err(BadOperation)
  }

  /** The entry at i, placed just before what was at position j. */
  function Moved(entries: seq<string>, i: int, j: int): seq<string>
    requires 0 <= i < |entries| && 0 <= j <= |entries|
  {
    if j > i then entries[..i] + entries[i + 1..j] + [entries[i]] + entries[j..]
    else entries[..j] + [entries[i]] + entries[j..i] + entries[i + 1..]
  }

  function ApplyEdits(entries: seq<string>, edits: seq<Edit>): Result<seq<string>, Error>
    decreases |edits|
  {
    if edits == [] then Ok(entries)
    else match ApplyEdit(entries, edits[0])
         case Err(e) => Err(e)
         case Ok(next) => ApplyEdits(next, edits[1..])
  }

  lemma SwapKeepsElements<T>(a: seq<T>, b: seq<T>, c: seq<T>, d: seq<T>)
    ensures multiset(a + b + c + d) == multiset(a + c + b + d)
  {
  }

  /** Moving neither loses, nor adds, nor changes an entry. */
  lemma MovedIsPermutation(entries: seq<string>, i: int, j: int)
    requires 0 <= i < |entries| && 0 <= j <= |entries|
    ensures multiset(Moved(entries, i, j)) == multiset(entries)
  {
    if j > i {
      SwapKeepsElements(entries[..i], [entries[i]], entries[i + 1..j], entries[j..]);
      assert entries == entries[..i] + [entries[i]] + entries[i + 1..j] + entries[j..];
    } else {
      SwapKeepsElements(entries[..j], entries[j..i], [entries[i]], entries[i + 1..]);
      assert entries == entries[..j] + entries[j..i] + [entries[i]] + entries[i + 1..];
    }
  }

  /** The moved entry lands just before what was at the destination; the others keep their order. */
  lemma MovedPlaces(entries: seq<string>, i: int, j: int)
    requires 0 <= i < |entries| && 0 <= j <= |entries|
    ensures var at, m := if j > i then j - 1 else j, Moved(entries, i, j);
            && |m| == |entries| && m[at] == entries[i] && m[..at] + m[at + 1..] == entries[..i] + entries[i + 1..]
            && (at + 1 < |m| && j != i ==> m[at + 1] == entries[j])
  {
    var at, m := if j > i then j - 1 else j, Moved(entries, i, j);
    if j > i {
      assert m[..at] == entries[..i] + entries[i + 1..j] && m[at + 1..] == entries[j..];
      assert entries[i + 1..] == entries[i + 1..j] + entries[j..];
    } else {
      assert m[..at] == entries[..j] && m[at + 1..] == entries[j..i] + entries[i + 1..];
      assert entries[..i] == entries[..j] + entries[j..i];
    }
  }

  lemma {:induction false} ApplyEditsAppend(entries: seq<string>, a: seq<Edit>, b: Edit)
    ensures ApplyEdits(entries, a + [b])
            == match ApplyEdits(entries, a) case Err(e) => Err(e) case Ok(next) => ApplyEdit(next, b)
    decreases |a|
  {
    if a == [] {
      assert a + [b] == [b];
    } else {
      assert (a + [b])[1..] == a[1..] + [b];
      match ApplyEdit(entries, a[0])
      case Err(_) =>
      case Ok(next) => ApplyEditsAppend(next, a[1..], b);
    }
  }

  lemma {:induction false} ApplyEditsFailStays(entries: seq<string>, a: seq<Edit>, b: seq<Edit>)
    requires ApplyEdits(entries, a).Err?
    ensures ApplyEdits(entries, a + b) == ApplyEdits(entries, a)
    decreases |a|
  {
    assert (a + b)[1..] == a[1..] + b;
    match ApplyEdit(entries, a[0])
    case Err(_) =>
    case Ok(next) => ApplyEditsFailStays(next, a[1..], b);
  }

  /** The loop over the edits, each changing the list the next one sees; the first failure ends it. */
  method RunEdits(entries: seq<string>, edits: seq<Edit>) returns (r: Result<seq<string>, Error>)
    ensures r == ApplyEdits(entries, edits)
  {
    var next := entries;
    for k := 0 to |edits|
      invariant ApplyEdits(entries, edits[..k]) == Ok(next)
    {
      assert edits[..k + 1] == edits[..k] + [edits[k]];
      ApplyEditsAppend(entries, edits[..k], edits[k]);
      ghost var rest := edits[k + 1..];
      assert edits == edits[..k + 1] + rest;
      match edits[k]
      case Add(text) =>
        var content := Strip(text);
        if content == "" {
          ApplyEditsFailStays(entries, edits[..k + 1], rest);
          return Err(BadRequest);
        }
        next := next + [content];
      case Replace(index, text) =>
        var content := Strip(text);
        if !InRange(index, |next| - 1) || content == "" {
          ApplyEditsFailStays(entries, edits[..k + 1], rest);
          return Err(BadRequest);
        }
        next := next[index.value := content];
      case Remove(index) =>
        if !InRange(index, |next| - 1) {
          ApplyEditsFailStays(entries, edits[..k + 1], rest);
          return Err(BadRequest);
        }
        next := next[..index.value] + next[index.value + 1..];
      case Reorder(source, dest) =>
        if !InRange(source, |next| - 1) || !InRange(dest, |next|) {
          ApplyEditsFailStays(entries, edits[..k + 1], rest);
          return Err(BadRequest);
        }
        var item := next[source.value];
        var without := next[..source.value] + next[source.value + 1..];
        var at := if dest.value > source.value then dest.value - 1 else dest.value;
        ghost var moved := Moved(next, source.value, dest.value);
        next := without[..at] + [item] + without[at..];
        assert next == moved;
      case Unsupported =>
        ApplyEditsFailStays(entries, edits[..k + 1], rest);
        return Err(BadOperation);
    }
    assert edits[..|edits|] == edits;
    return Ok(next);
  }

  predicate Tidy(entries: seq<string>) {
    forall i | 0 <= i < |entries| :: entries[i] != "" && Stripped(entries[i])
  }

  /** Edits keep every entry non-empty and stripped, so only a delimiter can spoil what a write reads back. */
  lemma {:induction false} EditsKeepTidy(entries: seq<string>, edits: seq<Edit>)
    requires Tidy(entries) && ApplyEdits(entries, edits).Ok?
    ensures Tidy(ApplyEdits(entries, edits).value)
    decreases |edits|
  {
    if edits != [] {
      var next := ApplyEdit(entries, edits[0]).value;
      if edits[0].Add? || edits[0].Replace? {
        var front, back := StripSplits(edits[0].content);
      }
      if edits[0].Reorder? {
        var i, j := edits[0].source.value, edits[0].dest.value;
        MovedIsPermutation(entries, i, j);
        forall k | 0 <= k < |next|
          ensures next[k] != "" && Stripped(next[k])
        {
          assert next[k] in multiset(entries);
        }
      }
      EditsKeepTidy(next, edits[1..]);
    }
  }

  // --- validation

  /** What a list must satisfy to be stored; a limit of zero or less means no limit. */
  predicate Acceptable(risky: string -> bool, limit: int, entries: seq<string>) {
    && (forall i, j | 0 <= i < j < |entries| :: entries[i] != entries[j])
    && (forall i | 0 <= i < |entries| :: !risky(entries[i]))
    && (limit > 0 ==> |RenderEntries(entries)| <= limit)
  }

  function FirstFault(risky: string -> bool, seen: set<string>, entries: seq<string>): Option<Error>
    decreases |entries|
  {
    if entries == [] then None
    else if entries[0] in seen then Some(DuplicateEntry)
    else if risky(entries[0]) then Some(RiskBlocked)
    else FirstFault(risky, seen + {entries[0]}, entries[1..])
  }

  /** Faults are reported in entry order, the size last. */
  function Validate(risky: string -> bool, limit: int, entries: seq<string>): Option<Error> {
    var fault := FirstFault(risky, {}, entries);
    if fault.Some? then fault
    else if limit > 0 && |RenderEntries(entries)| > limit then Some(LimitExceeded)
    else None
  }

  lemma {:induction false} FirstFaultMeaning(risky: string -> bool, seen: set<string>, entries: seq<string>)
    ensures FirstFault(risky, seen, entries).None? <==>
            && (forall i, j | 0 <= i < j < |entries| :: entries[i] != entries[j])
            && (forall i | 0 <= i < |entries| :: entries[i] !in seen && !risky(entries[i]))
    decreases |entries|
  {
    if entries != [] {
      var rest := entries[1..];
      FirstFaultMeaning(risky, seen + {entries[0]}, rest);
      assert forall i | 1 <= i < |entries| :: entries[i] == rest[i - 1];
      if FirstFault(risky, seen, entries).None? {
        forall i, j | 0 <= i < j < |entries|
          ensures entries[i] != entries[j]
        {
          assert entries[j] == rest[j - 1];
          if i > 0 {
            assert entries[i] == rest[i - 1];
          }
        }
      } else if entries[0] !in seen && !risky(entries[0]) {
        if forall i | 0 <= i < |rest| :: rest[i] !in seen + {entries[0]} && !risky(rest[i]) {
          var i, j :| 0 <= i < j < |rest| && rest[i] == rest[j];
          assert entries[i + 1] == entries[j + 1];
        } else {
          var i :| 0 <= i < |rest| && !(rest[i] !in seen + {entries[0]} && !risky(rest[i]));
          assert entries[i + 1] == rest[i];
        }
      }
    }
  }

  /** Validation passes exactly the acceptable lists. */
  lemma ValidateMeaning(risky: string -> bool, limit: int, entries: seq<string>)
    ensures Validate(risky, limit, entries).None? <==> Acceptable(risky, limit, entries)
  {
    FirstFaultMeaning(risky, {}, entries);
  }

  method CheckEntries(risky: string -> bool, limit: int, entries: seq<string>) returns (fault: Option<Error>)
    ensures fault == Validate(risky, limit, entries)
  {
    var seen: set<string> := {};
    for k := 0 to |entries|
      invariant FirstFault(risky, {}, entries) == FirstFault(risky, seen, entries[k..])
    {
      assert entries[k..][0] == entries[k] && entries[k..][1..] == entries[k + 1..];
      if entries[k] in seen {
        return Some(DuplicateEntry);
      }
      seen := seen + {entries[k]};
      if risky(entries[k]) {
        return Some(RiskBlocked);
      }
    }
    if limit > 0 && |RenderEntries(entries)| > limit {
      return Some(LimitExceeded);
    }
    return None;
  }

  // --- files

  /** Reading a file as text turns CR LF and CR into LF; writing text changes nothing. */
  function Universal(s: string): string {
    if s == [] then []
    else if s[0] == '\r' then ['\n'] + Universal(if |s| > 1 && s[1] == '\n' then s[2..] else s[1..])
    else [s[0]] + Universal(s[1..])
  }

  predicate HasCR(s: string) {
    exists i | 0 <= i < |s| :: s[i] == '\r'
  }

  lemma {:induction false} UniversalHasNoCR(s: string)
    ensures !HasCR(Universal(s))
  {
    if s != [] {
      var rest := if s[0] == '\r' && |s| > 1 && s[1] == '\n' then s[2..] else s[1..];
      UniversalHasNoCR(rest);
      assert forall i | 1 <= i < |Universal(s)| :: Universal(s)[i] == Universal(rest)[i - 1];
    }
  }

  /** A text is read back as written exactly when it holds no carriage return. */
  lemma {:induction false} ReadsBackUnlessCR(s: string)
    ensures Universal(s) == s <==> !HasCR(s)
  {
    UniversalHasNoCR(s);
    if !HasCR(s) && s != [] {
      assert forall i | 0 <= i < |s| - 1 :: s[1..][i] == s[i + 1];
      ReadsBackUnlessCR(s[1..]);
    }
  }

  /** `hash` and `risky` are opaque; `promptLength` says how long a "remember this:" opening of a text is. */
  datatype Env = Env(hash: string -> string, risky: string -> bool, promptLength: string -> nat)

  ghost predicate Collisionless(env: Env) {
    forall a, b :: env.hash(a) == env.hash(b) ==> a == b
  }

  datatype Status = Pending | Applied | Rejected

  datatype Proposal = Proposal(target: Target, status: Status, edits: seq<Edit>)

  /** Everything on disk: the target files, the snapshot bodies by target and id, and the proposals. */
  datatype State = State(files: map<Target, string>, snapshots: map<(Target, string), string>,
                         proposals: map<string, Proposal>)

  function Read(s: State, t: Target): string {
    if t in s.files then Universal(s.files[t]) else ""
  }

  datatype Written = Written(previousHash: string, newHash: string, snapshotId: string, entries: seq<string>)

  /** What a write would store, or why it refuses before touching anything. */
  function PlanWrite(env: Env, s: State, t: Target, expected: string, edits: seq<Edit>,
                     limit: int): Result<seq<string>, Error>
  {
    var before := Read(s, t);
    if edits == [] then Err(BadRequest)
    else if expected != env.hash(before) then Err(RevisionConflict)
    else match ApplyEdits(ParseEntries(before), edits)
         case Err(e) => Err(e)
         case Ok(after) =>
           var fault := Validate(env.risky, limit, after);
           if fault.Some? then Err(fault.value) else Ok(after)
  }

  function WriteEffect(env: Env, s: State, t: Target, expected: string, edits: seq<Edit>, limit: int,
                       freshId: string): State
  {
    match PlanWrite(env, s, t, expected, edits, limit)
    case Err(_) => s
    case Ok(after) => s.(snapshots := s.snapshots[(t, freshId) := Read(s, t)],
                         files := s.files[t := RenderEntries(after)])
  }

  /** The reply re-reads the file: its hash has to be that of the text written. */
  function WriteReply(env: Env, s: State, t: Target, expected: string, edits: seq<Edit>, limit: int,
                      freshId: string): Result<Written, Error>
  {
    match PlanWrite(env, s, t, expected, edits, limit)
    case Err(e) => Err(e)
    case Ok(after) =>
      var text := RenderEntries(after);
      if env.hash(Universal(text)) != env.hash(text) then Err(WriteVerifyFailed)
      else Ok(Written(env.hash(Read(s, t)), env.hash(text), freshId, after))
  }

  function PlanRestore(env: Env, s: State, t: Target, id: string, expected: string, limit: int): Result<string, Error> {
    if (t, id) !in s.snapshots then Err(SnapshotNotFound)
    else
      var body := Universal(s.snapshots[(t, id)]);
      var fault := Validate(env.risky, limit, ParseEntries(body));
      if fault.Some? then Err(fault.value)
      else if expected != "" && expected != env.hash(Read(s, t)) then Err(RevisionConflict)
      else Ok(body)
  }

  function RestoreEffect(env: Env, s: State, t: Target, id: string, expected: string, limit: int,
                         freshId: string): State
  {
    match PlanRestore(env, s, t, id, expected, limit)
    case Err(_) => s
    case Ok(body) => s.(snapshots := s.snapshots[(t, freshId) := Read(s, t)], files := s.files[t := body])
  }

  function RestoreReply(env: Env, s: State, t: Target, id: string, expected: string, limit: int,
                        freshId: string): Result<Written, Error>
  {
    match PlanRestore(env, s, t, id, expected, limit)
    case Err(e) => Err(e)
    case Ok(body) =>
      if env.hash(Universal(body)) != env.hash(body) then Err(WriteVerifyFailed)
      else Ok(Written(env.hash(Read(s, t)), env.hash(body), freshId, ParseEntries(body)))
  }

  // --- proposals

  /** re.sub of every run of whitespace by one space. */
  function Collapse(s: string): string {
    if s == [] then []
    else if IsSpace(s[0]) then (if |s| > 1 && IsSpace(s[1]) then [] else [' ']) + Collapse(s[1..])
    else [s[0]] + Collapse(s[1..])
  }

  function Draft(env: Env, text: string): string {
    var content := Collapse(Strip(text));
    var cut := env.promptLength(content);
    Strip(if cut <= |content| then content[cut..] else content)
  }

  lemma StripHasNoCR(s: string)
    requires !HasCR(s)
    ensures !HasCR(Strip(s))
  {
    var front, back := StripSplits(s);
    assert forall i | 0 <= i < |Strip(s)| :: Strip(s)[i] == s[|front| + i];
  }

  /** The only white space of the text is the plain blank. */
  predicate OneLine(s: string) {
    forall i | 0 <= i < |s| && IsSpace(s[i]) :: s[i] == ' '
  }

  lemma {:induction false} CollapseIsOneLine(s: string)
    ensures OneLine(Collapse(s))
  {
    if s != [] {
      CollapseIsOneLine(s[1..]);
      var head := if IsSpace(s[0]) then (if |s| > 1 && IsSpace(s[1]) then [] else [' ']) else [s[0]];
      JoinedIsOneLine(head, Collapse(s[1..]));
    }
  }

  lemma JoinedIsOneLine(a: string, b: string)
    requires OneLine(a) && OneLine(b)
    ensures OneLine(a + b)
  {
  }

  lemma PartIsOneLine(s: string, lo: nat, hi: nat)
    requires lo <= hi <= |s| && OneLine(s)
    ensures OneLine(s[lo..hi])
  {
    assert forall i | 0 <= i < hi - lo :: s[lo..hi][i] == s[lo + i];
  }

  lemma OneLineHasNoDelimiter(s: string)
    requires OneLine(s)
    ensures !Contains(s) && !Overlaps(s)
  {
    assert IsSpace('\n');
  }

  /** A drafted entry is one line, so it neither contains nor overlaps a delimiter; unless empty it is well formed. */
  lemma DraftIsWellFormed(env: Env, text: string)
    ensures OneLine(Draft(env, text)) && !Overlaps(Draft(env, text))
    ensures Draft(env, text) != "" ==> WellFormed(Draft(env, text))
  {
    var content := Collapse(Strip(text));
    CollapseIsOneLine(Strip(text));
    var cut := env.promptLength(content);
    if cut <= |content| {
      PartIsOneLine(content, cut, |content|);
    }
    var rest := if cut <= |content| then content[cut..] else content;
    var front, back := StripSplits(rest);
    PartIsOneLine(rest, |front|, |rest| - |back|);
    assert rest[|front|..|rest| - |back|] == Strip(rest);
    OneLineHasNoDelimiter(Draft(env, text));
  }

  /** In particular a drafted entry never holds a carriage return. */
  lemma DraftHasNoCR(env: Env, text: string)
    ensures !HasCR(Draft(env, text))
  {
    DraftIsWellFormed(env, text);
    assert IsSpace('\r');
  }

  datatype Request =
    | Write(target: Target, expected: string, edits: seq<Edit>)
    | Snapshot(target: Target, expected: string)
    | Restore(target: Target, id: string, expected: string)
    | Propose(target: Target, text: string)
    | Revise(id: string, text: string)
    | Apply(id: string)
    | Reject(id: string)

  /** What a request reports: an edit or restore that took place, another success, or the refusal. */
  datatype Reply = Edited(written: Written) | Done | Refused(error: Error)

  function AsReply(r: Result<Written, Error>): Reply {
    match r case Ok(w) => Edited(w) case Err(e) => Refused(e)
  }

  predicate IsPending(s: State, id: string) {
    id in s.proposals && s.proposals[id].status.Pending?
  }

  function NotPending(s: State, id: string): Error {
    if id in s.proposals then ProposalNotPending else ProposalNotFound
  }

  /** The edits of a drafted proposal, or why it is refused. */
  function PlanDraft(env: Env, s: State, t: Target, text: string, limit: int): Result<seq<Edit>, Error> {
    var content := Draft(env, text);
    if content == "" then Err(BadProposal)
    else
      var fault := Validate(env.risky, limit, ParseEntries(Read(s, t)) + [content]);
      if fault.Some? then Err(fault.value) else Ok([Add(content)])
  }

  /** One request, handled to the end. `freshId` is the id it generates if it creates a snapshot or a proposal. */
  function Handle(env: Env, s: State, req: Request, limit: int, freshId: string): (State, Reply) {
    match req
    case Write(t, expected, edits) =>
      (WriteEffect(env, s, t, expected, edits, limit, freshId),
       AsReply(WriteReply(env, s, t, expected, edits, limit, freshId)))
    case Snapshot(t, expected) =>
      if expected != "" && expected != env.hash(Read(s, t)) then (s, Refused(RevisionConflict))
      else (s.(snapshots := s.snapshots[(t, freshId) := Read(s, t)]), Done)
    case Restore(t, id, expected) =>
      (RestoreEffect(env, s, t, id, expected, limit, freshId),
       AsReply(RestoreReply(env, s, t, id, expected, limit, freshId)))
    case Propose(t, text) =>
      (match PlanDraft(env, s, t, text, limit)
       case Err(e) => (s, Refused(e))
       case Ok(edits) => (s.(proposals := s.proposals[freshId := Proposal(t, Pending, edits)]), Done))
    case Revise(id, text) =>
      if !IsPending(s, id) then (s, Refused(NotPending(s, id)))
      else (match PlanDraft(env, s, s.proposals[id].target, text, limit)
            case Err(e) => (s, Refused(e))
            case Ok(edits) => (s.(proposals := s.proposals[id := s.proposals[id].(edits := edits)]), Done))
    case Apply(id) =>
      if !IsPending(s, id) then (s, Refused(NotPending(s, id)))
      else
        var p := s.proposals[id];
        var expected := env.hash(Read(s, p.target));
        var after := WriteEffect(env, s, p.target, expected, p.edits, limit, freshId);
        var r := WriteReply(env, s, p.target, expected, p.edits, limit, freshId);
        if r.Err? then (after, Refused(r.error))
        else (after.(proposals := after.proposals[id := p.(status := Applied)]), Edited(r.value))
    case Reject(id) =>
      if !IsPending(s, id) then (s, Refused(NotPending(s, id)))
      else (s.(proposals := s.proposals[id := s.proposals[id].(status := Rejected)]), Done)
  }
}

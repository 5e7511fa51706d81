/** The entry format of a memory file: entries joined by a section-sign line, and the edits applied to them. */
module MemoryEntries {
  import opened Basics
  import opened Text

  const DELIMITER: string := "\n\U{A7}\n"

  predicate DelimiterAt(s: string, i: int) {
    0 <= i <= |s| - 3 && s[i] == '\n' && s[i + 1] == '\U{A7}' && s[i + 2] == '\n'
  }

  predicate Contains(s: string) {
    exists i | 0 <= i < |s| :: DelimiterAt(s, i)
  }

  /** The entry ends so that its last two characters and the delimiter that follows form an earlier delimiter. */
  predicate Overlaps(e: string) {
    |e| >= 2 && e[|e| - 2] == '\n' && e[|e| - 1] == '\U{A7}'
  }

  /** str.find(DELIMITER) from position i on. */
  function FindFrom(s: string, i: nat): (r: Option<nat>)
    requires i <= |s|
    ensures r.Some? ==> i <= r.value && DelimiterAt(s, r.value) && forall j | i <= j < r.value :: !DelimiterAt(s, j)
    ensures r.None? ==> forall j | i <= j :: !DelimiterAt(s, j)
    decreases |s| - i
  {
    if i == |s| then None
    else if DelimiterAt(s, i) then Some(i)
    else FindFrom(s, i + 1)
  }

  /** str.split(DELIMITER): leftmost matches, not overlapping. */
  function Split(s: string): seq<string> {
    match FindFrom(s, 0)
    case None => [s]
    case Some(i) => [s[..i]] + Split(s[i + 3..])
  }

  function NonBlank(pieces: seq<string>): seq<string> {
    if pieces == [] then []
    else (if Strip(pieces[0]) != "" then [Strip(pieces[0])] else []) + NonBlank(pieces[1..])
  }

  function ParseEntries(raw: string): seq<string> {
    if Strip(raw) == "" then [] else NonBlank(Split(raw))
  }

  /** str.join. */
  function RenderEntries(entries: seq<string>): string {
    if entries == [] then ""
    else if |entries| == 1 then entries[0]
    else entries[0] + DELIMITER + RenderEntries(entries[1..])
  }

  predicate WellFormed(e: string) {
    e != "" && Stripped(e) && !Contains(e)
  }

  /** The exact condition under which rendering and parsing give the entries back. */
  predicate Canonical(entries: seq<string>) {
    && (forall i | 0 <= i < |entries| :: WellFormed(entries[i]))
    && (forall i | 0 <= i < |entries| - 1 :: !Overlaps(entries[i]))
  }

  lemma FindFirstIs(s: string, i: nat)
    requires DelimiterAt(s, i) && forall j | 0 <= j < i :: !DelimiterAt(s, j)
    ensures FindFrom(s, 0) == Some(i)
  {
    var r := FindFrom(s, 0);
    assert r.Some? ==> !(r.value < i) && !(i < r.value);
  }

  /** In "e delimiter rest" the first delimiter is where it was written unless e contains or overlaps one. */
  lemma FirstDelimiter(e: string, rest: string)
    requires !Contains(e)
    ensures !Overlaps(e) ==> FindFrom(e + DELIMITER + rest, 0) == Some(|e|)
    ensures Overlaps(e) ==> FindFrom(e + DELIMITER + rest, 0) == Some(|e| - 2)
  {
    var s := e + DELIMITER + rest;
    assert forall j | 0 <= j < |e| :: s[j] == e[j];
    assert s[|e|] == '\n' && s[|e| + 1] == '\U{A7}' && s[|e| + 2] == '\n';
    forall j | 0 <= j < |e| && DelimiterAt(s, j)
      ensures Overlaps(e) && j == |e| - 2
    {
      assert j + 2 < |e| ==> DelimiterAt(e, j);
    }
    if Overlaps(e) {
      assert DelimiterAt(s, |e| - 2);
      FindFirstIs(s, |e| - 2);
    } else {
      assert DelimiterAt(s, |e|);
      FindFirstIs(s, |e|);
    }
  }

  /** Parsing ignores the all-blank special case: splitting blank text finds no entry either. */
  lemma BlankHasNoEntries(s: string)
    requires Strip(s) == ""
    ensures NonBlank(Split(s)) == []
  {
    var front, back := StripSplits(s);
    assert s == front + back;
    assert forall i | 0 <= i < |s| :: IsSpace(s[i]);
    var r := FindFrom(s, 0);
  }

  lemma ParseIsNonBlankSplit(raw: string)
    ensures ParseEntries(raw) == NonBlank(Split(raw))
  {
    if Strip(raw) == "" {
      BlankHasNoEntries(raw);
    }
  }

  lemma SplitStep(e: string, rest: string)
    requires !Contains(e) && !Overlaps(e)
    ensures Split(e + DELIMITER + rest) == [e] + Split(rest)
  {
    FirstDelimiter(e, rest);
    var s := e + DELIMITER + rest;
    assert s[..|e|] == e && s[|e| + 3..] == rest;
  }

  lemma SplitNone(e: string)
    requires !Contains(e)
    ensures Split(e) == [e]
  {
    var r := FindFrom(e, 0);
    assert r.Some? ==> DelimiterAt(e, r.value);
  }

  lemma {:induction false} CanonicalRoundTrips(entries: seq<string>)
    requires Canonical(entries) && entries != []
    ensures NonBlank(Split(RenderEntries(entries))) == entries
  {
    assert WellFormed(entries[0]);
    StripOfStripped(entries[0]);
    if |entries| == 1 {
      SplitNone(entries[0]);
    } else {
      assert !Overlaps(entries[0]);
      assert Canonical(entries[1..]);
      SplitStep(entries[0], RenderEntries(entries[1..]));
      CanonicalRoundTrips(entries[1..]);
      assert [entries[0]] + entries[1..] == entries;
    }
  }

  lemma {:induction false} SplitPiecesContainNone(s: string, i: nat)
    requires i < |Split(s)|
    ensures !Contains(Split(s)[i])
  {
    match FindFrom(s, 0)
    case None =>
    case Some(k) =>
      if i == 0 {
        forall j | 0 <= j < k
          ensures !DelimiterAt(s[..k], j)
        {
          assert !DelimiterAt(s, j);
        }
      } else {
        SplitPiecesContainNone(s[k + 3..], i - 1);
      }
  }

  lemma StripKeepsNone(s: string)
    requires !Contains(s)
    ensures !Contains(Strip(s))
  {
    var front, back := StripSplits(s);
    forall j | 0 <= j < |Strip(s)|
      ensures !DelimiterAt(Strip(s), j)
    {
      if DelimiterAt(Strip(s), j) {
        assert DelimiterAt(s, |front| + j);
      }
    }
  }

  lemma {:induction false} NonBlankWellFormed(pieces: seq<string>)
    requires forall i | 0 <= i < |pieces| :: !Contains(pieces[i])
    ensures forall i | 0 <= i < |NonBlank(pieces)| :: WellFormed(NonBlank(pieces)[i])
  {
    if pieces != [] {
      NonBlankWellFormed(pieces[1..]);
      StripKeepsNone(pieces[0]);
      var front, back := StripSplits(pieces[0]);
    }
  }

  /** Every entry that parsing yields is non-empty, stripped and free of the delimiter. */
  lemma ParsedAreWellFormed(raw: string)
    ensures forall i | 0 <= i < |ParseEntries(raw)| :: WellFormed(ParseEntries(raw)[i])
  {
    ParseIsNonBlankSplit(raw);
    forall i | 0 <= i < |Split(raw)|
      ensures !Contains(Split(raw)[i])
    {
      SplitPiecesContainNone(raw, i);
    }
    NonBlankWellFormed(Split(raw));
  }

  /** An entry that overlaps its delimiter comes back shortened. */
  lemma OverlapIsLost(e: string, rest: string)
    requires WellFormed(e) && Overlaps(e)
    ensures NonBlank(Split(e + DELIMITER + rest)) != [] && NonBlank(Split(e + DELIMITER + rest))[0] != e
  {
    FirstDelimiter(e, rest);
    var s := e + DELIMITER + rest;
    var piece := s[..|e| - 2];
    assert piece == e[..|e| - 2];
    assert piece[0] == e[0];
    StripNonBlank(piece, 0);
    var front, back := StripSplits(piece);
    assert |Strip(piece)| <= |piece| < |e|;
  }

  lemma {:induction false} OnlyCanonicalRoundTrips(entries: seq<string>)
    requires entries != [] && forall i | 0 <= i < |entries| :: WellFormed(entries[i])
    requires NonBlank(Split(RenderEntries(entries))) == entries
    ensures Canonical(entries)
  {
    if |entries| > 1 {
      var rest := RenderEntries(entries[1..]);
      if Overlaps(entries[0]) {
        OverlapIsLost(entries[0], rest);
        assert false;
      }
      SplitStep(entries[0], rest);
      StripOfStripped(entries[0]);
      assert NonBlank(Split(RenderEntries(entries))) == [entries[0]] + NonBlank(Split(rest));
      assert entries == [entries[0]] + entries[1..];
      OnlyCanonicalRoundTrips(entries[1..]);
      forall i | 0 <= i < |entries| - 1
        ensures !Overlaps(entries[i])
      {
        assert i > 0 ==> entries[1..][i - 1] == entries[i];
      }
    }
  }

  /**
   * Parsing a rendered list gives the list back exactly when every entry is non-empty and stripped, none contains the
   * delimiter, and no entry but the last ends in a newline and a section sign.
   */
  lemma RoundTrip(entries: seq<string>)
    ensures ParseEntries(RenderEntries(entries)) == entries <==> Canonical(entries)
  {
    var raw := RenderEntries(entries);
    ParseIsNonBlankSplit(raw);
    if entries == [] {
      assert Strip("") == "";
    } else {
      if Canonical(entries) {
        CanonicalRoundTrips(entries);
      }
      if ParseEntries(raw) == entries {
        ParsedAreWellFormed(raw);
        OnlyCanonicalRoundTrips(entries);
      }
    }
  }

  /** What is read, written back, reads the same exactly when no entry but the last overlaps the delimiter. */
  lemma ReparseAgreesUnlessOverlap(raw: string)
    ensures var entries := ParseEntries(raw);
            ParseEntries(RenderEntries(entries)) == entries <==>
              forall i | 0 <= i < |entries| - 1 :: !Overlaps(entries[i])
  {
    ParsedAreWellFormed(raw);
    RoundTrip(ParseEntries(raw));
  }

  /**
   * Reading a file is not a canonicalisation: the entries of this text, written back, read differently. The first piece
   * "a LF section-sign space" is stripped to one that overlaps its delimiter.
   */
  lemma ReparseCanDiffer() returns (raw: string)
    ensures ParseEntries(RenderEntries(ParseEntries(raw))) != ParseEntries(raw)
  {
    var first, last := "a\n\U{A7} ", "b";
    raw := first + DELIMITER + last;
    assert forall j :: !DelimiterAt(first, j);
    SplitStep(first, last);
    SplitNone(last);
    assert StripRight(first) == StripRight("a\n\U{A7}") == "a\n\U{A7}";
    assert Strip(first) == "a\n\U{A7}" && Strip(last) == "b";
    ParseIsNonBlankSplit(raw);
    assert NonBlank(["b"]) == ["b"];
    assert ParseEntries(raw) == ["a\n\U{A7}", "b"];
    assert Overlaps(ParseEntries(raw)[0]);
    RoundTrip(ParseEntries(raw));
  }
}

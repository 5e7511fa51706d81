/** Python string helpers: whitespace, strip, and the id syntax shared by chats and clients. */
module Text {

  /** The characters for which Python's str.isspace holds; str.strip removes them at both ends. */
  predicate IsSpace(c: char) {
    || '\t' <= c <= '\r' || '\U{1C}' <= c <= ' ' || c == '\U{85}' || c == '\U{A0}' || c == '\U{1680}'
    || '\U{2000}' <= c <= '\U{200A}' || c == '\U{2028}' || c == '\U{2029}' || c == '\U{202F}' || c == '\U{205F}'
    || c == '\U{3000}'
  }

  function StripLeft(s: string): string {
    if s != [] && IsSpace(s[0]) then StripLeft(s[1..]) else s
  }

  function StripRight(s: string): string {
    if s != [] && IsSpace(s[|s| - 1]) then StripRight(s[..|s| - 1]) else s
  }

  function Strip(s: string): string {
    StripRight(StripLeft(s))
  }

  predicate Stripped(s: string) {
    s != [] ==> !IsSpace(s[0]) && !IsSpace(s[|s| - 1])
  }

  lemma {:induction false} StripLeftSplits(s: string) returns (blank: string)
    ensures s == blank + StripLeft(s) && (forall i | 0 <= i < |blank| :: IsSpace(blank[i]))
    ensures StripLeft(s) != [] ==> !IsSpace(StripLeft(s)[0])
  {
    if s != [] && IsSpace(s[0]) {
      var b := StripLeftSplits(s[1..]);
      blank := [s[0]] + b;
    } else {
      blank := [];
    }
  }

  lemma {:induction false} StripRightSplits(s: string) returns (blank: string)
    ensures s == StripRight(s) + blank && (forall i | 0 <= i < |blank| :: IsSpace(blank[i]))
    ensures StripRight(s) != [] ==> !IsSpace(StripRight(s)[|StripRight(s)| - 1])
  {
    if s != [] && IsSpace(s[|s| - 1]) {
      var b := StripRightSplits(s[..|s| - 1]);
      blank := b + [s[|s| - 1]];
    } else {
      blank := [];
    }
  }

  /** strip removes a blank prefix and a blank suffix and leaves a stripped middle. */
  lemma StripSplits(s: string) returns (front: string, back: string)
    ensures s == front + Strip(s) + back && Stripped(Strip(s))
    ensures (forall i | 0 <= i < |front| :: IsSpace(front[i])) && (forall i | 0 <= i < |back| :: IsSpace(back[i]))
  {
    front := StripLeftSplits(s);
    back := StripRightSplits(StripLeft(s));
    if Strip(s) != [] {
      assert StripLeft(s)[0] == Strip(s)[0];
    }
  }

  lemma StripOfStripped(s: string)
    requires Stripped(s)
    ensures Strip(s) == s
  {
  }

  lemma StripNonBlank(s: string, i: nat)
    requires i < |s| && !IsSpace(s[i])
    ensures Strip(s) != []
  {
    var front, back := StripSplits(s);
    assert Strip(s) == [] ==> s == front + back;
  }

  predicate IdChar(c: char) {
    'A' <= c <= 'Z' || 'a' <= c <= 'z' || '0' <= c <= '9' || c == '_' || c == '.' || c == ':' || c == '-'
  }

  predicate ValidId(s: string) {
    1 <= |s| <= 256 && forall i | 0 <= i < |s| :: IdChar(s[i])
  }

  /** The stripped id, or "" when it does not have the id syntax. */
  function CleanId(s: string): (r: string)
    ensures r == "" || ValidId(r)
    ensures ValidId(s) ==> r == s
  {
    assert ValidId(s) ==> Stripped(s);
    var t := Strip(s);
    if ValidId(t) then t else ""
  }
}

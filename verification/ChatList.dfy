/** Listing chats newest first: the title search and the keyset pagination. */
module ChatList {
  import opened Basics
  import ChatStore
  import opened Order
  import opened Text

  const MAX_QUERY := 128

  // --- LIKE with a backslash as escape character

  /** SQLite's lower() and its LIKE fold the 26 ASCII letters and nothing else. */
  function Fold(c: char): char {
    if 'A' <= c <= 'Z' then c + ' ' else c
  }

  /** Characters are folded together exactly when they are the same or the two cases of an ASCII letter. */
  lemma FoldedTogether(c: char, d: char)
    ensures Fold(c) == Fold(d) <==>
              || c == d
              || ('A' <= c <= 'Z' && d as int == c as int + 32)
              || ('A' <= d <= 'Z' && c as int == d as int + 32)
  {
  }

  function AsciiLower(s: string): string {
    seq(|s|, i requires 0 <= i < |s| => Fold(s[i]))
  }

  predicate Like(text: string, pattern: string)
    decreases |text| + |pattern|
  {
    if pattern == [] then text == []
    else if pattern[0] == '%' then Like(text, pattern[1..]) || (text != [] && Like(text[1..], pattern))
    else if text == [] then false
    else if pattern[0] == '_' then Like(text[1..], pattern[1..])
    else if pattern[0] == '\\' then
      |pattern| > 1 && Fold(text[0]) == Fold(pattern[1]) && Like(text[1..], pattern[2..])
    else Fold(text[0]) == Fold(pattern[0]) && Like(text[1..], pattern[1..])
  }

  /** Why a query is escaped: a bare underscore would match every text that is not empty, a percent sign every text. */
  lemma {:induction false} BareWildcardsMatch(text: string)
    ensures Like(text, "%_%") <==> text != ""
    ensures Like(text, "%%%")
  {
    assert "%_%"[1..] == "_%" && "_%"[1..] == "%" && "%"[1..] == "" && "%%%"[1..] == "%%" && "%%"[1..] == "%";
    PercentMatches(text);
    if text != "" {
      PercentMatches(text[1..]);
    }
    assert Like(text, "%%") && Like(text, "%%%");
  }

  lemma {:induction false} PercentMatches(text: string)
    ensures Like(text, "%")
  {
    assert "%"[1..] == "";
    if text != "" {
      PercentMatches(text[1..]);
    }
  }

  /** str.replace of one character. */
  function Replace(s: string, c: char, to: string): string {
    if s == [] then [] else (if s[0] == c then to else [s[0]]) + Replace(s[1..], c, to)
  }

  function EscapeLike(value: string): string {
    Replace(Replace(Replace(value, '\\', "\\\\"), '%', "\\%"), '_', "\\_")
  }

  predicate Special(c: char) {
    c == '\\' || c == '%' || c == '_'
  }

  /** Every special character behind one backslash. */
  function Escaped(s: string): string {
    if s == [] then [] else (if Special(s[0]) then ['\\', s[0]] else [s[0]]) + Escaped(s[1..])
  }

  lemma {:induction false} ReplaceAppend(a: string, b: string, c: char, to: string)
    ensures Replace(a + b, c, to) == Replace(a, c, to) + Replace(b, c, to)
  {
    if a == [] {
      assert a + b == b;
    } else {
      assert (a + b)[1..] == a[1..] + b;
      ReplaceAppend(a[1..], b, c, to);
    }
  }

  lemma ReplaceOne(x: char, c: char, to: string)
    ensures Replace([x], c, to) == if x == c then to else [x]
  {
    assert [x][1..] == [];
  }

  lemma ReplaceTwo(x: char, y: char, c: char, to: string)
    ensures Replace([x, y], c, to) == (if x == c then to else [x]) + (if y == c then to else [y])
  {
    assert [x, y] == [x] + [y];
    ReplaceAppend([x], [y], c, to);
    ReplaceOne(x, c, to);
    ReplaceOne(y, c, to);
  }

  /** The three replacements in their order never escape a backslash they wrote themselves. */
  lemma {:induction false} EscapeIsCharwise(s: string)
    ensures EscapeLike(s) == Escaped(s)
  {
    if s != [] {
      EscapeIsCharwise(s[1..]);
      var x := s[0];
      assert s == [x] + s[1..];
      var one := Replace([x], '\\', "\\\\");
      var two := Replace(one, '%', "\\%");
      ReplaceAppend([x], s[1..], '\\', "\\\\");
      ReplaceAppend(one, Replace(s[1..], '\\', "\\\\"), '%', "\\%");
      ReplaceAppend(two, Replace(Replace(s[1..], '\\', "\\\\"), '%', "\\%"), '_', "\\_");
      ReplaceOne(x, '\\', "\\\\");
      if x == '\\' {
        ReplaceTwo('\\', '\\', '%', "\\%");
        ReplaceTwo('\\', '\\', '_', "\\_");
      } else {
        ReplaceOne(x, '%', "\\%");
        ReplaceOne(x, '_', "\\_");
        ReplaceTwo('\\', '%', '_', "\\_");
      }
    }
  }

  predicate Contains(text: string, part: string) {
    part <= text || (text != [] && Contains(text[1..], part))
  }

  lemma {:induction false} ContainsSomewhere(text: string, part: string)
    ensures Contains(text, part) <==> exists i | 0 <= i <= |text| :: part <= text[i..]
  {
    assert text[0..] == text;
    if text != [] {
      ContainsSomewhere(text[1..], part);
      forall i | 0 <= i < |text|
        ensures text[1..][i..] == text[i + 1..]
      {
      }
      if exists i | 0 <= i <= |text| :: part <= text[i..] {
        var i :| 0 <= i <= |text| && part <= text[i..];
        if i > 0 {
          assert text[1..][i - 1..] == text[i..];
        }
      }
    }
  }

  lemma {:induction false} PercentMatchesAll(text: string)
    ensures Like(text, "%")
  {
    if text == [] {
      assert "%"[1..] == [];
    } else {
      PercentMatchesAll(text[1..]);
    }
  }

  lemma ConsPrefix(a: char, x: string, b: char, y: string)
    ensures [a] + x <= [b] + y <==> a == b && x <= y
  {
    assert x == ([a] + x)[1..] && y == ([b] + y)[1..];
    if [a] + x <= [b] + y {
      assert ([a] + x)[0] == ([b] + y)[0];
      forall i | 0 <= i < |x|
        ensures x[i] == y[i]
      {
        assert ([a] + x)[i + 1] == ([b] + y)[i + 1];
      }
    }
  }

  /** An escaped query followed by a percent sign matches exactly the texts that start with the query. */
  lemma {:induction false} EscapedMatchesPrefix(text: string, q: string)
    ensures Like(text, Escaped(q) + "%") <==> AsciiLower(q) <= AsciiLower(text)
    decreases |q|
  {
    var p := Escaped(q) + "%";
    if q == [] {
      assert p == "%";
      PercentMatchesAll(text);
    } else {
      var rest := Escaped(q[1..]) + "%";
      if Special(q[0]) {
        assert p[0] == '\\' && p[1] == q[0] && p[2..] == rest;
      } else {
        assert p[0] == q[0] && p[1..] == rest;
      }
      if text != [] {
        EscapedMatchesPrefix(text[1..], q[1..]);
        assert AsciiLower(text) == [Fold(text[0])] + AsciiLower(text[1..]);
        assert AsciiLower(q) == [Fold(q[0])] + AsciiLower(q[1..]);
        ConsPrefix(Fold(q[0]), AsciiLower(q[1..]), Fold(text[0]), AsciiLower(text[1..]));
      }
    }
  }

  /** The whole pattern matches exactly the texts that contain the query, whatever special characters the query has. */
  lemma {:induction false} LikeIsSubstring(text: string, q: string)
    ensures Like(text, "%" + EscapeLike(q) + "%") <==> Contains(AsciiLower(text), AsciiLower(q))
    decreases |text|
  {
    EscapeIsCharwise(q);
    var p := "%" + EscapeLike(q) + "%";
    assert p[1..] == Escaped(q) + "%";
    EscapedMatchesPrefix(text, q);
    if text != [] {
      LikeIsSubstring(text[1..], q);
      assert AsciiLower(text)[1..] == AsciiLower(text[1..]);
    }
  }

  lemma LowerTwice(s: string)
    ensures AsciiLower(AsciiLower(s)) == AsciiLower(s)
  {
  }

  // --- which rows a listing selects

  datatype Row = Row(updatedAt: string, title: string, deletedAt: Option<string>)

  type Table = map<string, Row>

  function CleanQuery(q: string): string {
    if |Strip(q)| > MAX_QUERY then Strip(q)[..MAX_QUERY] else Strip(q)
  }

  /** The query is the stripped text, cut after 128 characters. */
  lemma CleanQueryMeans(q: string)
    ensures CleanQuery(q) <= Strip(q) && |CleanQuery(q)| == Min(|Strip(q)|, 128)
  {
  }

  /** What to list. Lowering the query is Python's full str.lower, a parameter here. */
  datatype Request = Request(query: string, includeDeleted: bool, lower: string -> string)

  predicate Wanted(r: Request, id: string, row: Row) {
    && (r.includeDeleted || (row.deletedAt.None? && id != ChatStore.INBOX))
    && (CleanQuery(r.query) != "" ==>
          Like(AsciiLower(row.title), "%" + EscapeLike(r.lower(CleanQuery(r.query))) + "%"))
  }

  /** A row is listed exactly when it is visible and its title contains the lowered query, up to ASCII case. */
  lemma SearchMeaning(r: Request, id: string, row: Row)
    ensures Wanted(r, id, row) <==>
              && (r.includeDeleted || (row.deletedAt.None? && id != "inbox"))
              && (CleanQuery(r.query) == ""
                  || Contains(AsciiLower(row.title), AsciiLower(r.lower(CleanQuery(r.query)))))
  {
    LikeIsSubstring(AsciiLower(row.title), r.lower(CleanQuery(r.query)));
    LowerTwice(row.title);
  }

  /** A visible chat is found by its own title exactly when the title, lowered, is in it up to ASCII case. */
  lemma TitleFindsItself(lower: string -> string, id: string, row: Row)
    ensures Wanted(Request(row.title, true, lower), id, row) <==>
              || CleanQuery(row.title) == ""
              || Contains(AsciiLower(row.title), AsciiLower(lower(CleanQuery(row.title))))
  {
    SearchMeaning(Request(row.title, true, lower), id, row);
  }

  /** A title can fail to match itself: the query is lowered beyond ASCII, the title is not. */
  lemma SearchCanMissTheTitle(lower: string -> string, id: string)
    requires lower("\U{C9}") == "\U{E9}"
    ensures !Wanted(Request("\U{C9}", true, lower), id, Row("t", "\U{C9}", None))
  {
    assert CleanQuery("\U{C9}") == "\U{C9}" by {
      StripOfStripped("\U{C9}");
    }
    var row := Row("t", "\U{C9}", None);
    SearchMeaning(Request("\U{C9}", true, lower), id, row);
    var t := AsciiLower(row.title);
    assert t == "\U{C9}" && AsciiLower("\U{E9}") == "\U{E9}";
    assert t[1..] == [];
    assert "\U{E9}"[0] != t[0];
  }

  /** The position in the listing to go on from; empty texts mean no position. */
  datatype Cursor = Cursor(updatedAt: string, chatId: string)

  const START := Cursor("", "")

  predicate Below(k: Key, c: Cursor) {
    if c.updatedAt == "" then true
    else if CleanId(c.chatId) != "" then
      TextLess(k.stamp, c.updatedAt) || (k.stamp == c.updatedAt && TextLess(k.id, CleanId(c.chatId)))
    else TextLess(k.stamp, c.updatedAt)
  }

  function Selected(t: Table, r: Request, c: Cursor): set<Key> {
    set id | id in t && Wanted(r, id, t[id]) && Below(Key(t[id].updatedAt, id), c) :: Key(t[id].updatedAt, id)
  }

  function Reversed<T>(s: seq<T>): (r: seq<T>)
    ensures |r| == |s| && forall i | 0 <= i < |s| :: r[i] == s[|s| - 1 - i]
  {
    if s == [] then [] else Reversed(s[1..]) + [s[0]]
  }

  /** ORDER BY updated_at DESC, chat_id DESC. */
  function Descending(keys: set<Key>): seq<Key> {
    Reversed(Ascending(keys))
  }

  datatype Page = Page(chats: seq<Key>, hasMore: bool)

  function SafeLimit(limit: int): (n: nat)
    ensures 1 <= n <= 200 && (1 <= limit <= 200 ==> n == limit)
  {
    Min(Max(1, limit), 200)
  }

  function Limited<T>(s: seq<T>, n: nat): seq<T> {
    if |s| <= n then s else s[..n]
  }

  function ListChats(t: Table, r: Request, limit: int, c: Cursor): Page {
    var n := SafeLimit(limit);
    var rows := Limited(Descending(Selected(t, r, c)), n + 1);
    Page(Limited(rows, n), |rows| > n)
  }

  // --- walking the pages

  /** What the store keeps of every row: a stamp and an id of the allowed syntax. */
  ghost predicate WellKept(t: Table) {
    forall id | id in t :: t[id].updatedAt != "" && ValidId(id)
  }

  function After(k: Key): Cursor {
    Cursor(k.stamp, k.id)
  }

  lemma CursorIsKey(k: Key, x: Key)
    requires k.stamp != "" && ValidId(k.id)
    ensures Below(x, After(k)) <==> KeyLess(x, k)
  {
  }

  lemma BelowBelow(x: Key, k: Key, c: Cursor)
    requires KeyLess(x, k) && Below(k, c)
    ensures Below(x, c)
  {
    if c.updatedAt != "" {
      if CleanId(c.chatId) != "" {
        KeyTransitive(x, k, Key(c.updatedAt, CleanId(c.chatId)));
      } else if TextLess(x.stamp, k.stamp) {
        TextTransitive(x.stamp, k.stamp, c.updatedAt);
      }
    }
  }

  /** Going on from a row selects what is left of the sorted listing below that row. */
  lemma SelectedAfter(t: Table, r: Request, c: Cursor, i: nat)
    requires WellKept(t) && i < |Ascending(Selected(t, r, c))|
    ensures var a := Ascending(Selected(t, r, c));
            Ascending(Selected(t, r, After(a[i]))) == a[..i] && |Selected(t, r, After(a[i]))| == i
  {
    var s := Selected(t, r, c);
    var a := Ascending(s);
    AscendingSorts(s);
    var next := Selected(t, r, After(a[i]));
    assert a[i] in s;
    forall k
      ensures k in next <==> k in KeySet(a[..i])
    {
      CursorIsKey(a[i], k);
      if k in next {
        BelowBelow(k, a[i], c);
        assert k in a;
        var j :| 0 <= j < |a| && a[j] == k;
        KeyTrichotomy(k, a[i]);
        assert j < i;
        assert a[..i][j] == k;
      }
      if k in a[..i] {
        var j :| 0 <= j < i && a[j] == k;
        assert k in a;
      }
    }
    assert next == KeySet(a[..i]);
    AscendingPrefix(s, i);
    AscendingSorts(next);
  }

  lemma ReversedSplits<T>(s: seq<T>, i: nat)
    requires i < |s|
    ensures Reversed(s)[..|s| - i] + Reversed(s[..i]) == Reversed(s) && Reversed(s)[|s| - i - 1] == s[i]
  {
    var r, tail, n := Reversed(s), Reversed(s[..i]), |s| - i;
    forall j | 0 <= j < i
      ensures r[n + j] == tail[j]
    {
      assert tail[j] == s[..i][i - 1 - j] == s[i - 1 - j];
    }
    assert r[n..] == tail;
    assert r == r[..n] + r[n..];
  }

  lemma RestOfListing(t: Table, r: Request, c: Cursor, n: nat)
    requires WellKept(t) && 0 < n <= |Descending(Selected(t, r, c))|
    ensures var d := Descending(Selected(t, r, c));
            && d == d[..n] + Descending(Selected(t, r, After(d[n - 1])))
            && |Selected(t, r, After(d[n - 1]))| < |Selected(t, r, c)|
  {
    var s := Selected(t, r, c);
    var a := Ascending(s);
    AscendingSorts(s);
    SelectedAfter(t, r, c, |a| - n);
    ReversedSplits(a, |a| - n);
  }

  /** A page is the head of what the cursor selects, and it says whether that is all. */
  lemma PageIsHead(t: Table, r: Request, limit: int, c: Cursor)
    ensures var d, p := Descending(Selected(t, r, c)), ListChats(t, r, limit, c);
            p.chats == Limited(d, SafeLimit(limit)) && p.hasMore == (|d| > SafeLimit(limit))
  {
  }

  lemma NextPageIsSmaller(t: Table, r: Request, limit: int, c: Cursor)
    requires WellKept(t) && ListChats(t, r, limit, c).hasMore
    ensures var p, d := ListChats(t, r, limit, c).chats, Descending(Selected(t, r, c));
            && |p| == SafeLimit(limit) && d == p + Descending(Selected(t, r, After(p[|p| - 1])))
            && |Selected(t, r, After(p[|p| - 1]))| < |Selected(t, r, c)|
  {
    PageIsHead(t, r, limit, c);
    RestOfListing(t, r, c, SafeLimit(limit));
  }

  /** A client that passes the last row of each page as the next cursor, until no more is announced. */
  function Walk(t: Table, r: Request, limit: int, c: Cursor): seq<Key>
    requires WellKept(t)
    decreases |Selected(t, r, c)|
  {
    var page := ListChats(t, r, limit, c);
    if !page.hasMore then page.chats
    else
      NextPageIsSmaller(t, r, limit, c);
      page.chats + Walk(t, r, limit, After(page.chats[|page.chats| - 1]))
  }

  lemma {:induction false} WalkIsListing(t: Table, r: Request, limit: int, c: Cursor)
    requires WellKept(t)
    ensures Walk(t, r, limit, c) == Descending(Selected(t, r, c))
    decreases |Selected(t, r, c)|
  {
    PageIsHead(t, r, limit, c);
    if ListChats(t, r, limit, c).hasMore {
      NextPageIsSmaller(t, r, limit, c);
      var p := ListChats(t, r, limit, c).chats;
      WalkIsListing(t, r, limit, After(p[|p| - 1]));
    }
  }

  /** Every page size, any number of rows with one stamp: each wanted chat once, in strictly descending order. */
  lemma WalkListsEveryChatOnce(t: Table, r: Request, limit: int)
    requires WellKept(t)
    ensures var w := Walk(t, r, limit, START);
            && (forall i, j | 0 <= i < j < |w| :: KeyLess(w[j], w[i]))
            && (forall k :: k in w <==> k.id in t && k.stamp == t[k.id].updatedAt && Wanted(r, k.id, t[k.id]))
  {
    WalkIsListing(t, r, limit, START);
    var s := Selected(t, r, START);
    var a := Ascending(s);
    AscendingSorts(s);
    var w := Descending(s);
    forall k
      ensures k in w <==> k in a
    {
      if k in a {
        var i :| 0 <= i < |a| && a[i] == k;
        assert w[|a| - 1 - i] == k;
      }
    }
  }
}

/** Rows ordered by a text stamp and then a text id, the way the store's queries order them. */
module Order {
  import opened Basics

  /** Text comparison, character by character. Stamps and ids are text; their order is this one, not time order. */
  predicate TextLess(a: string, b: string) {
    if b == [] then false
    else if a == [] then true
    else a[0] < b[0] || (a[0] == b[0] && TextLess(a[1..], b[1..]))
  }

  /** The texts agree up to position i, where the first ends or has the smaller character. */
  predicate LessAt(a: string, b: string, i: int) {
    0 <= i <= |a| && i < |b| && a[..i] == b[..i] && (i == |a| || a[i] < b[i])
  }

  /** The comparison is the lexicographic one. */
  lemma {:induction false} TextLessMeans(a: string, b: string)
    ensures TextLess(a, b) <==> exists i :: LessAt(a, b, i)
  {
    if a == [] || b == [] || a[0] < b[0] {
      assert b != [] ==> LessAt(a, b, 0);
    } else {
      TextLessMeans(a[1..], b[1..]);
      if TextLess(a, b) {
        var i :| LessAt(a[1..], b[1..], i);
        assert a[..i + 1] == [a[0]] + a[1..][..i] && b[..i + 1] == [b[0]] + b[1..][..i];
        assert LessAt(a, b, i + 1);
      }
      if i :| LessAt(a, b, i) {
        assert i > 0 && a[..i][0] == b[..i][0];
        assert a[1..][..i - 1] == a[..i][1..] && b[1..][..i - 1] == b[..i][1..];
        assert LessAt(a[1..], b[1..], i - 1);
      }
    }
  }

  datatype Key = Key(stamp: string, id: string)

  predicate KeyLess(a: Key, b: Key) {
    TextLess(a.stamp, b.stamp) || (a.stamp == b.stamp && TextLess(a.id, b.id))
  }

  lemma {:induction false} TextTrichotomy(a: string, b: string)
    ensures TextLess(a, b) || a == b || TextLess(b, a)
    ensures !(TextLess(a, b) && TextLess(b, a)) && !TextLess(a, a)
  {
    if a != [] && b != [] {
      TextTrichotomy(a[1..], b[1..]);
      assert a == [a[0]] + a[1..] && b == [b[0]] + b[1..];
    }
    TextIrreflexive(a);
  }

  lemma {:induction false} TextIrreflexive(a: string)
    ensures !TextLess(a, a)
  {
    if a != [] {
      TextIrreflexive(a[1..]);
    }
  }

  lemma {:induction false} TextTransitive(a: string, b: string, c: string)
    requires TextLess(a, b) && TextLess(b, c)
    ensures TextLess(a, c)
  {
    if a != [] && a[0] == b[0] && b[0] == c[0] {
      TextTransitive(a[1..], b[1..], c[1..]);
    }
  }

  lemma KeyTrichotomy(a: Key, b: Key)
    ensures KeyLess(a, b) || a == b || KeyLess(b, a)
    ensures !(KeyLess(a, b) && KeyLess(b, a)) && !KeyLess(a, a)
  {
    TextTrichotomy(a.stamp, b.stamp);
    TextTrichotomy(a.id, b.id);
  }

  lemma KeyTransitive(a: Key, b: Key, c: Key)
    requires KeyLess(a, b) && KeyLess(b, c)
    ensures KeyLess(a, c)
  {
    TextTrichotomy(a.stamp, b.stamp);
    TextTrichotomy(b.stamp, c.stamp);
    if TextLess(a.stamp, b.stamp) && TextLess(b.stamp, c.stamp) {
      TextTransitive(a.stamp, b.stamp, c.stamp);
    } else if a.stamp == b.stamp == c.stamp {
      TextTransitive(a.id, b.id, c.id);
    }
  }

  predicate IsLeast(keys: set<Key>, k: Key) {
    k in keys && forall x | x in keys :: x == k || KeyLess(k, x)
  }

  lemma {:induction false} LeastExists(keys: set<Key>)
    requires keys != {}
    ensures exists k :: IsLeast(keys, k)
  {
    var k :| k in keys;
    if keys == {k} {
      assert IsLeast(keys, k);
    } else {
      LeastExists(keys - {k});
      var m :| IsLeast(keys - {k}, m);
      KeyTrichotomy(k, m);
      if KeyLess(k, m) {
        forall x | x in keys
          ensures x == k || KeyLess(k, x)
        {
          if x != k && x != m {
            KeyTransitive(k, m, x);
          }
        }
        assert IsLeast(keys, k);
      } else {
        assert IsLeast(keys, m);
      }
    }
  }

  lemma LeastUnique(keys: set<Key>, a: Key, b: Key)
    requires IsLeast(keys, a) && IsLeast(keys, b)
    ensures a == b
  {
    KeyTrichotomy(a, b);
  }

  function Least(keys: set<Key>): (k: Key)
    requires keys != {}
    ensures IsLeast(keys, k)
  {
    LeastExists(keys);
    assert forall a, b | IsLeast(keys, a) && IsLeast(keys, b) :: a == b by {
      forall a, b | IsLeast(keys, a) && IsLeast(keys, b) ensures a == b { LeastUnique(keys, a, b); }
    }
    var k :| k in keys && IsLeast(keys, k);
    k
  }

  /** ORDER BY stamp ASC, id ASC. */
  function Ascending(keys: set<Key>): seq<Key> {
    if keys == {} then [] else [Least(keys)] + Ascending(keys - {Least(keys)})
  }

  function KeySet(s: seq<Key>): set<Key> {
    set k | k in s
  }

  ghost predicate Sorted(s: seq<Key>) {
    forall i, j | 0 <= i < j < |s| :: KeyLess(s[i], s[j])
  }

  lemma {:induction false} AscendingSorts(keys: set<Key>)
    ensures Sorted(Ascending(keys)) && |Ascending(keys)| == |keys|
    ensures forall k :: k in Ascending(keys) <==> k in keys
  {
    if keys != {} {
      var m := Least(keys);
      AscendingSorts(keys - {m});
      var t := Ascending(keys - {m});
      forall i, j | 0 <= i < j < |Ascending(keys)|
        ensures KeyLess(Ascending(keys)[i], Ascending(keys)[j])
      {
        if i == 0 {
          assert t[j - 1] in t;
        }
      }
    }
  }

  /** A strictly sorted list is determined by its elements. */
  lemma {:induction false} SortedUnique(a: seq<Key>, b: seq<Key>)
    requires Sorted(a) && Sorted(b) && forall k :: k in a <==> k in b
    ensures a == b
  {
    assert a != [] ==> a[0] in b;
    assert b != [] ==> b[0] in a;
    if a != [] {
      KeyTrichotomy(a[0], b[0]);
      var i :| 0 <= i < |b| && b[i] == a[0];
      var j :| 0 <= j < |a| && a[j] == b[0];
      assert a[0] == b[0];
      forall k
        ensures k in a[1..] <==> k in b[1..]
      {
        KeyTrichotomy(a[0], a[0]);
        if k in a[1..] {
          assert k in b && k != b[0];
        }
        if k in b[1..] {
          assert k in a && k != a[0];
        }
      }
      SortedUnique(a[1..], b[1..]);
      assert a == [a[0]] + a[1..] && b == [b[0]] + b[1..];
    }
  }

  /** The stretch of the sorted list at or after / before position i is the sorted list of those keys. */
  lemma AscendingPrefix(keys: set<Key>, i: nat)
    requires i <= |Ascending(keys)|
    ensures Ascending(KeySet(Ascending(keys)[..i])) == Ascending(keys)[..i]
  {
    AscendingSorts(keys);
    var below := KeySet(Ascending(keys)[..i]);
    AscendingSorts(below);
    SortedUnique(Ascending(below), Ascending(keys)[..i]);
  }
}

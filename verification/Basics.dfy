/** Small value types and sequence facts shared by the other modules. */
module Basics {

  datatype Option<+T> = None | Some(value: T)

  /** The outcome of an operation that the program may refuse by raising. */
  datatype Result<+T, +E> = Ok(value: T) | Err(error: E)

  /** A cursor below what is still retained, with the bounds of what is. */
  datatype ResumeExpired = ResumeExpired(floor: int, latest: int)

  function Min(a: int, b: int): int { if a <= b then a else b }

  function Max(a: int, b: int): int { if a >= b then a else b }

  lemma Member<T>(s: set<T>) returns (x: T)
    requires s != {}
    ensures x in s
  {
    x :| x in s;
  }

  /** The concatenation of a sequence of sequences. */
  function Flatten<T>(ss: seq<seq<T>>): seq<T> {
    if ss == [] then [] else ss[0] + Flatten(ss[1..])
  }

  lemma {:induction false} FlattenAppend<T>(a: seq<seq<T>>, b: seq<seq<T>>)
    ensures Flatten(a + b) == Flatten(a) + Flatten(b)
  {
    if a == [] {
      assert a + b == b;
    } else {
      FlattenAppend(a[1..], b);
      assert (a + b)[1..] == a[1..] + b && (a + b)[0] == a[0];
      assert a[0] + (Flatten(a[1..]) + Flatten(b)) == (a[0] + Flatten(a[1..])) + Flatten(b);
    }
  }

  /** `part` is the stretch of the whole that starts at position `from`. */
  ghost predicate StretchAt<T>(whole: seq<T>, from: int, part: seq<T>) {
    part != [] ==> 0 <= from && from + |part| <= |whole| && forall i | 0 <= i < |part| :: part[i] == whole[from + i]
  }

  lemma StretchGrows<T>(whole: seq<T>, more: seq<T>, from: int, part: seq<T>)
    requires StretchAt(whole, from, part)
    ensures StretchAt(whole + more, from, part)
  {
  }
}

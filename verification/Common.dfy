/** Types and small facts about sequences and sets shared by the whole project. */
module Common {
  datatype Option<+T> = None | Some(value: T)

  newtype byte = x: int | 0 <= x < 256
  type Bytes = seq<byte>

  function Count(b: bool): nat { if b then 1 else 0 }

  ghost predicate NoDuplicates<T>(s: seq<T>) {
    forall i, j :: 0 <= i < j < |s| ==> s[i] != s[j]
  }

  /** Sum of w over the elements of a finite set. */
  ghost function SumOver<T(!new)>(s: set<T>, w: T -> nat): nat {
    if s == {} then 0 else var x :| x in s; w(x) + SumOver(s - {x}, w)
  }

  /** SumOver does not depend on the order in which elements are picked. */
  lemma {:induction false} SumOverRemove<T(!new)>(s: set<T>, x: T, w: T -> nat)
    requires x in s
    ensures SumOver(s, w) == w(x) + SumOver(s - {x}, w)
    decreases s
  {
    var y :| y in s && SumOver(s, w) == w(y) + SumOver(s - {y}, w);
    if y != x {
      SumOverRemove(s - {y}, x, w);
      assert s - {y} - {x} == s - {x} - {y};
      SumOverRemove(s - {x}, y, w);
    }
  }
}

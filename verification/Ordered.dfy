/** The order of strings and the sorted listing of a set of them, as the registry needs it. */
module Ordered {
  import opened Common

  /** Lexicographic order on code points, which is the byte order of sort.Strings on UTF-8 text. */
  predicate Precedes(a: string, b: string) {
    a == "" || (b != "" && (a[0] < b[0] || (a[0] == b[0] && Precedes(a[1..], b[1..]))))
  }

  /** a comes first at position k: they agree before it and a has the smaller character there. */
  predicate SmallerAt(a: string, b: string, k: nat) {
    k < |a| && k < |b| && a[..k] == b[..k] && a[k] < b[k]
  }

  /** The order is decided by the first position at which two strings differ, or by their lengths. */
  lemma {:induction false} PrecedesIff(a: string, b: string)
    ensures Precedes(a, b) <==> a <= b || exists k: nat :: SmallerAt(a, b, k)
  {
    if a != "" && b != "" {
      PrecedesIff(a[1..], b[1..]);
      var c, d := a[1..], b[1..];
      assert a == [a[0]] + c && b == [b[0]] + d;
      if a[0] < b[0] {
        assert SmallerAt(a, b, 0);
      } else if a[0] == b[0] {
        assert c <= d ==> a <= b;
        assert a <= b ==> c == a[1..] <= b[1..] == d;
        if k: nat :| SmallerAt(c, d, k) {
          assert a[..k + 1] == [a[0]] + c[..k] && b[..k + 1] == [b[0]] + d[..k];
          assert SmallerAt(a, b, k + 1);
        }
        if k: nat :| SmallerAt(a, b, k) {
          assert k > 0;
          assert c[..k - 1] == a[..k][1..] && d[..k - 1] == b[..k][1..];
          assert SmallerAt(c, d, k - 1);
        }
      }
    }
  }

  lemma {:induction false} PrecedesTotal(a: string, b: string)
    ensures Precedes(a, b) || Precedes(b, a)
  {
    if a != "" && b != "" && a[0] == b[0] {
      PrecedesTotal(a[1..], b[1..]);
    }
  }

  lemma {:induction false} PrecedesTransitive(a: string, b: string, c: string)
    requires Precedes(a, b) && Precedes(b, c)
    ensures Precedes(a, c)
  {
    if a != "" && a[0] == b[0] && b[0] == c[0] {
      PrecedesTransitive(a[1..], b[1..], c[1..]);
    }
  }

  lemma {:induction false} PrecedesAntisymmetric(a: string, b: string)
    requires Precedes(a, b) && Precedes(b, a)
    ensures a == b
  {
    if a != "" && b != "" {
      PrecedesAntisymmetric(a[1..], b[1..]);
      assert a == [a[0]] + a[1..] && b == [b[0]] + b[1..];
    }
  }

  ghost predicate InOrder(s: seq<string>) {
    forall i, j :: 0 <= i < j < |s| ==> Precedes(s[i], s[j])
  }

  function Insert(x: string, s: seq<string>): seq<string> {
    if s == [] || Precedes(x, s[0]) then [x] + s else [s[0]] + Insert(x, s[1..])
  }

  function SortStrings(s: seq<string>): seq<string> {
    if s == [] then [] else Insert(s[0], SortStrings(s[1..]))
  }

  lemma {:induction false} InsertMembers(x: string, s: seq<string>)
    ensures multiset(Insert(x, s)) == multiset(s) + multiset{x}
  {
    if s != [] && !Precedes(x, s[0]) {
      InsertMembers(x, s[1..]);
      assert s == [s[0]] + s[1..];
    }
  }

  /** Everything from index 0 on is preceded by x. */
  ghost predicate Below(x: string, s: seq<string>) {
    forall j :: 0 <= j < |s| ==> Precedes(x, s[j])
  }

  lemma {:induction false} InsertBelow(y: string, x: string, s: seq<string>)
    requires Below(y, s) && Precedes(y, x)
    ensures Below(y, Insert(x, s))
  {
    if s != [] && !Precedes(x, s[0]) {
      InsertBelow(y, x, s[1..]);
    }
  }

  lemma {:induction false} InsertOrdered(x: string, s: seq<string>)
    requires InOrder(s)
    ensures InOrder(Insert(x, s))
  {
    if s == [] {
    } else if Precedes(x, s[0]) {
      forall j | 0 <= j < |s| ensures Precedes(x, s[j]) {
        if j > 0 {
          PrecedesTransitive(x, s[0], s[j]);
        }
      }
    } else {
      InsertOrdered(x, s[1..]);
      PrecedesTotal(x, s[0]);
      InsertBelow(s[0], x, s[1..]);
    }
  }

  lemma {:induction false} SortStringsSorts(s: seq<string>)
    ensures InOrder(SortStrings(s)) && multiset(SortStrings(s)) == multiset(s)
  {
    if s != [] {
      SortStringsSorts(s[1..]);
      InsertOrdered(s[0], SortStrings(s[1..]));
      InsertMembers(s[0], SortStrings(s[1..]));
      assert s == [s[0]] + s[1..];
    }
  }

  /** A duplicate-free ordered sequence is determined by its members. */
  lemma {:induction false} OrderedUnique(a: seq<string>, b: seq<string>)
    requires InOrder(a) && InOrder(b) && NoDuplicates(a) && NoDuplicates(b)
    requires forall x :: x in a <==> x in b
    ensures a == b
  {
    assert |b| > 0 ==> b[0] in a;
    if a != [] {
      assert a[0] in b && b != [];
      assert b[0] in a;
      var i :| 0 <= i < |b| && b[i] == a[0];
      var j :| 0 <= j < |a| && a[j] == b[0];
      if i > 0 && j > 0 {
        PrecedesAntisymmetric(a[0], b[0]);
      }
      assert a[0] == b[0];
      assert a == [a[0]] + a[1..] && b == [b[0]] + b[1..];
      forall x ensures x in a[1..] <==> x in b[1..] {
        if x in a[1..] {
          var k :| 0 <= k < |a[1..]| && a[1..][k] == x;
          assert a[k + 1] == x && a[k + 1] != a[0] && x in b;
        }
        if x in b[1..] {
          var k :| 0 <= k < |b[1..]| && b[1..][k] == x;
          assert b[k + 1] == x && b[k + 1] != b[0] && x in a;
        }
      }
      OrderedUnique(a[1..], b[1..]);
    }
  }

  /** The sorted listing of a set of strings; the order being total, there is only one. */
  ghost function SortedKeys(keys: set<string>): seq<string> {
    if keys == {} then [] else var x :| x in keys; Insert(x, SortedKeys(keys - {x}))
  }

  lemma {:induction false} SortedKeysListing(keys: set<string>)
    ensures multiset(SortedKeys(keys)) == multiset(keys) && InOrder(SortedKeys(keys))
  {
    if keys != {} {
      var x :| x in keys && SortedKeys(keys) == Insert(x, SortedKeys(keys - {x}));
      SortedKeysListing(keys - {x});
      InsertMembers(x, SortedKeys(keys - {x}));
      InsertOrdered(x, SortedKeys(keys - {x}));
      assert multiset(keys) == multiset(keys - {x}) + multiset{x};
    }
  }

  lemma CountTwice(list: seq<string>, i: nat, j: nat)
    requires i < j < |list| && list[i] == list[j]
    ensures multiset(list)[list[i]] >= 2
  {
    assert list == list[..i] + [list[i]] + list[i + 1..j] + [list[j]] + list[j + 1..];
  }

  lemma MultisetNoDuplicates(list: seq<string>, keys: set<string>)
    requires multiset(list) == multiset(keys)
    ensures ListsExactly(list, keys)
  {
    forall i, j | 0 <= i < j < |list| ensures list[i] != list[j] {
      if list[i] == list[j] {
        CountTwice(list, i, j);
      }
    }
    forall x ensures x in list <==> x in keys {
      assert x in list <==> x in multiset(list);
    }
  }

  /** list holds every key once, in any order. */
  ghost predicate ListsExactly(list: seq<string>, keys: set<string>) {
    NoDuplicates(list) && forall x :: x in list <==> x in keys
  }

  lemma ListsNothing()
    ensures ListsExactly([], {})
  {
  }

  lemma ListsOneMore(list: seq<string>, keys: set<string>, x: string)
    requires ListsExactly(list, keys) && x !in keys
    ensures ListsExactly(list + [x], keys + {x})
  {
  }

  /** Sorting any duplicate-free listing of the keys gives SortedKeys. */
  lemma SortedKeysUnique(list: seq<string>, keys: set<string>)
    requires ListsExactly(list, keys)
    ensures SortStrings(list) == SortedKeys(keys)
  {
    SortStringsSorts(list);
    SortedKeysListing(keys);
    MultisetNoDuplicates(SortedKeys(keys), keys);
    NoDuplicatesMultiset(list, keys);
    MultisetNoDuplicates(SortStrings(list), keys);
    OrderedUnique(SortStrings(list), SortedKeys(keys));
  }

  lemma {:induction false} NoDuplicatesMultiset(list: seq<string>, keys: set<string>)
    requires ListsExactly(list, keys)
    ensures multiset(list) == multiset(keys)
  {
    if list == [] {
      assert keys == {};
    } else {
      var x := list[0];
      forall y ensures y in list[1..] <==> y in keys - {x} {
        if y in keys - {x} {
          var k :| 0 <= k < |list| && list[k] == y;
          assert list[1..][k - 1] == y;
        }
      }
      NoDuplicatesMultiset(list[1..], keys - {x});
      assert list == [x] + list[1..];
      assert multiset(keys) == multiset(keys - {x}) + multiset{x};
    }
  }
}

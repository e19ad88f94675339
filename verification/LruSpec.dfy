/** The LRU cache as a recency sequence: most recently used entry first. */
module LruSpec {
  import opened Common

  datatype Entry = Entry(key: string, value: Bytes) {
    function Size(): nat { |key| + |value| }
  }

  type Recency = seq<Entry>

  function Total(s: Recency): nat {
    if s == [] then 0 else Total(s[..|s| - 1]) + s[|s| - 1].Size()
  }

  /** A budget of 0 means no limit. */
  predicate Fits(budget: nat, s: Recency) {
    budget == 0 || Total(s) <= budget
  }

  predicate HasKey(s: Recency, key: string) {
    exists i :: 0 <= i < |s| && s[i].key == key
  }

  ghost predicate DistinctKeys(s: Recency) {
    forall i, j :: 0 <= i < j < |s| ==> s[i].key != s[j].key
  }

  function Find(s: Recency, key: string): Option<Bytes> {
    if s == [] then None
    else if s[0].key == key then Some(s[0].value)
    else Find(s[1..], key)
  }

  function Without(s: Recency, key: string): Recency {
    if s == [] then []
    else if s[0].key == key then Without(s[1..], key)
    else [s[0]] + Without(s[1..], key)
  }

  /** The sequence after key became the most recent one, holding value. */
  function Updated(s: Recency, key: string, value: Bytes): Recency {
    [Entry(key, value)] + Without(s, key)
  }

  /** Drop the oldest entry until the rest fits. */
  function Evict(budget: nat, s: Recency): (r: Recency)
    ensures LongestFit(budget, s, r)
  {
    if Fits(budget, s) then s
    else
      var r := Evict(budget, s[..|s| - 1]);
      assert forall n | |r| < n <= |s| - 1 :: s[..|s| - 1][..n] == s[..n];
      assert s[..|s|] == s;
      r
  }

  function AddTo(budget: nat, s: Recency, key: string, value: Bytes): Recency {
    Evict(budget, Updated(s, key, value))
  }

  function TouchIn(s: Recency, key: string): Recency {
    match Find(s, key)
    case None => s
    case Some(v) => Updated(s, key, v)
  }

  /** r is the longest prefix of s that fits the budget. */
  ghost predicate LongestFit(budget: nat, s: Recency, r: Recency) {
    && r <= s
    && Fits(budget, r)
    && (forall n | |r| < n <= |s| :: !Fits(budget, s[..n]))
  }

  // ---------------------------------------------------------------- totals

  lemma {:induction false} TotalConcat(a: Recency, b: Recency)
    ensures Total(a + b) == Total(a) + Total(b)
    decreases |b|
  {
    if b == [] {
      assert a + b == a;
    } else {
      var c := b[..|b| - 1];
      assert (a + b)[..|a + b| - 1] == a + c;
      TotalConcat(a, c);
    }
  }

  lemma TotalPrefix(a: Recency, b: Recency)
    requires a <= b
    ensures Total(a) <= Total(b)
  {
    assert b == a + b[|a|..];
    TotalConcat(a, b[|a|..]);
  }

  lemma TotalCons(e: Entry, s: Recency)
    ensures Total([e] + s) == e.Size() + Total(s)
  {
    TotalConcat([e], s);
    assert [e][..0] == [];
  }

  /** Whether a fitting prefix ends where it does is decided by the next element alone. */
  lemma LongestFitByNext(budget: nat, s: Recency, r: Recency)
    requires r <= s && Fits(budget, r)
    requires |r| < |s| ==> !Fits(budget, s[..|r| + 1])
    ensures LongestFit(budget, s, r)
  {
    forall n | |r| < n <= |s| ensures !Fits(budget, s[..n]) {
      assert s[..|r| + 1] <= s[..n];
      TotalPrefix(s[..|r| + 1], s[..n]);
    }
  }

  /** The longest fitting prefix is unique, so LongestFit pins Evict down completely. */
  lemma LongestFitUnique(budget: nat, s: Recency, a: Recency, b: Recency)
    requires LongestFit(budget, s, a) && LongestFit(budget, s, b)
    ensures a == b
  {
    assert a == s[..|a|] && b == s[..|b|];
  }

  // ---------------------------------------------------------------- keys

  lemma {:induction false} FindIffHasKey(s: Recency, key: string)
    ensures Find(s, key).Some? <==> HasKey(s, key)
  {
    if s != [] {
      FindIffHasKey(s[1..], key);
      if HasKey(s, key) && s[0].key != key {
        var i :| 0 <= i < |s| && s[i].key == key;
        assert s[1..][i - 1].key == key;
      }
      if HasKey(s[1..], key) {
        var i :| 0 <= i < |s[1..]| && s[1..][i].key == key;
        assert s[i + 1].key == key;
      }
    }
  }

  lemma {:induction false} FindMember(s: Recency, key: string)
    requires Find(s, key).Some?
    ensures Entry(key, Find(s, key).value) in s
  {
    if s[0].key != key {
      FindMember(s[1..], key);
    }
  }

  lemma {:induction false} WithoutConcat(a: Recency, b: Recency, key: string)
    ensures Without(a + b, key) == Without(a, key) + Without(b, key)
  {
    if a == [] {
      assert a + b == b;
    } else {
      assert (a + b)[1..] == a[1..] + b;
      WithoutConcat(a[1..], b, key);
    }
  }

  lemma AbsentInTail(s: Recency, key: string)
    requires !HasKey(s, key) && s != []
    ensures !HasKey(s[1..], key) && s[0].key != key
  {
    assert forall i :: 0 <= i < |s[1..]| ==> s[1..][i] == s[i + 1];
  }

  lemma {:induction false} WithoutAbsent(s: Recency, key: string)
    requires !HasKey(s, key)
    ensures Without(s, key) == s
  {
    if s != [] {
      AbsentInTail(s, key);
      hide HasKey;
      WithoutAbsent(s[1..], key);
      assert s == [s[0]] + s[1..];
    }
  }

  lemma WithoutSingle(e: Entry)
    ensures Without([e], e.key) == []
  {
    assert [e][1..] == [];
  }

  /** Removing the only entry with a key cuts exactly that position out. */
  lemma WithoutSplit(a: Recency, e: Entry, b: Recency)
    requires !HasKey(a, e.key) && !HasKey(b, e.key)
    ensures Without(a + ([e] + b), e.key) == a + b
  {
    WithoutConcat(a, [e] + b, e.key);
    WithoutConcat([e], b, e.key);
    WithoutSingle(e);
    WithoutAbsent(a, e.key);
    WithoutAbsent(b, e.key);
  }

  lemma TotalSplit(a: Recency, e: Entry, b: Recency)
    ensures Total(a + ([e] + b)) == Total(a) + e.Size() + Total(b)
    ensures Total([e] + (a + b)) == Total(a + ([e] + b))
  {
    TotalConcat(a, [e] + b);
    TotalCons(e, b);
    TotalCons(e, a + b);
    TotalConcat(a, b);
  }

  /** The parts of s around position i; other entries have other keys when keys are distinct. */
  lemma SplitAt(s: Recency, i: nat) returns (a: Recency, b: Recency)
    requires i < |s|
    ensures a == s[..i] && b == s[i + 1..] && s == a + ([s[i]] + b)
    ensures DistinctKeys(s) ==> !HasKey(a, s[i].key) && !HasKey(b, s[i].key)
  {
    a, b := s[..i], s[i + 1..];
  }

  lemma {:induction false} WithoutKeys(s: Recency, key: string)
    ensures forall e :: e in Without(s, key) <==> e in s && e.key != key
    ensures DistinctKeys(s) ==> DistinctKeys(Without(s, key))
  {
    if s != [] {
      WithoutKeys(s[1..], key);
      assert s == [s[0]] + s[1..];
      if DistinctKeys(s) && s[0].key != key {
        var r := Without(s[1..], key);
        forall i | 0 <= i < |r| ensures r[i].key != s[0].key {
          assert r[i] in s[1..];
        }
      }
    }
  }

  lemma UpdatedDistinct(s: Recency, key: string, value: Bytes)
    requires DistinctKeys(s)
    ensures DistinctKeys(Updated(s, key, value))
  {
    WithoutKeys(s, key);
    var r := Without(s, key);
    forall i | 0 <= i < |r| ensures r[i].key != key {
      assert r[i] in r;
    }
  }

  /** A hit moves one entry to the front and leaves everything else in order. */
  lemma TouchSplit(s: Recency, a: Recency, e: Entry, b: Recency)
    requires s == a + ([e] + b) && !HasKey(a, e.key) && !HasKey(b, e.key)
    ensures TouchIn(s, e.key) == [e] + (a + b)
    ensures Total(TouchIn(s, e.key)) == Total(s)
    ensures forall x :: x in TouchIn(s, e.key) <==> x in s
  {
    FindSplit(a, e, b);
    WithoutSplit(a, e, b);
    TotalSplit(a, e, b);
  }

  lemma {:induction false} FindSplit(a: Recency, e: Entry, b: Recency)
    requires !HasKey(a, e.key)
    ensures Find(a + ([e] + b), e.key) == Some(e.value)
  {
    if a == [] {
      assert a + ([e] + b) == [e] + b;
    } else {
      assert a[0].key != e.key;
      assert (a + ([e] + b))[1..] == a[1..] + ([e] + b);
      assert forall i :: 0 <= i < |a[1..]| ==> a[1..][i] == a[i + 1];
      FindSplit(a[1..], e, b);
    }
  }

  lemma TouchKeepsTotal(s: Recency, key: string)
    requires DistinctKeys(s)
    ensures Total(TouchIn(s, key)) == Total(s)
    ensures forall x :: x in TouchIn(s, key) <==> x in s
  {
    FindIffHasKey(s, key);
    if HasKey(s, key) {
      var i :| 0 <= i < |s| && s[i].key == key;
      var a, b := SplitAt(s, i);
      TouchSplit(s, a, s[i], b);
    }
  }

  /** Every operation keeps keys distinct and the total within the budget. */
  lemma OperationsKeepShape(budget: nat, s: Recency, key: string, value: Bytes)
    requires DistinctKeys(s) && Fits(budget, s)
    ensures DistinctKeys(AddTo(budget, s, key, value)) && Fits(budget, AddTo(budget, s, key, value))
    ensures DistinctKeys(TouchIn(s, key)) && Fits(budget, TouchIn(s, key))
  {
    UpdatedDistinct(s, key, value);
    TouchKeepsTotal(s, key);
    if Find(s, key).Some? {
      UpdatedDistinct(s, key, Find(s, key).value);
    }
  }

  // ---------------------------------------------------------------- what is found

  lemma {:induction false} FindConcat(a: Recency, b: Recency, key: string)
    ensures Find(a + b, key) == if Find(a, key).Some? then Find(a, key) else Find(b, key)
  {
    if a == [] {
      assert a + b == b;
    } else {
      assert (a + b)[1..] == a[1..] + b;
      FindConcat(a[1..], b, key);
    }
  }

  lemma {:induction false} FindWithout(s: Recency, key: string, k: string)
    ensures Find(Without(s, key), k) == if k == key then None else Find(s, k)
  {
    if s != [] {
      FindWithout(s[1..], key, k);
      if s[0].key != key {
        assert Without(s, key)[1..] == Without(s[1..], key);
      }
    }
  }

  /** After an Add its key holds its value, unless that alone is too large; every other key holds what it
      held, or has been evicted. */
  lemma AddFinds(budget: nat, s: Recency, key: string, value: Bytes, k: string)
    ensures Find(AddTo(budget, s, key, value), key) ==
            if budget == 0 || |key| + |value| <= budget then Some(value) else None
    ensures k != key ==> Find(AddTo(budget, s, key, value), k) in {None, Find(s, k)}
  {
    var u, r := Updated(s, key, value), AddTo(budget, s, key, value);
    var e := Entry(key, value);
    assert u[..1] == [e] && u[1..] == Without(s, key);
    TotalCons(e, []);
    assert [e] + [] == [e];
    if r != [] {
      assert r[..1] == [e];
      TotalPrefix(r[..1], r);
    }
    assert u == r + u[|r|..];
    FindConcat(r, u[|r|..], k);
    FindWithout(s, key, k);
  }

  /** A Get changes what no key holds. */
  lemma TouchFinds(s: Recency, key: string, k: string)
    ensures Find(TouchIn(s, key), k) == Find(s, k)
  {
    FindWithout(s, key, k);
    if Find(s, key).Some? {
      assert TouchIn(s, key)[1..] == Without(s, key);
    }
  }

  // ---------------------------------------------------------------- inclusion

  datatype AddOp = AddOp(key: string, value: Bytes)

  function RunAdds(budget: nat, adds: seq<AddOp>): Recency {
    if adds == [] then []
    else
      var last := adds[|adds| - 1];
      AddTo(budget, RunAdds(budget, adds[..|adds| - 1]), last.key, last.value)
  }

  /** Budget a allows no more than budget b, where 0 is unlimited. */
  predicate BudgetAtMost(a: nat, b: nat) {
    b == 0 || (a != 0 && a <= b)
  }

  /** One Add keeps a smaller cache's sequence a prefix of a larger cache's. */
  lemma AddKeepsInclusion(b1: nat, b2: nat, s1: Recency, s2: Recency, key: string, value: Bytes)
    requires BudgetAtMost(b1, b2) && s1 <= s2
    ensures AddTo(b1, s1, key, value) <= AddTo(b2, s2, key, value)
  {
    assert s2 == s1 + s2[|s1|..];
    WithoutConcat(s1, s2[|s1|..], key);
    var u1, u2 := Updated(s1, key, value), Updated(s2, key, value);
    var r1, r2 := Evict(b1, u1), Evict(b2, u2);
    assert u1 <= u2;
    assert r1 == u2[..|r1|] && r2 == u2[..|r2|];
    assert Fits(b2, r1);
  }

  lemma {:induction false} RunsKeepInclusion(b1: nat, b2: nat, adds: seq<AddOp>)
    requires BudgetAtMost(b1, b2)
    ensures RunAdds(b1, adds) <= RunAdds(b2, adds)
  {
    if adds != [] {
      var init, last := adds[..|adds| - 1], adds[|adds| - 1];
      RunsKeepInclusion(b1, b2, init);
      AddKeepsInclusion(b1, b2, RunAdds(b1, init), RunAdds(b2, init), last.key, last.value);
    }
  }

  /** Inclusion holds along every run of Adds exactly when the first budget is at most the second. */
  lemma InclusionIffBudgetAtMost(b1: nat, b2: nat)
    ensures BudgetAtMost(b1, b2) <==> (forall adds: seq<AddOp> :: RunAdds(b1, adds) <= RunAdds(b2, adds))
  {
    if BudgetAtMost(b1, b2) {
      forall adds: seq<AddOp> ensures RunAdds(b1, adds) <= RunAdds(b2, adds) {
        RunsKeepInclusion(b1, b2, adds);
      }
    } else {
      // One entry that is one unit too large for the second cache alone.
      var key := seq(b2 + 1, _ => 'k');
      var adds := [AddOp(key, [])];
      var e := Entry(key, []);
      assert adds[..0] == [] && Updated([], key, []) == [e];
      TotalCons(e, []);
      assert [e] + [] == [e];
      assert RunAdds(b1, adds) == [e];
      assert [e][..0] == [];
      assert RunAdds(b2, adds) == [];
      assert !(RunAdds(b1, adds) <= RunAdds(b2, adds));
    }
  }

  /** After a bare Get of key inclusion still holds exactly if the smaller cache is empty or hits too, or
      neither hits: otherwise only the larger cache is reordered. */
  lemma TouchKeepsInclusionIff(s1: Recency, s2: Recency, key: string)
    requires s1 <= s2 && DistinctKeys(s2)
    ensures TouchIn(s1, key) <= TouchIn(s2, key) <==>
            s1 == [] || Find(s1, key).Some? || Find(s2, key).None?
  {
    var rest := s2[|s1|..];
    assert s2 == s1 + rest;
    FindConcat(s1, rest, key);
    if Find(s1, key).Some? {
      WithoutConcat(s1, rest, key);
      assert TouchIn(s2, key) == TouchIn(s1, key) + Without(rest, key);
    } else if s1 != [] && Find(s2, key).Some? {
      assert s1[0].key != key && TouchIn(s1, key)[0] == s1[0];
    }
  }

  lemma {:induction false} RunAddsDistinct(budget: nat, adds: seq<AddOp>)
    ensures DistinctKeys(RunAdds(budget, adds))
  {
    if adds != [] {
      var init, last := adds[..|adds| - 1], adds[|adds| - 1];
      RunAddsDistinct(budget, init);
      UpdatedDistinct(RunAdds(budget, init), last.key, last.value);
    }
  }

  lemma AddToOne(budget: nat, e: Entry)
    requires Fits(budget, [e])
    ensures AddTo(budget, [], e.key, e.value) == [e]
  {
    assert Updated([], e.key, e.value) == [e];
  }

  /** A second entry next to a first one: both stay if they fit together, else only the second. */
  lemma AddToTwo(budget: nat, first: Entry, e: Entry)
    requires first.key != e.key && Fits(budget, [e])
    ensures AddTo(budget, [first], e.key, e.value) == if Fits(budget, [e, first]) then [e, first] else [e]
  {
    assert Without([first], e.key) == [first];
    assert [e] + [first] == [e, first];
    assert [e, first][..1] == [e];
  }

  lemma TwoAdds(budget: nat, first: Entry, e: Entry)
    requires first.key != e.key && Fits(budget, [first]) && Fits(budget, [e])
    ensures RunAdds(budget, [AddOp(first.key, first.value), AddOp(e.key, e.value)]) ==
            if Fits(budget, [e, first]) then [e, first] else [e]
  {
    var adds := [AddOp(first.key, first.value), AddOp(e.key, e.value)];
    assert adds[..1] == [adds[0]] && adds[..1][..0] == [];
    hide AddTo;
    assert RunAdds(budget, adds[..1]) == AddTo(budget, [], first.key, first.value);
    AddToOne(budget, first);
    AddToTwo(budget, first, e);
  }

  lemma TotalOfTwo(e: Entry, f: Entry)
    ensures Total([e]) == e.Size() && Total([e, f]) == e.Size() + f.Size()
  {
    assert [e][..0] == [] && [e, f][..1] == [e];
  }

  /** The Adds that separate two budgets: an old entry that fills the smaller one, then one unit more. */
  lemma FillAndOneMore(b1: nat, b2: nat) returns (adds: seq<AddOp>, oldest: Entry, recent: Entry)
    requires BudgetAtMost(b1, b2) && b1 != b2
    ensures oldest.key != recent.key
    ensures RunAdds(b1, adds) == [recent] && RunAdds(b2, adds) == [recent, oldest]
  {
    hide Total, RunAdds;
    oldest, recent := Entry(seq(b1, _ => 'k'), []), Entry("a", []);
    adds := [AddOp(oldest.key, oldest.value), AddOp(recent.key, recent.value)];
    assert oldest.key[0] == 'k' && recent.key[0] == 'a';
    TotalOfTwo(oldest, recent);
    TotalOfTwo(recent, oldest);
    TwoAdds(b1, oldest, recent);
    TwoAdds(b2, oldest, recent);
  }

  /** Bare Gets need more than Adds do: after every run of Adds and any Get inclusion holds exactly when
      the budgets are the same. */
  lemma BareGetsKeepInclusionIff(b1: nat, b2: nat)
    ensures b1 == b2 <==>
            forall adds: seq<AddOp>, key: string ::
              TouchIn(RunAdds(b1, adds), key) <= TouchIn(RunAdds(b2, adds), key)
  {
    if b1 != b2 && BudgetAtMost(b1, b2) {
      var adds, o, recent := FillAndOneMore(b1, b2);
      RunAddsDistinct(b2, adds);
      FindConcat([recent], [o], o.key);
      assert [recent] + [o] == [recent, o] && [recent] <= [recent, o];
      TouchKeepsInclusionIff([recent], [recent, o], o.key);
    } else if b1 != b2 {
      InclusionIffBudgetAtMost(b1, b2);
      var adds: seq<AddOp> :| !(RunAdds(b1, adds) <= RunAdds(b2, adds));
      var key := AbsentKey(RunAdds(b1, adds), RunAdds(b2, adds));
      assert TouchIn(RunAdds(b1, adds), key) == RunAdds(b1, adds);
    }
  }

  /** Some key is in neither sequence. */
  lemma AbsentKey(a: Recency, b: Recency) returns (key: string)
    ensures Find(a, key).None? && Find(b, key).None?
  {
    key := seq(Longest(a) + Longest(b) + 1, _ => 'k');
    LongerIsAbsent(a, key);
    LongerIsAbsent(b, key);
  }

  function Longest(s: Recency): nat {
    if s == [] then 0 else |s[0].key| + Longest(s[1..])
  }

  lemma {:induction false} LongerIsAbsent(s: Recency, key: string)
    requires |key| > Longest(s)
    ensures Find(s, key).None?
  {
    if s != [] {
      LongerIsAbsent(s[1..], key);
    }
  }
}

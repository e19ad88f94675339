/** The consistent-hash ring: sorted virtual points and the map from points to nodes. */
module Ring {
  import opened Common

  type Hash = string -> nat

  // ---------------------------------------------------------------- labels

  predicate IsDigit(c: char) { '0' <= c <= '9' }

  /** Decimal representation without leading zeros. */
  function Itoa(n: nat): (s: string)
    ensures s != [] && forall i :: 0 <= i < |s| ==> IsDigit(s[i])
  {
    if n < 10 then ['0' + n as char] else Itoa(n / 10) + ['0' + (n % 10) as char]
  }

  lemma {:induction false} ItoaInjective(m: nat, n: nat)
    requires Itoa(m) == Itoa(n)
    ensures m == n
  {
    if m < 10 && n < 10 {
      assert Itoa(m)[0] == Itoa(n)[0];
    } else {
      ItoaLength(m);
      ItoaLength(n);
      assert Itoa(m)[..|Itoa(m)| - 1] == Itoa(m / 10);
      assert Itoa(n)[..|Itoa(n)| - 1] == Itoa(n / 10);
      assert Itoa(m)[|Itoa(m)| - 1] == Itoa(n)[|Itoa(n)| - 1];
      ItoaInjective(m / 10, n / 10);
    }
  }

  lemma ItoaLength(n: nat)
    ensures |Itoa(n)| == 1 <==> n < 10
  {
  }

  /** The string hashed for virtual node i of a node. */
  function Label(i: nat, name: string): string {
    Itoa(i) + name
  }

  predicate NonDigitStart(name: string) {
    name != "" && !IsDigit(name[0])
  }

  lemma LabelInjective(i: nat, a: string, j: nat, b: string)
    requires NonDigitStart(a) && NonDigitStart(b)
    requires Label(i, a) == Label(j, b)
    ensures i == j && a == b
  {
    var s, p, q := Label(i, a), Itoa(i), Itoa(j);
    assert s[..|p|] == p && s[..|q|] == q;
    assert s[|p|] == a[0] && s[|q|] == b[0];
    assert forall k :: 0 <= k < |p| ==> IsDigit(s[k]);
    assert forall k :: 0 <= k < |q| ==> IsDigit(s[k]);
    ItoaInjective(i, j);
    assert a == s[|p|..] && b == s[|q|..];
  }

  predicate AllDigits(s: string) {
    forall k :: 0 <= k < |s| ==> IsDigit(s[k])
  }

  /** The number a string of digits stands for. */
  function ValueOf(s: string): nat
    requires AllDigits(s)
  {
    if s == "" then 0 else 10 * ValueOf(s[..|s| - 1]) + (s[|s| - 1] as nat - '0' as nat)
  }

  lemma {:induction false} ValueOfItoa(n: nat)
    ensures ValueOf(Itoa(n)) == n
    ensures n > 0 ==> Itoa(n)[0] != '0'
  {
    if n >= 10 {
      ValueOfItoa(n / 10);
      assert Itoa(n)[..|Itoa(n)| - 1] == Itoa(n / 10);
    } else {
      assert Itoa(n)[..0] == "";
    }
  }

  lemma {:induction false} ItoaOfValue(s: string)
    requires AllDigits(s) && s != "" && s[0] != '0'
    ensures ValueOf(s) > 0 && Itoa(ValueOf(s)) == s
  {
    var init, last := s[..|s| - 1], s[|s| - 1];
    if init != "" {
      ItoaOfValue(init);
      var d := last as nat - '0' as nat;
      assert ValueOf(s) / 10 == ValueOf(init) && ValueOf(s) % 10 == d;
    } else {
      assert s == [last];
    }
  }

  lemma {:induction false} ValueMonotone(p: string, q: string, d: string)
    requires AllDigits(p + d) && AllDigits(q + d) && AllDigits(p) && AllDigits(q) && ValueOf(p) <= ValueOf(q)
    ensures ValueOf(p + d) <= ValueOf(q + d)
  {
    if d == "" {
      assert p + d == p && q + d == q;
    } else {
      var init := d[..|d| - 1];
      assert (p + d)[..|p + d| - 1] == p + init && (q + d)[..|q + d| - 1] == q + init;
      ValueMonotone(p, q, init);
    }
  }

  /** a is b with a non-empty string of digits in front. */
  predicate DigitsBefore(a: string, b: string) {
    |b| < |a| && a[|a| - |b|..] == b && AllDigits(a[..|a| - |b|])
  }

  /** The least virtual node of b whose label is one of a's: the digits with a 1 in front. */
  function FirstShared(a: string, b: string): nat
    requires DigitsBefore(a, b)
  {
    ValueOf("1" + a[..|a| - |b|])
  }

  ghost predicate ShareLabel(n: nat, a: string, b: string) {
    exists i, j :: 0 <= i < n && 0 <= j < n && Label(i, a) == Label(j, b)
  }

  lemma DigitsShareLabel(n: nat, a: string, b: string)
    requires DigitsBefore(a, b) && FirstShared(a, b) < n
    ensures ShareLabel(n, a, b) && ShareLabel(n, b, a)
  {
    var d := a[..|a| - |b|];
    var j := FirstShared(a, b);
    ItoaOfValue("1" + d);
    ItoaOfValue("1");
    ValueGrows("1", d);
    assert a == d + b;
    assert Label(1, a) == "1" + (d + b) == ("1" + d) + b == Label(j, b);
  }

  /** More digits, a larger number. */
  lemma {:induction false} ValueGrows(p: string, d: string)
    requires AllDigits(p) && AllDigits(p + d)
    ensures ValueOf(p) <= ValueOf(p + d)
  {
    if d == "" {
      assert p + d == p;
    } else {
      var init := d[..|d| - 1];
      assert (p + d)[..|p + d| - 1] == p + init;
      ValueGrows(p, init);
    }
  }

  lemma Overlap(p: string, a: string, q: string, b: string) returns (d: string)
    requires p + a == q + b && |p| < |q|
    ensures d != "" && q == p + d && a == d + b && (p != "" ==> q[0] == p[0])
  {
    var s := p + a;
    d := q[|p|..];
    assert s[..|p|] == p && s[..|q|] == q && s[|p|..] == a && s[|q|..] == b;
  }

  /** Among the numbers whose digits end in d, with something before, 1 and d is the least. */
  lemma OneIsLeast(i: nat, j: nat, d: string)
    requires Itoa(j) == Itoa(i) + d && d != ""
    ensures AllDigits(d) && ValueOf("1" + d) <= j
  {
    forall k | 0 <= k < |d| ensures IsDigit(d[k]) {
      assert d[k] == Itoa(j)[|Itoa(i)| + k];
    }
    ValueOfItoa(i);
    ValueOfItoa(j);
    assert Itoa(j)[0] == Itoa(i)[0];
    assert i > 0;
    ItoaOfValue("1");
    ValueOfItoa(1);
    hide Itoa, ValueOf;
    ValueMonotone("1", Itoa(i), d);
  }

  lemma SharedLabelHasDigits(n: nat, a: string, b: string, i: nat, j: nat)
    requires i < n && j < n && Label(i, a) == Label(j, b) && |Itoa(i)| < |Itoa(j)|
    ensures DigitsBefore(a, b) && FirstShared(a, b) < n
  {
    hide Itoa, ValueOf;
    var d := Overlap(Itoa(i), a, Itoa(j), b);
    OneIsLeast(i, j, d);
    assert a[..|a| - |b|] == d && a[|a| - |b|..] == b;
  }

  /** Two nodes share one of their first n labels exactly if one's name is the other's with digits in
      front, few enough for n. Whatever the hash function, such nodes collide. */
  lemma ShareLabelIff(n: nat, a: string, b: string)
    requires a != b
    ensures ShareLabel(n, a, b) <==>
            (DigitsBefore(a, b) && FirstShared(a, b) < n) || (DigitsBefore(b, a) && FirstShared(b, a) < n)
  {
    if DigitsBefore(a, b) && FirstShared(a, b) < n {
      DigitsShareLabel(n, a, b);
    } else if DigitsBefore(b, a) && FirstShared(b, a) < n {
      DigitsShareLabel(n, b, a);
    } else if ShareLabel(n, a, b) {
      var i, j :| 0 <= i < n && 0 <= j < n && Label(i, a) == Label(j, b);
      assert Label(i, a)[|Itoa(i)|..] == a && Label(j, b)[|Itoa(j)|..] == b;
      if |Itoa(i)| < |Itoa(j)| {
        SharedLabelHasDigits(n, a, b, i, j);
      } else {
        SharedLabelHasDigits(n, b, a, j, i);
      }
    }
  }

  /** Without a bound on the number of virtual nodes the digits alone decide. */
  lemma SomeLabelSharedIff(a: string, b: string)
    requires a != b
    ensures (exists n :: ShareLabel(n, a, b)) <==> DigitsBefore(a, b) || DigitsBefore(b, a)
  {
    if DigitsBefore(a, b) {
      ShareLabelIff(FirstShared(a, b) + 1, a, b);
    } else if DigitsBefore(b, a) {
      ShareLabelIff(FirstShared(b, a) + 1, a, b);
    } else {
      forall n ensures !ShareLabel(n, a, b) {
        ShareLabelIff(n, a, b);
      }
    }
  }

  // ---------------------------------------------------------------- the ring as a value

  /** points is the sorted array of hashes, owner the map from hash to node. */
  datatype State = State(points: seq<nat>, owner: map<nat, string>)

  const Empty := State([], map[])

  predicate Ascending(s: seq<nat>) {
    forall i, j :: 0 <= i < j < |s| ==> s[i] <= s[j]
  }

  /** The number of elements below h in an ascending sequence, found from the front. */
  function LowerBound(s: seq<nat>, h: nat): (i: nat)
    requires Ascending(s)
    ensures i <= |s|
    ensures forall j :: 0 <= j < i ==> s[j] < h
    ensures forall j :: i <= j < |s| ==> h <= s[j]
  {
    if s == [] || h <= s[0] then 0 else 1 + LowerBound(s[1..], h)
  }

  function Insert(x: nat, s: seq<nat>): (r: seq<nat>)
    requires Ascending(s)
    ensures Ascending(r) && multiset(r) == multiset(s) + multiset{x}
  {
    var i := LowerBound(s, x);
    InsertedAscending(s, i, x);
    InsertedMembers(s, i, x);
    s[..i] + [x] + s[i..]
  }

  lemma InsertedAscending(s: seq<nat>, i: nat, x: nat)
    requires Ascending(s) && i <= |s|
    requires (forall j :: 0 <= j < i ==> s[j] < x) && (forall j :: i <= j < |s| ==> x <= s[j])
    ensures Ascending(s[..i] + [x] + s[i..])
  {
    var r := s[..i] + [x] + s[i..];
    assert forall j :: 0 <= j < i ==> r[j] == s[j];
    assert forall j :: i < j < |r| ==> r[j] == s[j - 1];
  }

  lemma InsertedMembers(s: seq<nat>, i: nat, x: nat)
    requires i <= |s|
    ensures multiset(s[..i] + [x] + s[i..]) == multiset(s) + multiset{x}
  {
    assert s == s[..i] + s[i..];
  }

  /** sort.Ints: the ascending arrangement of the same elements. */
  function Sorted(s: seq<nat>): (r: seq<nat>)
    ensures Ascending(r) && multiset(r) == multiset(s)
  {
    if s == [] then [] else
    assert s == [s[0]] + s[1..];
    Insert(s[0], Sorted(s[1..]))
  }

  /** Append the points of virtual nodes 0 .. n-1 of a node. */
  function AddPoints(hash: Hash, r: State, name: string, n: nat): State {
    if n == 0 then r
    else
      var s := AddPoints(hash, r, name, n - 1);
      var h := hash(Label(n - 1, name));
      State(s.points + [h], s.owner[h := name])
  }

  function AddNames(hash: Hash, replicas: nat, r: State, names: seq<string>): State {
    if names == [] then r
    else AddPoints(hash, AddNames(hash, replicas, r, names[..|names| - 1]), names[|names| - 1], replicas)
  }

  /** One call of Add. */
  function AddCall(hash: Hash, replicas: nat, r: State, names: seq<string>): State {
    var s := AddNames(hash, replicas, r, names);
    State(Sorted(s.points), s.owner)
  }

  /** A sequence of calls of Add on a new ring. */
  function AddCalls(hash: Hash, replicas: nat, calls: seq<seq<string>>): State {
    if calls == [] then Empty
    else AddCall(hash, replicas, AddCalls(hash, replicas, calls[..|calls| - 1]), calls[|calls| - 1])
  }

  ghost predicate Covered(r: State) {
    forall p: nat :: p in r.points <==> p in r.owner
  }

  /** The array is sorted and its values are exactly the keys of the owner map. */
  ghost predicate Consistent(r: State) {
    && Ascending(r.points)
    && Covered(r)
  }

  /** p is the least point at or after h, or the least point of all if there is none. */
  ghost predicate Successor(points: set<nat>, h: nat, p: nat) {
    && p in points
    && if exists q :: q in points && h <= q
       then h <= p && forall q :: q in points && h <= q ==> p <= q
       else forall q :: q in points ==> p <= q
  }

  lemma SuccessorUnique(points: set<nat>, h: nat, p: nat, q: nat)
    requires Successor(points, h, p) && Successor(points, h, q)
    ensures p == q
  {
  }

  /** Map.Get: the owner of the successor of the key's hash, or "" on an empty ring. */
  function Locate(hash: Hash, r: State, key: string): string
    requires Consistent(r)
  {
    if r.points == [] then ""
    else r.owner[r.points[LowerBound(r.points, hash(key)) % |r.points|]]
  }

  lemma WrapAround(i: nat, n: nat)
    requires i <= n && n > 0
    ensures i % n == if i == n then 0 else i
  {
  }

  /** Lookup is by successor on the set of points. */
  lemma GetIsSuccessor(hash: Hash, r: State, key: string) returns (p: nat)
    requires Consistent(r) && r.points != []
    ensures Successor(r.owner.Keys, hash(key), p)
    ensures Locate(hash, r, key) == r.owner[p]
  {
    var i := LowerBound(r.points, hash(key));
    WrapAround(i, |r.points|);
    p := r.points[i % |r.points|];
  }

  lemma GetAt(hash: Hash, r: State, key: string, p: nat)
    requires Consistent(r) && Successor(r.owner.Keys, hash(key), p)
    ensures r.points != [] && Locate(hash, r, key) == r.owner[p]
  {
    assert p in r.points;
    var q := GetIsSuccessor(hash, r, key);
    SuccessorUnique(r.owner.Keys, hash(key), p, q);
  }

  // ---------------------------------------------------------------- what Add keeps

  lemma {:induction false} AddPointsMembers(hash: Hash, r: State, name: string, n: nat)
    requires Covered(r)
    ensures Covered(AddPoints(hash, r, name, n))
  {
    if n > 0 {
      AddPointsMembers(hash, r, name, n - 1);
    }
  }

  lemma {:induction false} AddNamesMembers(hash: Hash, replicas: nat, r: State, names: seq<string>)
    requires Covered(r)
    ensures Covered(AddNames(hash, replicas, r, names))
  {
    if names != [] {
      var init := names[..|names| - 1];
      AddNamesMembers(hash, replicas, r, init);
      AddPointsMembers(hash, AddNames(hash, replicas, r, init), names[|names| - 1], replicas);
    }
  }

  lemma SortedMembers(s: seq<nat>)
    ensures forall p :: p in Sorted(s) <==> p in s
  {
    assert forall p :: p in s <==> p in multiset(s);
    assert forall p :: p in Sorted(s) <==> p in multiset(Sorted(s));
  }

  lemma AddCallConsistent(hash: Hash, replicas: nat, r: State, names: seq<string>)
    requires Consistent(r)
    ensures Consistent(AddCall(hash, replicas, r, names))
  {
    AddNamesMembers(hash, replicas, r, names);
    SortedMembers(AddNames(hash, replicas, r, names).points);
  }

  lemma {:induction false} AddCallsConsistent(hash: Hash, replicas: nat, calls: seq<seq<string>>)
    ensures Consistent(AddCalls(hash, replicas, calls))
  {
    if calls != [] {
      AddCallsConsistent(hash, replicas, calls[..|calls| - 1]);
      AddCallConsistent(hash, replicas, AddCalls(hash, replicas, calls[..|calls| - 1]), calls[|calls| - 1]);
    }
  }

  // ---------------------------------------------------------------- who owns which point

  ghost predicate PointOf(hash: Hash, replicas: nat, name: string, p: nat) {
    exists i: nat :: i < replicas && hash(Label(i, name)) == p
  }

  ghost predicate PointOfSome(hash: Hash, replicas: nat, names: seq<string>, p: nat) {
    exists k :: 0 <= k < |names| && PointOf(hash, replicas, names[k], p)
  }

  /** Adding one node takes over exactly its own points. */
  lemma {:induction false} AddPointsOwner(hash: Hash, r: State, name: string, n: nat, p: nat)
    ensures var s := AddPoints(hash, r, name, n);
            && (p in s.owner <==> p in r.owner || PointOf(hash, n, name, p))
            && (p in s.owner ==> s.owner[p] == if PointOf(hash, n, name, p) then name else r.owner[p])
  {
    if n > 0 {
      AddPointsOwner(hash, r, name, n - 1, p);
      assert PointOf(hash, n, name, p) <==> PointOf(hash, n - 1, name, p) || hash(Label(n - 1, name)) == p;
    }
  }

  lemma SomeSnoc(hash: Hash, replicas: nat, names: seq<string>, p: nat)
    requires names != []
    ensures PointOfSome(hash, replicas, names, p)
        <==> PointOfSome(hash, replicas, names[..|names| - 1], p) || PointOf(hash, replicas, names[|names| - 1], p)
  {
    var init := names[..|names| - 1];
    if PointOfSome(hash, replicas, init, p) {
      var k :| 0 <= k < |init| && PointOf(hash, replicas, init[k], p);
      assert names[k] == init[k];
    }
    if PointOfSome(hash, replicas, names, p) {
      var k :| 0 <= k < |names| && PointOf(hash, replicas, names[k], p);
      assert k < |init| ==> init[k] == names[k];
    }
  }

  /** Points of added nodes go to an added node that hashes there; all others keep their owner. */
  lemma {:induction false} AddNamesOwner(hash: Hash, replicas: nat, r: State, names: seq<string>, p: nat)
    ensures var s := AddNames(hash, replicas, r, names);
            && (p in s.owner <==> p in r.owner || PointOfSome(hash, replicas, names, p))
            && (p in s.owner ==>
                  if PointOfSome(hash, replicas, names, p)
                  then s.owner[p] in names && PointOf(hash, replicas, s.owner[p], p)
                  else s.owner[p] == r.owner[p])
  {
    if names != [] {
      var last, init := names[|names| - 1], names[..|names| - 1];
      AddNamesOwner(hash, replicas, r, init, p);
      AddPointsOwner(hash, AddNames(hash, replicas, r, init), last, replicas, p);
      SomeSnoc(hash, replicas, names, p);
      assert names == init + [last];
    }
  }

  // ---------------------------------------------------------------- minimal disruption

  /** q lies on the closed clockwise arc from h to p. */
  predicate OnArc(h: nat, p: nat, q: nat) {
    if h <= p then h <= q <= p else h <= q || q <= p
  }

  ghost predicate ArcHit(hash: Hash, replicas: nat, names: seq<string>, h: nat, p: nat) {
    exists q: nat :: OnArc(h, p, q) && PointOfSome(hash, replicas, names, q)
  }

  ghost function LocateAfterAdd(hash: Hash, replicas: nat, r: State, names: seq<string>, key: string): string
    requires Consistent(r)
  {
    AddCallConsistent(hash, replicas, r, names);
    Locate(hash, AddCall(hash, replicas, r, names), key)
  }

  /** Adding nodes moves a key exactly when an added point lies between the key and its old
      successor, and then it moves to an added node. Any hash function, collisions included. */
  lemma MinimalDisruption(hash: Hash, replicas: nat, r: State, names: seq<string>, key: string, p: nat)
    requires Consistent(r) && Successor(r.owner.Keys, hash(key), p)
    ensures ArcHit(hash, replicas, names, hash(key), p) ==>
              LocateAfterAdd(hash, replicas, r, names, key) in names
    ensures !ArcHit(hash, replicas, names, hash(key), p) ==>
              LocateAfterAdd(hash, replicas, r, names, key) == Locate(hash, r, key)
  {
    var s := AddCall(hash, replicas, r, names);
    AddCallConsistent(hash, replicas, r, names);
    GrownKeys(hash, replicas, r, names);
    assert p in s.owner && p in s.points;
    var p' := GetIsSuccessor(hash, s, key);
    GetAt(hash, r, key, p);
    AddNamesOwner(hash, replicas, r, names, p');
    if ArcHit(hash, replicas, names, hash(key), p) {
      MovedToAdded(hash, replicas, r, names, hash(key), p, p');
    } else {
      NotMoved(hash, replicas, r, names, hash(key), p, p');
    }
  }

  lemma GrownKeys(hash: Hash, replicas: nat, r: State, names: seq<string>)
    ensures r.owner.Keys <= AddCall(hash, replicas, r, names).owner.Keys
  {
    forall q | q in r.owner.Keys ensures q in AddCall(hash, replicas, r, names).owner.Keys {
      AddNamesOwner(hash, replicas, r, names, q);
    }
  }

  lemma MovedToAdded(hash: Hash, replicas: nat, r: State, names: seq<string>, h: nat, p: nat, p': nat)
    requires Successor(r.owner.Keys, h, p)
    requires Successor(AddCall(hash, replicas, r, names).owner.Keys, h, p')
    requires ArcHit(hash, replicas, names, h, p)
    ensures PointOfSome(hash, replicas, names, p')
  {
    var s := AddCall(hash, replicas, r, names);
    var q: nat :| OnArc(h, p, q) && PointOfSome(hash, replicas, names, q);
    GrownKeys(hash, replicas, r, names);
    AddNamesOwner(hash, replicas, r, names, q);
    AddNamesOwner(hash, replicas, r, names, p');
    if p' in r.owner.Keys {
      SuccessorInSubset(r, s, h, p, p', q);
    }
  }

  lemma NotMoved(hash: Hash, replicas: nat, r: State, names: seq<string>, h: nat, p: nat, p': nat)
    requires Successor(r.owner.Keys, h, p)
    requires Successor(AddCall(hash, replicas, r, names).owner.Keys, h, p')
    requires !ArcHit(hash, replicas, names, h, p)
    ensures p' == p && !PointOfSome(hash, replicas, names, p)
  {
    var s := AddCall(hash, replicas, r, names);
    GrownKeys(hash, replicas, r, names);
    forall q: nat | q in s.owner.Keys && q !in r.owner.Keys ensures !OnArc(h, p, q) {
      AddNamesOwner(hash, replicas, r, names, q);
    }
    assert OnArc(h, p, p);
    SuccessorStays(r, s, h, p, p');
  }

  lemma SuccessorInSubset(r: State, s: State, h: nat, p: nat, p': nat, q: nat)
    requires r.owner.Keys <= s.owner.Keys
    requires Successor(r.owner.Keys, h, p) && Successor(s.owner.Keys, h, p')
    requires q in s.owner.Keys && OnArc(h, p, q) && p' in r.owner.Keys
    ensures p' == p == q
  {
  }

  lemma SuccessorStays(r: State, s: State, h: nat, p: nat, p': nat)
    requires r.owner.Keys <= s.owner.Keys
    requires Successor(r.owner.Keys, h, p) && Successor(s.owner.Keys, h, p')
    requires forall q :: q in s.owner.Keys && q !in r.owner.Keys ==> !OnArc(h, p, q)
    ensures p' == p
  {
    assert p in s.owner.Keys;
    assert p' !in r.owner.Keys ==> !OnArc(h, p, p');
  }

  // ---------------------------------------------------------------- agreement

  ghost function NamesOf(calls: seq<seq<string>>): set<string> {
    set c, k | 0 <= c < |calls| && 0 <= k < |calls[c]| :: calls[c][k]
  }

  ghost function Lookup(hash: Hash, replicas: nat, calls: seq<seq<string>>, key: string): string {
    AddCallsConsistent(hash, replicas, calls);
    Locate(hash, AddCalls(hash, replicas, calls), key)
  }

  ghost predicate OwnedBy(hash: Hash, replicas: nat, names: set<string>, p: nat, name: string) {
    name in names && PointOf(hash, replicas, name, p)
  }

  /** No two distinct nodes of the set share a point. */
  ghost predicate NoCrossCollision(hash: Hash, replicas: nat, names: set<string>) {
    forall p: nat, a, b :: OwnedBy(hash, replicas, names, p, a) && OwnedBy(hash, replicas, names, p, b) ==> a == b
  }

  /** Nodes that share a label collide under every hash function. */
  lemma SharedLabelCollides(hash: Hash, replicas: nat, names: set<string>, a: string, b: string)
    requires a in names && b in names && a != b && ShareLabel(replicas, a, b)
    ensures !NoCrossCollision(hash, replicas, names)
  {
    var i, j :| 0 <= i < replicas && 0 <= j < replicas && Label(i, a) == Label(j, b);
    var p := hash(Label(i, a));
    assert OwnedBy(hash, replicas, names, p, a) && OwnedBy(hash, replicas, names, p, b);
  }

  lemma NamesOfSnoc(calls: seq<seq<string>>)
    requires calls != []
    ensures forall n :: n in NamesOf(calls) <==> n in NamesOf(calls[..|calls| - 1]) || n in calls[|calls| - 1]
  {
    var init, last := calls[..|calls| - 1], calls[|calls| - 1];
    forall n | n in NamesOf(calls) ensures n in NamesOf(init) || n in last {
      var c, k :| 0 <= c < |calls| && 0 <= k < |calls[c]| && calls[c][k] == n;
      assert c < |init| ==> init[c] == calls[c];
    }
    forall n | n in NamesOf(init) ensures n in NamesOf(calls) {
      var c, k :| 0 <= c < |init| && 0 <= k < |init[c]| && init[c][k] == n;
      assert calls[c][k] == n;
    }
    forall n | n in last ensures n in NamesOf(calls) {
      var k :| 0 <= k < |last| && last[k] == n;
      assert calls[|calls| - 1][k] == n;
    }
  }

  /** Every point belongs to a node that was added and hashes there, and all such points are present. */
  lemma {:induction false} AddCallsOwner(hash: Hash, replicas: nat, calls: seq<seq<string>>, p: nat)
    ensures var s := AddCalls(hash, replicas, calls);
            && (p in s.owner <==> exists n :: OwnedBy(hash, replicas, NamesOf(calls), p, n))
            && (p in s.owner ==> OwnedBy(hash, replicas, NamesOf(calls), p, s.owner[p]))
  {
    if calls != [] {
      var init, last := calls[..|calls| - 1], calls[|calls| - 1];
      var r, s := AddCalls(hash, replicas, init), AddCalls(hash, replicas, calls);
      AddCallsOwner(hash, replicas, init, p);
      AddNamesOwner(hash, replicas, r, last, p);
      NamesOfSnoc(calls);
      if p in s.owner {
        assert OwnedBy(hash, replicas, NamesOf(calls), p, s.owner[p]);
      }
      if n :| OwnedBy(hash, replicas, NamesOf(calls), p, n) {
        if n in last {
          var k :| 0 <= k < |last| && last[k] == n;
          assert PointOfSome(hash, replicas, last, p);
        } else {
          assert OwnedBy(hash, replicas, NamesOf(init), p, n);
        }
      }
    }
  }

  lemma EmptyIff(r: State)
    requires Consistent(r)
    ensures r.points == [] <==> r.owner == map[]
  {
    if r.points != [] {
      assert r.points[0] in r.owner;
    }
  }

  lemma NoCollisionAgree(hash: Hash, replicas: nat, names: set<string>,
                         c1: seq<seq<string>>, c2: seq<seq<string>>, key: string)
    requires NoCrossCollision(hash, replicas, names) && NamesOf(c1) == names == NamesOf(c2)
    ensures Lookup(hash, replicas, c1, key) == Lookup(hash, replicas, c2, key)
  {
    var s1, s2 := AddCalls(hash, replicas, c1), AddCalls(hash, replicas, c2);
    AddCallsConsistent(hash, replicas, c1);
    AddCallsConsistent(hash, replicas, c2);
    forall p: nat ensures p in s1.owner <==> p in s2.owner
                  ensures p in s1.owner ==> s1.owner[p] == s2.owner[p] {
      AddCallsOwner(hash, replicas, c1, p);
      AddCallsOwner(hash, replicas, c2, p);
    }
    assert s1.owner == s2.owner;
    if s1.points != [] {
      var p := GetIsSuccessor(hash, s1, key);
      GetAt(hash, s2, key, p);
    } else {
      EmptyIff(s1);
      EmptyIff(s2);
    }
  }

  lemma {:induction false} Enumerate(s: set<string>) returns (r: seq<string>)
    ensures forall x :: x in r <==> x in s
    decreases s
  {
    if s == {} {
      r := [];
    } else {
      var x :| x in s;
      var rest := Enumerate(s - {x});
      r := [x] + rest;
    }
  }

  lemma SingleCall(hash: Hash, replicas: nat, names: seq<string>)
    ensures AddCalls(hash, replicas, [names]) == AddCall(hash, replicas, Empty, names)
  {
    var calls := [names];
    assert calls[..|calls| - 1] == [];
    assert AddCalls(hash, replicas, []) == Empty;
  }

  /** A node added last in the last call owns all its points. */
  lemma LastAddedOwns(hash: Hash, replicas: nat, names: seq<string>, name: string, i: nat)
    requires i < replicas
    ensures Lookup(hash, replicas, [names + [name]], Label(i, name)) == name
  {
    var calls, all := [names + [name]], names + [name];
    var s, p := AddCalls(hash, replicas, calls), hash(Label(i, name));
    AddCallsConsistent(hash, replicas, calls);
    SingleCall(hash, replicas, all);
    assert all[..|all| - 1] == names;
    AddPointsOwner(hash, AddNames(hash, replicas, Empty, names), name, replicas, p);
    assert PointOf(hash, replicas, name, p);
    assert s.owner == AddNames(hash, replicas, Empty, all).owner;
    assert Successor(s.owner.Keys, p, p);
    GetAt(hash, s, Label(i, name), p);
  }

  /** Lookups depend only on the set of nodes, not on order, repetition or batching of the Adds,
      exactly when no two distinct nodes share a point. */
  lemma AgreementIffNoCrossCollision(hash: Hash, replicas: nat, names: set<string>)
    ensures NoCrossCollision(hash, replicas, names) <==>
              (forall c1: seq<seq<string>>, c2: seq<seq<string>>, key: string ::
                NamesOf(c1) == names && NamesOf(c2) == names ==>
                  Lookup(hash, replicas, c1, key) == Lookup(hash, replicas, c2, key))
  {
    if NoCrossCollision(hash, replicas, names) {
      forall c1: seq<seq<string>>, c2: seq<seq<string>>, key: string
        | NamesOf(c1) == names && NamesOf(c2) == names
        ensures Lookup(hash, replicas, c1, key) == Lookup(hash, replicas, c2, key)
      {
        NoCollisionAgree(hash, replicas, names, c1, c2, key);
      }
    } else {
      var c1, c2, key := CollisionDisagree(hash, replicas, names);
    }
  }

  lemma CollisionDisagree(hash: Hash, replicas: nat, names: set<string>)
    returns (c1: seq<seq<string>>, c2: seq<seq<string>>, key: string)
    requires !NoCrossCollision(hash, replicas, names)
    ensures NamesOf(c1) == names && NamesOf(c2) == names
    ensures Lookup(hash, replicas, c1, key) != Lookup(hash, replicas, c2, key)
  {
    var p: nat, a, b :| OwnedBy(hash, replicas, names, p, a) && OwnedBy(hash, replicas, names, p, b) && a != b;
    var i: nat :| i < replicas && hash(Label(i, a)) == p;
    var j: nat :| j < replicas && hash(Label(j, b)) == p;
    var all := Enumerate(names);
    c1, c2, key := [all + [a]], [all + [b]], Label(i, a);
    OneCallNames(all + [a]);
    OneCallNames(all + [b]);
    LastAddedOwns(hash, replicas, all, a, i);
    LastAddedOwns(hash, replicas, all, b, j);
    SameHashSameLookup(hash, replicas, c2, Label(i, a), Label(j, b));
  }

  lemma OneCallNames(names: seq<string>)
    ensures forall n :: n in NamesOf([names]) <==> n in names
  {
    NamesOfSnoc([names]);
    assert [names][..0] == [];
  }

  lemma SameHashSameLookup(hash: Hash, replicas: nat, calls: seq<seq<string>>, k1: string, k2: string)
    requires hash(k1) == hash(k2)
    ensures Lookup(hash, replicas, calls, k1) == Lookup(hash, replicas, calls, k2)
  {
  }

  // ---------------------------------------------------------------- the class

  class Map {
    const hash: Hash
    const replicas: nat
    var keys: seq<nat>
    var hasMap: map<nat, string>

    ghost function View(): State
      reads this
    {
      State(keys, hasMap)
    }

    constructor (replicas: nat, hash: Hash)
      ensures View() == Empty && this.replicas == replicas && this.hash == hash
    {
      this.replicas, this.hash := replicas, hash;
      keys, hasMap := [], map[];
    }

    method Add(names: seq<string>)
      modifies this
      ensures View() == AddCall(hash, replicas, old(View()), names)
    {
      for n := 0 to |names|
        invariant View() == AddNames(hash, replicas, old(View()), names[..n])
      {
        var name := names[n];
        ghost var before := View();
        for i := 0 to replicas
          invariant View() == AddPoints(hash, before, name, i)
        {
          var h := hash(Label(i, name));
          keys := keys + [h];
          hasMap := hasMap[h := name];
        }
        assert names[..n + 1][..n] == names[..n];
      }
      assert names[..|names|] == names;
      keys := Sorted(keys);
    }

    method Get(key: string) returns (name: string)
      requires Consistent(View())
      ensures name == Locate(hash, View(), key)
    {
      if |keys| == 0 {
        return "";
      }
      var h := hash(key);
      var idx := Search(h);
      name := hasMap[keys[idx % |keys|]];
    }

    /** The binary search of sort.Search for the first point at or after h. */
    method Search(h: nat) returns (idx: nat)
      requires Ascending(keys)
      ensures idx == LowerBound(keys, h)
    {
      idx := 0;
      var j := |keys|;
      while idx < j
        invariant 0 <= idx <= LowerBound(keys, h) <= j <= |keys|
      {
        var m := (idx + j) / 2;
        if !(keys[m] >= h) {
          idx := m + 1;
        } else {
          j := m;
        }
      }
    }
  }
}

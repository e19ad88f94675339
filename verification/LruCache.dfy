/** The cache as it is built: a circular doubly linked list with a sentinel, a map from keys to
    list elements and a running byte count. */
module LruCache {
  import opened Common
  import opened LruSpec

  /** A list element together with the key and value it holds. */
  class Element {
    var next: Element?
    var prev: Element?
    const key: string
    var value: Bytes

    constructor (key: string, value: Bytes)
      ensures this.key == key && this.value == value
    {
      this.key, this.value := key, value;
      next, prev := null, null;
    }
  }

  ghost predicate Linked(a: Element, b: Element)
    reads a`next, b`prev
  {
    a.next == b && b.prev == a
  }

  class List {
    const root: Element
    var len: nat
    ghost var elems: seq<Element>  // front to back
    ghost var nodes: set<Element>  // every element ever linked

    /** Position 0 and position |elems| + 1 are both the sentinel. */
    ghost function At(i: nat): Element
      requires i <= |elems| + 1
      reads `elems
    {
      if i == 0 || i == |elems| + 1 then root else elems[i - 1]
    }

    ghost predicate Valid()
      reads this, root`next, root`prev, nodes`next, nodes`prev
    {
      len == |elems| && Chain()
    }

    /** The links run through elems, from the sentinel and back to it. */
    ghost predicate Chain()
      reads `elems, `nodes, root`next, root`prev, nodes`next, nodes`prev
    {
      && root !in nodes
      && (forall i :: 0 <= i < |elems| ==> elems[i] in nodes)
      && NoDuplicates(elems)
      && (forall i :: 0 <= i <= |elems| ==> Linked(At(i), At(i + 1)))
    }

    lemma Member(i: nat)
      requires Valid() && i < |elems|
      ensures elems[i] in nodes && root !in nodes
      ensures forall j :: 0 <= j < |elems| && j != i ==> elems[j] != elems[i]
    {
    }

    constructor ()
      ensures Valid() && elems == [] && nodes == {} && fresh(root)
    {
      var r := new Element("", []);
      root, len, elems, nodes := r, 0, [], {};
      new;
      root.next, root.prev := root, root;
    }

    method Back() returns (e: Element?)
      requires Valid()
      ensures if elems == [] then e == null else e == elems[|elems| - 1]
    {
      if len == 0 {
        return null;
      }
      assert Linked(At(|elems|), At(|elems| + 1));
      e := root.prev;
    }

    /** Take e out of the ring of links. */
    method Unlink(e: Element, ghost i: nat)
      requires Chain() && i < |elems| && elems[i] == e
      modifies `elems, root`next, root`prev, nodes`next, nodes`prev
      ensures Chain() && elems == old(elems)[..i] + old(elems)[i + 1..]
    {
      assert Linked(At(i), At(i + 1)) && Linked(At(i + 1), At(i + 2));
      e.prev.next := e.next;
      e.next.prev := e.prev;
      elems := elems[..i] + elems[i + 1..];
      assert forall j :: 0 <= j <= i ==> At(j) == old(At(j));
      assert forall j :: i < j <= |elems| + 1 ==> At(j) == old(At(j + 1));
      forall j | 0 <= j <= |elems| ensures Linked(At(j), At(j + 1)) {
        if j < i {
          assert old(Linked(At(j), At(j + 1)));
        } else if j > i {
          assert old(Linked(At(j + 1), At(j + 2)));
        }
      }
    }

    /** Put e, which is in no list, between the sentinel and the first element. */
    method LinkFront(e: Element)
      requires Chain() && e in nodes && e !in elems
      modifies `elems, root`next, root`prev, nodes`next, nodes`prev
      ensures Chain() && elems == [e] + old(elems)
    {
      assert Linked(At(0), At(1));
      e.prev := root;
      e.next := root.next;
      e.prev.next := e;
      e.next.prev := e;
      elems := [e] + elems;
      assert forall i :: 2 <= i <= |elems| + 1 ==> At(i) == old(At(i - 1));
      forall i | 0 <= i <= |elems| ensures Linked(At(i), At(i + 1)) {
        if i >= 2 {
          assert old(Linked(At(i - 1), At(i)));
        }
      }
    }

    method PushFront(key: string, value: Bytes) returns (e: Element)
      requires Valid()
      modifies this, root`next, root`prev, nodes`next, nodes`prev
      ensures Valid() && fresh(e) && e.key == key && e.value == value
      ensures elems == [e] + old(elems) && nodes == old(nodes) + {e}
    {
      e := new Element(key, value);
      nodes := nodes + {e};
      LinkFront(e);
      len := len + 1;
    }

    method Remove(e: Element, ghost i: nat)
      requires Valid() && i < |elems| && elems[i] == e
      modifies `elems, `len, root`next, root`prev, nodes`next, nodes`prev
      ensures Valid()
      ensures elems == old(elems)[..i] + old(elems)[i + 1..] && nodes == old(nodes)
    {
      Unlink(e, i);
      len := len - 1;
    }

    method MoveToFront(e: Element, ghost i: nat)
      requires Valid() && i < |elems| && elems[i] == e
      modifies `elems, root`next, root`prev, nodes`next, nodes`prev
      ensures Valid()
      ensures elems == [e] + (old(elems)[..i] + old(elems)[i + 1..]) && nodes == old(nodes)
    {
      assert Linked(At(0), At(1));
      if root.next == e {
        assert i == 0;
        return;
      }
      Unlink(e, i);
      LinkFront(e);
    }
  }

  function Reversed(s: Recency): Recency {
    if s == [] then [] else [s[|s| - 1]] + Reversed(s[..|s| - 1])
  }

  /** The callback log after the entries of gone were dropped, last one first. */
  function Notified(notify: bool, log: seq<Entry>, gone: Recency): seq<Entry> {
    if notify then log + Reversed(gone) else log
  }

  /** With a callback, the log has grown by the entries of gone, the last of them first. */
  ghost predicate OldestFirst(notify: bool, before: seq<Entry>, after: seq<Entry>, gone: Recency) {
    if notify then
      && |after| == |before| + |gone| && before <= after
      && forall k :: |before| <= k < |after| ==> after[k] == gone[|after| - 1 - k]
    else after == before
  }

  /** Element i holds entry i. */
  ghost predicate Holds(es: seq<Element>, s: Recency)
    reads es`value
  {
    |es| == |s| && forall i :: 0 <= i < |es| ==> es[i].key == s[i].key && es[i].value == s[i].value
  }

  lemma HoldsFronted(es: seq<Element>, s: Recency, i: nat)
    requires Holds(es, s) && i < |es|
    ensures Holds(Fronted(es, i), [s[i]] + (s[..i] + s[i + 1..]))
  {
    var fs, t := es[..i] + es[i + 1..], s[..i] + s[i + 1..];
    assert forall j :: 0 <= j < |fs| ==> fs[j].key == t[j].key && fs[j].value == t[j].value;
  }

  lemma HoldsPrefix(es: seq<Element>, s: Recency, n: nat)
    requires Holds(es, s) && n <= |es|
    ensures Holds(es[..n], s[..n])
    ensures forall i :: 0 <= i < |es| ==> Entry(es[i].key, es[i].value) == s[i]
  {
  }

  ghost predicate SameKeys(es: seq<Element>, s: Recency) {
    |es| == |s| && forall i :: 0 <= i < |es| ==> es[i].key == s[i].key
  }

  ghost predicate Carried(es: seq<Element>, key: string) {
    exists i :: 0 <= i < |es| && es[i].key == key
  }

  /** The map sends each key to the one element that carries it. */
  ghost predicate Indexed(m: map<string, Element>, es: seq<Element>) {
    && NoDuplicates(es)
    && (forall i :: 0 <= i < |es| ==> es[i].key in m && m[es[i].key] == es[i])
    && (forall k :: k in m ==> Carried(es, k))
  }

  ghost function Fronted(es: seq<Element>, i: nat): seq<Element>
    requires i < |es|
  {
    [es[i]] + (es[..i] + es[i + 1..])
  }

  lemma FrontedMembers(es: seq<Element>, i: nat)
    requires i < |es|
    ensures forall e :: e in Fronted(es, i) <==> e in es
    ensures NoDuplicates(es) ==> NoDuplicates(Fronted(es, i))
  {
    assert es == es[..i] + ([es[i]] + es[i + 1..]);
  }

  lemma SameMembersIndexed(m: map<string, Element>, es: seq<Element>, fs: seq<Element>)
    requires Indexed(m, es) && NoDuplicates(fs)
    requires forall e :: e in fs <==> e in es
    ensures Indexed(m, fs)
  {
    forall j | 0 <= j < |fs| ensures fs[j].key in m && m[fs[j].key] == fs[j] {
      assert fs[j] in es;
    }
    forall k | k in m ensures Carried(fs, k) {
      var i :| 0 <= i < |es| && es[i].key == k;
      assert es[i] in fs;
    }
  }

  lemma FrontedIndexed(m: map<string, Element>, es: seq<Element>, i: nat)
    requires Indexed(m, es) && i < |es|
    ensures Indexed(m, Fronted(es, i))
  {
    FrontedMembers(es, i);
    SameMembersIndexed(m, es, Fronted(es, i));
  }

  lemma IndexedDistinct(m: map<string, Element>, es: seq<Element>, s: Recency)
    requires Indexed(m, es) && SameKeys(es, s)
    ensures DistinctKeys(s)
  {
    forall i, j | 0 <= i < j < |s| ensures s[i].key != s[j].key {
      assert m[es[i].key] == es[i] && m[es[j].key] == es[j];
    }
  }

  lemma IndexedFinds(m: map<string, Element>, es: seq<Element>, s: Recency, key: string)
    requires Indexed(m, es) && SameKeys(es, s)
    ensures Find(s, key).Some? <==> key in m
  {
    FindIffHasKey(s, key);
    if key in m {
      var i :| 0 <= i < |es| && es[i].key == key;
      assert s[i].key == key;
    }
    if HasKey(s, key) {
      var i :| 0 <= i < |s| && s[i].key == key;
      assert es[i].key in m;
    }
  }

  lemma Position(m: map<string, Element>, es: seq<Element>, key: string) returns (i: nat)
    requires Indexed(m, es) && key in m
    ensures i < |es| && es[i] == m[key] && es[i].key == key
  {
    i :| 0 <= i < |es| && es[i].key == key;
  }

  /** Moving entry i to the front is what a hit on its key does. */
  lemma FrontedIsTouch(s: Recency, i: nat)
    requires i < |s| && DistinctKeys(s)
    ensures TouchIn(s, s[i].key) == [s[i]] + (s[..i] + s[i + 1..])
    ensures Find(s, s[i].key) == Some(s[i].value)
    ensures Total(TouchIn(s, s[i].key)) == Total(s)
  {
    var a, b := SplitAt(s, i);
    TouchSplit(s, a, s[i], b);
    FindSplit(a, s[i], b);
  }

  /** Moving entry i to the front with a new value is what an overwriting Add does. */
  lemma FrontedIsUpdated(s: Recency, i: nat, value: Bytes)
    requires i < |s| && DistinctKeys(s)
    ensures [Entry(s[i].key, value)] + (s[..i] + s[i + 1..]) == Updated(s, s[i].key, value)
    ensures Total(Updated(s, s[i].key, value)) == Total(s) + |value| - |s[i].value|
  {
    var a, b := SplitAt(s, i);
    WithoutSplit(a, s[i], b);
    TotalSplit(a, s[i], b);
    TotalCons(Entry(s[i].key, value), a + b);
    TotalCons(s[i], a + b);
  }

  lemma DropLast(m: map<string, Element>, es: seq<Element>)
    requires Indexed(m, es) && es != []
    ensures Indexed(m - {es[|es| - 1].key}, es[..|es| - 1])
  {
    var last, init := es[|es| - 1], es[..|es| - 1];
    forall i | 0 <= i < |init| ensures init[i].key != last.key {
      assert m[es[i].key] == es[i] && m[last.key] == last;
    }
    forall k | k in m && k != last.key ensures Carried(init, k) {
      var i :| 0 <= i < |es| && es[i].key == k;
      assert init[i].key == k;
    }
  }

  lemma PushedIndexed(m: map<string, Element>, es: seq<Element>, e: Element)
    requires Indexed(m, es) && e !in es && e.key !in m
    ensures Indexed(m[e.key := e], [e] + es)
  {
    var fs := [e] + es;
    forall k | k in m ensures Carried(fs, k) {
      var i :| 0 <= i < |es| && es[i].key == k;
      assert fs[i + 1].key == k;
    }
    assert fs[0].key == e.key;
  }

  lemma PushedIsUpdated(s: Recency, key: string, value: Bytes)
    requires Find(s, key).None?
    ensures [Entry(key, value)] + s == Updated(s, key, value)
    ensures Total(Updated(s, key, value)) == Total(s) + |key| + |value|
  {
    FindIffHasKey(s, key);
    WithoutAbsent(s, key);
    TotalCons(Entry(key, value), s);
  }

  class Cache {
    const maxBytes: nat
    const notify: bool  // whether an eviction callback was given
    var nbytes: int
    var catche: map<string, Element>
    var evicted: seq<Entry>  // the calls made to the eviction callback, in order
    const ll: List

    ghost var recency: Recency  // the entries of ll, front to back

    /** The list, the map and the recency sequence agree. */
    ghost predicate Shaped()
      reads this`catche, this`recency, ll, ll.root`next, ll.root`prev, ll.nodes
    {
      && ll.Valid()
      && Indexed(catche, ll.elems)
      && Holds(ll.elems, recency)
    }

    ghost predicate Valid()
      reads this, ll, ll.root`next, ll.root`prev, ll.nodes
    {
      Shaped() && nbytes == Total(recency)
    }

    constructor (maxBytes: nat, notify: bool)
      ensures Valid() && recency == [] && evicted == []
      ensures this.maxBytes == maxBytes && this.notify == notify
      ensures fresh(ll) && fresh(ll.root) && ll.nodes == {}
    {
      this.maxBytes, this.notify := maxBytes, notify;
      nbytes, catche, evicted, recency := 0, map[], [], [];
      ll := new List();
    }

    // ------------------------------------------------ list and map in step

    /** Bring the element of a cached key to the front. */
    method Front(key: string) returns (ele: Element, ghost i: nat)
      requires Shaped() && key in catche
      modifies this`recency, ll, ll.root`next, ll.root`prev, ll.nodes`next, ll.nodes`prev
      ensures Shaped()
      ensures i < |old(recency)| && old(recency)[i].key == key
      ensures recency == [old(recency)[i]] + (old(recency)[..i] + old(recency)[i + 1..])
      ensures ll.elems != [] && ll.elems[0] == ele && ele in ll.nodes && ele.key == key
      ensures ele.value == old(recency)[i].value
      ensures ll.nodes == old(ll.nodes)
    {
      hide Indexed, List.Valid, Linked;
      ele := catche[key];
      ghost var es := ll.elems;
      i := Position(catche, es, key);
      FrontedIndexed(catche, es, i);
      ll.MoveToFront(ele, i);
      ll.Member(0);
      HoldsFronted(es, recency, i);
      recency := [recency[i]] + (recency[..i] + recency[i + 1..]);
    }

    /** Bring the element of a cached key to the front and overwrite its value. */
    method Reassign(key: string, value: Bytes) returns (size: nat, ghost i: nat)
      requires Shaped() && key in catche
      modifies this`recency, ll, ll.root`next, ll.root`prev, ll.nodes
      ensures Shaped()
      ensures i < |old(recency)| && old(recency)[i].key == key && size == |old(recency)[i].value|
      ensures recency == [Entry(key, value)] + (old(recency)[..i] + old(recency)[i + 1..])
      ensures ll.nodes == old(ll.nodes)
    {
      hide Shaped, List.Valid, Linked;
      var ele;
      ele, i := Front(key);
      size := |ele.value|;
      SetFirst(ele, value);
    }

    /** kv.value = value, for the element in front. */
    method SetFirst(ele: Element, value: Bytes)
      requires Shaped() && ll.elems != [] && ll.elems[0] == ele
      modifies this`recency, ele`value
      ensures Shaped() && old(recency) != []
      ensures recency == [Entry(ele.key, value)] + old(recency)[1..]
    {
      hide Indexed, List.Valid, Linked;
      ll.Member(0);
      ele.value := value;
      recency := [Entry(ele.key, value)] + recency[1..];
    }

    /** Insert a new element in front. */
    method Attach(key: string, value: Bytes)
      requires Shaped() && key !in catche
      modifies this`catche, this`recency, ll, ll.root`next, ll.root`prev, ll.nodes`next, ll.nodes`prev
      ensures Shaped()
      ensures recency == [Entry(key, value)] + old(recency)
      ensures fresh(ll.nodes - old(ll.nodes))
    {
      hide Indexed, List.Valid, Linked;
      var ele := ll.PushFront(key, value);
      PushedIndexed(catche, old(ll.elems), ele);
      catche := catche[key := ele];
      recency := [Entry(key, value)] + recency;
    }

    /** Unlink the last element and forget its key. */
    method Detach() returns (ele: Element)
      requires Shaped() && recency != []
      modifies this`catche, this`recency
      modifies ll, ll.root`next, ll.root`prev, ll.nodes`next, ll.nodes`prev
      ensures Shaped()
      ensures recency == old(recency)[..|old(recency)| - 1]
      ensures Entry(ele.key, ele.value) == old(recency)[|old(recency)| - 1]
      ensures ll.nodes == old(ll.nodes)
    {
      hide Indexed, List.Valid, Linked;
      ghost var last := |ll.elems| - 1;
      ghost var es := ll.elems;
      var back := ll.Back();
      ele := back;
      DropLast(catche, es);
      HoldsPrefix(es, recency, last);
      ll.Remove(ele, last);
      assert ll.elems == es[..last];
      catche := catche - {ele.key};
      recency := recency[..last];
    }

    lemma MapFinds(key: string)
      requires Shaped()
      ensures Find(recency, key).Some? <==> key in catche
      ensures DistinctKeys(recency)
    {
      IndexedFinds(catche, ll.elems, recency, key);
      IndexedDistinct(catche, ll.elems, recency);
    }

    // ------------------------------------------------ the operations

    method Get(key: string) returns (value: Option<Bytes>)
      requires Valid()
      modifies this`recency, ll, ll.root`next, ll.root`prev, ll.nodes`next, ll.nodes`prev
      ensures Valid()
      ensures value == Find(old(recency), key)
      ensures recency == TouchIn(old(recency), key)
      ensures ll.nodes == old(ll.nodes)
    {
      hide Shaped;
      MapFinds(key);
      if key in catche {
        var ele, i := Front(key);
        FrontedIsTouch(old(recency), i);
        value := Some(ele.value);
      } else {
        value := None;
      }
    }

    method RemoveOldest()
      requires Valid()
      modifies this`nbytes, this`catche, this`evicted, this`recency
      modifies ll, ll.root`next, ll.root`prev, ll.nodes`next, ll.nodes`prev
      ensures Valid()
      ensures old(recency) == [] ==> recency == [] && evicted == old(evicted)
      ensures old(recency) != [] ==>
                var was := old(recency);
                && recency == was[..|was| - 1]
                && evicted == if notify then old(evicted) + [was[|was| - 1]] else old(evicted)
      ensures ll.nodes == old(ll.nodes)
    {
      hide Shaped;
      var n := Len();
      if n != 0 {
        var ele := Detach();
        nbytes := nbytes - (|ele.key| + |ele.value|);
        if notify {
          evicted := evicted + [Entry(ele.key, ele.value)];
        }
      }
    }

    method Add(key: string, value: Bytes)
      requires Valid()
      modifies this`nbytes, this`catche, this`evicted, this`recency
      modifies ll, ll.root`next, ll.root`prev, ll.nodes
      ensures Valid()
      ensures recency == AddTo(maxBytes, old(recency), key, value)
      ensures OldestFirst(notify, old(evicted), evicted, Updated(old(recency), key, value)[|recency|..])
      ensures fresh(ll.nodes - old(ll.nodes))
    {
      hide Shaped;
      Put(key, value);
      Trim();
    }

    /** The second half of Add: the eviction loop. */
    method Trim()
      requires Valid()
      modifies this`nbytes, this`catche, this`evicted, this`recency
      modifies ll, ll.root`next, ll.root`prev, ll.nodes`next, ll.nodes`prev
      ensures Valid()
      ensures recency == Evict(maxBytes, old(recency))
      ensures OldestFirst(notify, old(evicted), evicted, old(recency)[|recency|..])
      ensures ll.nodes == old(ll.nodes)
    {
      hide Shaped, Evict, Notified;
      ghost var was, log := recency, evicted;
      ghost var n := |was|;
      NotifiedNothing(notify, log);
      assert was[..n] == was && was[n..] == [];
      while maxBytes != 0 && maxBytes < nbytes
        invariant Valid() && ll.nodes == old(ll.nodes)
        invariant 0 <= n <= |was| && recency == was[..n]
        invariant Evict(maxBytes, was[..n]) == Evict(maxBytes, was)
        invariant evicted == Notified(notify, log, was[n..])
        decreases n
      {
        EvictionStep(maxBytes, was, n);
        NotifiedStep(notify, log, was, n);
        RemoveOldest();
        n := n - 1;
      }
      EvictsNothing(maxBytes, was[..n]);
      NotifiedOldestFirst(notify, log, was[n..]);
    }

    /** The first half of Add: insert or overwrite, before any eviction. */
    method Put(key: string, value: Bytes)
      requires Valid()
      modifies this`nbytes, this`catche, this`recency
      modifies ll, ll.root`next, ll.root`prev, ll.nodes
      ensures Valid()
      ensures recency == Updated(old(recency), key, value)
      ensures fresh(ll.nodes - old(ll.nodes))
    {
      hide Shaped;
      if key in catche {
        Overwrite(key, value);
      } else {
        Insert(key, value);
      }
    }

    method Overwrite(key: string, value: Bytes)
      requires Valid() && key in catche
      modifies this`nbytes, this`recency, ll, ll.root`next, ll.root`prev, ll.nodes
      ensures Valid()
      ensures recency == Updated(old(recency), key, value)
      ensures ll.nodes == old(ll.nodes)
    {
      hide Shaped;
      MapFinds(key);
      var size, i := Reassign(key, value);
      FrontedIsUpdated(old(recency), i, value);
      nbytes := nbytes + (|value| - size);
    }

    method Insert(key: string, value: Bytes)
      requires Valid() && key !in catche
      modifies this`nbytes, this`catche, this`recency
      modifies ll, ll.root`next, ll.root`prev, ll.nodes`next, ll.nodes`prev
      ensures Valid()
      ensures recency == Updated(old(recency), key, value)
      ensures fresh(ll.nodes - old(ll.nodes))
    {
      hide Shaped;
      MapFinds(key);
      PushedIsUpdated(recency, key, value);
      Attach(key, value);
      nbytes := nbytes + (|key| + |value|);
    }

    method Len() returns (n: nat)
      requires Valid()
      ensures n == |recency|
    {
      n := ll.len;
    }
  }

  lemma EvictsNothing(budget: nat, s: Recency)
    requires Fits(budget, s)
    ensures Evict(budget, s) == s
  {
  }

  lemma NotifiedNothing(notify: bool, log: seq<Entry>)
    ensures Notified(notify, log, []) == log
  {
  }

  lemma EvictionStep(budget: nat, u: Recency, n: nat)
    requires n <= |u| && !Fits(budget, u[..n])
    ensures n > 0 && Evict(budget, u[..n]) == Evict(budget, u[..n - 1])
    ensures u[..n] != [] && u[..n][..n - 1] == u[..n - 1] && u[..n][n - 1] == u[n - 1]
  {
    assert u[..n][..n - 1] == u[..n - 1];
  }

  lemma NotifiedStep(notify: bool, log: seq<Entry>, u: Recency, n: nat)
    requires 0 < n <= |u|
    ensures var before := Notified(notify, log, u[n..]);
            Notified(notify, log, u[n - 1..]) == if notify then before + [u[n - 1]] else before
  {
    assert u[n - 1..] == [u[n - 1]] + u[n..];
    ReversedSnoc(u[n - 1], u[n..]);
  }

  lemma {:induction false} ReversedAt(s: Recency, k: nat)
    requires k < |s|
    ensures |Reversed(s)| == |s| && Reversed(s)[k] == s[|s| - 1 - k]
  {
    if k > 0 {
      ReversedAt(s[..|s| - 1], k - 1);
    } else if |s| > 1 {
      ReversedAt(s[..|s| - 1], 0);
    } else {
      assert Reversed(s[..0]) == [];
    }
  }

  lemma NotifiedOldestFirst(notify: bool, log: seq<Entry>, gone: Recency)
    ensures OldestFirst(notify, log, Notified(notify, log, gone), gone)
  {
    if gone != [] {
      ReversedAt(gone, 0);
    }
    var after := Notified(notify, log, gone);
    if notify {
      forall k | |log| <= k < |after| ensures after[k] == gone[|after| - 1 - k] {
        ReversedAt(gone, k - |log|);
      }
    }
  }

  lemma {:induction false} ReversedSnoc(e: Entry, s: Recency)
    ensures Reversed([e] + s) == Reversed(s) + [e]
  {
    var t := [e] + s;
    if s == [] {
      assert t == [e] && [e][..0] == [];
    } else {
      var init, last := s[..|s| - 1], s[|s| - 1];
      assert t[..|t| - 1] == [e] + init && t[|t| - 1] == last;
      ReversedSnoc(e, init);
      assert [last] + (Reversed(init) + [e]) == ([last] + Reversed(init)) + [e];
    }
  }
}

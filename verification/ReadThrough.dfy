/** One node without peers: a read-through cache over a deterministic getter, and the exact
    condition under which a Get hits. */
module ReadThrough {
  import opened Common
  import opened LruSpec
  import opened LruCache

  type Getter = string -> Option<Bytes>

  /** Keys for which a Get succeeds at all. */
  predicate Loadable(getter: Getter, key: string) {
    key != "" && getter(key).Some?
  }

  datatype Outcome = Outcome(cache: Recency, value: Option<Bytes>)

  function GetStep(budget: nat, getter: Getter, s: Recency, key: string): Outcome {
    if key == "" then Outcome(s, None)
    else match Find(s, key)
      case Some(v) => Outcome(TouchIn(s, key), Some(v))
      case None =>
        match getter(key)
        case None => Outcome(s, None)
        case Some(v) => Outcome(AddTo(budget, s, key, v), Some(v))
  }

  /** The cache after a run of Gets, from empty. */
  function RunGets(budget: nat, getter: Getter, keys: seq<string>): Recency {
    if keys == [] then []
    else GetStep(budget, getter, RunGets(budget, getter, keys[..|keys| - 1]), keys[|keys| - 1]).cache
  }

  /** All keys ever loaded, most recently accessed first, as if nothing were evicted. */
  ghost function History(getter: Getter, keys: seq<string>): Recency {
    if keys == [] then []
    else
      var key, past := keys[|keys| - 1], History(getter, keys[..|keys| - 1]);
      if Loadable(getter, key) then Updated(past, key, getter(key).value) else past
  }

  ghost predicate FromGetter(getter: Getter, s: Recency) {
    forall e :: e in s ==> Loadable(getter, e.key) && getter(e.key) == Some(e.value)
  }

  lemma {:induction false} HistoryShape(getter: Getter, keys: seq<string>)
    ensures DistinctKeys(History(getter, keys)) && FromGetter(getter, History(getter, keys))
  {
    if keys != [] {
      var key, init := keys[|keys| - 1], keys[..|keys| - 1];
      var past := History(getter, init);
      HistoryShape(getter, init);
      if Loadable(getter, key) {
        UpdatedDistinct(past, key, getter(key).value);
        WithoutKeys(past, key);
      }
    }
  }

  // ---------------------------------------------------------------- the cache is a prefix of its history

  /** A key found in a prefix is not in the rest. */
  lemma RestAbsent(c: Recency, rest: Recency, key: string)
    requires DistinctKeys(c + rest) && Find(c, key).Some?
    ensures DistinctKeys(c) && !HasKey(rest, key)
  {
    FindIffHasKey(c, key);
    hide Find;
    var i :| 0 <= i < |c| && c[i].key == key;
    var s := c + rest;
    assert s[..|c|] == c && s[|c|..] == rest;
    forall j | 0 <= j < |rest| ensures rest[j].key != key {
      assert rest[j] == s[|c| + j] && s[i] == c[i];
    }
    forall i, j | 0 <= i < j < |c| ensures c[i].key != c[j].key {
      assert s[i] == c[i] && s[j] == c[j];
    }
  }

  /** A hit: the cache and the history are reordered alike. */
  lemma HitShape(s: Recency, c: Recency, key: string)
    requires DistinctKeys(s) && c <= s && Find(c, key).Some?
    ensures DistinctKeys(c)
    ensures Updated(s, key, Find(c, key).value) == TouchIn(c, key) + s[|c|..]
  {
    hide DistinctKeys, HasKey, Find, Without;
    var rest := s[|c|..];
    assert s == c + rest;
    RestAbsent(c, rest, key);
    WithoutConcat(c, rest, key);
    WithoutAbsent(rest, key);
    var first, kept := [Entry(key, Find(c, key).value)], Without(c, key);
    assert first + (kept + rest) == (first + kept) + rest;
  }

  lemma HitKeepsFit(budget: nat, s: Recency, c: Recency, key: string)
    requires DistinctKeys(s) && LongestFit(budget, s, c) && Find(c, key).Some?
    ensures LongestFit(budget, Updated(s, key, Find(c, key).value), TouchIn(c, key))
  {
    hide DistinctKeys, Updated, TouchIn, Find, Total;
    var rest, t := s[|c|..], TouchIn(c, key);
    HitShape(s, c, key);
    TouchKeepsTotal(c, key);
    TouchLength(c, key);
    assert s == c + rest;
    if rest != [] {
      SameTotalNext(c, t, rest);
      assert s[..|c| + 1] == (c + rest)[..|c| + 1];
    }
    LongestFitByNext(budget, t + rest, t);
  }

  lemma TouchLength(c: Recency, key: string)
    requires DistinctKeys(c)
    ensures |TouchIn(c, key)| == |c|
  {
    FindIffHasKey(c, key);
    if HasKey(c, key) {
      var i :| 0 <= i < |c| && c[i].key == key;
      var a, b := SplitAt(c, i);
      TouchSplit(c, a, c[i], b);
    }
  }

  lemma SameTotalNext(c: Recency, t: Recency, rest: Recency)
    requires Total(c) == Total(t) && |c| == |t| && rest != []
    ensures Total((c + rest)[..|c| + 1]) == Total((t + rest)[..|t| + 1])
  {
    assert (c + rest)[..|c| + 1] == c + [rest[0]];
    assert (t + rest)[..|t| + 1] == t + [rest[0]];
    TotalConcat(c, [rest[0]]);
    TotalConcat(t, [rest[0]]);
  }

  /** A miss: whatever the Add keeps is still the longest fitting prefix of the history. */
  lemma MissKeepsFit(budget: nat, s: Recency, c: Recency, e: Entry)
    requires LongestFit(budget, s, c) && Find(c, e.key).None?
    requires forall x :: x in s && x.key == e.key ==> x == e
    ensures LongestFit(budget, Updated(s, e.key, e.value), AddTo(budget, c, e.key, e.value))
  {
    var rest := s[|c|..];
    assert s == c + rest;
    var u, tail := [e] + c, Without(rest, e.key);
    MissShape(c, rest, e);
    if rest != [] {
      assert rest[0] in s && s[..|c| + 1] == c + [rest[0]];
    }
    EvictKeepsFit(budget, c, rest, e);
  }

  lemma MissShape(c: Recency, rest: Recency, e: Entry)
    requires Find(c, e.key).None?
    ensures Updated(c, e.key, e.value) == [e] + c
    ensures Updated(c + rest, e.key, e.value) == [e] + c + Without(rest, e.key)
  {
    FindIffHasKey(c, e.key);
    WithoutConcat(c, rest, e.key);
    WithoutAbsent(c, e.key);
    assert [e] + (c + Without(rest, e.key)) == [e] + c + Without(rest, e.key);
  }

  lemma EvictKeepsFit(budget: nat, c: Recency, rest: Recency, e: Entry)
    requires rest != [] ==> !Fits(budget, c + [rest[0]])
    requires rest != [] && rest[0].key == e.key ==> rest[0] == e
    ensures LongestFit(budget, [e] + c + Without(rest, e.key), Evict(budget, [e] + c))
  {
    var u, tail := [e] + c, Without(rest, e.key);
    var r := Evict(budget, u);
    var all := u + tail;
    assert r <= u && u <= all;
    if |r| < |u| {
      assert all[..|r| + 1] == u[..|r| + 1];
    } else if tail != [] {
      assert r == u;
      NextDoesNotFit(budget, c, rest, e);
      assert all[..|u| + 1] == u + [tail[0]];
    }
    LongestFitByNext(budget, all, r);
  }

  lemma NextDoesNotFit(budget: nat, c: Recency, rest: Recency, e: Entry)
    requires rest != [] && !Fits(budget, c + [rest[0]])
    requires rest[0].key == e.key ==> rest[0] == e
    requires Fits(budget, [e] + c)
    ensures Without(rest, e.key) != [] && Without(rest, e.key)[0] == rest[0]
    ensures !Fits(budget, [e] + c + [rest[0]])
  {
    TotalConcat(c, [rest[0]]);
    TotalCons(rest[0], []);
    assert [rest[0]] + [] == [rest[0]];
    TotalCons(e, c);
    TotalConcat([e] + c, [rest[0]]);
  }

  lemma {:induction false} CacheIsFittingHistory(budget: nat, getter: Getter, keys: seq<string>)
    ensures LongestFit(budget, History(getter, keys), RunGets(budget, getter, keys))
  {
    if keys != [] {
      var key, init := keys[|keys| - 1], keys[..|keys| - 1];
      var s, c := History(getter, init), RunGets(budget, getter, init);
      CacheIsFittingHistory(budget, getter, init);
      HistoryShape(getter, init);
      if Find(c, key).Some? {
        FindMember(c, key);
        assert Entry(key, Find(c, key).value) in s;
        HitKeepsFit(budget, s, c, key);
      } else if Loadable(getter, key) {
        MissKeepsFit(budget, s, c, Entry(key, getter(key).value));
      }
    }
  }

  lemma CachedAreGetters(budget: nat, getter: Getter, keys: seq<string>)
    ensures FromGetter(getter, RunGets(budget, getter, keys))
  {
    CacheIsFittingHistory(budget, getter, keys);
    HistoryShape(getter, keys);
    var s, c := History(getter, keys), RunGets(budget, getter, keys);
    forall e | e in c ensures e in s {
      var i :| 0 <= i < |c| && c[i] == e;
      assert s[i] == e;
    }
  }

  /** A Get over entries that come from the getter answers as the getter does, hit or miss. */
  lemma GetAnswersAsGetter(budget: nat, getter: Getter, s: Recency, key: string)
    requires FromGetter(getter, s)
    ensures GetStep(budget, getter, s, key).value == if key == "" then None else getter(key)
  {
    if key != "" && Find(s, key).Some? {
      FindMember(s, key);
    }
  }

  /** In every run, whatever was evicted, a Get answers exactly what the getter would. */
  lemma EveryGetAnswersAsGetter(budget: nat, getter: Getter, keys: seq<string>, key: string)
    ensures GetStep(budget, getter, RunGets(budget, getter, keys), key).value == if key == "" then None else getter(key)
  {
    CachedAreGetters(budget, getter, keys);
    GetAnswersAsGetter(budget, getter, RunGets(budget, getter, keys), key);
  }

  /** The cached sequence of a smaller budget is a prefix of that of a larger one, run by run. */
  lemma ReadThroughInclusion(b1: nat, b2: nat, getter: Getter, keys: seq<string>)
    requires BudgetAtMost(b1, b2)
    ensures RunGets(b1, getter, keys) <= RunGets(b2, getter, keys)
  {
    CacheIsFittingHistory(b1, getter, keys);
    CacheIsFittingHistory(b2, getter, keys);
    var s, c1, c2 := History(getter, keys), RunGets(b1, getter, keys), RunGets(b2, getter, keys);
    assert c1 == s[..|c1|] && c2 == s[..|c2|];
    assert Fits(b2, c1);
  }

  // ---------------------------------------------------------------- the hit condition

  ghost predicate LastAccess(keys: seq<string>, key: string, j: nat) {
    && j < |keys| && keys[j] == key
    && (forall i :: j < i < |keys| ==> keys[i] != key)
  }

  /** The distinct keys successfully accessed from position j on. */
  ghost function AccessedFrom(getter: Getter, keys: seq<string>, j: nat): set<string> {
    set i | j <= i < |keys| && Loadable(getter, keys[i]) :: keys[i]
  }

  function LoadedSize(getter: Getter): string -> nat {
    (key: string) => match getter(key) case None => 0 case Some(v) => |key| + |v|
  }

  ghost function KeySet(s: Recency): set<string> {
    set e | e in s :: e.key
  }

  predicate Hits(budget: nat, getter: Getter, keys: seq<string>, key: string) {
    Find(RunGets(budget, getter, keys), key).Some?
  }

  /** In the history, the entries up to a key are exactly the keys accessed since its last access. */
  lemma {:induction false} HistoryUpTo(getter: Getter, keys: seq<string>, key: string, j: nat) returns (p: nat)
    requires LastAccess(keys, key, j) && Loadable(getter, key)
    ensures p < |History(getter, keys)| && History(getter, keys)[p].key == key
    ensures KeySet(History(getter, keys)[..p + 1]) == AccessedFrom(getter, keys, j)
  {
    var s, last, init := History(getter, keys), keys[|keys| - 1], keys[..|keys| - 1];
    var past := History(getter, init);
    if last == key {
      p := 0;
      assert s[..1] == [s[0]];
      assert AccessedFrom(getter, keys, j) == {key};
    } else {
      var q := HistoryUpTo(getter, init, key, j);
      AccessedSnoc(getter, keys, j);
      if !Loadable(getter, last) {
        p := q;
      } else {
        HistoryShape(getter, init);
        p := PrefixAfterUpdate(past, q, last, getter(last).value);
      }
    }
  }

  lemma AccessedSnoc(getter: Getter, keys: seq<string>, j: nat)
    requires j < |keys|
    ensures AccessedFrom(getter, keys, j) ==
              AccessedFrom(getter, keys[..|keys| - 1], j)
              + (if Loadable(getter, keys[|keys| - 1]) then {keys[|keys| - 1]} else {})
  {
    var init := keys[..|keys| - 1];
    forall k | k in AccessedFrom(getter, keys, j)
      ensures k in AccessedFrom(getter, init, j) || (Loadable(getter, k) && k == keys[|keys| - 1])
    {
      var i :| j <= i < |keys| && Loadable(getter, keys[i]) && keys[i] == k;
      assert i < |init| ==> init[i] == k;
    }
    forall k | k in AccessedFrom(getter, init, j) ensures k in AccessedFrom(getter, keys, j) {
      var i :| j <= i < |init| && Loadable(getter, init[i]) && init[i] == k;
      assert keys[i] == k;
    }
  }

  /** Where a prefix ending at another key moves to when x becomes most recent. */
  lemma PrefixAfterUpdate(s: Recency, q: nat, x: string, value: Bytes) returns (p: nat)
    requires q < |s| && s[q].key != x
    ensures p < |Updated(s, x, value)| && Updated(s, x, value)[p] == s[q]
    ensures KeySet(Updated(s, x, value)[..p + 1]) == KeySet(s[..q + 1]) + {x}
  {
    var a, e, b := s[..q], s[q], s[q + 1..];
    assert s == a + ([e] + b);
    WithoutConcat(a, [e] + b, x);
    var a' := Without(a, x);
    var t := Updated(s, x, value);
    assert Without([e] + b, x) == [e] + Without(b, x) by {
      assert ([e] + b)[1..] == b;
    }
    p := |a'| + 1;
    assert t == [Entry(x, value)] + (a' + ([e] + Without(b, x)));
    assert t[..p + 1] == [Entry(x, value)] + a' + [e];
    assert s[..q + 1] == a + [e];
    WithoutKeys(a, x);
    UpdatedKeySet(a, a', e, x, value);
  }

  lemma UpdatedKeySet(a: Recency, a': Recency, e: Entry, x: string, value: Bytes)
    requires forall y :: y in a' <==> y in a && y.key != x
    ensures KeySet([Entry(x, value)] + a' + [e]) == KeySet(a + [e]) + {x}
  {
    var t, u := [Entry(x, value)] + a' + [e], a + [e];
    forall k | k in KeySet(t) ensures k in KeySet(u) + {x} {
      var y :| y in t && y.key == k;
      assert y.key == x || y in u;
    }
    forall k | k in KeySet(u) + {x} ensures k in KeySet(t) {
      if k == x {
        assert t[0].key == x;
      } else {
        var y :| y in u && y.key == k;
        assert y in t;
      }
    }
  }

  lemma KeySetSnoc(init: Recency, last: Entry)
    requires DistinctKeys(init + [last])
    ensures KeySet(init + [last]) == KeySet(init) + {last.key} && last.key !in KeySet(init)
  {
    var s := init + [last];
    forall k | k in KeySet(init) ensures k != last.key && k in KeySet(s) {
      var e :| e in init && e.key == k;
      var i :| 0 <= i < |init| && init[i] == e;
      assert s[i] == e && s[|init|] == last;
    }
    assert last in s;
  }

  /** The total of a sequence of loaded entries is the sum over its keys. */
  lemma {:induction false} TotalIsSum(getter: Getter, s: Recency)
    requires DistinctKeys(s) && FromGetter(getter, s)
    ensures Total(s) == SumOver(KeySet(s), LoadedSize(getter))
  {
    if s != [] {
      var init, last := s[..|s| - 1], s[|s| - 1];
      assert s == init + [last] && last in s;
      TotalIsSum(getter, init);
      KeySetSnoc(init, last);
      assert KeySet(s) - {last.key} == KeySet(init);
      SumOverRemove(KeySet(s), last.key, LoadedSize(getter));
    }
  }

  /** A key of the history is cached exactly when the prefix ending at it fits. */
  lemma CachedIffPrefixFits(budget: nat, s: Recency, c: Recency, p: nat)
    requires DistinctKeys(s) && LongestFit(budget, s, c) && p < |s|
    ensures Find(c, s[p].key).Some? <==> Fits(budget, s[..p + 1])
  {
    FindIffHasKey(c, s[p].key);
    if p < |c| {
      assert c[p].key == s[p].key;
      assert s[..p + 1] <= c;
      TotalPrefix(s[..p + 1], c);
    } else {
      forall i | 0 <= i < |c| ensures c[i].key != s[p].key {
        assert c[i] == s[i];
      }
    }
  }

  lemma {:induction false} HistoryKeysAccessed(getter: Getter, keys: seq<string>, e: Entry)
    requires e in History(getter, keys)
    ensures e.key in keys
  {
    var key, init := keys[|keys| - 1], keys[..|keys| - 1];
    if Loadable(getter, key) && e.key != key {
      WithoutKeys(History(getter, init), key);
    }
    if e.key != key {
      HistoryKeysAccessed(getter, init, e);
    }
  }

  lemma {:induction false} LastAccessExists(keys: seq<string>, key: string) returns (j: nat)
    requires key in keys
    ensures LastAccess(keys, key, j)
  {
    var last, init := keys[|keys| - 1], keys[..|keys| - 1];
    if last == key {
      j := |keys| - 1;
    } else {
      assert keys == init + [last];
      j := LastAccessExists(init, key);
    }
  }

  /** Byte stack distance: a Get of key hits exactly when key was loaded and it fits together with
      everything loaded or hit since its last access. */
  lemma HitIffWorkingSetFits(budget: nat, getter: Getter, keys: seq<string>, key: string)
    ensures Hits(budget, getter, keys, key) <==>
              exists j :: LastAccess(keys, key, j) && Loadable(getter, key) &&
                (budget == 0 || SumOver(AccessedFrom(getter, keys, j), LoadedSize(getter)) <= budget)
  {
    var s, c := History(getter, keys), RunGets(budget, getter, keys);
    HistoryShape(getter, keys);
    CacheIsFittingHistory(budget, getter, keys);
    if Hits(budget, getter, keys, key) {
      FindMember(c, key);
      var e := Entry(key, Find(c, key).value);
      assert e in s;
      HistoryKeysAccessed(getter, keys, e);
      var j := LastAccessExists(keys, key);
      HitIffFitsAt(budget, getter, keys, key, j);
    } else {
      forall j: nat | LastAccess(keys, key, j) && Loadable(getter, key)
        ensures !(budget == 0 || SumOver(AccessedFrom(getter, keys, j), LoadedSize(getter)) <= budget)
      {
        HitIffFitsAt(budget, getter, keys, key, j);
      }
    }
  }

  lemma HitIffFitsAt(budget: nat, getter: Getter, keys: seq<string>, key: string, j: nat)
    requires LastAccess(keys, key, j) && Loadable(getter, key)
    ensures Hits(budget, getter, keys, key) <==>
              (budget == 0 || SumOver(AccessedFrom(getter, keys, j), LoadedSize(getter)) <= budget)
  {
    var s, c := History(getter, keys), RunGets(budget, getter, keys);
    HistoryShape(getter, keys);
    CacheIsFittingHistory(budget, getter, keys);
    var p := HistoryUpTo(getter, keys, key, j);
    var front := s[..p + 1];
    assert forall e :: e in front ==> e in s;
    TotalIsSum(getter, front);
    CachedIffPrefixFits(budget, s, c, p);
  }

  // ---------------------------------------------------------------- the classes

  /** The locked, lazily created cache of a group. */
  class MainCache {
    const cacheBytes: nat
    var lru: Cache?

    ghost function Contents(): Recency
      reads this, lru
    {
      if lru == null then [] else lru.recency
    }

    ghost function Footprint(): set<object>
      reads this, if lru == null then {} else {lru.ll}
    {
      if lru == null then {this} else {this, lru, lru.ll, lru.ll.root} + lru.ll.nodes
    }

    ghost predicate Valid()
      reads this, if lru == null then {} else {lru, lru.ll, lru.ll.root} + lru.ll.nodes
    {
      lru != null ==> lru.Valid() && lru.maxBytes == cacheBytes
    }

    constructor (cacheBytes: nat)
      ensures Valid() && Contents() == [] && this.cacheBytes == cacheBytes
      ensures fresh(Footprint())
    {
      this.cacheBytes, lru := cacheBytes, null;
    }

    method Add(key: string, value: Bytes)
      requires Valid()
      modifies Footprint()
      ensures Valid() && fresh(Footprint() - old(Footprint()))
      ensures Contents() == AddTo(cacheBytes, old(Contents()), key, value)
    {
      hide Cache.Shaped;
      if lru == null {
        lru := new Cache(cacheBytes, false);
      }
      lru.Add(key, value);
    }

    method Get(key: string) returns (value: Option<Bytes>)
      requires Valid()
      modifies Footprint()
      ensures Valid() && fresh(Footprint() - old(Footprint()))
      ensures value == Find(old(Contents()), key)
      ensures Contents() == TouchIn(old(Contents()), key)
    {
      if lru == null {
        return None;
      }
      value := lru.Get(key);
    }
  }

  /** A group without registered peers, used by one caller at a time. */
  class Group {
    const getter: Getter
    const mainCache: MainCache

    constructor (cacheBytes: nat, getter: Getter)
      ensures mainCache.Valid() && mainCache.Contents() == []
      ensures mainCache.cacheBytes == cacheBytes && this.getter == getter
      ensures fresh(mainCache.Footprint())
    {
      this.getter := getter;
      mainCache := new MainCache(cacheBytes);
    }

    method Get(key: string) returns (value: Option<Bytes>)
      requires mainCache.Valid()
      modifies mainCache.Footprint()
      ensures mainCache.Valid() && fresh(mainCache.Footprint() - old(mainCache.Footprint()))
      ensures Outcome(mainCache.Contents(), value)
           == GetStep(mainCache.cacheBytes, getter, old(mainCache.Contents()), key)
      ensures FromGetter(getter, old(mainCache.Contents())) ==> value == if key == "" then None else getter(key)
    {
      hide FromGetter, MainCache.Valid, AddTo;
      GetLikeGetter(key);
      if key == "" {
        return None;
      }
      value := mainCache.Get(key);
      if value.None? {
        value := GetLocally(key);
      }
    }

    lemma GetLikeGetter(key: string)
      ensures var was := mainCache.Contents();
              FromGetter(getter, was) ==>
                GetStep(mainCache.cacheBytes, getter, was, key).value == if key == "" then None else getter(key)
    {
      if FromGetter(getter, mainCache.Contents()) {
        GetAnswersAsGetter(mainCache.cacheBytes, getter, mainCache.Contents(), key);
      }
    }

    method GetLocally(key: string) returns (value: Option<Bytes>)
      requires mainCache.Valid()
      modifies mainCache.Footprint()
      ensures mainCache.Valid() && fresh(mainCache.Footprint() - old(mainCache.Footprint()))
      ensures value == getter(key)
      ensures mainCache.Contents() ==
                if value.None? then old(mainCache.Contents())
                else AddTo(mainCache.cacheBytes, old(mainCache.Contents()), key, value.value)
    {
      value := getter(key);
      if value.Some? {
        mainCache.Add(key, value.value);
      }
    }
  }
}

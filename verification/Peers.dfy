/** A node's view of its peers: a ring and one client per peer. */
module Peers {
  import opened Common
  import Ring

  const DEFAULT_REPLICAS: nat := 50
  const DEFAULT_BASE_PATH: string := "/_geecache/"

  /** What a node knows after Set; getters maps a peer to the base address of its client. */
  datatype Pool = Pool(self: string, ring: Ring.State, getters: map<string, string>)

  function GettersOf(names: seq<string>): map<string, string> {
    if names == [] then map[]
    else
      var last := names[|names| - 1];
      GettersOf(names[..|names| - 1])[last := last + DEFAULT_BASE_PATH]
  }

  function PoolOf(hash: Ring.Hash, self: string, names: seq<string>): (p: Pool)
    ensures Ring.Consistent(p.ring)
  {
    Ring.AddCallConsistent(hash, DEFAULT_REPLICAS, Ring.Empty, names);
    Pool(self, Ring.AddCall(hash, DEFAULT_REPLICAS, Ring.Empty, names), GettersOf(names))
  }

  /** The peer to ask for a key; None when the key is this node's own or the ring is empty. */
  function Pick(hash: Ring.Hash, p: Pool, key: string): Option<string>
    requires Ring.Consistent(p.ring)
  {
    var peer := Ring.Locate(hash, p.ring, key);
    if peer != "" && peer != p.self then Some(peer) else None
  }

  lemma {:induction false} GettersCover(names: seq<string>)
    ensures forall n :: n in GettersOf(names) <==> n in names
    ensures forall n :: n in names ==> GettersOf(names)[n] == n + DEFAULT_BASE_PATH
  {
    if names != [] {
      GettersCover(names[..|names| - 1]);
      assert names == names[..|names| - 1] + [names[|names| - 1]];
    }
  }

  /** Whatever a non-empty ring names is one of the peers given to Set. */
  lemma LocatedIsPeer(hash: Ring.Hash, self: string, names: seq<string>, key: string)
    requires names != []
    ensures PoolOf(hash, self, names).ring.points != []
    ensures Ring.Locate(hash, PoolOf(hash, self, names).ring, key) in names
  {
    var pool := PoolOf(hash, self, names);
    var q := hash(Ring.Label(0, names[0]));
    assert Ring.PointOf(hash, DEFAULT_REPLICAS, names[0], q);
    assert Ring.PointOfSome(hash, DEFAULT_REPLICAS, names, q);
    Ring.AddNamesOwner(hash, DEFAULT_REPLICAS, Ring.Empty, names, q);
    assert q in pool.ring.points;
    var p := Ring.GetIsSuccessor(hash, pool.ring, key);
    Ring.AddNamesOwner(hash, DEFAULT_REPLICAS, Ring.Empty, names, p);
  }

  /** A picked peer always has a client. */
  lemma PickedHasGetter(hash: Ring.Hash, self: string, names: seq<string>, key: string)
    requires Pick(hash, PoolOf(hash, self, names), key).Some?
    ensures var peer := Pick(hash, PoolOf(hash, self, names), key).value;
            && peer in names && peer != self
            && peer in PoolOf(hash, self, names).getters
            && PoolOf(hash, self, names).getters[peer] == peer + "/_geecache/"
  {
    GettersCover(names);
    if names != [] {
      LocatedIsPeer(hash, self, names, key);
    }
  }

  /** A node asks whoever its ring names, unless that is the node itself. */
  lemma PickByOwner(hash: Ring.Hash, self: string, names: seq<string>, key: string)
    requires names != [] && "" !in names
    ensures var o := Ring.Locate(hash, PoolOf(hash, self, names).ring, key);
            o in names && Pick(hash, PoolOf(hash, self, names), key) == if o == self then None else Some(o)
  {
    LocatedIsPeer(hash, self, names, key);
  }

  /** Nodes that called Set with the same peers, in any order, name the same owner. */
  lemma SamePeersSameOwner(hash: Ring.Hash, a: string, ns: seq<string>, b: string, ms: seq<string>, key: string)
    requires forall n :: n in ns <==> n in ms
    requires Ring.NoCrossCollision(hash, 50, set n | n in ns)
    ensures Ring.Locate(hash, PoolOf(hash, a, ns).ring, key) == Ring.Locate(hash, PoolOf(hash, b, ms).ring, key)
  {
    var names := set n | n in ns;
    Ring.OneCallNames(ns);
    Ring.OneCallNames(ms);
    Ring.SingleCall(hash, DEFAULT_REPLICAS, ns);
    Ring.SingleCall(hash, DEFAULT_REPLICAS, ms);
    assert Ring.NamesOf([ns]) == names && Ring.NamesOf([ms]) == names;
    Ring.NoCollisionAgree(hash, DEFAULT_REPLICAS, names, [ns], [ms], key);
  }

  lemma RingNamesHaveGetters(hash: Ring.Hash, names: seq<string>)
    ensures forall name :: name in Ring.AddCall(hash, DEFAULT_REPLICAS, Ring.Empty, names).owner.Values ==>
              name in GettersOf(names)
  {
    var owner := Ring.AddCall(hash, DEFAULT_REPLICAS, Ring.Empty, names).owner;
    GettersCover(names);
    forall name | name in owner.Values ensures name in GettersOf(names) {
      var p :| p in owner && owner[p] == name;
      Ring.AddNamesOwner(hash, DEFAULT_REPLICAS, Ring.Empty, names, p);
    }
  }

  class HttpPool {
    const self: string
    const hash: Ring.Hash
    var peers: Ring.Map?
    var httpGetters: map<string, string>

    ghost function View(): Pool
      reads this, peers
      requires peers != null
    {
      Pool(self, peers.View(), httpGetters)
    }

    ghost predicate Valid()
      reads this, peers
    {
      && peers != null && peers.hash == hash
      && Ring.Consistent(peers.View())
      && (forall name :: name in peers.hasMap.Values ==> name in httpGetters)
    }

    constructor (self: string, hash: Ring.Hash)
      ensures this.self == self && this.hash == hash && peers == null
    {
      this.self, this.hash := self, hash;
      peers, httpGetters := null, map[];
    }

    method Set(names: seq<string>)
      modifies this
      ensures peers != null && fresh(peers) && peers.hash == hash
      ensures View() == PoolOf(hash, self, names)
      ensures Valid()
    {
      hide Ring.AddCall, Ring.Consistent;
      peers := new Ring.Map(DEFAULT_REPLICAS, hash);
      peers.Add(names);
      httpGetters := map[];
      for n := 0 to |names|
        invariant httpGetters == GettersOf(names[..n])
        invariant peers != null && fresh(peers) && peers.hash == hash
        invariant peers.View() == Ring.AddCall(hash, DEFAULT_REPLICAS, Ring.Empty, names)
      {
        httpGetters := httpGetters[names[n] := names[n] + DEFAULT_BASE_PATH];
        assert names[..n + 1][..n] == names[..n];
      }
      assert names[..|names|] == names;
      RingNamesHaveGetters(hash, names);
    }

    method PickPeer(key: string) returns (getter: Option<string>)
      requires Valid()
      ensures match Pick(hash, View(), key)
              case None => getter == None
              case Some(peer) => peer in httpGetters && getter == Some(httpGetters[peer])
    {
      var peer := peers.Get(key);
      if peer != "" && peer != self {
        var p := Ring.GetIsSuccessor(hash, peers.View(), key);
        getter := Some(httpGetters[peer]);
      } else {
        getter := None;
      }
    }
  }
}

/** The service registry: heartbeats recorded with their time, and expired entries removed only when
    somebody asks for the list. */
module Registry {
  import opened Common
  import opened Ordered
  import ServerList

  /** Nanoseconds, as in package time. */
  type Time = int

  const MINUTE: Time := 60_000_000_000
  const DEFAULT_TIMEOUT: Time := 5 * MINUTE

  /** The period Heartbeat uses when none is given. */
  const HEARTBEAT_PERIOD: Time := DEFAULT_TIMEOUT - MINUTE

  /** Whether a server last heard of at start counts as alive at now; timeout 0 means for ever. */
  predicate Alive(timeout: Time, start: Time, now: Time) {
    timeout == 0 || start + timeout > now
  }

  // ---------------------------------------------------------------- the registry as a value

  /** Each known address with the time of the heartbeat kept for it. */
  type Servers = map<string, Time>

  /** What is left after a listing in which the entry of address a was checked at time reading(a). */
  ghost function Swept(servers: Servers, timeout: Time, reading: string -> Time): Servers {
    map a | a in servers && Alive(timeout, servers[a], reading(a)) :: servers[a]
  }

  // ---------------------------------------------------------------- the registry as an object

  class ServerItem {
    const addr: string
    var start: Time

    constructor (addr: string, start: Time)
      ensures this.addr == addr && this.start == start
    {
      this.addr := addr;
      this.start := start;
    }
  }

  class GeeRegistry {
    const timeout: Time
    var servers: map<string, ServerItem>

    ghost predicate Valid()
      reads this
    {
      forall a :: a in servers ==> servers[a].addr == a
    }

    ghost function Contents(): Servers
      reads this, servers.Values
    {
      map a | a in servers :: servers[a].start
    }

    constructor (timeout: Time)
      ensures Valid() && Contents() == map[] && this.timeout == timeout
    {
      this.timeout := timeout;
      servers := map[];
    }

    method PutServer(addr: string, now: Time)
      requires Valid()
      modifies this, servers.Values
      ensures Valid() && fresh(servers.Values - old(servers.Values))
      ensures Contents() == old(Contents())[addr := now]
    {
      if addr !in servers {
        var item := new ServerItem(addr, now);
        servers := servers[addr := item];
      } else {
        assert forall a :: a in servers && a != addr ==> servers[a] != servers[addr] by {
          assert forall a :: a in servers ==> servers[a].addr == a;
        }
        servers[addr].start := now;
      }
    }

    /** Go visits the map in an order of its own and reads the clock anew for every entry; reading(a)
        is the time read when address a is visited. */
    method AliveServers(reading: string -> Time) returns (alive: seq<string>)
      requires Valid()
      modifies `servers
      ensures Valid() && servers.Values <= old(servers.Values)
      ensures Contents() == Swept(old(Contents()), timeout, reading)
      ensures alive == SortedKeys(Contents().Keys)
    {
      hide Remaining, Swept, SortedKeys, SortStrings, ListsExactly;
      ghost var first, was := servers, Contents();
      var todo := servers.Keys;
      alive := [];
      RemainingAll(first, reading);
      assert ListsExactly(alive, {}) && servers.Keys - todo == {} by {
        ListsNothing();
      }
      while todo != {}
        invariant todo <= first.Keys
        invariant servers == Remaining(first, todo, reading)
        invariant ListsExactly(alive, servers.Keys - todo)
        decreases |todo|
      {
        var addr :| addr in todo;
        RemainingStep(first, todo, addr, reading);
        var item := servers[addr];
        if timeout == 0 || item.start + timeout > reading(addr) {
          ListsOneMore(alive, servers.Keys - todo, addr);
          assert servers.Keys - (todo - {addr}) == servers.Keys - todo + {addr};
          alive := alive + [addr];
        } else {
          assert (servers - {addr}).Keys - (todo - {addr}) == servers.Keys - todo;
          servers := servers - {addr};
        }
        todo := todo - {addr};
      }
      RemainingIsSwept(first, was, reading);
      assert servers.Keys - {} == servers.Keys;
      SortedKeysUnique(alive, servers.Keys);
      alive := SortStrings(alive);
    }

    /** The table while the addresses in todo are still to be visited. */
    ghost function Remaining(first: map<string, ServerItem>, todo: set<string>, reading: string -> Time)
      : map<string, ServerItem>
      reads first.Values
    {
      map a | a in first && (a in todo || Alive(timeout, first[a].start, reading(a))) :: first[a]
    }

    lemma RemainingAll(first: map<string, ServerItem>, reading: string -> Time)
      ensures Remaining(first, first.Keys, reading) == first
    {
    }

    lemma RemainingStep(first: map<string, ServerItem>, todo: set<string>, addr: string, reading: string -> Time)
      requires todo <= first.Keys && addr in todo
      ensures var r := Remaining(first, todo, reading);
              && addr in r && r[addr] == first[addr]
              && Remaining(first, todo - {addr}, reading) ==
                 if Alive(timeout, first[addr].start, reading(addr)) then r else r - {addr}
    {
    }

    lemma RemainingIsSwept(first: map<string, ServerItem>, was: Servers, reading: string -> Time)
      requires servers == Remaining(first, {}, reading) && was == map a | a in first :: first[a].start
      ensures Contents().Keys == servers.Keys && servers.Values <= first.Values
      ensures forall a :: a in servers ==> a in first && servers[a] == first[a]
      ensures Contents() == Swept(was, timeout, reading)
    {
      assert Contents().Keys == servers.Keys;
    }

    /** A heartbeat request; one without an address is refused. */
    method Post(addr: string, now: Time) returns (ok: bool)
      requires Valid()
      modifies this, servers.Values
      ensures Valid() && fresh(servers.Values - old(servers.Values))
      ensures ok == (addr != "")
      ensures Contents() == if ok then old(Contents())[addr := now] else old(Contents())
    {
      if addr == "" {
        return false;
      }
      PutServer(addr, now);
      ok := true;
    }

    /** The header sent in answer to a GET. */
    method Get(reading: string -> Time) returns (header: string)
      requires Valid()
      modifies `servers
      ensures Valid() && servers.Values <= old(servers.Values)
      ensures Contents() == Swept(old(Contents()), timeout, reading)
      ensures header == ServerList.Join(SortedKeys(Contents().Keys))
    {
      var alive := AliveServers(reading);
      header := ServerList.Join(alive);
    }
  }

  // ---------------------------------------------------------------- runs

  datatype Op =
    | Put(addr: string, at: Time)
    | List(from: Time, to: Time, reading: string -> Time)

  /** The clock never goes back: every reading lies between the end of the previous operation and the
      end of this one. */
  ghost predicate ClockedOp(clock: Time, op: Op) {
    match op
    case Put(_, at) => clock <= at
    case List(from, to, reading) => clock <= from && forall a :: from <= reading(a) <= to
  }

  function EndOf(op: Op): Time {
    match op
    case Put(_, at) => at
    case List(_, to, _) => to
  }

  function EndTime(clock: Time, ops: seq<Op>): Time {
    if ops == [] then clock else EndOf(ops[|ops| - 1])
  }

  ghost predicate Clocked(clock: Time, ops: seq<Op>)
    decreases |ops|
  {
    ops == [] ||
    var n := |ops| - 1;
    Clocked(clock, ops[..n]) && ClockedOp(EndTime(clock, ops[..n]), ops[n])
  }

  ghost function Step(timeout: Time, servers: Servers, op: Op): Servers {
    match op
    case Put(addr, at) => if addr == "" then servers else servers[addr := at]
    case List(_, _, reading) => Swept(servers, timeout, reading)
  }

  ghost function Run(timeout: Time, ops: seq<Op>): Servers
    decreases |ops|
  {
    if ops == [] then map[]
    else
      var n := |ops| - 1;
      Step(timeout, Run(timeout, ops[..n]), ops[n])
  }

  /** The latest heartbeat of an address in a history, whatever was listed or deleted in between. */
  function LastPut(ops: seq<Op>, addr: string): Option<Time> {
    if ops == [] then None
    else
      var op := ops[|ops| - 1];
      if op.Put? && op.addr == addr && addr != "" then Some(op.at) else LastPut(ops[..|ops| - 1], addr)
  }

  /** The servers a history calls alive at the given readings; nothing is ever deleted here. */
  ghost function AliveInHistory(ops: seq<Op>, timeout: Time, reading: string -> Time): Servers {
    map a | a in Addresses(ops) && LastPut(ops, a).Some? && Alive(timeout, LastPut(ops, a).value, reading(a))
      :: LastPut(ops, a).value
  }

  ghost function Addresses(ops: seq<Op>): set<string> {
    set k | 0 <= k < |ops| && ops[k].Put? :: ops[k].addr
  }

  /** The table holds last heartbeats only, and lacks only servers that are dead for good. */
  ghost predicate Agrees(ops: seq<Op>, timeout: Time, servers: Servers, clock: Time) {
    && (forall a :: a in servers ==> LastPut(ops, a) == Some(servers[a]))
    && (forall a :: LastPut(ops, a).Some? && a !in servers ==>
                      timeout != 0 && LastPut(ops, a).value + timeout <= clock)
  }

  lemma {:induction false} RunAgrees(clock: Time, timeout: Time, ops: seq<Op>)
    requires Clocked(clock, ops)
    ensures Agrees(ops, timeout, Run(timeout, ops), EndTime(clock, ops))
    decreases |ops|
  {
    if ops != [] {
      var n := |ops| - 1;
      RunAgrees(clock, timeout, ops[..n]);
      EndsInOrder(EndTime(clock, ops[..n]), ops[n]);
    }
  }

  lemma {:induction false} LastPutIsAddress(ops: seq<Op>, addr: string)
    requires LastPut(ops, addr).Some?
    ensures addr in Addresses(ops) && addr != ""
  {
    var n := |ops| - 1;
    if ops[n].Put? && ops[n].addr == addr && addr != "" {
    } else {
      LastPutIsAddress(ops[..n], addr);
    }
  }

  /** A listing taken after any history shows exactly the servers whose last heartbeat is recent
      enough, in order, and leaves exactly those in the table: deleting lazily loses nothing. */
  lemma ListingEqualsHistory(clock: Time, timeout: Time, ops: seq<Op>, listing: Op)
    requires listing.List? && Clocked(clock, ops) && ClockedOp(EndTime(clock, ops), listing)
    ensures Step(timeout, Run(timeout, ops), listing) == AliveInHistory(ops, timeout, listing.reading)
  {
    var servers := Run(timeout, ops);
    RunAgrees(clock, timeout, ops);
    forall a | LastPut(ops, a).Some? ensures a in Addresses(ops) {
      LastPutIsAddress(ops, a);
    }
  }

  lemma {:induction false} LastPutIsLatest(clock: Time, ops: seq<Op>, k: nat)
    requires Clocked(clock, ops) && k < |ops| && ops[k].Put? && ops[k].addr != ""
    ensures LastPut(ops, ops[k].addr).Some? && ops[k].at <= LastPut(ops, ops[k].addr).value
    ensures LastPut(ops, ops[k].addr).value <= EndTime(clock, ops)
  {
    var n := |ops| - 1;
    if k < n {
      LastPutIsLatest(clock, ops[..n], k);
      EndsInOrder(EndTime(clock, ops[..n]), ops[n]);
    }
  }

  lemma EndsInOrder(clock: Time, op: Op)
    requires ClockedOp(clock, op)
    ensures clock <= EndOf(op)
  {
    if op.List? {
      assert op.from <= op.reading("") <= op.to;
    }
  }

  // ---------------------------------------------------------------- the heartbeat loop

  /** The period of the ticker that Heartbeat starts. */
  function TickerPeriod(duration: Time): Time {
    if duration == 0 then HEARTBEAT_PERIOD else duration
  }

  /** The heartbeats of one server: the first is sent at start, then one at every tick, and each reaches
      the registry at most delay later. beats are their positions in the history; none is missing up
      to its end. */
  ghost predicate Beating(clock: Time, ops: seq<Op>, addr: string, beats: seq<nat>,
                          start: Time, period: Time, delay: Time) {
    && beats != [] && addr != ""
    && (forall j :: 0 <= j < |beats| ==> beats[j] < |ops| && Beat(ops[beats[j]], addr, start + j * period, delay))
    && EndTime(clock, ops) <= start + |beats| * period + delay
  }

  /** op is a heartbeat of addr sent at tick. */
  predicate Beat(op: Op, addr: string, tick: Time, delay: Time) {
    op.Put? && op.addr == addr && tick <= op.at <= tick + delay
  }

  /** The clock of a history at its i-th operation. */
  lemma {:induction false} EndsGrow(clock: Time, ops: seq<Op>, i: nat, k: nat)
    requires Clocked(clock, ops) && i <= k < |ops|
    ensures EndOf(ops[i]) <= EndOf(ops[k]) <= EndTime(clock, ops)
  {
    var n := |ops| - 1;
    if n > 0 {
      EndsInOrder(EndTime(clock, ops[..n]), ops[n]);
    }
    if k < n {
      EndsGrow(clock, ops[..n], i, k);
    } else if i < n {
      EndsGrow(clock, ops[..n], i, n - 1);
    }
  }

  lemma {:induction false} ClockedPrefix(clock: Time, ops: seq<Op>, i: nat)
    requires Clocked(clock, ops) && i < |ops|
    ensures Clocked(clock, ops[..i]) && ClockedOp(EndTime(clock, ops[..i]), ops[i])
  {
    var n := |ops| - 1;
    if i < n {
      ClockedPrefix(clock, ops[..n], i);
      assert ops[..n][..i] == ops[..i];
    }
  }

  /** The last heartbeat before position i. */
  lemma LastBeatBefore(beats: seq<nat>, i: nat) returns (j: nat)
    requires beats != [] && beats[0] < i
    ensures j < |beats| && beats[j] < i && (j + 1 < |beats| ==> beats[j + 1] >= i)
  {
    j := 0;
    while j + 1 < |beats| && beats[j + 1] < i
      invariant j < |beats| && beats[j] < i
    {
      j := j + 1;
    }
  }

  /** At every listing the last heartbeat is at most a period and a delay old. */
  lemma BeatIsRecent(clock: Time, ops: seq<Op>, addr: string, beats: seq<nat>,
                     start: Time, period: Time, delay: Time, i: nat)
    returns (k: nat)
    requires Clocked(clock, ops) && Beating(clock, ops, addr, beats, start, period, delay)
    requires beats[0] < i < |ops| && ops[i].List?
    ensures k < i && ops[k].Put? && ops[k].addr == addr && ops[i].reading(addr) <= ops[k].at + period + delay
  {
    var j := LastBeatBefore(beats, i);
    k := beats[j];
    ClockedPrefix(clock, ops, i);
    assert Beat(ops[k], addr, start + j * period, delay);
    assert (j + 1) * period == j * period + period;
    if j + 1 < |beats| {
      assert Beat(ops[beats[j + 1]], addr, start + (j + 1) * period, delay);
      EndsGrow(clock, ops, i, beats[j + 1]);
    } else {
      EndsGrow(clock, ops, i, i);
    }
  }

  /** A server that runs Heartbeat is in every listing from its first heartbeat on, as long as period and
      delay together stay below the registry's timeout, or there is none. */
  lemma HeartbeatKeepsListed(clock: Time, timeout: Time, ops: seq<Op>, addr: string, beats: seq<nat>,
                             start: Time, duration: Time, delay: Time, i: nat)
    requires Clocked(clock, ops) && (timeout == 0 || TickerPeriod(duration) + delay < timeout)
    requires Beating(clock, ops, addr, beats, start, TickerPeriod(duration), delay)
    requires beats[0] < i < |ops| && ops[i].List?
    ensures addr in Step(timeout, Run(timeout, ops[..i]), ops[i])
  {
    var k := BeatIsRecent(clock, ops, addr, beats, start, TickerPeriod(duration), delay, i);
    ClockedPrefix(clock, ops, i);
    ListingEqualsHistory(clock, timeout, ops[..i], ops[i]);
    LastPutIsLatest(clock, ops[..i], k);
  }

  /** Position i of the history is a listing after the first heartbeat of a beating server. */
  ghost predicate ListedAt(clock: Time, ops: seq<Op>, addr: string, beats: seq<nat>,
                           start: Time, duration: Time, delay: Time, i: nat) {
    && Clocked(clock, ops) && Beating(clock, ops, addr, beats, start, TickerPeriod(duration), delay)
    && beats[0] < i < |ops| && ops[i].List?
  }

  /** A server with this ticker whose heartbeats take at most delay is in every listing. */
  ghost predicate AlwaysListed(timeout: Time, duration: Time, delay: Time) {
    forall clock: Time, ops: seq<Op>, addr: string, beats: seq<nat>, start: Time, i: nat ::
      ListedAt(clock, ops, addr, beats, start, duration, delay, i) ==>
        addr in Step(timeout, Run(timeout, ops[..i]), ops[i])
  }

  /** A listing just before the second heartbeat arrives, as late as the delay allows. */
  lemma LateListing(timeout: Time, duration: Time, delay: Time) returns (ops: seq<Op>)
    requires timeout > 0 && duration >= 0 && delay >= 0 && TickerPeriod(duration) + delay >= timeout
    ensures ListedAt(0, ops, "a", [0], 0, duration, delay, 1)
    ensures "a" !in Step(timeout, Run(timeout, ops[..1]), ops[1])
  {
    var t := TickerPeriod(duration) + delay;
    ops := [Put("a", 0), List(t, t, (x: string) => t)];
    assert ops[..1] == [Put("a", 0)] && ops[..1][..0] == [];
    assert Clocked(0, ops[..1]);
    assert Run(timeout, ops[..1]) == map["a" := 0];
  }

  /** Exactly when a server that keeps sending heartbeats is never missing from a listing. */
  lemma AlwaysListedIff(timeout: Time, duration: Time, delay: Time)
    requires timeout >= 0 && duration >= 0 && delay >= 0
    ensures AlwaysListed(timeout, duration, delay) <==>
              timeout == 0 || (if duration == 0 then DEFAULT_TIMEOUT - MINUTE else duration) + delay < timeout
  {
    hide Clocked, Beating, Step, Run;
    if timeout == 0 || TickerPeriod(duration) + delay < timeout {
      forall clock: Time, ops: seq<Op>, addr: string, beats: seq<nat>, start: Time, i: nat
        | ListedAt(clock, ops, addr, beats, start, duration, delay, i)
        ensures addr in Step(timeout, Run(timeout, ops[..i]), ops[i])
      {
        HeartbeatKeepsListed(clock, timeout, ops, addr, beats, start, duration, delay, i);
      }
    } else {
      var ops := LateListing(timeout, duration, delay);
    }
  }

  /** With the default period and timeout the heartbeats may take anything less than a minute, and no more. */
  lemma DefaultHeartbeatListedIff(delay: Time)
    requires delay >= 0
    ensures AlwaysListed(300_000_000_000, 0, delay) <==> delay < 60_000_000_000
  {
    AlwaysListedIff(DEFAULT_TIMEOUT, 0, delay);
  }
}

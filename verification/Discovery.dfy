/** Client-side choice of a server: a list, an index for round robin, and a random mode. */
module Discovery {
  import opened Common

  const RANDOM_SELECT := 0
  const ROUND_ROBIN_SELECT := 1

  /** Intn of the client's random source: some value below n. */
  type Draw = f: nat -> nat | forall n :: n > 0 ==> f(n) < n ghost witness (n: nat) => 0

  datatype Picked = Server(addr: string) | NoServers | UnsupportedMode | RefreshFailed

  datatype State = State(servers: seq<string>, index: nat)

  // ---------------------------------------------------------------- round robin

  /** Go's index % n, for an index that is never negative. */
  function Wrap(index: nat, n: nat): (r: nat)
    requires n > 0
    ensures r < n
  {
    index % n
  }

  /** The position a Get chooses, if it chooses one. */
  function Position(s: State, mode: int, draw: Draw): int
    requires s.servers != []
  {
    if mode == RANDOM_SELECT then draw(|s.servers|)
    else if mode == ROUND_ROBIN_SELECT then Wrap(s.index, |s.servers|)
    else -1
  }

  function PickFrom(s: State, mode: int, draw: Draw): Picked {
    if s.servers == [] then NoServers
    else
      var p := Position(s, mode, draw);
      if p < 0 then UnsupportedMode else Server(s.servers[p])
  }

  function AfterGet(s: State, mode: int): State {
    if s.servers != [] && mode == ROUND_ROBIN_SELECT
    then s.(index := Wrap(s.index + 1, |s.servers|))
    else s
  }

  datatype Op = Get(mode: int, draw: Draw) | Update(servers: seq<string>)

  function Next(s: State, op: Op): State {
    match op
    case Get(mode, _) => AfterGet(s, mode)
    case Update(servers) => s.(servers := servers)
  }

  /** State in which the k-th operation of a run finds the client. */
  function Before(s: State, ops: seq<Op>, k: nat): State
    requires k <= |ops|
  {
    if k == 0 then s else Next(Before(s, ops, k - 1), ops[k - 1])
  }

  predicate IsRoundRobin(op: Op) { op.Get? && op.mode == ROUND_ROBIN_SELECT }

  /** How many of the first k operations are round-robin Gets. */
  function RoundRobins(ops: seq<Op>, k: nat): nat
    requires k <= |ops|
  {
    if k == 0 then 0 else RoundRobins(ops, k - 1) + (if IsRoundRobin(ops[k - 1]) then 1 else 0)
  }

  /** How many of the first k operations are round-robin Gets that find the index at position p. */
  function TurnsAt(s: State, ops: seq<Op>, k: nat, p: nat): nat
    requires k <= |ops| && s.servers != []
    requires forall i :: 0 <= i < |ops| ==> ops[i].Get?
  {
    if k == 0 then 0
    else
      TurnsAt(s, ops, k - 1, p) +
      (if IsRoundRobin(ops[k - 1]) && Wrap(Before(s, ops, k - 1).index, |s.servers|) == p then 1 else 0)
  }

  lemma UniqueQuotient(n: nat, q: int, r: nat, q': int, r': nat)
    requires r < n && r' < n && q * n + r == q' * n + r'
    ensures q == q' && r == r'
  {
    assert q' * n - q * n == (q' - q) * n && q * n - q' * n == (q - q') * n;
    if q < q' {
      ProductAtLeast(q' - q, n);
    } else if q > q' {
      ProductAtLeast(q - q', n);
    }
  }

  lemma {:induction false} ProductAtLeast(k: nat, n: nat)
    requires k > 0
    ensures k * n >= n
  {
    if k > 1 {
      ProductAtLeast(k - 1, n);
      assert k * n == (k - 1) * n + n;
    }
  }

  /** Counting one further, a division either keeps its quotient or starts a new round. */
  lemma DivModSuccessor(m: nat, n: nat)
    requires n > 0
    ensures m % n + 1 < n ==> (m + 1) / n == m / n && (m + 1) % n == m % n + 1
    ensures m % n + 1 == n ==> (m + 1) / n == m / n + 1 && (m + 1) % n == 0
  {
    var q, r, q', r' := m / n, m % n, (m + 1) / n, (m + 1) % n;
    assert q * n + r + 1 == q' * n + r';
    if r + 1 < n {
      UniqueQuotient(n, q, r + 1, q', r');
    } else {
      assert (q + 1) * n == q * n + n;
      UniqueQuotient(n, q + 1, 0, q', r');
    }
  }

  /** Steps from position x forward to position p on a circle of n. */
  function Distance(x: nat, p: nat, n: nat): (d: nat)
    requires x < n && p < n
    ensures d < n
  {
    if p >= x then p - x else p + n - x
  }

  ghost predicate OnlyGets(ops: seq<Op>) {
    forall i :: 0 <= i < |ops| ==> ops[i].Get?
  }

  /** How often position p comes up in m turns from position x on: once a full round, and once more if
      it is less than m mod n ahead. */
  function Share(x: nat, p: nat, n: nat, m: nat): nat
    requires x < n && p < n
  {
    m / n + (if Distance(x, p, n) < m % n then 1 else 0)
  }

  /** The index is m turns ahead of position x. */
  predicate Ahead(x: nat, n: nat, index: nat, m: nat)
    requires x < n
  {
    Distance(x, Wrap(index, n), n) == m % n
  }

  lemma FirstTurn(p: nat, n: nat, index: nat)
    requires p < n
    ensures Ahead(Wrap(index, n), n, index, 0) && Share(Wrap(index, n), p, n, 0) == 0
  {
    SmallDivMod(n);
  }

  lemma NextTurn(x: nat, p: nat, n: nat, index: nat, m: nat)
    requires x < n && p < n && Ahead(x, n, index, m)
    ensures Ahead(x, n, Wrap(index + 1, n), m + 1)
    ensures Share(x, p, n, m + 1) == Share(x, p, n, m) + (if Wrap(index, n) == p then 1 else 0)
  {
    DivModSuccessor(m, n);
    DivModSuccessor(index, n);
    ReducedTwice(index + 1, n);
  }

  /** A run one operation longer, a Get. */
  lemma OneMore(s: State, ops: seq<Op>, k: nat, p: nat)
    requires OnlyGets(ops) && 0 < k <= |ops| && s.servers != [] && Before(s, ops, k - 1).servers == s.servers
    ensures var before, turn := Before(s, ops, k - 1), IsRoundRobin(ops[k - 1]);
            && Before(s, ops, k) == (if turn then before.(index := Wrap(before.index + 1, |s.servers|)) else before)
            && RoundRobins(ops, k) == RoundRobins(ops, k - 1) + (if turn then 1 else 0)
            && TurnsAt(s, ops, k, p) == TurnsAt(s, ops, k - 1, p)
               + (if turn && Wrap(before.index, |s.servers|) == p then 1 else 0)
  {
  }

  lemma NoneYet(s: State, ops: seq<Op>, p: nat)
    requires OnlyGets(ops) && s.servers != []
    ensures Before(s, ops, 0) == s && RoundRobins(ops, 0) == 0 && TurnsAt(s, ops, 0, p) == 0
  {
  }

  /** The index has been at every position exactly its share of the round-robin Gets. */
  lemma {:induction false} TurnsExactly(s: State, ops: seq<Op>, k: nat, p: nat)
    requires OnlyGets(ops) && k <= |ops| && p < |s.servers|
    ensures var n, m, x := |s.servers|, RoundRobins(ops, k), Wrap(s.index, |s.servers|);
            && Before(s, ops, k).servers == s.servers
            && Ahead(x, n, Before(s, ops, k).index, m)
            && TurnsAt(s, ops, k, p) == Share(x, p, n, m)
  {
    hide Ahead, Share, Wrap, Before, RoundRobins, TurnsAt;
    var n := |s.servers|;
    if k == 0 {
      NoneYet(s, ops, p);
      FirstTurn(p, n, s.index);
    } else {
      TurnsExactly(s, ops, k - 1, p);
      OneMore(s, ops, k, p);
      if IsRoundRobin(ops[k - 1]) {
        NextTurn(Wrap(s.index, n), p, n, Before(s, ops, k - 1).index, RoundRobins(ops, k - 1));
      }
    }
  }

  lemma SmallDivMod(n: nat)
    requires n > 0
    ensures 0 / n == 0 && 0 % n == 0
  {
  }

  lemma ReducedTwice(a: nat, n: nat)
    requires n > 0
    ensures a % n % n == a % n
  {
    var r := a % n;
    UniqueQuotient(n, r / n, r % n, 0, r);
  }

  // ---------------------------------------------------------------- what is answered

  predicate Answers(s: State, op: Op, addr: string) {
    op.Get? && PickFrom(s, op.mode, op.draw) == Server(addr)
  }

  /** How many of the first k operations are round-robin Gets that answer addr. */
  function Answered(s: State, ops: seq<Op>, k: nat, addr: string): nat
    requires k <= |ops|
  {
    if k == 0 then 0
    else
      Answered(s, ops, k - 1, addr) +
      (if IsRoundRobin(ops[k - 1]) && Answers(Before(s, ops, k - 1), ops[k - 1], addr) then 1 else 0)
  }

  /** The turns of the first j positions, as far as they hold addr. */
  function TurnsOf(s: State, ops: seq<Op>, k: nat, addr: string, j: nat): nat
    requires k <= |ops| && s.servers != [] && j <= |s.servers|
    requires forall i :: 0 <= i < |ops| ==> ops[i].Get?
  {
    if j == 0 then 0
    else TurnsOf(s, ops, k, addr, j - 1) + (if s.servers[j - 1] == addr then TurnsAt(s, ops, k, j - 1) else 0)
  }

  lemma {:induction false} NoTurnsOf(s: State, ops: seq<Op>, addr: string, j: nat)
    requires OnlyGets(ops) && s.servers != [] && j <= |s.servers|
    ensures TurnsOf(s, ops, 0, addr, j) == 0
  {
    if j > 0 {
      NoTurnsOf(s, ops, addr, j - 1);
    }
  }

  lemma {:induction false} TurnsOfOneMore(s: State, ops: seq<Op>, k: nat, addr: string, j: nat)
    requires OnlyGets(ops) && 0 < k <= |ops| && s.servers != [] && j <= |s.servers|
    requires Before(s, ops, k - 1).servers == s.servers
    ensures var q := Wrap(Before(s, ops, k - 1).index, |s.servers|);
            TurnsOf(s, ops, k, addr, j) == TurnsOf(s, ops, k - 1, addr, j)
              + (if IsRoundRobin(ops[k - 1]) && q < j && s.servers[q] == addr then 1 else 0)
  {
    hide Before, RoundRobins, TurnsAt, Wrap;
    if j > 0 {
      TurnsOfOneMore(s, ops, k, addr, j - 1);
      OneMore(s, ops, k, j - 1);
    }
  }

  /** A round-robin Get answers the server at the index. */
  lemma AnswersAtIndex(s: State, op: Op, addr: string)
    requires IsRoundRobin(op) && s.servers != []
    ensures Answers(s, op, addr) <==> s.servers[Wrap(s.index, |s.servers|)] == addr
  {
  }

  /** How often an address has been answered is exactly the share of the positions that hold it. */
  lemma {:induction false} AnsweredExactly(s: State, ops: seq<Op>, k: nat, addr: string)
    requires OnlyGets(ops) && k <= |ops| && s.servers != []
    ensures Before(s, ops, k).servers == s.servers
    ensures Answered(s, ops, k, addr) == TurnsOf(s, ops, k, addr, |s.servers|)
  {
    hide TurnsOf, Wrap, Answers;
    if k == 0 {
      NoTurnsOf(s, ops, addr, |s.servers|);
    } else {
      AnsweredExactly(s, ops, k - 1, addr);
      OneMore(s, ops, k, 0);
      TurnsOfOneMore(s, ops, k, addr, |s.servers|);
      if IsRoundRobin(ops[k - 1]) {
        AnswersAtIndex(Before(s, ops, k - 1), ops[k - 1], addr);
      }
    }
  }

  lemma {:induction false} TurnsOfOnly(s: State, ops: seq<Op>, k: nat, p: nat, j: nat)
    requires OnlyGets(ops) && k <= |ops| && NoDuplicates(s.servers) && p < |s.servers| && j <= |s.servers|
    ensures TurnsOf(s, ops, k, s.servers[p], j) == if p < j then TurnsAt(s, ops, k, p) else 0
  {
    hide TurnsAt;
    if j > 0 {
      TurnsOfOnly(s, ops, k, p, j - 1);
      assert j - 1 != p ==> s.servers[j - 1] != s.servers[p];
    }
  }

  /** In a list without duplicates every server has been answered exactly its share. */
  lemma AnsweredShare(s: State, ops: seq<Op>, k: nat, p: nat)
    requires OnlyGets(ops) && k <= |ops| && NoDuplicates(s.servers) && p < |s.servers|
    ensures Answered(s, ops, k, s.servers[p]) ==
            Share(Wrap(s.index, |s.servers|), p, |s.servers|, RoundRobins(ops, k))
  {
    hide Share, Wrap, TurnsOf, TurnsAt, Answered;
    AnsweredExactly(s, ops, k, s.servers[p]);
    TurnsOfOnly(s, ops, k, p, |s.servers|);
    TurnsExactly(s, ops, k, p);
  }

  /** Round robin is fair over any run of Gets on an unchanged list, whatever other modes are mixed in:
      of m round-robin Gets each server answers m/n, rounded down or up. */
  lemma RoundRobinIsFair(s: State, ops: seq<Op>, p: nat)
    requires OnlyGets(ops) && NoDuplicates(s.servers) && p < |s.servers|
    ensures var n, m, answered := |s.servers|, RoundRobins(ops, |ops|), Answered(s, ops, |ops|, s.servers[p]);
            && m / n <= answered <= m / n + 1
            && (m % n == 0 ==> answered == m / n)
  {
    hide Answered;
    AnsweredShare(s, ops, |ops|, p);
  }

  /** The list given by the latest Update before operation k, or the initial one. */
  ghost predicate LatestList(s: State, ops: seq<Op>, k: nat, list: seq<string>)
    requires k <= |ops|
  {
    || (exists j :: 0 <= j < k && ops[j] == Update(list) && forall i :: j < i < k ==> ops[i].Get?)
    || (list == s.servers && forall i :: 0 <= i < k ==> ops[i].Get?)
  }

  lemma {:induction false} ListIsLatest(s: State, ops: seq<Op>, k: nat)
    requires k <= |ops|
    ensures LatestList(s, ops, k, Before(s, ops, k).servers)
  {
    if k > 0 {
      ListIsLatest(s, ops, k - 1);
      var past := Before(s, ops, k - 1);
      if ops[k - 1].Get? {
        assert Before(s, ops, k).servers == past.servers;
        if j :| 0 <= j < k - 1 && ops[j] == Update(past.servers) && forall i :: j < i < k - 1 ==> ops[i].Get? {
          assert forall i :: j < i < k ==> ops[i].Get?;
        }
      } else {
        assert ops[k - 1] == Update(Before(s, ops, k).servers);
      }
    }
  }

  /** Whatever Gets and Updates came before, a Get answers a server of the latest list, or finds it empty. */
  lemma AnswersFromLatestList(s: State, ops: seq<Op>, k: nat, list: seq<string>)
    requires k < |ops| && ops[k].Get? && ops[k].mode in {RANDOM_SELECT, ROUND_ROBIN_SELECT}
    requires LatestList(s, ops, k, list)
    ensures var answer := PickFrom(Before(s, ops, k), ops[k].mode, ops[k].draw);
            if list == [] then answer == NoServers else answer.Server? && answer.addr in list
  {
    ListIsLatest(s, ops, k);
    LatestIsOne(s, ops, k, list, Before(s, ops, k).servers);
  }

  lemma LatestIsOne(s: State, ops: seq<Op>, k: nat, a: seq<string>, b: seq<string>)
    requires k <= |ops| && LatestList(s, ops, k, a) && LatestList(s, ops, k, b)
    ensures a == b
  {
  }

  /** The random mode can answer every server and nothing else, and leaves the turns alone. */
  lemma RandomReachesEveryServer(s: State, addr: string)
    requires s.servers != []
    ensures addr in s.servers <==> exists draw: Draw :: PickFrom(s, RANDOM_SELECT, draw) == Server(addr)
    ensures AfterGet(s, RANDOM_SELECT) == s
  {
    if addr in s.servers {
      var p :| 0 <= p < |s.servers| && s.servers[p] == addr;
      var f := (n: nat) => if p < n then p else 0;
      var draw: Draw := f;
      assert draw(|s.servers|) == p;
      assert PickFrom(s, RANDOM_SELECT, draw) == Server(addr);
    }
  }

  /** The errors: no servers at all, or a mode that is neither of the two. */
  lemma PickFailsIff(s: State, mode: int, draw: Draw)
    ensures PickFrom(s, mode, draw) == NoServers <==> s.servers == []
    ensures PickFrom(s, mode, draw) == UnsupportedMode <==> s.servers != [] && mode != 0 && mode != 1
  {
  }

  // ---------------------------------------------------------------- the client object

  class MultiServersDiscovery {
    var servers: seq<string>
    var index: nat

    function Contents(): State
      reads this
    {
      State(servers, index)
    }

    /** The index starts at a random place below MaxInt32 - 1. */
    constructor (servers: seq<string>, draw: Draw)
      ensures Contents() == State(servers, draw(0x7FFF_FFFE))
    {
      this.servers := servers;
      index := draw(0x7FFF_FFFE);
    }

    method Update(servers: seq<string>)
      modifies this
      ensures Contents() == State(servers, old(index))
    {
      this.servers := servers;
    }

    method Get(mode: int, draw: Draw) returns (r: Picked)
      modifies this
      ensures r == PickFrom(old(Contents()), mode, draw)
      ensures Contents() == AfterGet(old(Contents()), mode)
      ensures r.Server? ==> r.addr in servers
    {
      var n := |servers|;
      if n == 0 {
        return NoServers;
      }
      if mode == RANDOM_SELECT {
        r := Server(servers[draw(n)]);
      } else if mode == ROUND_ROBIN_SELECT {
        r := Server(servers[index % n]);
        index := (index + 1) % n;
      } else {
        r := UnsupportedMode;
      }
    }
  }
}

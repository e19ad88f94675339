/** Duplicate suppression for one group, as a machine whose atomic steps are the lock regions of Do,
    the return of fn, wg.Done and the wake-up of a waiter. */
module Singleflight {
  import opened Common

  type Tid = nat

  /** result is what c.Val and c.err hold, None while still unset; done is the WaitGroup at zero. */
  datatype Call<V> = Call(key: string, leader: Tid, result: Option<V>, done: bool)

  /** Where a goroutine stands inside Do. Returned records what was read from the call. */
  datatype Pc<V> =
    | Outside
    | Waiting(call: nat)
    | InFn(call: nat)
    | Assigned(call: nat)
    | Signalled(call: nat)
    | Returned(call: nat, result: Option<V>)

  datatype State<V> = State(m: map<string, nat>, calls: seq<Call<V>>, pcs: map<Tid, Pc<V>>) {
    function At(t: Tid): Pc<V> {
      if t in pcs then pcs[t] else Outside
    }
  }

  datatype Action<V> =
    | Enter(t: Tid, key: string)   // lock, look up, join or register, unlock
    | Assign(t: Tid, value: V)     // fn returns and c.Val, c.err are set
    | Signal(t: Tid)               // c.wg.Done()
    | Delete(t: Tid)               // lock, delete(g.m, key), unlock, read the result
    | Wake(t: Tid)                 // c.wg.Wait() returns, read the result
    | Leave(t: Tid)                // Do returns to its caller

  function Init<V>(): State<V> {
    State(map[], [], map[])
  }

  predicate Leading<V>(pc: Pc<V>) {
    pc.InFn? || pc.Assigned? || pc.Signalled?
  }

  function DoEnter<V>(s: State<V>, t: Tid, key: string): State<V> {
    if key in s.m then
      s.(pcs := s.pcs[t := Waiting(s.m[key])])
    else
      State(s.m[key := |s.calls|], s.calls + [Call(key, t, None, false)], s.pcs[t := InFn(|s.calls|)])
  }

  predicate Enabled<V>(s: State<V>, a: Action<V>) {
    match a
    case Enter(t, _) => s.At(t).Outside?
    case Assign(t, _) => s.At(t).InFn? && s.At(t).call < |s.calls|
    case Signal(t) => s.At(t).Assigned? && s.At(t).call < |s.calls|
    case Delete(t) => s.At(t).Signalled? && s.At(t).call < |s.calls|
    case Wake(t) => s.At(t).Waiting? && s.At(t).call < |s.calls| && s.calls[s.At(t).call].done
    case Leave(t) => s.At(t).Returned?
  }

  function Do<V>(s: State<V>, a: Action<V>): State<V>
    requires Enabled(s, a)
  {
    match a
    case Enter(t, key) => DoEnter(s, t, key)
    case Assign(t, v) =>
      var c := s.At(t).call;
      s.(calls := s.calls[c := s.calls[c].(result := Some(v))], pcs := s.pcs[t := Assigned(c)])
    case Signal(t) =>
      var c := s.At(t).call;
      s.(calls := s.calls[c := s.calls[c].(done := true)], pcs := s.pcs[t := Signalled(c)])
    case Delete(t) =>
      var c := s.At(t).call;
      s.(m := s.m - {s.calls[c].key}, pcs := s.pcs[t := Returned(c, s.calls[c].result)])
    case Wake(t) =>
      var c := s.At(t).call;
      s.(pcs := s.pcs[t := Returned(c, s.calls[c].result)])
    case Leave(t) => s.(pcs := s.pcs - {t})
  }

  // ---------------------------------------------------------------- invariant

  /** What holds of one goroutine. */
  ghost predicate PcOk<V>(s: State<V>, t: Tid) {
    var pc := s.At(t);
    pc.Outside? || (
      && pc.call < |s.calls|
      && var c := s.calls[pc.call];
         && (Leading(pc) ==> c.leader == t && c.key in s.m && s.m[c.key] == pc.call)
         && (pc.InFn? ==> c.result.None? && !c.done)
         && (pc.Assigned? ==> c.result.Some? && !c.done)
         && (pc.Signalled? ==> c.result.Some? && c.done)
         && (pc.Returned? ==> c.result.Some? && c.done && pc.result == c.result))
  }

  /** A call that is not done yet is still being led. */
  ghost predicate CallOk<V>(s: State<V>, c: nat)
    requires c < |s.calls|
  {
    && (s.calls[c].done ==> s.calls[c].result.Some?)
    && (!s.calls[c].done ==> Leading(s.At(s.calls[c].leader)) && s.At(s.calls[c].leader).call == c)
  }

  /** A map entry belongs to a leader that has not deleted it yet. */
  ghost predicate EntryOk<V>(s: State<V>, key: string)
    requires key in s.m
  {
    && s.m[key] < |s.calls|
    && var c := s.calls[s.m[key]];
       c.key == key && Leading(s.At(c.leader)) && s.At(c.leader).call == s.m[key]
  }

  ghost predicate Inv<V(!new)>(s: State<V>) {
    && (forall t: Tid :: PcOk(s, t))
    && (forall c: nat :: c < |s.calls| ==> CallOk(s, c))
    && (forall key :: key in s.m ==> EntryOk(s, key))
  }

  lemma PcStep<V(!new)>(s: State<V>, a: Action<V>, t: Tid)
    requires Inv(s) && Enabled(s, a)
    ensures PcOk(Do(s, a), t)
  {
    assert PcOk(s, t) && PcOk(s, a.t);
    if t != a.t {
      assert Do(s, a).At(t) == s.At(t);
    }
    match a
    case Enter(_, key) =>
      if key in s.m {
        assert EntryOk(s, key);
      }
    case Assign(_, _) =>
    case Signal(_) =>
    case Delete(_) =>
    case Wake(_) =>
      assert CallOk(s, s.At(a.t).call);
    case Leave(_) =>
  }

  lemma CallStep<V(!new)>(s: State<V>, a: Action<V>, c: nat)
    requires Inv(s) && Enabled(s, a) && c < |Do(s, a).calls|
    ensures CallOk(Do(s, a), c)
  {
    assert PcOk(s, a.t);
    if c < |s.calls| {
      assert CallOk(s, c);
      assert PcOk(s, s.calls[c].leader);
    }
  }

  lemma EntryStep<V(!new)>(s: State<V>, a: Action<V>, key: string)
    requires Inv(s) && Enabled(s, a) && key in Do(s, a).m
    ensures EntryOk(Do(s, a), key)
  {
    assert PcOk(s, a.t);
    if key in s.m {
      assert EntryOk(s, key);
      assert PcOk(s, s.calls[s.m[key]].leader);
    }
  }

  lemma InvStep<V(!new)>(s: State<V>, a: Action<V>)
    requires Inv(s) && Enabled(s, a)
    ensures Inv(Do(s, a))
  {
    hide PcOk, CallOk, EntryOk, Do, Enabled;
    forall t: Tid ensures PcOk(Do(s, a), t) {
      PcStep(s, a, t);
    }
    forall c: nat | c < |Do(s, a).calls| ensures CallOk(Do(s, a), c) {
      CallStep(s, a, c);
    }
    forall key | key in Do(s, a).m ensures EntryOk(Do(s, a), key) {
      EntryStep(s, a, key);
    }
  }

  // ---------------------------------------------------------------- runs

  datatype Run<V> = Run(states: seq<State<V>>, actions: seq<Action<V>>)

  /** An interleaving from an unused group: action i leads from state i to state i+1. */
  ghost predicate IsRun<V>(r: Run<V>) {
    && |r.states| == |r.actions| + 1
    && r.states[0] == Init()
    && (forall i :: 0 <= i < |r.actions| ==> Enabled(r.states[i], r.actions[i]) && r.states[i + 1] == Do(r.states[i], r.actions[i]))
  }

  lemma {:induction false} InvInEveryRun<V(!new)>(r: Run<V>, i: nat)
    requires IsRun(r) && i < |r.states|
    ensures Inv(r.states[i])
  {
    if i > 0 {
      InvInEveryRun(r, i - 1);
      InvStep(r.states[i - 1], r.actions[i - 1]);
    }
  }

  // ---------------------------------------------------------------- safety

  /** t leads the flight for key: it has registered and not yet deleted. */
  predicate Leads<V>(s: State<V>, t: Tid, key: string) {
    Leading(s.At(t)) && s.At(t).call < |s.calls| && s.calls[s.At(t).call].key == key
  }

  predicate RunsFn<V>(s: State<V>, t: Tid, key: string) {
    s.At(t).InFn? && Leads(s, t, key)
  }

  /** Nobody is between the registration and the deletion of a flight. */
  ghost predicate NoLeader<V>(s: State<V>) {
    forall t: Tid :: !Leading(s.At(t))
  }

  ghost predicate Safe<V(!new)>(s: State<V>) {
    // a key is in the map iff some goroutine leads it, and at most one does
    && (forall key :: key in s.m <==> exists t: Tid :: Leads(s, t, key))
    && (forall key, t: Tid, u: Tid :: Leads(s, t, key) && Leads(s, u, key) ==> t == u)
    // hence executions of fn for one key never overlap
    && (forall key, t: Tid, u: Tid :: RunsFn(s, t, key) && RunsFn(s, u, key) ==> t == u)
    // a leader about to delete removes its own call
    && (forall t: Tid :: s.At(t).Signalled? ==>
          s.At(t).call < |s.calls| && var key := s.calls[s.At(t).call].key; key in s.m && s.m[key] == s.At(t).call)
    // whoever returns has read a result that was set and signalled
    && (forall t: Tid :: s.At(t).Returned? ==>
          s.At(t).call < |s.calls| && s.calls[s.At(t).call].done && s.At(t).result.Some?
          && s.At(t).result == s.calls[s.At(t).call].result)
    // without leaders the map is empty
    && (NoLeader(s) ==> s.m == map[])
  }

  lemma InvIsSafe<V(!new)>(s: State<V>)
    requires Inv(s)
    ensures Safe(s)
  {
    forall key ensures key in s.m <==> exists t: Tid :: Leads(s, t, key) {
      if key in s.m {
        assert EntryOk(s, key);
        assert Leads(s, s.calls[s.m[key]].leader, key);
      }
      if t: Tid :| Leads(s, t, key) {
        assert PcOk(s, t);
      }
    }
    forall key, t: Tid, u: Tid | Leads(s, t, key) && Leads(s, u, key) ensures t == u {
      assert PcOk(s, t) && PcOk(s, u);
    }
    forall t: Tid | s.At(t).Signalled? || s.At(t).Returned? ensures PcOk(s, t) {
    }
    assert NoLeader(s) ==> forall key :: key !in s.m;
  }

  lemma SafeInEveryRun<V(!new)>(r: Run<V>, i: nat)
    requires IsRun(r) && i < |r.states|
    ensures Safe(r.states[i])
  {
    InvInEveryRun(r, i);
    InvIsSafe(r.states[i]);
  }

  // ---------------------------------------------------------------- results

  /** At step n the leader of call c, running fn, assigned value. */
  ghost predicate FnReturned<V>(r: Run<V>, n: nat, c: nat, leader: Tid, value: V)
    requires |r.states| == |r.actions| + 1
  {
    n < |r.actions| && r.actions[n] == Assign(leader, value) && r.states[n].At(leader) == InFn(c)
  }

  /** Every result in a call was returned by the one fn its leader ran. */
  lemma {:induction false} ResultsComeFromFn<V(!new)>(r: Run<V>, i: nat, c: nat) returns (n: nat)
    requires IsRun(r) && i < |r.states|
    requires c < |r.states[i].calls| && r.states[i].calls[c].result.Some?
    ensures n < i && FnReturned(r, n, c, r.states[i].calls[c].leader, r.states[i].calls[c].result.value)
  {
    var s, a := r.states[i - 1], r.actions[i - 1];
    InvInEveryRun(r, i - 1);
    assert PcOk(s, a.t);
    if a.Assign? && s.At(a.t).call == c {
      n := i - 1;
    } else {
      n := ResultsComeFromFn(r, i - 1, c);
    }
  }

  /** fn runs at most once per call: a call is assigned at most once in a run. */
  lemma FnReturnsOnce<V(!new)>(r: Run<V>, n: nat, k: nat, c: nat, leader: Tid, v: V, leader': Tid, v': V)
    requires IsRun(r) && FnReturned(r, n, c, leader, v) && FnReturned(r, k, c, leader', v')
    ensures n == k
  {
    NotAssignedAgain(r, n, k, c, leader, v, leader', v');
    NotAssignedAgain(r, k, n, c, leader', v', leader, v);
  }

  lemma NotAssignedAgain<V(!new)>(r: Run<V>, n: nat, k: nat, c: nat, leader: Tid, v: V, leader': Tid, v': V)
    requires IsRun(r) && FnReturned(r, n, c, leader, v) && FnReturned(r, k, c, leader', v')
    ensures k <= n
  {
    if n < k {
      InvInEveryRun(r, n);
      InvInEveryRun(r, k);
      assert PcOk(r.states[n], leader) && PcOk(r.states[k], leader');
      AssignedStaysSet(r, n + 1, k, c);
    }
  }

  lemma {:induction false} AssignedStaysSet<V(!new)>(r: Run<V>, i: nat, j: nat, c: nat)
    requires IsRun(r) && i <= j < |r.states|
    requires c < |r.states[i].calls| && r.states[i].calls[c].result.Some?
    ensures c < |r.states[j].calls| && r.states[j].calls[c].result.Some?
    decreases j - i
  {
    if i < j {
      assert Enabled(r.states[i], r.actions[i]);
      AssignedStaysSet(r, i + 1, j, c);
    }
  }

  /** From entering Do to returning, a goroutine stays with the call it led or joined. */
  lemma {:induction false} SameCallThroughout<V>(r: Run<V>, i: nat, j: nat, t: Tid)
    requires IsRun(r) && i <= j < |r.states|
    requires forall n :: i <= n <= j ==> !r.states[n].At(t).Outside?
    ensures r.states[i].At(t).call == r.states[j].At(t).call
    decreases j - i
  {
    if i < j {
      var s, a := r.states[i], r.actions[i];
      assert Enabled(s, a) && r.states[i + 1] == Do(s, a);
      assert !r.states[i + 1].At(t).Outside?;
      SameCallThroughout(r, i + 1, j, t);
    }
  }

  /** What a Do returns is what the fn of the call it led or joined returned, after it returned. */
  lemma ReturnedValueOfOwnCall<V(!new)>(r: Run<V>, i: nat, j: nat, t: Tid) returns (n: nat)
    requires IsRun(r) && i <= j < |r.states|
    requires forall k :: i <= k <= j ==> !r.states[k].At(t).Outside?
    requires r.states[j].At(t).Returned?
    ensures r.states[j].At(t).result.Some?
    ensures r.states[i].At(t).call < |r.states[j].calls|
    ensures n < j && FnReturned(r, n, r.states[i].At(t).call,
                                r.states[j].calls[r.states[i].At(t).call].leader, r.states[j].At(t).result.value)
  {
    SameCallThroughout(r, i, j, t);
    InvInEveryRun(r, j);
    assert PcOk(r.states[j], t);
    n := ResultsComeFromFn(r, j, r.states[j].At(t).call);
  }

  // ---------------------------------------------------------------- progress

  /** A goroutine inside Do is running fn, or can take a step, or waits for a leader that can. */
  lemma SomeoneCanStep<V(!new)>(s: State<V>, t: Tid) returns (u: Tid)
    requires Inv(s) && !s.At(t).Outside?
    ensures u == t || (s.At(t).Waiting? && Leading(s.At(u)) && s.At(u).call == s.At(t).call)
    ensures s.At(u).InFn? || Enabled(s, Signal(u)) || Enabled(s, Delete(u)) || Enabled(s, Wake(u)) || Enabled(s, Leave(u))
  {
    assert PcOk(s, t);
    u := t;
    if s.At(t).Waiting? && !s.calls[s.At(t).call].done {
      assert CallOk(s, s.At(t).call);
      u := s.calls[s.At(t).call].leader;
      assert PcOk(s, u);
    }
  }
}

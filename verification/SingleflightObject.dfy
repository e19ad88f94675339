/** singleflight as an object: each method is the body of one atomic region of Do, and is shown to take
    exactly the step of the machine in Singleflight that bears its name. */
module SingleflightObject {
  import opened Common
  import S = Singleflight

  type Tid = S.Tid

  class Call<V> {
    ghost const id: nat         // its place among all calls made
    var result: Option<V>       // Val and err
    var done: bool              // wg is at zero

    constructor (ghost id: nat)
      ensures this.id == id && result == None && !done
    {
      this.id := id;
      result, done := None, false;
    }
  }

  lemma EnterStep<V(!new)>(s: S.State<V>, t: Tid, key: string) returns (s': S.State<V>)
    requires S.Inv(s) && S.Enabled(s, S.Enter(t, key))
    ensures s' == S.Do(s, S.Enter(t, key)) && S.Inv(s')
    ensures if key in s.m
            then s'.m == s.m && s'.calls == s.calls && s'.At(t) == S.Waiting(s.m[key])
            else s'.m == s.m[key := |s.calls|] && s'.At(t) == S.InFn(|s.calls|) &&
                 s'.calls == s.calls + [S.Call(key, t, None, false)]
  {
    s' := S.Do(s, S.Enter(t, key));
    S.InvStep(s, S.Enter(t, key));
  }

  lemma DeleteStep<V(!new)>(s: S.State<V>, t: Tid) returns (s': S.State<V>, c: nat)
    requires S.Inv(s) && S.Enabled(s, S.Delete(t))
    ensures s' == S.Do(s, S.Delete(t)) && S.Inv(s') && s'.calls == s.calls
    ensures s.At(t) == S.Signalled(c) && c < |s.calls| && s.calls[c].result.Some?
    ensures s.calls[c].key in s.m && s.m[s.calls[c].key] == c && s'.m == s.m - {s.calls[c].key}
    ensures s'.At(t) == S.Returned(c, s.calls[c].result)
  {
    c := s.At(t).call;
    s' := S.Do(s, S.Delete(t));
    assert S.PcOk(s, t);
    S.InvStep(s, S.Delete(t));
  }

  /** The map of call objects and the map of the machine agree. */
  ghost predicate MapShows<V>(m: map<string, Call<V>>, table: map<string, nat>, calls: seq<Call<V>>) {
    m.Keys == table.Keys && forall key :: key in m ==> table[key] < |calls| && m[key] == calls[table[key]]
  }

  lemma MapShowsMore<V>(m: map<string, Call<V>>, table: map<string, nat>, calls: seq<Call<V>>, key: string, c: Call<V>)
    requires MapShows(m, table, calls)
    ensures MapShows(m[key := c], table[key := |calls|], calls + [c])
    ensures key in m <==> key in table
    ensures key in table ==> table[key] < |calls| && m[key] == calls[table[key]]
  {
  }

  lemma MapShowsLess<V>(m: map<string, Call<V>>, table: map<string, nat>, calls: seq<Call<V>>, key: string)
    requires MapShows(m, table, calls)
    ensures MapShows(m - {key}, table - {key}, calls)
    ensures key in table ==> key in m && table[key] < |calls| && m[key] == calls[table[key]]
  {
  }

  class Group<V(!new)> {
    var m: map<string, Call<V>>

    ghost var state: S.State<V>      // the machine state this object is in
    ghost var calls: seq<Call<V>>
    ghost var made: set<Call<V>>

    ghost predicate Shown()
      reads `state, `calls, `made, made
    {
      && |calls| == |state.calls|
      && forall c :: 0 <= c < |calls| ==>
           && calls[c] in made && calls[c].id == c
           && calls[c].result == state.calls[c].result && calls[c].done == state.calls[c].done
    }

    ghost predicate Valid()
      reads this, made
    {
      S.Inv(state) && Shown() && MapShows(m, state.m, calls)
    }

    constructor ()
      ensures Valid() && state == S.Init() && calls == []
    {
      m := map[];
      state, calls, made := S.Init(), [], {};
    }

    /** The first locked region: join the call under way for the key, or register a new one. */
    method Enter(ghost t: Tid, key: string) returns (c: Call<V>, leads: bool)
      requires Valid() && S.Enabled(state, S.Enter(t, key))
      modifies this
      ensures Valid() && state == S.Do(old(state), S.Enter(t, key))
      ensures leads <==> key !in old(m)
      ensures key in m && m[key] == c
      ensures if leads then fresh(c) && calls == old(calls) + [c] && state.At(t) == S.InFn(c.id)
              else calls == old(calls) && state.At(t) == S.Waiting(c.id)
    {
      hide S.Inv, S.Do, S.Enabled, MapShows;
      ghost var after := EnterStep(state, t, key);
      if key in m {
        MapShowsMore(m, state.m, calls, key, m[key]);
        state := after;
        return m[key], false;
      }
      c := new Call<V>(|calls|);
      MapShowsMore(m, state.m, calls, key, c);
      m := m[key := c];
      calls, made := calls + [c], made + {c};
      state := after;
      leads := true;
    }

    /** c.Val, c.err = fn(), once fn has returned. */
    method Assign(ghost t: Tid, c: Call<V>, value: V)
      requires Valid() && S.Enabled(state, S.Assign(t, value)) && c == calls[state.At(t).call]
      modifies `state, c
      ensures Valid() && state == S.Do(old(state), S.Assign(t, value))
    {
      hide S.Inv;
      S.InvStep(state, S.Assign(t, value));
      c.result := Some(value);
      state := S.Do(state, S.Assign(t, value));
    }

    /** c.wg.Done(). */
    method Signal(ghost t: Tid, c: Call<V>)
      requires Valid() && S.Enabled(state, S.Signal(t)) && c == calls[state.At(t).call]
      modifies `state, c
      ensures Valid() && state == S.Do(old(state), S.Signal(t))
    {
      hide S.Inv;
      S.InvStep(state, S.Signal(t));
      c.done := true;
      state := S.Do(state, S.Signal(t));
    }

    /** The second locked region: the entry deleted is the caller's own call, and its result is set. */
    method Delete(ghost t: Tid, key: string, c: Call<V>) returns (result: Option<V>)
      requires Valid() && S.Enabled(state, S.Delete(t)) && c == calls[state.At(t).call]
      requires key == state.calls[state.At(t).call].key
      modifies `m, `state
      ensures Valid() && state == S.Do(old(state), S.Delete(t))
      ensures key in old(m) && old(m)[key] == c && m == old(m) - {key}
      ensures result == c.result && result.Some? && state.At(t) == S.Returned(c.id, result)
    {
      hide S.Inv, S.Do, S.Enabled, MapShows;
      ghost var after, id := DeleteStep(state, t);
      MapShowsLess(m, state.m, calls, key);
      m := m - {key};
      result := c.result;
      state := after;
    }

    /** c.wg.Wait() has returned for a goroutine that joined the call. */
    method Wake(ghost t: Tid, c: Call<V>) returns (result: Option<V>)
      requires Valid() && S.Enabled(state, S.Wake(t)) && c == calls[state.At(t).call]
      modifies `state
      ensures Valid() && state == S.Do(old(state), S.Wake(t))
      ensures result == c.result && result.Some? && state.At(t) == S.Returned(c.id, result)
    {
      S.InvStep(state, S.Wake(t));
      assert S.CallOk(state, state.At(t).call);
      hide S.Inv;
      result := c.result;
      state := S.Do(state, S.Wake(t));
    }
  }
}

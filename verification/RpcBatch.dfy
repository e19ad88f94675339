/** Runs in which any number of calls are under way at once: they can complete in any order, each with
    the outcome of its own method. */
module RpcBatch {
  import opened Common
  import opened RpcSystem
  import opened RpcRuns
  import C = RpcClient
  import S = RpcServer

  datatype Ask = Ask(target: string, args: Bytes)

  /** A call that is waiting for its response, and one that has it. */
  function Pending(x: Ask, num: nat): C.Call {
    C.Call(x.target, x.args, num, C.Sent, None, None, 0, false)
  }

  /** The call shows what its method did: its reply, or the text of its error. */
  ghost predicate Shows(v: S.Service, x: Ask, c: C.Call) {
    && c.target == x.target && c.args == x.args && c.signals == 1
    && match v.run(x.target, x.args).err
       case None => c.error == None && c.reply == Some(v.run(x.target, x.args).reply)
       case Some(text) => text != "" ==> c.error == Some(C.ServerError(text)) && c.reply == None
  }

  function Answered(v: S.Service, x: Ask, num: nat): C.Call {
    var o := v.run(x.target, x.args);
    if S.ErrTextOf(o) == "" then Pending(x, num).(reply := Some(o.reply), signals := 1)
    else Pending(x, num).(error := Some(C.ServerError(S.ErrTextOf(o))), signals := 1)
  }

  lemma AnsweredShows(v: S.Service, x: Ask, num: nat)
    ensures Shows(v, x, Answered(v, x, num))
  {
  }

  function Calls(v: S.Service, asks: seq<Ask>, done: set<nat>): (calls: seq<C.Call>)
    ensures |calls| == |asks|
  {
    seq(|asks|, i requires 0 <= i < |asks| =>
      if i in done then Answered(v, asks[i], i + 1) else Pending(asks[i], i + 1))
  }

  predicate Open(done: set<nat>, q: nat) {
    q >= 1 && q - 1 !in done
  }

  function Table(n: nat, done: set<nat>): map<nat, nat> {
    map q: nat | 1 <= q <= n && Open(done, q) :: q - 1
  }

  function Running(x: Ask, num: nat): S.Request {
    S.Request(num, x.target, x.args, S.Normal(S.Waiting, S.Running), "", 0)
  }

  function Handled(v: S.Service, x: Ask, num: nat): S.Request {
    S.Request(num, x.target, x.args, S.Normal(S.Finished, S.Gone), S.ErrTextOf(v.run(x.target, x.args)), 1)
  }

  function Requests(v: S.Service, asks: seq<Ask>, done: set<nat>): (reqs: seq<S.Request>)
    ensures |reqs| == |asks|
  {
    seq(|asks|, i requires 0 <= i < |asks| =>
      if i in done then Handled(v, asks[i], i + 1) else Running(asks[i], i + 1))
  }

  function ClientAt(v: S.Service, asks: seq<Ask>, done: set<nat>): C.State {
    C.State(Calls(v, asks, done), |asks| + 1, Table(|asks|, done), seq(|asks|, i => i), false, false, C.Free, C.Reading)
  }

  function ServerAt(v: S.Service, asks: seq<Ask>, done: set<nat>): S.State {
    S.State(Requests(v, asks, done), S.ReadingHeader, S.Free)
  }

  /** All calls have been sent, the server has read all of them, and those in done are completed. */
  function At(v: S.Service, asks: seq<Ask>, done: set<nat>): State {
    State(ClientAt(v, asks, done), ServerAt(v, asks, done), [], [], true, true)
  }

  // ---------------------------------------------------------------- single steps of a run

  lemma ClientGoes(v: S.Service, names: iset<string>, r: Run, a: C.Action, to: C.State) returns (r': Run)
    requires IsRunOver(v, names, r) && ClientInternal(a) && (a.NewCall? ==> a.target in names)
    requires C.Enabled(Last(r).client, a) && to == C.Do(Last(r).client, a)
    ensures IsRunOver(v, names, r') && r.states <= r'.states && Last(r') == Last(r).(client := to)
  {
    hide C.Do, C.Enabled, S.Do, S.Enabled, ServerActionOf;
    r' := Extend(v, names, r, ClientStep(a), Last(r).(client := to));
  }

  lemma ServerGoes(v: S.Service, names: iset<string>, r: Run, a: S.Action, to: S.State) returns (r': Run)
    requires IsRunOver(v, names, r) && ServerInternal(a)
    requires S.Enabled(v, Last(r).server, a) && to == S.Do(v, Last(r).server, a)
    ensures IsRunOver(v, names, r') && r.states <= r'.states && Last(r') == Last(r).(server := to)
  {
    hide C.Do, C.Enabled, S.Do, S.Enabled, ClientActionOf;
    r' := Extend(v, names, r, ServerStep(a), Last(r).(server := to));
  }

  // ---------------------------------------------------------------- one more call under way

  /** The client once a further call is registered, while its sender is at this point. */
  function Sending(c: C.State, x: Ask, sender: C.Sender): C.State {
    var n := |c.calls|;
    c.(calls := c.calls + [Pending(x, c.next).(sender := sender)], next := c.next + 1,
       pending := c.pending[c.next := n], regs := c.regs + [n], sending := C.HeldBy(n))
  }

  ghost predicate Idle(c: C.State) {
    !c.closing && !c.shutdown && c.sending.Free? && c.receiver.Reading?
  }

  lemma Registers(v: S.Service, names: iset<string>, r: Run, x: Ask) returns (r': Run)
    requires IsRunOver(v, names, r) && Idle(Last(r).client) && x.target in names
    ensures IsRunOver(v, names, r') && r.states <= r'.states
    ensures Last(r') == Last(r).(client := Sending(Last(r).client, x, C.Registered))
  {
    hide IsRunOver;
    var c := Last(r).client;
    var n, blank := |c.calls|, Pending(x, 0).(sender := C.Ready);
    r' := ClientGoes(v, names, r, C.NewCall(x.target, x.args), c.(calls := c.calls + [blank]));
    var c2 := c.(calls := c.calls + [blank.(sender := C.Locked)], sending := C.HeldBy(n));
    r' := ClientGoes(v, names, r', C.TakeSending(n), c2);
    assert c2.calls[n := c2.calls[n].(num := c.next, sender := C.Registered)] == Sending(c, x, C.Registered).calls;
    r' := ClientGoes(v, names, r', C.Register(n), Sending(c, x, C.Registered));
  }

  lemma WritesHeader(v: S.Service, names: iset<string>, r: Run, c: C.State, x: Ask) returns (r': Run)
    requires IsRunOver(v, names, r) && Last(r).client == Sending(c, x, C.Registered)
    requires Last(r).up == [] && Last(r).upOpen
    ensures IsRunOver(v, names, r') && r.states <= r'.states
    ensures Last(r') == Last(r).(client := Sending(c, x, C.HeaderOut), up := [Header(c.next, x.target, "")])
  {
    hide IsRunOver, S.Do, S.Enabled, ServerActionOf;
    r' := Extend(v, names, r, ClientHeader(|c.calls|, true, true),
                 Last(r).(client := Sending(c, x, C.HeaderOut), up := [Header(c.next, x.target, "")]));
  }

  lemma WritesBody(v: S.Service, names: iset<string>, r: Run, c: C.State, x: Ask, h: Item) returns (r': Run)
    requires IsRunOver(v, names, r) && Last(r).client == Sending(c, x, C.HeaderOut)
    requires Last(r).up == [h] && Last(r).upOpen
    ensures IsRunOver(v, names, r') && r.states <= r'.states
    ensures Last(r') == Last(r).(client := Sending(c, x, C.ToUnlock), up := [h, Body(x.args)])
  {
    hide IsRunOver, S.Do, S.Enabled, ServerActionOf;
    r' := Extend(v, names, r, ClientBody(|c.calls|, true, true),
                 Last(r).(client := Sending(c, x, C.ToUnlock), up := [h, Body(x.args)]));
  }

  lemma Releases(v: S.Service, asks: seq<Ask>, x: Ask)
    ensures var c := Sending(ClientAt(v, asks, {}), x, C.ToUnlock);
            C.Enabled(c, C.Release(|asks|)) && C.Do(c, C.Release(|asks|)) == ClientAt(v, asks + [x], {})
  {
    hide C.DoRegister, C.DoTakeBack, C.DoRecvBody, C.Lookup, C.Without, C.Signalled, Answered;
    var c := Sending(ClientAt(v, asks, {}), x, C.ToUnlock);
    var d, e := C.Do(c, C.Release(|asks|)), ClientAt(v, asks + [x], {});
    assert d.calls == e.calls;
    assert d.pending == e.pending;
    assert d.regs == e.regs;
  }

  /** The server reads a request whose method is registered. */
  lemma ReadsRequest(v: S.Service, names: iset<string>, r: Run, num: nat, x: Ask) returns (r': Run)
    requires IsRunOver(v, names, r) && x.target in v.known
    requires Last(r).up == [Header(num, x.target, ""), Body(x.args)] && Last(r).server.reader.ReadingHeader?
    ensures IsRunOver(v, names, r') && r.states <= r'.states
    ensures var s := Last(r);
            Last(r') == s.(up := [], server := s.server.(reqs := s.server.reqs + [Running(x, num)]))
  {
    hide IsRunOver, C.Do, C.Enabled, ClientActionOf;
    var s := Last(r);
    var n, blank := |s.server.reqs|, S.Request(num, x.target, [], S.Fresh, "", 0);
    r' := Extend(v, names, r, ServerReadHeader,
                 s.(up := [Body(x.args)], server := s.server.(reqs := s.server.reqs + [blank], reader := S.GotHeader)));
    assert (s.server.reqs + [blank])[n := Running(x, num)] == s.server.reqs + [Running(x, num)];
    r' := Extend(v, names, r', ServerReadBody(true),
                 s.(up := [], server := s.server.(reqs := s.server.reqs + [Running(x, num)])));
  }

  lemma OneMoreRequest(v: S.Service, asks: seq<Ask>, x: Ask)
    ensures Requests(v, asks + [x], {}) == Requests(v, asks, {}) + [Running(x, |asks| + 1)]
  {
  }

  lemma OneMoreCall(v: S.Service, names: iset<string>, r: Run, asks: seq<Ask>, x: Ask) returns (r': Run)
    requires IsRunOver(v, names, r) && Last(r) == At(v, asks, {}) && x.target in names && x.target in v.known
    ensures IsRunOver(v, names, r') && r.states <= r'.states && Last(r') == At(v, asks + [x], {})
  {
    hide IsRunOver, C.Do, C.Enabled, Requests, Calls, Table;
    r' := Registers(v, names, r, x);
    r' := WritesHeader(v, names, r', ClientAt(v, asks, {}), x);
    r' := WritesBody(v, names, r', ClientAt(v, asks, {}), x, Header(|asks| + 1, x.target, ""));
    Releases(v, asks, x);
    r' := ClientGoes(v, names, r', C.Release(|asks|), ClientAt(v, asks + [x], {}));
    OneMoreRequest(v, asks, x);
    r' := ReadsRequest(v, names, r', |asks| + 1, x);
  }

  lemma {:induction false} AllCallsSent(v: S.Service, names: iset<string>, asks: seq<Ask>) returns (r: Run)
    requires forall x :: x in asks ==> x.target in names && x.target in v.known
    ensures IsRunOver(v, names, r) && Last(r) == At(v, asks, {})
  {
    hide Enabled, Do;
    if asks == [] {
      r := Run([Init], []);
      assert At(v, [], {}) == Init;
    } else {
      var front, last := asks[..|asks| - 1], asks[|asks| - 1];
      r := AllCallsSent(v, names, front);
      r := OneMoreCall(v, names, r, front, last);
      assert front + [last] == asks;
    }
  }

  // ---------------------------------------------------------------- one more call completed

  /** The method runs, and its worker is about to send. */
  lemma MethodDone(v: S.Service, names: iset<string>, r: Run, k: nat, x: Ask, num: nat) returns (r': Run)
    requires IsRunOver(v, names, r) && k < |Last(r).server.reqs| && Last(r).server.reqs[k] == Running(x, num)
    requires Last(r).server.sending.Free?
    ensures IsRunOver(v, names, r') && r.states <= r'.states
    ensures var s := Last(r).server;
            var q := Handled(v, x, num).(job := S.Normal(S.AwaitSent, S.Released));
            Last(r') == Last(r).(server := s.(reqs := s.reqs[k := q], sending := S.Held(S.WorkerOf(k), false)))
  {
    hide IsRunOver;
    var s := Last(r).server;
    var q1 := Running(x, num).(job := S.Normal(S.Waiting, S.AtCalled));
    r' := ServerGoes(v, names, r, S.MethodReturns(k), s.(reqs := s.reqs[k := q1]));
    var q2 := q1.(job := S.Normal(S.AwaitSent, S.Released), errText := S.ErrTextOf(v.run(x.target, x.args)));
    assert s.reqs[k := q1][k := q2] == s.reqs[k := q2];
    r' := ServerGoes(v, names, r', S.MeetCalled(k), s.(reqs := s.reqs[k := q2]));
    var q3 := q2.(attempts := 1);
    assert s.reqs[k := q2][k := q3] == s.reqs[k := q3];
    r' := ServerGoes(v, names, r', S.BeginSend(S.WorkerOf(k)),
                     s.(reqs := s.reqs[k := q3], sending := S.Held(S.WorkerOf(k), false)));
  }

  /** The worker writes its response. */
  lemma WritesResponse(v: S.Service, names: iset<string>, r: Run, s: S.State, k: nat, x: Ask, num: nat)
    returns (r': Run)
    requires IsRunOver(v, names, r) && k < |s.reqs| && s.sending.Free? && Last(r).down == [] && Last(r).downOpen
    requires Last(r).server == s.(
               reqs := s.reqs[k := Handled(v, x, num).(job := S.Normal(S.AwaitSent, S.Released))],
               sending := S.Held(S.WorkerOf(k), false))
    ensures IsRunOver(v, names, r') && r.states <= r'.states
    ensures var o := v.run(x.target, x.args);
            Last(r') == Last(r).(
              server := s.(reqs := s.reqs[k := Handled(v, x, num).(job := S.Normal(S.AwaitSent, S.AtSent))]),
              down := [Header(num, "", S.ErrTextOf(o)), Body(o.reply)])
  {
    hide IsRunOver, C.Do, C.Enabled, ClientActionOf, S.ErrTextOf;
    var st, o := Last(r), v.run(x.target, x.args);
    var header := Header(num, "", S.ErrTextOf(o));
    r' := Extend(v, names, r, ServerHeader(true, true),
                 st.(server := st.server.(sending := S.Held(S.WorkerOf(k), true)), down := [header]));
    var q := Handled(v, x, num).(job := S.Normal(S.AwaitSent, S.AtSent));
    r' := Extend(v, names, r', ServerBody(true, true),
                 st.(server := s.(reqs := s.reqs[k := q]), down := [header, Body(o.reply)]));
  }

  /** Handler and worker meet and are done. */
  lemma Finishes(v: S.Service, s: S.State, k: nat, q: S.Request)
    requires k < |s.reqs|
    ensures var t := s.(reqs := s.reqs[k := q.(job := S.Normal(S.AwaitSent, S.AtSent))]);
            && S.Enabled(v, t, S.MeetSent(k))
            && S.Do(v, t, S.MeetSent(k)) == s.(reqs := s.reqs[k := q.(job := S.Normal(S.Finished, S.Gone))])
  {
    var t := s.(reqs := s.reqs[k := q.(job := S.Normal(S.AwaitSent, S.AtSent))]);
    assert S.Do(v, t, S.MeetSent(k)).reqs == s.reqs[k := q.(job := S.Normal(S.Finished, S.Gone))];
  }

  lemma ReadsHeader(v: S.Service, names: iset<string>, r: Run, num: nat, text: string, b: Item) returns (r': Run)
    requires IsRunOver(v, names, r) && Last(r).client.receiver.Reading? && Last(r).down == [Header(num, "", text), b]
    ensures IsRunOver(v, names, r') && r.states <= r'.states
    ensures Last(r') == Last(r).(client := Last(r).client.(receiver := C.GotHeader(num, text)), down := [b])
  {
    hide IsRunOver, S.Do, S.Enabled, ServerActionOf;
    r' := Extend(v, names, r, ClientReadHeader,
                 Last(r).(client := Last(r).client.(receiver := C.GotHeader(num, text)), down := [b]));
  }

  lemma TakesOut(c: C.State, num: nat, k: nat, text: string)
    requires C.Lookup(c, num) == Some(k)
    ensures var d := c.(receiver := C.GotHeader(num, text));
            && C.Enabled(d, C.RemoveReceived)
            && C.Do(d, C.RemoveReceived) == c.(pending := c.pending - {num}, receiver := C.Removed(num, Some(k), text))
  {
  }

  lemma Signals(c: C.State, k: nat, y: C.Call)
    requires k < |c.calls| && c.receiver.Reading?
    ensures var d := c.(calls := c.calls[k := y], receiver := C.ToDone(k, true));
            && C.Enabled(d, C.SignalReceived)
            && C.Do(d, C.SignalReceived) == c.(calls := c.calls[k := y.(signals := y.signals + 1)])
  {
  }

  lemma ReadsReply(v: S.Service, names: iset<string>, r: Run, c: C.State, k: nat, x: Ask) returns (r': Run)
    requires IsRunOver(v, names, r) && k < |c.calls| && c.calls[k] == Pending(x, k + 1)
    requires var o := v.run(x.target, x.args);
             && Last(r).client == c.(receiver := C.Removed(k + 1, Some(k), S.ErrTextOf(o)))
             && Last(r).down == [Body(o.reply)]
    ensures IsRunOver(v, names, r') && r.states <= r'.states
    ensures Last(r') == Last(r).(down := [], client := c.(calls := c.calls[k := Answered(v, x, k + 1).(signals := 0)],
                                                          receiver := C.ToDone(k, true)))
  {
    hide IsRunOver, S.Do, S.Enabled, ServerActionOf;
    var d := c.(calls := c.calls[k := Answered(v, x, k + 1).(signals := 0)], receiver := C.ToDone(k, true));
    r' := Extend(v, names, r, ClientReadBody(true), Last(r).(down := [], client := d));
  }

  /** The client takes the response in, and goes on reading. */
  lemma TakesResponse(v: S.Service, names: iset<string>, r: Run, k: nat, x: Ask) returns (r': Run)
    requires IsRunOver(v, names, r) && Last(r).client.receiver.Reading?
    requires k < |Last(r).client.calls| && Last(r).client.calls[k] == Pending(x, k + 1)
    requires C.Lookup(Last(r).client, k + 1) == Some(k)
    requires var o := v.run(x.target, x.args);
             Last(r).down == [Header(k + 1, "", S.ErrTextOf(o)), Body(o.reply)]
    ensures IsRunOver(v, names, r') && r.states <= r'.states
    ensures var c := Last(r).client;
            Last(r') == Last(r).(down := [], client := c.(pending := c.pending - {k + 1},
                                                          calls := c.calls[k := Answered(v, x, k + 1)]))
  {
    hide IsRunOver, C.Do, C.Enabled, S.ErrTextOf;
    var c, o := Last(r).client, v.run(x.target, x.args);
    var text, gone := S.ErrTextOf(o), c.(pending := c.pending - {k + 1});
    r' := ReadsHeader(v, names, r, k + 1, text, Body(o.reply));
    TakesOut(c, k + 1, k, text);
    r' := ClientGoes(v, names, r', C.RemoveReceived, gone.(receiver := C.Removed(k + 1, Some(k), text)));
    r' := ReadsReply(v, names, r', gone, k, x);
    Signals(gone, k, Answered(v, x, k + 1).(signals := 0));
    r' := ClientGoes(v, names, r', C.SignalReceived, gone.(calls := c.calls[k := Answered(v, x, k + 1)]));
  }

  lemma OneMoreDone(v: S.Service, asks: seq<Ask>, done: set<nat>, k: nat)
    requires k < |asks| && k !in done
    ensures Calls(v, asks, done)[k] == Pending(asks[k], k + 1)
    ensures Calls(v, asks, done + {k}) == Calls(v, asks, done)[k := Answered(v, asks[k], k + 1)]
    ensures Requests(v, asks, done)[k] == Running(asks[k], k + 1)
    ensures Requests(v, asks, done + {k}) == Requests(v, asks, done)[k := Handled(v, asks[k], k + 1)]
    ensures k + 1 in Table(|asks|, done) && Table(|asks|, done)[k + 1] == k
    ensures Table(|asks|, done + {k}) == Table(|asks|, done) - {k + 1}
  {
    assert Open(done, k + 1);
  }

  lemma OneMoreCompletes(v: S.Service, names: iset<string>, r: Run, asks: seq<Ask>, done: set<nat>, k: nat)
    returns (r': Run)
    requires IsRunOver(v, names, r) && Last(r) == At(v, asks, done) && k < |asks| && k !in done
    ensures IsRunOver(v, names, r') && r.states <= r'.states && Last(r') == At(v, asks, done + {k})
  {
    hide IsRunOver, Calls, Requests, Table;
    OneMoreDone(v, asks, done, k);
    r' := MethodDone(v, names, r, k, asks[k], k + 1);
    r' := WritesResponse(v, names, r', ServerAt(v, asks, done), k, asks[k], k + 1);
    Finishes(v, ServerAt(v, asks, done), k, Handled(v, asks[k], k + 1));
    r' := ServerGoes(v, names, r', S.MeetSent(k), ServerAt(v, asks, done + {k}));
    r' := TakesResponse(v, names, r', k, asks[k]);
  }

  // ---------------------------------------------------------------- all of them, in any order

  function Elements(order: seq<nat>): set<nat> {
    set k | k in order
  }

  /** State at[m] of the run is the one in which the calls up to m in the order are completed. */
  ghost predicate Reached(v: S.Service, r: Run, asks: seq<Ask>, order: seq<nat>, at: seq<nat>, m: nat)
    requires m < |order| == |at|
  {
    && at[m] < |r.states| && (m > 0 ==> at[m - 1] < at[m])
    && r.states[at[m]] == At(v, asks, Elements(order[..m + 1]))
  }

  lemma MustGrow(v: S.Service, r: Run, r': Run, asks: seq<Ask>, done: set<nat>, k: nat)
    requires r.states != [] && r.states <= r'.states && k < |asks| && k !in done
    requires Last(r) == At(v, asks, done) && Last(r') == At(v, asks, done + {k})
    ensures |r.states| < |r'.states|
  {
    OneMoreDone(v, asks, done, k);
    assert Last(r).client.calls[k].signals != Last(r').client.calls[k].signals;
  }

  lemma RunHasStates(v: S.Service, names: iset<string>, r: Run)
    requires IsRunOver(v, names, r)
    ensures r.states != []
  {
  }

  lemma {:induction false} ReachInOrder(v: S.Service, names: iset<string>, asks: seq<Ask>, order: seq<nat>)
    returns (r: Run, at: seq<nat>)
    requires forall x :: x in asks ==> x.target in names && x.target in v.known
    requires (forall i :: 0 <= i < |order| ==> order[i] < |asks|) && NoDuplicates(order)
    ensures IsRunOver(v, names, r) && Last(r) == At(v, asks, Elements(order)) && |at| == |order|
    ensures forall m :: 0 <= m < |order| ==> Reached(v, r, asks, order, at, m)
  {
    hide IsRunOver, At;
    if order == [] {
      r := AllCallsSent(v, names, asks);
      at := [];
      assert Elements([]) == {};
    } else {
      var front, k := order[..|order| - 1], order[|order| - 1];
      var r0, at0 := ReachInOrder(v, names, asks, front);
      RunHasStates(v, names, r0);
      assert k == order[|front|] && k !in front;
      r := OneMoreCompletes(v, names, r0, asks, Elements(front), k);
      MustGrow(v, r0, r, asks, Elements(front), k);
      at := at0 + [|r.states| - 1];
      assert Elements(order) == Elements(front) + {k};
      assert order[..|order|] == order;
      forall m | 0 <= m < |order| ensures Reached(v, r, asks, order, at, m) {
        if m < |front| {
          assert Reached(v, r0, asks, front, at0, m);
          assert order[..m + 1] == front[..m + 1];
        } else if m > 0 {
          assert Reached(v, r0, asks, front, at0, m - 1);
        }
      }
    }
  }

  /** In state at[m] the calls up to m in the order have completed, each with the outcome of its own
      method, and the others have not. */
  ghost predicate CompletedAt(v: S.Service, r: Run, asks: seq<Ask>, order: seq<nat>, at: seq<nat>, m: nat)
    requires m < |order| == |at|
  {
    && at[m] < |r.states| && (m > 0 ==> at[m - 1] < at[m])
    && |r.states[at[m]].client.calls| == |asks|
    && forall k :: 0 <= k < |asks| ==>
         var c := r.states[at[m]].client.calls[k];
         if k in order[..m + 1] then Shows(v, asks[k], c) else c.signals == 0
  }

  lemma ReachedIsCompleted(v: S.Service, r: Run, asks: seq<Ask>, order: seq<nat>, at: seq<nat>, m: nat)
    requires m < |order| == |at| && Reached(v, r, asks, order, at, m)
    ensures CompletedAt(v, r, asks, order, at, m)
  {
    hide Shows, Answered;
    forall k | 0 <= k < |asks| {
      AnsweredShows(v, asks[k], k + 1);
    }
  }

  /** Any list of calls of registered methods can be under way at once and complete in any order, without
      a failure of the connection and with the receive loop still reading: each call gets one signal, and
      shows what its own method did on its own arguments. */
  lemma CompleteInOrder(v: S.Service, asks: seq<Ask>, order: seq<nat>) returns (r: Run, at: seq<nat>)
    requires forall x :: x in asks ==> x.target in v.known
    requires (forall i :: 0 <= i < |order| ==> order[i] < |asks|) && NoDuplicates(order)
    ensures IsRun(v, r) && |at| == |order|
    ensures forall m :: 0 <= m < |order| ==> CompletedAt(v, r, asks, order, at, m)
    ensures |Last(r).client.calls| == |asks| && Last(r).client.receiver.Reading?
  {
    hide Enabled, Do, Answered, Reached, CompletedAt;
    r, at := ReachInOrder(v, (iset name | name in v.known), asks, order);
    forall m | 0 <= m < |order| ensures CompletedAt(v, r, asks, order, at, m) {
      ReachedIsCompleted(v, r, asks, order, at, m);
    }
  }
}

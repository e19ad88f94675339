/** Runs of client and server that show where the promises of RpcSystem end: what an unregistered name
    does to the streams, and when a method's error passes for success. */
module RpcRuns {
  import opened Common
  import opened RpcSystem
  import C = RpcClient
  import S = RpcServer

  /** Every call the action makes names a method in names. */
  ghost predicate Names(names: iset<string>, a: Action) {
    a.ClientStep? && a.c.NewCall? ==> a.c.target in names
  }

  /** Any interleaving in which callers use these names. */
  ghost predicate IsRunOver(v: S.Service, names: iset<string>, r: Run) {
    && |r.states| == |r.actions| + 1
    && r.states[0] == Init
    && (forall i :: 0 <= i < |r.actions| ==>
          && Names(names, r.actions[i])
          && Enabled(v, r.states[i], r.actions[i])
          && r.states[i + 1] == Do(v, r.states[i], r.actions[i]))
  }

  function Last(r: Run): State {
    if r.states == [] then Init else r.states[|r.states| - 1]
  }

  /** The run goes on with one more action and is then in state to. */
  lemma Extend(v: S.Service, names: iset<string>, r: Run, a: Action, to: State) returns (r': Run)
    requires IsRunOver(v, names, r) && Names(names, a) && Enabled(v, Last(r), a) && to == Do(v, Last(r), a)
    ensures IsRunOver(v, names, r') && Last(r') == to && r'.states == r.states + [to]
  {
    hide Enabled, Do;
    r' := Run(r.states + [to], r.actions + [a]);
  }

  // ---------------------------------------------------------------- one request on its way

  function Caller(target: string, args: Bytes, num: nat, sender: C.Sender): C.Call {
    C.Call(target, args, num, sender, None, None, 0, false)
  }

  /** The client with one call whose sender holds sending. */
  function ClientSending(target: string, args: Bytes, num: nat, sender: C.Sender): C.State {
    if num == 0 then C.State([Caller(target, args, 0, sender)], 1, map[], [], false, false, C.HeldBy(0), C.Reading)
    else C.State([Caller(target, args, 1, sender)], 2, map[1 := 0], [0], false, false, C.HeldBy(0), C.Reading)
  }

  lemma CallMade(v: S.Service, names: iset<string>, target: string, args: Bytes) returns (r: Run)
    requires target in names
    ensures IsRunOver(v, names, r)
    ensures Last(r) == Init.(client := C.Init.(calls := [Caller(target, args, 0, C.Ready)]))
  {
    hide S.Do, S.Enabled, ServerActionOf;
    r := Run([Init], []);
    r := Extend(v, names, r, ClientStep(C.NewCall(target, args)),
                Init.(client := C.Init.(calls := [Caller(target, args, 0, C.Ready)])));
  }

  lemma CallLocked(v: S.Service, names: iset<string>, target: string, args: Bytes) returns (r: Run)
    requires target in names
    ensures IsRunOver(v, names, r)
    ensures Last(r) == Init.(client := ClientSending(target, args, 0, C.Locked))
  {
    hide S.Do, S.Enabled, ServerActionOf;
    r := CallMade(v, names, target, args);
    r := Extend(v, names, r, ClientStep(C.TakeSending(0)),
                Init.(client := ClientSending(target, args, 0, C.Locked)));
  }

  lemma CallRegistered(v: S.Service, names: iset<string>, target: string, args: Bytes) returns (r: Run)
    requires target in names
    ensures IsRunOver(v, names, r)
    ensures Last(r) == Init.(client := ClientSending(target, args, 1, C.Registered))
  {
    hide S.Do, S.Enabled, ServerActionOf;
    r := CallLocked(v, names, target, args);
    RegisterFirst(target, args);
    r := Extend(v, names, r, ClientStep(C.Register(0)),
                Init.(client := ClientSending(target, args, 1, C.Registered)));
  }

  lemma RegisterFirst(target: string, args: Bytes)
    ensures var c := ClientSending(target, args, 0, C.Locked);
            C.Enabled(c, C.Register(0)) && C.Do(c, C.Register(0)) == ClientSending(target, args, 1, C.Registered)
  {
    var c := ClientSending(target, args, 0, C.Locked);
    assert C.DoRegister(c, 0).calls == [Caller(target, args, 1, C.Registered)];
  }

  /** The request has been written, and the server has read its header. */
  function RequestAt(target: string, args: Bytes): State {
    State(ClientSending(target, args, 1, C.ToUnlock),
          S.State([S.Request(1, target, [], S.Fresh, "", 0)], S.GotHeader, S.Free),
          [Body(args)], [], true, true)
  }

  lemma RequestWritten(v: S.Service, names: iset<string>, target: string, args: Bytes) returns (r: Run)
    requires target in names
    ensures IsRunOver(v, names, r)
    ensures Last(r) == RequestAt(target, args).(server := S.Init, up := [Header(1, target, ""), Body(args)])
  {
    hide S.Do, S.Enabled, ServerActionOf;
    r := CallRegistered(v, names, target, args);
    var header := Header(1, target, "");
    var s1 := State(ClientSending(target, args, 1, C.HeaderOut), S.Init, [header], [], true, true);
    r := Extend(v, names, r, ClientHeader(0, true, true), s1);
    var s2 := State(ClientSending(target, args, 1, C.ToUnlock), S.Init, [header, Body(args)], [], true, true);
    r := Extend(v, names, r, ClientBody(0, true, true), s2);
  }

  lemma RequestArrives(v: S.Service, names: iset<string>, target: string, args: Bytes) returns (r: Run)
    requires target in names
    ensures IsRunOver(v, names, r) && Last(r) == RequestAt(target, args)
  {
    hide C.Do, C.Enabled, ClientActionOf;
    r := RequestWritten(v, names, target, args);
    r := Extend(v, names, r, ServerReadHeader, RequestAt(target, args));
  }

  // ---------------------------------------------------------------- unregistered names

  /** The read loop is answering a request for an unknown name; its body is still in the stream. */
  function AnsweringAt(target: string, args: Bytes): State {
    RequestAt(target, args).(
      server := S.State([S.Request(1, target, [], S.Bad, S.BAD_TEXT, 1)], S.Replying, S.Held(S.ReadLoop, false)))
  }

  lemma UnknownNameAnswered(v: S.Service, names: iset<string>, target: string, args: Bytes) returns (r: Run)
    requires target in names && target !in v.known
    ensures IsRunOver(v, names, r) && Last(r) == AnsweringAt(target, args)
  {
    hide C.Do, C.Enabled, ClientActionOf;
    r := RequestArrives(v, names, target, args);
    var bad := S.Request(1, target, [], S.Bad, S.BAD_TEXT, 0);
    r := Extend(v, names, r, ServerStep(S.RejectUnknown),
                RequestAt(target, args).(server := S.State([bad], S.Replying, S.Free)));
    r := Extend(v, names, r, ServerStep(S.BeginSend(S.ReadLoop)), AnsweringAt(target, args));
  }

  /** A name that is not registered: the read loop answers, leaves the body in the stream, and goes on
      to read it as a header. */
  lemma UnknownNameMisaligns(v: S.Service, names: iset<string>, target: string, args: Bytes) returns (r: Run)
    requires target in names && target !in v.known
    ensures IsRunOver(v, names, r) && !Aligned(Last(r))
    ensures Last(r).server.reader.ReadingHeader? && Last(r).up == [Body(args)]
  {
    hide C.Do, C.Enabled, ClientActionOf;
    r := UnknownNameAnswered(v, names, target, args);
    var s := AnsweringAt(target, args);
    var reqs := s.server.reqs;
    var s1 := s.(server := S.State(reqs, S.Replying, S.Held(S.ReadLoop, true)), down := [Header(1, "", S.BAD_TEXT)]);
    r := Extend(v, names, r, ServerHeader(true, true), s1);
    var s2 := s.(server := S.State(reqs, S.ReadingHeader, S.Free), down := [Header(1, "", S.BAD_TEXT), Body([])]);
    r := Extend(v, names, r, ServerBody(true, true), s2);
  }

  ghost predicate AlwaysAligned(v: S.Service, names: iset<string>) {
    forall r: Run, i: nat :: IsRunOver(v, names, r) && i < |r.states| ==> Aligned(r.states[i])
  }

  /** Both streams stay aligned in every run if and only if every name callers use is registered. */
  lemma AlignedIffNamesKnown(v: S.Service, names: iset<string>)
    ensures AlwaysAligned(v, names) <==> forall name :: name in names ==> name in v.known
  {
    hide Aligned, Enabled, Do;
    if forall name :: name in names ==> name in v.known {
      forall r: Run, i: nat | IsRunOver(v, names, r) && i < |r.states| ensures Aligned(r.states[i]) {
        AlignedInEveryRun(v, r, i);
      }
    } else {
      var name :| name in names && name !in v.known;
      var r := UnknownNameMisaligns(v, names, name, []);
      assert Last(r) == r.states[|r.states| - 1];
    }
  }

  // ---------------------------------------------------------------- errors without a text

  /** The method has run, and its response has been written. */
  function ResponseAt(v: S.Service, target: string, args: Bytes): State {
    var out := v.run(target, args);
    State(ClientSending(target, args, 1, C.ToUnlock),
          S.State([S.Request(1, target, args, S.Normal(S.AwaitSent, S.AtSent), S.ErrTextOf(out), 1)],
                  S.ReadingHeader, S.Free),
          [], [Header(1, "", S.ErrTextOf(out)), Body(out.reply)], true, true)
  }

  lemma MethodRuns(v: S.Service, names: iset<string>, target: string, args: Bytes) returns (r: Run)
    requires target in names && target in v.known
    ensures IsRunOver(v, names, r)
    ensures Last(r) == RequestAt(target, args).(
              server := S.State([S.Request(1, target, args, S.Normal(S.AwaitSent, S.Released),
                                           S.ErrTextOf(v.run(target, args)), 0)], S.ReadingHeader, S.Free),
              up := [])
  {
    hide C.Do, C.Enabled, ClientActionOf;
    r := RequestArrives(v, names, target, args);
    var s := RequestAt(target, args).(up := []);
    var q := S.Request(1, target, args, S.Normal(S.Waiting, S.Running), "", 0);
    r := Extend(v, names, r, ServerReadBody(true), s.(server := S.State([q], S.ReadingHeader, S.Free)));
    var q1 := q.(job := S.Normal(S.Waiting, S.AtCalled));
    r := Extend(v, names, r, ServerStep(S.MethodReturns(0)), s.(server := S.State([q1], S.ReadingHeader, S.Free)));
    var q2 := q.(job := S.Normal(S.AwaitSent, S.Released), errText := S.ErrTextOf(v.run(target, args)));
    r := Extend(v, names, r, ServerStep(S.MeetCalled(0)), s.(server := S.State([q2], S.ReadingHeader, S.Free)));
  }

  lemma ResponseWritten(v: S.Service, names: iset<string>, target: string, args: Bytes) returns (r: Run)
    requires target in names && target in v.known
    ensures IsRunOver(v, names, r) && Last(r) == ResponseAt(v, target, args)
  {
    hide C.Do, C.Enabled, ClientActionOf;
    r := MethodRuns(v, names, target, args);
    var out := v.run(target, args);
    var text := S.ErrTextOf(out);
    var s := RequestAt(target, args).(up := []);
    var q := S.Request(1, target, args, S.Normal(S.AwaitSent, S.Released), text, 1);
    var s1 := s.(server := S.State([q], S.ReadingHeader, S.Held(S.WorkerOf(0), false)));
    r := Extend(v, names, r, ServerStep(S.BeginSend(S.WorkerOf(0))), s1);
    var s2 := s.(server := S.State([q], S.ReadingHeader, S.Held(S.WorkerOf(0), true)), down := [Header(1, "", text)]);
    r := Extend(v, names, r, ServerHeader(true, true), s2);
    r := Extend(v, names, r, ServerBody(true, true), ResponseAt(v, target, args));
  }

  /** The response's header, without an error text, has been read and its call taken from the table. */
  function TakenAt(v: S.Service, target: string, args: Bytes): State {
    var s := ResponseAt(v, target, args);
    s.(client := s.client.(pending := map[], receiver := C.Removed(1, Some(0), "")),
       down := [Body(v.run(target, args).reply)])
  }

  lemma ResponseTaken(v: S.Service, names: iset<string>, target: string, args: Bytes) returns (r: Run)
    requires target in names && target in v.known && S.ErrTextOf(v.run(target, args)) == ""
    ensures IsRunOver(v, names, r) && Last(r) == TakenAt(v, target, args)
  {
    hide S.Do, S.Enabled, ServerActionOf;
    r := ResponseWritten(v, names, target, args);
    var s := ResponseAt(v, target, args);
    var c1 := s.client.(receiver := C.GotHeader(1, ""));
    r := Extend(v, names, r, ClientReadHeader, s.(client := c1, down := [Body(v.run(target, args).reply)]));
    r := Extend(v, names, r, ClientStep(C.RemoveReceived), TakenAt(v, target, args));
  }

  /** A response without an error text is received, and its call completes without an error. */
  lemma ResponseReceived(v: S.Service, names: iset<string>, target: string, args: Bytes) returns (r: Run)
    requires target in names && target in v.known && S.ErrTextOf(v.run(target, args)) == ""
    ensures IsRunOver(v, names, r)
    ensures Last(r).client.calls ==
            [C.Call(target, args, 1, C.ToUnlock, None, Some(v.run(target, args).reply), 1, false)]
  {
    hide S.Do, S.Enabled, ServerActionOf;
    r := ResponseTaken(v, names, target, args);
    var s := TakenAt(v, target, args);
    var x := s.client.calls[0].(reply := Some(v.run(target, args).reply));
    var c3 := s.client.(calls := [x], receiver := C.ToDone(0, true));
    r := Extend(v, names, r, ClientReadBody(true), s.(client := c3, down := []));
    var c4 := s.client.(calls := [x.(signals := 1)], receiver := C.Reading);
    r := Extend(v, names, r, ClientStep(C.SignalReceived), s.(client := c4, down := []));
  }

  /** Somewhere in the run a call with this method and these arguments is done and has no error. */
  ghost predicate SucceedsIn(r: Run, target: string, args: Bytes) {
    exists i: nat, id: nat :: i < |r.states| && id < |r.states[i].client.calls| &&
      Succeeded(r.states[i].client.calls[id], target, args)
  }

  predicate Succeeded(x: C.Call, target: string, args: Bytes) {
    x.target == target && x.args == args && x.signals > 0 && x.error.None?
  }

  /** A call can complete without an error if and only if its method leaves no error text: no error, or
      one whose text is empty. */
  lemma SuccessIffNoErrorText(v: S.Service, target: string, args: Bytes)
    requires target in v.known
    ensures (exists r: Run :: IsRun(v, r) && SucceedsIn(r, target, args)) <==>
              v.run(target, args).err == None || v.run(target, args).err == Some("")
  {
    hide Enabled, Do;
    if v.run(target, args).err == None || v.run(target, args).err == Some("") {
      var r := ResponseReceived(v, (iset name | name in v.known), target, args);
      var i := |r.states| - 1;
      assert Succeeded(r.states[i].client.calls[0], target, args);
      assert IsRun(v, r);
    }
    if r: Run :| IsRun(v, r) && SucceedsIn(r, target, args) {
      var i: nat, id: nat :| i < |r.states| && id < |r.states[i].client.calls| &&
        Succeeded(r.states[i].client.calls[id], target, args);
      RepliesMatchCalls(v, r, i, id);
    }
  }

  /** A method that fails with an empty text: the client sees a reply, no error, and one signal. */
  lemma EmptyErrorTextPassesForSuccess(v: S.Service, target: string, args: Bytes) returns (r: Run)
    requires target in v.known && v.run(target, args).err == Some("")
    ensures IsRun(v, r) && |Last(r).client.calls| == 1
    ensures var x := Last(r).client.calls[0];
            Succeeded(x, target, args) && x.signals == 1 && x.reply == Some(v.run(target, args).reply)
  {
    hide Enabled, Do;
    r := ResponseReceived(v, (iset name | name in v.known), target, args);
  }
}

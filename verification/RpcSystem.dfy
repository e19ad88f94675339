/** A client and a server joined by two FIFO streams of header and body items. A stream may be cut
    at any time; writes after that are lost. */
module RpcSystem {
  import opened Common
  import C = RpcClient
  import S = RpcServer

  /** err is only used towards the client. */
  datatype Item = Header(num: nat, target: string, err: string) | Body(payload: Bytes)

  datatype State = State(client: C.State, server: S.State,
                         up: seq<Item>, down: seq<Item>, upOpen: bool, downOpen: bool)

  datatype Action =
    | ClientStep(c: C.Action)                // everything but reading and writing the connection
    | ClientHeader(id: C.CallId, ok: bool, out: bool)  // out: the item reached the stream
    | ClientBody(id: C.CallId, ok: bool, out: bool)
    | ClientReadHeader
    | ClientReadBody(ok: bool)
    | ClientReadFails                        // the stream is cut and empty where a body is due
    | ServerStep(s: S.Action)
    | ServerHeader(ok: bool, out: bool)
    | ServerBody(ok: bool, out: bool)
    | ServerReadHeader
    | ServerReadBody(ok: bool)
    | ServerReadFails
    | CutUp(k: nat)
    | CutDown(k: nat)

  const Init := State(C.Init, S.Init, [], [], true, true)

  predicate ClientInternal(a: C.Action) {
    !a.EncodeHeader? && !a.EncodeBody? && !a.RecvHeader? && !a.RecvBody?
  }

  predicate ServerInternal(a: S.Action) {
    !a.EncodeHeader? && !a.EncodeBody? && !a.ReadHeader? && !a.ReadBody?
  }

  /** The item after a write: it reaches an open stream or is lost, and a failed write closes. */
  function Push(stream: seq<Item>, open: bool, item: Item, out: bool): seq<Item> {
    if open && out then stream + [item] else stream
  }

  // ---------------------------------------------------------------- what is written

  function RequestHeader(c: C.State, id: C.CallId): Item
    requires id < |c.calls|
  {
    Header(c.calls[id].num, c.calls[id].target, "")
  }

  function ResponseHeader(s: S.State): Item
    requires s.sending.Held? && S.AtSend(s, s.sending.party)
  {
    var r := s.reqs[S.RequestOf(s, s.sending.party)];
    Header(r.num, "", r.errText)
  }

  /** Only a worker sends a reply; the read loop and the timer send a placeholder. */
  function ResponseBody(v: S.Service, s: S.State): Item
    requires s.sending.Held? && S.AtSend(s, s.sending.party)
  {
    var r := s.reqs[S.RequestOf(s, s.sending.party)];
    if s.sending.party.WorkerOf? then Body(v.run(r.target, r.args).reply) else Body([])
  }

  function ClientActionOf(st: State, a: Action): C.Action {
    match a
    case ClientStep(c) => c
    case ClientHeader(id, ok, _) => C.EncodeHeader(id, ok)
    case ClientBody(id, ok, _) => C.EncodeBody(id, ok)
    case ClientReadHeader =>
      if st.down != [] && st.down[0].Header? then C.RecvHeader(st.down[0].num, st.down[0].err) else C.Close
    case ClientReadBody(ok) =>
      if st.down != [] && st.down[0].Body? then C.RecvBody(ok, st.down[0].payload) else C.Close
    case ClientReadFails => C.RecvBody(false, [])
    case ServerStep(_) => C.Close
    case ServerHeader(_, _) => C.Close
    case ServerBody(_, _) => C.Close
    case ServerReadHeader => C.Close
    case ServerReadBody(_) => C.Close
    case ServerReadFails => C.Close
    case CutUp(_) => C.Close
    case CutDown(_) => C.Close
  }

  function ServerActionOf(st: State, a: Action): S.Action {
    match a
    case ServerStep(s) => s
    case ServerHeader(ok, _) => S.EncodeHeader(ok)
    case ServerBody(ok, _) => S.EncodeBody(ok)
    case ServerReadHeader =>
      if st.up != [] && st.up[0].Header? then S.ReadHeader(st.up[0].num, st.up[0].target) else S.HeaderError
    case ServerReadBody(ok) =>
      if st.up != [] && st.up[0].Body? then S.ReadBody(ok, st.up[0].payload) else S.HeaderError
    case ServerReadFails => S.ReadBody(false, [])
    case ClientStep(_) => S.HeaderError
    case ClientHeader(_, _, _) => S.HeaderError
    case ClientBody(_, _, _) => S.HeaderError
    case ClientReadHeader => S.HeaderError
    case ClientReadBody(_) => S.HeaderError
    case ClientReadFails => S.HeaderError
    case CutUp(_) => S.HeaderError
    case CutDown(_) => S.HeaderError
  }

  predicate ByClient(a: Action) {
    a.ClientStep? || a.ClientHeader? || a.ClientBody? || a.ClientReadHeader? || a.ClientReadBody? || a.ClientReadFails?
  }

  predicate ByServer(a: Action) {
    a.ServerStep? || a.ServerHeader? || a.ServerBody? || a.ServerReadHeader? || a.ServerReadBody? || a.ServerReadFails?
  }

  predicate Enabled(v: S.Service, st: State, a: Action) {
    && (ByClient(a) ==> C.Enabled(st.client, ClientActionOf(st, a)))
    && (ByServer(a) ==> S.Enabled(v, st.server, ServerActionOf(st, a)))
    && match a
       case ClientStep(c) => ClientInternal(c)
       case ServerStep(s) => ServerInternal(s)
       case ClientHeader(_, ok, out) => ok ==> out
       case ClientBody(_, ok, out) => ok ==> out
       case ServerHeader(ok, out) => ok ==> out
       case ServerBody(ok, out) => ok ==> out
       case ClientReadHeader => st.down != [] && st.down[0].Header?
       case ClientReadBody(_) => st.down != [] && st.down[0].Body?
       case ClientReadFails => st.down == [] && !st.downOpen
       case ServerReadHeader => st.up != [] && st.up[0].Header?
       case ServerReadBody(_) => st.up != [] && st.up[0].Body?
       case ServerReadFails => st.up == [] && !st.upOpen
       case CutUp(k) => k <= |st.up|
       case CutDown(k) => k <= |st.down|
  }

  /** The step of the client or of the server, apart from the streams. */
  function Move(v: S.Service, st: State, a: Action): State
    requires Enabled(v, st, a)
  {
    if ByClient(a) then st.(client := C.Do(st.client, ClientActionOf(st, a)))
    else if ByServer(a) then st.(server := S.Do(v, st.server, ServerActionOf(st, a)))
    else st
  }

  function Do(v: S.Service, st: State, a: Action): State
    requires Enabled(v, st, a)
  {
    var next := Move(v, st, a);
    match a
    case ClientStep(_) => next
    case ServerStep(_) => next
    case ClientHeader(id, ok, out) =>
      next.(up := Push(st.up, st.upOpen, RequestHeader(st.client, id), out), upOpen := st.upOpen && ok)
    case ClientBody(id, ok, out) =>
      next.(up := Push(st.up, st.upOpen, Body(st.client.calls[id].args), out), upOpen := st.upOpen && ok)
    case ServerHeader(ok, out) =>
      next.(down := Push(st.down, st.downOpen, ResponseHeader(st.server), out), downOpen := st.downOpen && ok)
    case ServerBody(ok, out) =>
      next.(down := Push(st.down, st.downOpen, ResponseBody(v, st.server), out), downOpen := st.downOpen && ok)
    case ClientReadHeader => next.(down := st.down[1..])
    case ClientReadBody(_) => next.(down := st.down[1..])
    case ClientReadFails => next
    case ServerReadHeader => next.(up := st.up[1..])
    case ServerReadBody(_) => next.(up := st.up[1..])
    case ServerReadFails => next
    case CutUp(k) => next.(up := st.up[..k], upOpen := false)
    case CutDown(k) => next.(down := st.down[..k], downOpen := false)
  }

  // ---------------------------------------------------------------- what items mean

  /** The number was handed out, and the call it belongs to. */
  predicate Known(c: C.State, num: nat) {
    0 < num <= |c.regs| && c.regs[num - 1] < |c.calls|
  }

  function CallOf(c: C.State, num: nat): C.Call
    requires Known(c, num)
  {
    c.calls[c.regs[num - 1]]
  }

  /** The service succeeds on these arguments and leaves this reply, as the client can tell: a method
      error with an empty text looks like success. */
  predicate Answers(v: S.Service, target: string, args: Bytes, reply: Bytes) {
    S.ErrTextOf(v.run(target, args)) == "" && v.run(target, args).reply == reply
  }

  ghost predicate GoodRequestHeader(v: S.Service, c: C.State, h: Item) {
    h.Header? && h.err == "" && Known(c, h.num) && CallOf(c, h.num).target == h.target && h.target in v.known
  }

  /** A body following a request header carries that call's arguments. */
  ghost predicate GoodRequestBody(c: C.State, h: Item, b: Item) {
    b.Body? && h.Header? && Known(c, h.num) && b.payload == CallOf(c, h.num).args
  }

  /** Where an error text may come from: the method itself, the timer, or the read loop. */
  predicate Explained(v: S.Service, target: string, args: Bytes, text: string) {
    v.run(target, args).err == Some(text) || (v.timed && text == S.TIMEOUT_TEXT) || text == S.BAD_TEXT
  }

  ghost predicate GoodResponseHeader(v: S.Service, c: C.State, h: Item) {
    && h.Header? && Known(c, h.num)
    && (h.err != "" ==> Explained(v, CallOf(c, h.num).target, CallOf(c, h.num).args, h.err))
  }

  /** A body following a response header without error text is the reply to that call. */
  ghost predicate GoodResponseBody(v: S.Service, c: C.State, h: Item, b: Item) {
    && b.Body? && h.Header? && Known(c, h.num)
    && (h.err == "" ==> Answers(v, CallOf(c, h.num).target, CallOf(c, h.num).args, b.payload))
  }

  /** Headers and bodies alternate, starting with a header, and each body matches its header. */
  ghost predicate UpItemOk(v: S.Service, c: C.State, e: seq<Item>, i: nat)
    requires i < |e|
  {
    if i % 2 == 0 then GoodRequestHeader(v, c, e[i]) else GoodRequestBody(c, e[i - 1], e[i])
  }

  ghost predicate UpFrames(v: S.Service, c: C.State, e: seq<Item>) {
    forall i: nat :: i < |e| ==> UpItemOk(v, c, e, i)
  }

  lemma AppendUp(v: S.Service, c: C.State, e: seq<Item>, x: Item)
    requires UpFrames(v, c, e)
    requires |e| % 2 == 0 ==> GoodRequestHeader(v, c, x)
    requires |e| % 2 == 1 ==> GoodRequestBody(c, e[|e| - 1], x)
    ensures UpFrames(v, c, e + [x])
  {
    var f := e + [x];
    forall i: nat | i < |f| ensures UpItemOk(v, c, f, i) {
      if i < |e| {
        assert UpItemOk(v, c, e, i);
      }
    }
  }

  lemma DropUp(v: S.Service, c: C.State, e: seq<Item>)
    requires UpFrames(v, c, e) && |e| >= 2
    ensures UpFrames(v, c, e[2..])
  {
    var f := e[2..];
    forall i: nat | i < |f| ensures UpItemOk(v, c, f, i) {
      assert UpItemOk(v, c, e, i + 2) && (i + 2) % 2 == i % 2;
    }
  }

  lemma PrefixUp(v: S.Service, c: C.State, e: seq<Item>, f: seq<Item>)
    requires UpFrames(v, c, e) && f <= e
    ensures UpFrames(v, c, f)
  {
    forall i: nat | i < |f| ensures UpItemOk(v, c, f, i) {
      assert UpItemOk(v, c, e, i);
    }
  }

  ghost predicate DownItemOk(v: S.Service, c: C.State, e: seq<Item>, i: nat)
    requires i < |e|
  {
    if i % 2 == 0 then GoodResponseHeader(v, c, e[i]) else GoodResponseBody(v, c, e[i - 1], e[i])
  }

  ghost predicate DownFrames(v: S.Service, c: C.State, e: seq<Item>) {
    forall i: nat :: i < |e| ==> DownItemOk(v, c, e, i)
  }

  lemma AppendDown(v: S.Service, c: C.State, e: seq<Item>, x: Item)
    requires DownFrames(v, c, e)
    requires |e| % 2 == 0 ==> GoodResponseHeader(v, c, x)
    requires |e| % 2 == 1 ==> GoodResponseBody(v, c, e[|e| - 1], x)
    ensures DownFrames(v, c, e + [x])
  {
    var f := e + [x];
    forall i: nat | i < |f| ensures DownItemOk(v, c, f, i) {
      if i < |e| {
        assert DownItemOk(v, c, e, i);
      }
    }
  }

  lemma DropDown(v: S.Service, c: C.State, e: seq<Item>)
    requires DownFrames(v, c, e) && |e| >= 2
    ensures DownFrames(v, c, e[2..])
  {
    var f := e[2..];
    forall i: nat | i < |f| ensures DownItemOk(v, c, f, i) {
      assert DownItemOk(v, c, e, i + 2) && (i + 2) % 2 == i % 2;
    }
  }

  lemma PrefixDown(v: S.Service, c: C.State, e: seq<Item>, f: seq<Item>)
    requires DownFrames(v, c, e) && f <= e
    ensures DownFrames(v, c, f)
  {
    forall i: nat | i < |f| ensures DownItemOk(v, c, f, i) {
      assert DownItemOk(v, c, e, i);
    }
  }

  /** The numbers handed out so far keep their calls. */
  ghost predicate Extends(c: C.State, d: C.State) {
    && c.regs <= d.regs && |c.calls| <= |d.calls|
    && (forall i :: 0 <= i < |c.calls| ==>
          d.calls[i].target == c.calls[i].target && d.calls[i].args == c.calls[i].args)
  }

  lemma ClientExtends(c: C.State, a: C.Action)
    requires C.Enabled(c, a)
    ensures Extends(c, C.Do(c, a))
  {
    hide C.Do, C.Enabled;
    var d := C.Do(c, a);
    C.CallsKept(c, a);
    forall i | 0 <= i < |c.calls|
      ensures d.calls[i].target == c.calls[i].target && d.calls[i].args == c.calls[i].args
    {
      assert C.CallKept(c, d, i, a.Register?);
    }
    if a.Register? {
      RegsGrow(c, a);
    } else {
      C.TableFrame(c, a);
    }
  }

  lemma RegsGrow(c: C.State, a: C.Action)
    requires C.Enabled(c, a) && a.Register?
    ensures c.regs <= C.Do(c, a).regs
  {
  }

  lemma KnownExtends(c: C.State, d: C.State, num: nat)
    requires Extends(c, d) && Known(c, num)
    ensures Known(d, num)
    ensures CallOf(d, num).target == CallOf(c, num).target && CallOf(d, num).args == CallOf(c, num).args
  {
    assert d.regs[num - 1] == c.regs[num - 1];
  }

  lemma UpExtends(v: S.Service, c: C.State, d: C.State, e: seq<Item>)
    requires Extends(c, d) && UpFrames(v, c, e)
    ensures UpFrames(v, d, e)
  {
    forall i: nat | i < |e| ensures UpItemOk(v, d, e, i) {
      assert UpItemOk(v, c, e, i);
      KnownExtends(c, d, if i % 2 == 0 then e[i].num else e[i - 1].num);
    }
  }

  lemma DownExtends(v: S.Service, c: C.State, d: C.State, e: seq<Item>)
    requires Extends(c, d) && DownFrames(v, c, e)
    ensures DownFrames(v, d, e)
  {
    forall i: nat | i < |e| ensures DownItemOk(v, d, e, i) {
      assert DownItemOk(v, c, e, i);
      KnownExtends(c, d, if i % 2 == 0 then e[i].num else e[i - 1].num);
    }
  }

  // ---------------------------------------------------------------- invariant

  /** A header that was read and whose body has not been. */
  function HalfReadUp(s: S.State): seq<Item> {
    if s.reader.GotHeader? && s.reqs != [] then
      [Header(s.reqs[|s.reqs| - 1].num, s.reqs[|s.reqs| - 1].target, "")]
    else []
  }

  function HalfReadDown(c: C.State): seq<Item> {
    match c.receiver
    case GotHeader(num, err) => [Header(num, "", err)]
    case Removed(num, _, err) => [Header(num, "", err)]
    case Reading => []
    case ToDone(_, _) => []
    case NeedSending => []
    case NeedMu => []
    case Notifying(_) => []
    case Stopped => []
  }

  function UpItems(st: State): seq<Item> { HalfReadUp(st.server) + st.up }

  function DownItems(st: State): seq<Item> { HalfReadDown(st.client) + st.down }

  /** The call whose header is out and whose body is not. */
  function UpWriter(c: C.State): Option<C.CallId> {
    if c.sending.HeldBy? && c.sending.call < |c.calls| && c.calls[c.sending.call].sender.HeaderOut?
    then Some(c.sending.call) else None
  }

  /** On an open stream the last item is a lone header exactly while its writer is between the two. */
  ghost predicate UpTail(st: State) {
    st.upOpen ==>
      var e := UpItems(st);
      match UpWriter(st.client)
      case None => |e| % 2 == 0
      case Some(c) =>
        |e| % 2 == 1 && c < |st.client.calls| && e[|e| - 1].Header? && e[|e| - 1].num == st.client.calls[c].num
  }

  ghost predicate DownTail(st: State) {
    st.downOpen ==>
      var e, s := DownItems(st), st.server;
      if s.sending.Held? && s.sending.headerOut then
        && S.AtSend(s, s.sending.party)
        && |e| % 2 == 1 && e[|e| - 1].Header?
        && var r := s.reqs[S.RequestOf(s, s.sending.party)];
           e[|e| - 1].num == r.num && e[|e| - 1].err == r.errText
      else |e| % 2 == 0
  }

  /** The server's requests are the client's calls. */
  ghost predicate RequestOk(v: S.Service, c: C.State, r: S.Request) {
    && Known(c, r.num) && CallOf(c, r.num).target == r.target && r.target in v.known
    && (r.job.Normal? ==> r.args == CallOf(c, r.num).args)
    && (r.job == S.Normal(S.AwaitSent, S.Released) ==> r.errText == S.ErrTextOf(v.run(r.target, r.args)))
    && (r.errText != "" ==> Explained(v, r.target, CallOf(c, r.num).args, r.errText))
  }

  ghost predicate RequestsOk(v: S.Service, c: C.State, s: S.State) {
    forall i :: 0 <= i < |s.reqs| ==> RequestOk(v, c, s.reqs[i])
  }

  /** A filled-in reply answers its own call. */
  ghost predicate ReplyOk(v: S.Service, x: C.Call) {
    && x.target in v.known
    && (x.reply.Some? ==> Answers(v, x.target, x.args, x.reply.value))
    && (x.error.Some? && x.error.value.ServerError? ==> Explained(v, x.target, x.args, x.error.value.text))
  }

  ghost predicate RepliesOk(v: S.Service, c: C.State) {
    forall i :: 0 <= i < |c.calls| ==> ReplyOk(v, c.calls[i])
  }

  ghost predicate Inv(v: S.Service, st: State) {
    && C.Inv(st.client) && S.Inv(st.server)
    && RequestsOk(v, st.client, st.server)
    && RepliesOk(v, st.client)
    && UpFrames(v, st.client, UpItems(st)) && UpTail(st)
    && DownFrames(v, st.client, DownItems(st)) && DownTail(st)
  }

  /** Calls name registered methods only. */
  predicate NamesKnown(v: S.Service, a: Action) {
    a.ClientStep? && a.c.NewCall? ==> a.c.target in v.known
  }

  // ---------------------------------------------------------------- client steps

  lemma RequestsExtend(v: S.Service, c: C.State, d: C.State, s: S.State)
    requires Extends(c, d) && RequestsOk(v, c, s)
    ensures RequestsOk(v, d, s)
  {
    forall i | 0 <= i < |s.reqs| ensures RequestOk(v, d, s.reqs[i]) {
      assert RequestOk(v, c, s.reqs[i]);
      KnownExtends(c, d, s.reqs[i].num);
    }
  }

  /** Replies are filled in by RecvBody only. */
  lemma RepliesKept(v: S.Service, c: C.State, a: C.Action)
    requires C.Enabled(c, a) && RepliesOk(v, c) && !a.RecvBody? && !a.NewCall?
    ensures RepliesOk(v, C.Do(c, a))
  {
    var d := C.Do(c, a);
    assert |d.calls| == |c.calls|;
    forall i | 0 <= i < |d.calls| ensures ReplyOk(v, d.calls[i]) {
      assert ReplyOk(v, c.calls[i]);
      assert d.calls[i].reply == c.calls[i].reply && d.calls[i].target == c.calls[i].target
        && d.calls[i].args == c.calls[i].args;
    }
  }

  lemma RepliesWithNewCall(v: S.Service, c: C.State, a: C.Action)
    requires RepliesOk(v, c) && a.NewCall? && a.target in v.known
    ensures RepliesOk(v, C.Do(c, a))
  {
  }

  lemma RepliesWithBody(v: S.Service, c: C.State, a: C.Action)
    requires C.Enabled(c, a) && RepliesOk(v, c) && a.RecvBody?
    requires c.receiver.call.Some? && c.receiver.err == "" && a.ok ==>
               var x := c.calls[c.receiver.call.value]; Answers(v, x.target, x.args, a.value)
    requires c.receiver.call.Some? && c.receiver.err != "" ==>
               var x := c.calls[c.receiver.call.value]; Explained(v, x.target, x.args, c.receiver.err)
    ensures RepliesOk(v, C.Do(c, a))
  {
    var d := C.Do(c, a);
    forall i | 0 <= i < |d.calls| ensures ReplyOk(v, d.calls[i]) {
      assert ReplyOk(v, c.calls[i]);
    }
  }

  lemma InternalKeepsHalves(c: C.State, a: C.Action)
    requires C.Inv(c) && C.Enabled(c, a) && ClientInternal(a)
    ensures HalfReadDown(C.Do(c, a)) == HalfReadDown(c)
  {
  }

  /** Of C.Inv, the part about the lock sending. */
  ghost predicate HolderSends(c: C.State) {
    && (forall id: C.CallId :: id < |c.calls| ==> (C.HoldsSending(c.calls[id]) <==> c.sending == C.HeldBy(id)))
    && (c.sending.HeldBy? ==> c.sending.call < |c.calls|)
    && (c.receiver.Notifying? ==> c.sending.HeldByReceiver?)
  }

  lemma InvHolderSends(c: C.State)
    requires C.Inv(c)
    ensures HolderSends(c)
  {
    forall id: C.CallId | id < |c.calls| ensures C.HoldsSending(c.calls[id]) <==> c.sending == C.HeldBy(id) {
      assert C.CallOk(c, id);
    }
  }

  /** The writer is the same and still has its number. */
  ghost predicate SameWriter(c: C.State, d: C.State) {
    && UpWriter(d) == UpWriter(c)
    && (UpWriter(c).Some? ==>
          var id := UpWriter(c).value;
          id < |c.calls| && id < |d.calls| && d.calls[id].num == c.calls[id].num)
  }

  lemma SenderKeepsWriter(c: C.State, a: C.Action)
    requires HolderSends(c) && C.Enabled(c, a) && ClientInternal(a) && (C.BySender(a) || a.Register? || a.TakeBack?)
    ensures SameWriter(c, C.Do(c, a))
  {
    hide C.Lookup;
  }

  lemma ReceiverKeepsWriter(c: C.State, a: C.Action)
    requires HolderSends(c) && C.Enabled(c, a) && !C.BySender(a) && !a.Register? && !a.TakeBack?
    requires !a.RecvBody? && !a.SignalReceived? && !a.Notify? && !a.RemoveByUser?
    ensures SameWriter(c, C.Do(c, a))
  {
    hide C.HoldsSending;
  }

  lemma BodyKeepsWriter(c: C.State, a: C.Action)
    requires HolderSends(c) && C.Enabled(c, a) && a.RecvBody?
    ensures SameWriter(c, C.Do(c, a))
  {
    hide C.HoldsSending;
  }

  lemma DeliveryKeepsWriter(c: C.State, a: C.Action)
    requires HolderSends(c) && C.Enabled(c, a) && (a.SignalReceived? || a.Notify? || a.RemoveByUser?)
    ensures SameWriter(c, C.Do(c, a))
  {
    hide C.HoldsSending;
  }

  lemma InternalKeepsWriter(c: C.State, a: C.Action)
    requires C.Inv(c) && C.Enabled(c, a) && (ClientInternal(a) || a.RecvHeader? || a.RecvBody?)
    ensures SameWriter(c, C.Do(c, a))
  {
    hide C.Inv, C.Enabled, C.Do, SameWriter;
    InvHolderSends(c);
    if C.BySender(a) || a.Register? || a.TakeBack? {
      SenderKeepsWriter(c, a);
    } else if a.RecvBody? {
      BodyKeepsWriter(c, a);
    } else if a.SignalReceived? || a.Notify? || a.RemoveByUser? {
      DeliveryKeepsWriter(c, a);
    } else {
      ReceiverKeepsWriter(c, a);
    }
  }

  lemma InternalKeepsInv(v: S.Service, st: State, ca: C.Action)
    requires Inv(v, st) && C.Enabled(st.client, ca) && ClientInternal(ca)
    requires ca.NewCall? ==> ca.target in v.known
    ensures Inv(v, st.(client := C.Do(st.client, ca)))
  {
    hide C.Do, C.Inv, S.Inv, C.Enabled, RequestsOk, RepliesOk, UpFrames, DownFrames, UpTail, DownTail, SameWriter;
    var c, d := st.client, C.Do(st.client, ca);
    var st' := st.(client := d);
    C.InvStep(c, ca);
    ClientExtends(c, ca);
    UpExtends(v, c, d, UpItems(st));
    DownExtends(v, c, d, DownItems(st));
    RequestsExtend(v, c, d, st.server);
    InternalKeepsHalves(c, ca);
    InternalKeepsWriter(c, ca);
    UpTailSame(st, st');
    DownTailSame(st, st');
    if ca.NewCall? {
      RepliesWithNewCall(v, c, ca);
    } else {
      RepliesKept(v, c, ca);
    }
  }

  lemma ClientInternalStep(v: S.Service, st: State, a: Action)
    requires Inv(v, st) && Enabled(v, st, a) && a.ClientStep? && NamesKnown(v, a)
    ensures Inv(v, Do(v, st, a))
  {
    hide Inv, C.Do, C.Enabled;
    InternalKeepsInv(v, st, a.c);
  }

  /** A write step of a sender: what it does to the client, apart from the stream. */
  lemma SenderWrites(v: S.Service, c: C.State, a: C.Action)
    requires C.Inv(c) && RepliesOk(v, c) && C.Enabled(c, a) && (a.EncodeHeader? || a.EncodeBody?)
    ensures C.Inv(C.Do(c, a)) && RepliesOk(v, C.Do(c, a)) && Extends(c, C.Do(c, a))
    ensures HalfReadDown(C.Do(c, a)) == HalfReadDown(c)
    ensures a.c < |c.calls| && Known(c, c.calls[a.c].num) && CallOf(c, c.calls[a.c].num) == c.calls[a.c]
    ensures UpWriter(c) == if a.EncodeHeader? then None else Some(a.c)
    ensures UpWriter(C.Do(c, a)) == if a.EncodeHeader? && a.ok then Some(a.c) else None
    ensures a.c < |C.Do(c, a).calls| && C.Do(c, a).calls[a.c].num == c.calls[a.c].num
  {
    C.InvStep(c, a);
    ClientExtends(c, a);
    RepliesKept(v, c, a);
    assert C.CallOk(c, a.c);
    assert C.RegOk(c, c.calls[a.c].num - 1);
  }

  lemma HeaderWriteKeepsInv(v: S.Service, st: State, ca: C.Action, out: bool)
    requires Inv(v, st) && ca.EncodeHeader? && C.Enabled(st.client, ca) && ca.c < |st.client.calls| && (ca.ok ==> out)
    ensures Inv(v, st.(client := C.Do(st.client, ca), upOpen := st.upOpen && ca.ok,
                       up := Push(st.up, st.upOpen, RequestHeader(st.client, ca.c), out)))
  {
    hide C.Do, C.Inv, S.Inv, C.Enabled, RequestsOk, UpFrames, DownFrames, UpWriter, DownTail;
    var c, d := st.client, C.Do(st.client, ca);
    var st' := st.(client := d, upOpen := st.upOpen && ca.ok, up := Push(st.up, st.upOpen, RequestHeader(c, ca.c), out));
    SenderWrites(v, c, ca);
    RequestsExtend(v, c, d, st.server);
    DownExtends(v, c, d, DownItems(st));
    DownTailSame(st, st');
    assert ReplyOk(v, c.calls[ca.c]);
    if st.upOpen && out {
      AppendUp(v, c, UpItems(st), RequestHeader(c, ca.c));
      assert UpItems(st') == UpItems(st) + [RequestHeader(c, ca.c)];
    }
    UpExtends(v, c, d, UpItems(st'));
  }

  lemma ClientHeaderStep(v: S.Service, st: State, a: Action)
    requires Inv(v, st) && Enabled(v, st, a) && a.ClientHeader?
    ensures Inv(v, Do(v, st, a))
  {
    hide Inv, C.Do;
    HeaderWriteKeepsInv(v, st, C.EncodeHeader(a.id, a.ok), a.out);
  }

  lemma BodyWriteKeepsInv(v: S.Service, st: State, ca: C.Action, out: bool)
    requires Inv(v, st) && ca.EncodeBody? && C.Enabled(st.client, ca) && ca.c < |st.client.calls| && (ca.ok ==> out)
    ensures Inv(v, st.(client := C.Do(st.client, ca), upOpen := st.upOpen && ca.ok,
                       up := Push(st.up, st.upOpen, Body(st.client.calls[ca.c].args), out)))
  {
    hide C.Do, C.Inv, S.Inv, C.Enabled, RequestsOk, RepliesOk, UpFrames, DownFrames, UpWriter, DownTail;
    var c, d := st.client, C.Do(st.client, ca);
    var st' := st.(client := d, upOpen := st.upOpen && ca.ok, up := Push(st.up, st.upOpen, Body(c.calls[ca.c].args), out));
    SenderWrites(v, c, ca);
    RequestsExtend(v, c, d, st.server);
    DownExtends(v, c, d, DownItems(st));
    DownTailSame(st, st');
    if st.upOpen && out {
      AppendUp(v, c, UpItems(st), Body(c.calls[ca.c].args));
      assert UpItems(st') == UpItems(st) + [Body(c.calls[ca.c].args)];
    }
    UpExtends(v, c, d, UpItems(st'));
  }

  lemma ClientBodyStep(v: S.Service, st: State, a: Action)
    requires Inv(v, st) && Enabled(v, st, a) && a.ClientBody?
    ensures Inv(v, Do(v, st, a))
  {
    hide Inv, C.Do;
    BodyWriteKeepsInv(v, st, C.EncodeBody(a.id, a.ok), a.out);
  }

  lemma HeaderArrives(c: C.State, a: C.Action)
    requires C.Enabled(c, a) && a.RecvHeader?
    ensures HalfReadDown(c) == []
    ensures HalfReadDown(C.Do(c, a)) == [Header(a.num, "", a.err)]
  {
  }

  lemma HeaderReadKeepsDown(v: S.Service, st: State, st': State)
    requires DownFrames(v, st.client, DownItems(st)) && DownTail(st) && st.down != [] && st.down[0].Header?
    requires HalfReadDown(st.client) == []
    requires HalfReadDown(st'.client) == [Header(st.down[0].num, "", st.down[0].err)]
    requires st'.down == st.down[1..] && st'.server == st.server && st'.downOpen == st.downOpen
    ensures DownFrames(v, st.client, DownItems(st')) && DownTail(st')
  {
    hide DownFrames, DownTail;
    var e, f := DownItems(st), DownItems(st');
    assert e == st.down && f == [f[0]] + e[1..];
    SameMeaning(v, st.client, e, f[0]);
    assert |e| > 1 ==> f[|f| - 1] == e[|e| - 1];
    DownTailKept(st, st');
  }

  lemma HeaderReadKeepsInv(v: S.Service, st: State, ca: C.Action)
    requires Inv(v, st) && st.down != [] && st.down[0].Header?
    requires ca == C.RecvHeader(st.down[0].num, st.down[0].err) && C.Enabled(st.client, ca)
    ensures Inv(v, st.(client := C.Do(st.client, ca), down := st.down[1..]))
  {
    hide C.Inv, S.Inv, C.Do, C.Enabled, DownTail, RequestsOk, RepliesOk, UpFrames, DownFrames, UpWriter, UpTail;
    var c, d := st.client, C.Do(st.client, ca);
    var st' := st.(client := d, down := st.down[1..]);
    C.InvStep(c, ca);
    HeaderArrives(c, ca);
    RepliesKept(v, c, ca);
    InternalKeepsWriter(c, ca);
    ClientExtends(c, ca);
    RequestsExtend(v, c, d, st.server);
    UpExtends(v, c, d, UpItems(st));
    UpTailSame(st, st');
    HeaderReadKeepsDown(v, st, st');
    DownExtends(v, c, d, DownItems(st'));
  }

  lemma ClientReadHeaderStep(v: S.Service, st: State, a: Action)
    requires Inv(v, st) && Enabled(v, st, a) && a.ClientReadHeader?
    ensures Inv(v, Do(v, st, a))
  {
    hide Inv, C.Do, C.Enabled;
    HeaderReadKeepsInv(v, st, ClientActionOf(st, a));
  }

  /** The tail conditions look at their own side only. */
  lemma DownTailSame(st: State, st': State)
    requires DownTail(st) && st'.server == st.server && st'.downOpen == st.downOpen && DownItems(st') == DownItems(st)
    ensures DownTail(st')
  {
  }

  lemma UpTailSame(st: State, st': State)
    requires UpTail(st) && st'.upOpen == st.upOpen && UpItems(st') == UpItems(st)
    requires SameWriter(st.client, st'.client)
    ensures UpTail(st')
  {
  }

  /** The tail condition looks at the length and the last item only. */
  lemma DownTailKept(st: State, st': State)
    requires DownTail(st) && st'.server == st.server && st'.downOpen == st.downOpen
    requires |DownItems(st)| == |DownItems(st')| > 0
    requires var e, f := DownItems(st)[|DownItems(st)| - 1], DownItems(st')[|DownItems(st')| - 1];
             e == f || (e.Header? && f.Header? && e.num == f.num && e.err == f.err)
    ensures DownTail(st')
  {
  }

  /** Of a response header only its number and its error text matter. */
  lemma SameMeaning(v: S.Service, c: C.State, e: seq<Item>, h: Item)
    requires DownFrames(v, c, e) && e != [] && e[0].Header? && h.Header?
    requires h.num == e[0].num && h.err == e[0].err
    ensures DownFrames(v, c, [h] + e[1..])
  {
    var f := [h] + e[1..];
    forall i: nat | i < |f| ensures DownItemOk(v, c, f, i) {
      assert DownItemOk(v, c, e, i);
    }
  }

  /** The body due next answers the call that was taken out of the table. */
  lemma BodyAnswers(v: S.Service, st: State, ca: C.Action)
    requires Inv(v, st) && st.down != [] && C.Enabled(st.client, ca) && ca.RecvBody?
    ensures st.client.receiver.Removed?
    ensures st.client.receiver.call.Some? && st.client.receiver.err == "" ==>
              && st.client.receiver.call.value < |st.client.calls| && st.down[0].Body?
              && var x := st.client.calls[st.client.receiver.call.value];
                 Answers(v, x.target, x.args, st.down[0].payload)
  {
    hide C.Inv, S.Inv, UpFrames, RequestsOk, RepliesOk, UpTail, DownTail;
    var c, e := st.client, DownItems(st);
    if c.receiver.call.Some? && c.receiver.err == "" {
      assert DownItemOk(v, c, e, 1) && e[1] == st.down[0];
      ReceivedCall(c);
    }
  }

  /** The error text at hand belongs to the call that was taken out of the table. */
  lemma TextExplained(v: S.Service, st: State)
    requires Inv(v, st) && st.client.receiver.Removed? && st.client.receiver.call.Some?
    requires st.client.receiver.err != ""
    ensures st.client.receiver.call.value < |st.client.calls|
    ensures var x := st.client.calls[st.client.receiver.call.value];
            Explained(v, x.target, x.args, st.client.receiver.err)
  {
    hide C.Inv, S.Inv, UpFrames, RequestsOk, RepliesOk, UpTail, DownTail, Explained;
    assert DownItemOk(v, st.client, DownItems(st), 0);
    ReceivedCall(st.client);
  }

  lemma ReceiveEnds(c: C.State, a: C.Action)
    requires C.Enabled(c, a) && a.RecvBody?
    ensures HalfReadDown(C.Do(c, a)) == [] && |HalfReadDown(c)| == 1
  {
  }

  lemma BodyReadKeepsInv(v: S.Service, st: State, ca: C.Action)
    requires Inv(v, st) && st.down != [] && st.down[0].Body? && C.Enabled(st.client, ca)
    requires ca.RecvBody? && ca.value == st.down[0].payload
    ensures Inv(v, st.(client := C.Do(st.client, ca), down := st.down[1..]))
  {
    hide C.Inv, S.Inv, C.Do, C.Enabled, RequestsOk, RepliesOk, UpFrames, DownFrames, UpTail, UpWriter;
    var c, d, e := st.client, C.Do(st.client, ca), DownItems(st);
    var st' := st.(client := d, down := st.down[1..]);
    C.InvStep(c, ca);
    ReceiveEnds(c, ca);
    BodyAnswers(v, st, ca);
    if c.receiver.call.Some? && c.receiver.err != "" {
      TextExplained(v, st);
    }
    RepliesWithBody(v, c, ca);
    InternalKeepsWriter(c, ca);
    ClientExtends(c, ca);
    RequestsExtend(v, c, d, st.server);
    UpExtends(v, c, d, UpItems(st));
    UpTailSame(st, st');
    DropDown(v, c, e);
    assert e[2..] == DownItems(st');
    DownExtends(v, c, d, e[2..]);
  }

  lemma ClientReadBodyStep(v: S.Service, st: State, a: Action)
    requires Inv(v, st) && Enabled(v, st, a) && a.ClientReadBody?
    ensures Inv(v, Do(v, st, a))
  {
    hide Inv, C.Do, C.Enabled;
    BodyReadKeepsInv(v, st, ClientActionOf(st, a));
  }

  lemma ReceivedCall(c: C.State)
    requires C.Inv(c) && c.receiver.Removed? && c.receiver.call.Some?
    ensures Known(c, c.receiver.num) && c.receiver.call.value < |c.calls|
    ensures CallOf(c, c.receiver.num) == c.calls[c.receiver.call.value]
  {
  }

  lemma RemovedNow(c: C.State, a: C.Action)
    requires C.Enabled(c, a) && a.RecvBody?
    ensures c.receiver.Removed?
  {
  }

  lemma BodyMissingKeepsInv(v: S.Service, st: State, ca: C.Action)
    requires Inv(v, st) && st.down == [] && !st.downOpen && C.Enabled(st.client, ca) && ca == C.RecvBody(false, [])
    ensures Inv(v, st.(client := C.Do(st.client, ca)))
  {
    hide C.Inv, S.Inv, C.Do, C.Enabled, RequestsOk, RepliesOk, UpFrames, UpTail, UpWriter, SameWriter;
    var c, d := st.client, C.Do(st.client, ca);
    var st' := st.(client := d);
    C.InvStep(c, ca);
    ReceiveEnds(c, ca);
    RemovedNow(c, ca);
    if c.receiver.call.Some? && c.receiver.err != "" {
      TextExplained(v, st);
    }
    RepliesWithBody(v, c, ca);
    InternalKeepsWriter(c, ca);
    ClientExtends(c, ca);
    RequestsExtend(v, c, d, st.server);
    UpExtends(v, c, d, UpItems(st));
    UpTailSame(st, st');
    assert DownItems(st') == [];
  }

  lemma ClientReadFailsStep(v: S.Service, st: State, a: Action)
    requires Inv(v, st) && Enabled(v, st, a) && a.ClientReadFails?
    ensures Inv(v, Do(v, st, a))
  {
    hide Inv, C.Do, C.Enabled;
    BodyMissingKeepsInv(v, st, C.RecvBody(false, []));
  }

  // ---------------------------------------------------------------- server steps

  /** Requests after a step that neither reads nor adds one. */
  lemma RequestsKept(v: S.Service, c: C.State, s: S.State, a: S.Action)
    requires S.Enabled(v, s, a) && RequestsOk(v, c, s) && !a.ReadHeader? && !a.ReadBody?
    ensures RequestsOk(v, c, S.Do(v, s, a))
  {
    var t := S.Do(v, s, a);
    assert |t.reqs| == |s.reqs|;
    forall i | 0 <= i < |t.reqs| ensures RequestOk(v, c, t.reqs[i]) {
      assert RequestOk(v, c, s.reqs[i]);
    }
  }

  lemma NoUnknown(v: S.Service, c: C.State, s: S.State, a: S.Action)
    requires S.Enabled(v, s, a) && RequestsOk(v, c, s)
    ensures !a.RejectUnknown?
  {
  }

  lemma ServerKeepsHalves(v: S.Service, s: S.State, a: S.Action)
    requires S.Inv(s) && S.Enabled(v, s, a) && !a.RejectUnknown? && !a.ReadHeader? && !a.ReadBody?
    ensures HalfReadUp(S.Do(v, s, a)) == HalfReadUp(s)
  {
  }

  /** An internal step leaves a response in progress as it is. */
  lemma InternalKeepsResponse(v: S.Service, s: S.State, a: S.Action)
    requires S.Inv(s) && S.Enabled(v, s, a) && ServerInternal(a)
    requires s.sending.Held? && s.sending.headerOut
    ensures var t := S.Do(v, s, a);
            && t.sending == s.sending && S.AtSend(t, t.sending.party)
            && var i := S.RequestOf(s, s.sending.party);
               S.RequestOf(t, t.sending.party) == i
               && t.reqs[i].num == s.reqs[i].num && t.reqs[i].errText == s.reqs[i].errText
  {
    assert S.RequestOk(s, S.RequestOf(s, s.sending.party));
  }

  lemma InternalKeepsIdle(v: S.Service, s: S.State, a: S.Action)
    requires S.Enabled(v, s, a) && ServerInternal(a)
    requires !(s.sending.Held? && s.sending.headerOut)
    ensures var t := S.Do(v, s, a); !(t.sending.Held? && t.sending.headerOut)
  {
  }

  lemma ServerInternalStep(v: S.Service, st: State, a: S.Action)
    requires Inv(v, st) && S.Enabled(v, st.server, a) && ServerInternal(a)
    ensures Inv(v, st.(server := S.Do(v, st.server, a)))
  {
    hide C.Inv, S.Inv, S.Do, S.Enabled;
    var s := st.server;
    S.InvStep(v, s, a);
    NoUnknown(v, st.client, s, a);
    RequestsKept(v, st.client, s, a);
    ServerKeepsHalves(v, s, a);
    if s.sending.Held? && s.sending.headerOut {
      InternalKeepsResponse(v, s, a);
    } else {
      InternalKeepsIdle(v, s, a);
    }
  }

  /** The request being answered, and what S.Inv and the request invariant say of it. */
  lemma Answering(v: S.Service, c: C.State, s: S.State)
    requires S.Inv(s) && RequestsOk(v, c, s) && s.sending.Held?
    ensures S.AtSend(s, s.sending.party)
    ensures var r := s.reqs[S.RequestOf(s, s.sending.party)];
            && RequestOk(v, c, r)
            && (r.errText == "" ==> s.sending.party.WorkerOf? && S.ErrTextOf(v.run(r.target, r.args)) == ""
                                    && r.args == CallOf(c, r.num).args)
  {
    var i := S.RequestOf(s, s.sending.party);
    assert S.RequestOk(s, i) && RequestOk(v, c, s.reqs[i]);
  }

  lemma EncodedHeader(v: S.Service, s: S.State, ok: bool)
    requires S.Inv(s) && S.Enabled(v, s, S.EncodeHeader(ok))
    ensures var t := S.Do(v, s, S.EncodeHeader(ok));
            if ok then t == s.(sending := S.Held(s.sending.party, true)) else t.sending.Free?
  {
  }

  lemma EncodedBody(v: S.Service, s: S.State, ok: bool)
    requires S.Inv(s) && S.Enabled(v, s, S.EncodeBody(ok))
    ensures S.Do(v, s, S.EncodeBody(ok)).sending.Free?
  {
  }

  lemma ServerHeaderStep(v: S.Service, st: State, ok: bool, out: bool)
    requires Inv(v, st) && S.Enabled(v, st.server, S.EncodeHeader(ok)) && (ok ==> out)
    ensures st.server.sending.Held? && S.AtSend(st.server, st.server.sending.party)
    ensures Inv(v, st.(server := S.Do(v, st.server, S.EncodeHeader(ok)),
                       down := Push(st.down, st.downOpen, ResponseHeader(st.server), out),
                       downOpen := st.downOpen && ok))
  {
    hide C.Inv, S.Inv, S.Do;
    var s, a := st.server, S.EncodeHeader(ok);
    Answering(v, st.client, s);
    var st' := st.(server := S.Do(v, s, a), down := Push(st.down, st.downOpen, ResponseHeader(s), out),
                   downOpen := st.downOpen && ok);
    S.InvStep(v, s, a);
    RequestsKept(v, st.client, s, a);
    ServerKeepsHalves(v, s, a);
    EncodedHeader(v, s, ok);
    if st.downOpen && out {
      AppendDown(v, st.client, DownItems(st), ResponseHeader(s));
      assert DownItems(st') == DownItems(st) + [ResponseHeader(s)];
    }
  }

  lemma ServerBodyStep(v: S.Service, st: State, ok: bool, out: bool)
    requires Inv(v, st) && S.Enabled(v, st.server, S.EncodeBody(ok)) && (ok ==> out)
    ensures st.server.sending.Held? && S.AtSend(st.server, st.server.sending.party)
    ensures Inv(v, st.(server := S.Do(v, st.server, S.EncodeBody(ok)),
                       down := Push(st.down, st.downOpen, ResponseBody(v, st.server), out),
                       downOpen := st.downOpen && ok))
  {
    hide C.Inv, S.Inv, S.Do;
    var s, a := st.server, S.EncodeBody(ok);
    Answering(v, st.client, s);
    var st' := st.(server := S.Do(v, s, a), down := Push(st.down, st.downOpen, ResponseBody(v, s), out),
                   downOpen := st.downOpen && ok);
    S.InvStep(v, s, a);
    RequestsKept(v, st.client, s, a);
    ServerKeepsHalves(v, s, a);
    EncodedBody(v, s, ok);
    if st.downOpen && out {
      AppendDown(v, st.client, DownItems(st), ResponseBody(v, s));
      assert DownItems(st') == DownItems(st) + [ResponseBody(v, s)];
    }
  }

  lemma RequestsWithHeader(v: S.Service, c: C.State, s: S.State, a: S.Action)
    requires S.Enabled(v, s, a) && a.ReadHeader? && RequestsOk(v, c, s)
    requires GoodRequestHeader(v, c, Header(a.num, a.target, ""))
    ensures RequestsOk(v, c, S.Do(v, s, a))
    ensures HalfReadUp(s) == [] && HalfReadUp(S.Do(v, s, a)) == [Header(a.num, a.target, "")]
  {
    var reqs := S.Do(v, s, a).reqs;
    forall i | 0 <= i < |reqs| ensures RequestOk(v, c, reqs[i]) {
      if i < |s.reqs| {
        assert RequestOk(v, c, s.reqs[i]);
      }
    }
  }

  lemma FirstUp(v: S.Service, c: C.State, e: seq<Item>)
    requires UpFrames(v, c, e) && e != []
    ensures GoodRequestHeader(v, c, e[0])
  {
    assert UpItemOk(v, c, e, 0);
  }

  lemma ServerReadHeaderStep(v: S.Service, st: State)
    requires Inv(v, st) && st.up != [] && st.up[0].Header?
    requires S.Enabled(v, st.server, S.ReadHeader(st.up[0].num, st.up[0].target))
    ensures Inv(v, st.(server := S.Do(v, st.server, S.ReadHeader(st.up[0].num, st.up[0].target)), up := st.up[1..]))
  {
    hide C.Inv, S.Inv, S.Do, S.Enabled, RequestsOk, RepliesOk, UpFrames, DownFrames, GoodRequestHeader, HalfReadUp;
    var s, h := st.server, st.up[0];
    var a := S.ReadHeader(h.num, h.target);
    var st' := st.(server := S.Do(v, s, a), up := st.up[1..]);
    S.InvStep(v, s, a);
    FirstUp(v, st.client, UpItems(st));
    HeaderHasNoText(v, st.client, UpItems(st)[0]);
    NotHalfRead(v, s, a);
    assert UpItems(st) == st.up;
    RequestsWithHeader(v, st.client, s, a);
    assert UpItems(st') == st.up;
    NewRequestKeepsSender(s, a, v);
  }

  lemma HeaderHasNoText(v: S.Service, c: C.State, h: Item)
    requires GoodRequestHeader(v, c, h)
    ensures h == Header(h.num, h.target, "")
  {
  }

  lemma NotHalfRead(v: S.Service, s: S.State, a: S.Action)
    requires S.Enabled(v, s, a) && a.ReadHeader?
    ensures HalfReadUp(s) == []
  {
  }

  lemma NewRequestKeepsSender(s: S.State, a: S.Action, v: S.Service)
    requires S.Inv(s) && S.Enabled(v, s, a) && a.ReadHeader?
    ensures var t := S.Do(v, s, a);
            && t.sending == s.sending
            && (s.sending.Held? ==>
                  && S.AtSend(s, s.sending.party) && S.AtSend(t, s.sending.party)
                  && S.RequestOf(t, s.sending.party) == S.RequestOf(s, s.sending.party)
                  && t.reqs[S.RequestOf(s, s.sending.party)] == s.reqs[S.RequestOf(s, s.sending.party)])
  {
  }

  lemma ReadBodyKeepsSender(s: S.State, a: S.Action, v: S.Service)
    requires S.Inv(s) && S.Enabled(v, s, a) && a.ReadBody?
    ensures var t := S.Do(v, s, a);
            && t.sending == s.sending && HalfReadUp(t) == [] && |HalfReadUp(s)| == 1
            && |t.reqs| == |s.reqs|
            && (s.sending.Held? ==>
                  && S.AtSend(s, s.sending.party) && S.AtSend(t, s.sending.party)
                  && S.RequestOf(t, s.sending.party) == S.RequestOf(s, s.sending.party)
                  && t.reqs[S.RequestOf(s, s.sending.party)] == s.reqs[S.RequestOf(s, s.sending.party)])
  {
    assert S.RequestOk(s, |s.reqs| - 1);
    if s.sending.Held? {
      assert S.RequestOk(s, S.RequestOf(s, s.sending.party));
    }
  }

  lemma RequestsWithBody(v: S.Service, c: C.State, s: S.State, a: S.Action)
    requires S.Enabled(v, s, a) && a.ReadBody? && RequestsOk(v, c, s)
    requires a.ok ==> a.args == CallOf(c, s.reqs[|s.reqs| - 1].num).args
    requires Known(c, s.reqs[|s.reqs| - 1].num)
    ensures RequestsOk(v, c, S.Do(v, s, a))
  {
    var t := S.Do(v, s, a);
    forall i | 0 <= i < |t.reqs| ensures RequestOk(v, c, t.reqs[i]) {
      assert RequestOk(v, c, s.reqs[i]);
    }
  }

  lemma ServerReadBodyStep(v: S.Service, st: State, ok: bool)
    requires Inv(v, st) && st.up != [] && st.up[0].Body?
    requires S.Enabled(v, st.server, S.ReadBody(ok, st.up[0].payload))
    ensures Inv(v, st.(server := S.Do(v, st.server, S.ReadBody(ok, st.up[0].payload)), up := st.up[1..]))
  {
    hide C.Inv, S.Inv, S.Do;
    var s, a := st.server, S.ReadBody(ok, st.up[0].payload);
    S.InvStep(v, s, a);
    var e := UpItems(st);
    ReadBodyKeepsSender(s, a, v);
    assert e[1] == st.up[0] && UpItemOk(v, st.client, e, 1);
    assert RequestOk(v, st.client, s.reqs[|s.reqs| - 1]);
    RequestsWithBody(v, st.client, s, a);
    DropUp(v, st.client, e);
    var st' := st.(server := S.Do(v, s, a), up := st.up[1..]);
    assert UpItems(st') == e[2..];
    assert |e| > 2 ==> e[2..][|e| - 3] == e[|e| - 1];
  }

  lemma ServerReadFailsStep(v: S.Service, st: State)
    requires Inv(v, st) && st.up == [] && !st.upOpen && S.Enabled(v, st.server, S.ReadBody(false, []))
    ensures Inv(v, st.(server := S.Do(v, st.server, S.ReadBody(false, []))))
  {
    hide C.Inv, S.Inv, S.Do;
    var s, a := st.server, S.ReadBody(false, []);
    S.InvStep(v, s, a);
    ReadBodyKeepsSender(s, a, v);
    assert RequestOk(v, st.client, s.reqs[|s.reqs| - 1]);
    RequestsWithBody(v, st.client, s, a);
    assert UpItems(st.(server := S.Do(v, s, a))) == [];
  }

  lemma CutUpKeepsInv(v: S.Service, st: State, k: nat)
    requires Inv(v, st) && k <= |st.up|
    ensures Inv(v, st.(up := st.up[..k], upOpen := false))
  {
    hide C.Inv, S.Inv, RequestsOk, RepliesOk, UpFrames, DownFrames, DownTail;
    var st' := st.(up := st.up[..k], upOpen := false);
    assert UpItems(st') <= UpItems(st);
    PrefixUp(v, st.client, UpItems(st), UpItems(st'));
    DownTailSame(st, st');
  }

  lemma CutDownKeepsInv(v: S.Service, st: State, k: nat)
    requires Inv(v, st) && k <= |st.down|
    ensures Inv(v, st.(down := st.down[..k], downOpen := false))
  {
    hide C.Inv, S.Inv, RequestsOk, RepliesOk, UpFrames, DownFrames, UpTail, SameWriter;
    var st' := st.(down := st.down[..k], downOpen := false);
    assert DownItems(st') <= DownItems(st);
    PrefixDown(v, st.client, DownItems(st), DownItems(st'));
    WriterKept(st.client);
    UpTailSame(st, st');
  }

  lemma WriterKept(c: C.State)
    ensures SameWriter(c, c)
  {
  }

  lemma CutStep(v: S.Service, st: State, a: Action)
    requires Inv(v, st) && Enabled(v, st, a) && (a.CutUp? || a.CutDown?)
    ensures Inv(v, Do(v, st, a))
  {
    hide Inv;
    if a.CutUp? {
      CutUpKeepsInv(v, st, a.k);
    } else {
      CutDownKeepsInv(v, st, a.k);
    }
  }

  // ---------------------------------------------------------------- runs

  lemma ClientStepKeepsInv(v: S.Service, st: State, a: Action)
    requires Inv(v, st) && Enabled(v, st, a) && NamesKnown(v, a) && ByClient(a)
    ensures Inv(v, Do(v, st, a))
  {
    hide Inv, Do, NamesKnown;
    if a.ClientStep? {
      ClientInternalStep(v, st, a);
    } else if a.ClientHeader? {
      ClientHeaderStep(v, st, a);
    } else if a.ClientBody? {
      ClientBodyStep(v, st, a);
    } else if a.ClientReadHeader? {
      ClientReadHeaderStep(v, st, a);
    } else if a.ClientReadBody? {
      ClientReadBodyStep(v, st, a);
    } else {
      ClientReadFailsStep(v, st, a);
    }
  }

  lemma ServerStepKeepsInv(v: S.Service, st: State, a: Action)
    requires Inv(v, st) && Enabled(v, st, a) && ByServer(a)
    ensures Inv(v, Do(v, st, a))
  {
    hide Inv, S.Do, S.Enabled;
    match a
    case ServerStep(s) => ServerInternalStep(v, st, s);
    case ServerHeader(ok, out) => ServerHeaderStep(v, st, ok, out);
    case ServerBody(ok, out) => ServerBodyStep(v, st, ok, out);
    case ServerReadHeader => ServerReadHeaderStep(v, st);
    case ServerReadBody(ok) => ServerReadBodyStep(v, st, ok);
    case ServerReadFails => ServerReadFailsStep(v, st);
  }

  lemma InvStep(v: S.Service, st: State, a: Action)
    requires Inv(v, st) && Enabled(v, st, a) && NamesKnown(v, a)
    ensures Inv(v, Do(v, st, a))
  {
    hide Inv, Do, Enabled;
    if ByClient(a) {
      ClientStepKeepsInv(v, st, a);
    } else if ByServer(a) {
      ServerStepKeepsInv(v, st, a);
    } else {
      CutStep(v, st, a);
    }
  }

  datatype Run = Run(states: seq<State>, actions: seq<Action>)

  /** Any interleaving of client goroutines, server goroutines and connection failures, in which calls
      name registered methods. */
  ghost predicate IsRun(v: S.Service, r: Run) {
    && |r.states| == |r.actions| + 1
    && r.states[0] == Init
    && (forall i :: 0 <= i < |r.actions| ==>
          && NamesKnown(v, r.actions[i])
          && Enabled(v, r.states[i], r.actions[i])
          && r.states[i + 1] == Do(v, r.states[i], r.actions[i]))
  }

  lemma InitInv(v: S.Service)
    ensures Inv(v, Init)
  {
  }

  lemma {:induction false} InvInEveryRun(v: S.Service, r: Run, i: nat)
    requires IsRun(v, r) && i < |r.states|
    ensures Inv(v, r.states[i])
  {
    hide Inv, Do, Enabled, NamesKnown;
    if i == 0 {
      InitInv(v);
    } else {
      InvInEveryRun(v, r, i - 1);
      InvStep(v, r.states[i - 1], r.actions[i - 1]);
    }
  }

  lemma DecidedStep(v: S.Service, st: State, a: Action, id: C.CallId)
    requires C.Inv(st.client) && Enabled(v, st, a) && id < |Do(v, st, a).client.calls|
    requires id < |st.client.calls| ==> C.Decided(st.client, id)
    ensures C.Decided(Do(v, st, a).client, id)
  {
    hide C.Inv, C.Do, C.Enabled, C.Decided;
    if ByClient(a) {
      var ca := ClientActionOf(st, a);
      if id < |st.client.calls| {
        C.DecidedStep(st.client, ca, id);
      } else {
        C.NewCallDecided(st.client, ca, id);
      }
    }
  }

  lemma {:induction false} DecidedInEveryRun(v: S.Service, r: Run, i: nat, id: C.CallId)
    requires IsRun(v, r) && i < |r.states| && id < |r.states[i].client.calls|
    ensures C.Decided(r.states[i].client, id)
  {
    hide Do, Enabled, NamesKnown, C.Decided, C.Inv;
    if i > 0 {
      InvInEveryRun(v, r, i - 1);
      if id < |r.states[i - 1].client.calls| {
        DecidedInEveryRun(v, r, i - 1, id);
      }
      DecidedStep(v, r.states[i - 1], r.actions[i - 1], id);
    }
  }

  /** A call that completes without an error holds the result of its own method on its own arguments,
      in whatever order the responses came, and that method did not fail with a text. */
  lemma RepliesMatchCalls(v: S.Service, r: Run, i: nat, id: C.CallId)
    requires IsRun(v, r) && i < |r.states| && id < |r.states[i].client.calls|
    requires r.states[i].client.calls[id].signals > 0 && r.states[i].client.calls[id].error.None?
    ensures var x := r.states[i].client.calls[id];
            && x.reply == Some(v.run(x.target, x.args).reply)
            && (v.run(x.target, x.args).err == None || v.run(x.target, x.args).err == Some(""))
  {
    InvInEveryRun(v, r, i);
    DecidedInEveryRun(v, r, i, id);
    assert ReplyOk(v, r.states[i].client.calls[id]);
  }

  /** A call that completes with an error text from the server was told of its own method's error, of
      the timeout, if there is one, or of a request that could not be read. */
  lemma ErrorsMatchCalls(v: S.Service, r: Run, i: nat, id: C.CallId)
    requires IsRun(v, r) && i < |r.states| && id < |r.states[i].client.calls|
    requires r.states[i].client.calls[id].error.Some? && r.states[i].client.calls[id].error.value.ServerError?
    ensures var x := r.states[i].client.calls[id];
            var text := x.error.value.text;
            v.run(x.target, x.args).err == Some(text) || (v.timed && text == S.TIMEOUT_TEXT) || text == S.BAD_TEXT
  {
    InvInEveryRun(v, r, i);
    assert ReplyOk(v, r.states[i].client.calls[id]);
  }

  /** Whoever reads next finds the kind of item it expects. */
  ghost predicate Aligned(st: State) {
    && (st.up != [] && st.server.reader.ReadingHeader? ==> st.up[0].Header?)
    && (st.up != [] && st.server.reader.GotHeader? ==> st.up[0].Body?)
    && (st.down != [] && st.client.receiver.Reading? ==> st.down[0].Header?)
    && (st.down != [] && st.client.receiver.Removed? ==> st.down[0].Body?)
  }

  lemma AlignedInEveryRun(v: S.Service, r: Run, i: nat)
    requires IsRun(v, r) && i < |r.states|
    ensures Aligned(r.states[i])
  {
    InvInEveryRun(v, r, i);
    InvAligned(v, r.states[i]);
  }

  lemma InvAligned(v: S.Service, st: State)
    requires Inv(v, st)
    ensures Aligned(st)
  {
    hide C.Inv;
    var e, f := UpItems(st), DownItems(st);
    if st.up != [] {
      assert e[|HalfReadUp(st.server)|] == st.up[0];
      assert UpItemOk(v, st.client, e, |HalfReadUp(st.server)|);
    }
    if st.down != [] {
      assert f[|HalfReadDown(st.client)|] == st.down[0];
      assert DownItemOk(v, st.client, f, |HalfReadDown(st.client)|);
    }
  }

  // ---------------------------------------------------------------- a cut connection

  lemma CutStreamStep(v: S.Service, st: State, a: Action)
    requires Enabled(v, st, a)
    ensures !st.upOpen ==>
              !Do(v, st, a).upOpen && (Do(v, st, a).up <= st.up || (st.up != [] && Do(v, st, a).up == st.up[1..]))
    ensures !st.downOpen ==>
              !Do(v, st, a).downOpen &&
              (Do(v, st, a).down <= st.down || (st.down != [] && Do(v, st, a).down == st.down[1..]))
  {
    hide C.Do, C.Enabled, S.Do, S.Enabled, ClientActionOf, ServerActionOf;
  }

  lemma CutsClose(v: S.Service, st: State, a: Action)
    requires Enabled(v, st, a)
    ensures a.CutUp? ==> a.k <= |st.up| && !Do(v, st, a).upOpen && Do(v, st, a).up == st.up[..a.k]
    ensures a.CutDown? ==> a.k <= |st.down| && !Do(v, st, a).downOpen && Do(v, st, a).down == st.down[..a.k]
    ensures (a.ClientHeader? || a.ClientBody?) && !a.ok ==> !Do(v, st, a).upOpen
    ensures (a.ServerHeader? || a.ServerBody?) && !a.ok ==> !Do(v, st, a).downOpen
  {
    hide C.Do, C.Enabled, S.Do, S.Enabled, ClientActionOf, ServerActionOf;
  }

  /** t is a stretch of s. */
  ghost predicate Within(t: seq<Item>, s: seq<Item>) {
    exists m, n :: 0 <= m <= n <= |s| && t == s[m..n]
  }

  lemma WithinShrinks(t: seq<Item>, u: seq<Item>, s: seq<Item>)
    requires Within(t, s) && (u <= t || (t != [] && u == t[1..]))
    ensures Within(u, s)
  {
    var m, n :| 0 <= m <= n <= |s| && t == s[m..n];
    if u <= t {
      assert u == s[m..m + |u|];
    } else {
      assert u == s[m + 1..n];
    }
  }

  /** Once a stream is cut nothing is added to it any more, whatever is written: what can still be read is
      a stretch of what was left. */
  lemma {:induction false} NothingAfterCut(v: S.Service, r: Run, j: nat, i: nat)
    requires IsRun(v, r) && j <= i < |r.states|
    ensures !r.states[j].upOpen ==> !r.states[i].upOpen && Within(r.states[i].up, r.states[j].up)
    ensures !r.states[j].downOpen ==> !r.states[i].downOpen && Within(r.states[i].down, r.states[j].down)
    decreases i - j
  {
    hide Do, Enabled, NamesKnown, Within;
    if i == j {
      Whole(r.states[j].up);
      Whole(r.states[j].down);
    } else {
      NothingAfterCut(v, r, j, i - 1);
      var s, t := r.states[i - 1], r.states[i];
      CutStreamStep(v, s, r.actions[i - 1]);
      if !s.upOpen && !r.states[j].upOpen {
        WithinShrinks(s.up, t.up, r.states[j].up);
      }
      if !s.downOpen && !r.states[j].downOpen {
        WithinShrinks(s.down, t.down, r.states[j].down);
      }
    }
  }

  lemma Whole(s: seq<Item>)
    ensures Within(s, s)
  {
    assert s == s[0..|s|];
  }

  /** What may go wrong on the client's side when it goes wrong at this point. */
  ghost predicate ClientMayFail(v: S.Service, st: State) {
    && (forall id: nat, ok, out :: (ok ==> out) && id < |st.client.calls| ==>
          && (st.client.calls[id].sender.Registered? ==> Enabled(v, st, ClientHeader(id, ok, out)))
          && (st.client.calls[id].sender.HeaderOut? ==> Enabled(v, st, ClientBody(id, ok, out))))
    && (st.client.receiver.Reading? ==> Enabled(v, st, ClientStep(C.RecvHeaderError)))
    && (st.client.receiver.Removed? && st.down == [] && !st.downOpen ==> Enabled(v, st, ClientReadFails))
    && (st.client.receiver.Removed? && st.down != [] ==> forall ok :: Enabled(v, st, ClientReadBody(ok)))
  }

  ghost predicate ServerMayFail(v: S.Service, st: State) {
    && (st.server.sending.Held? ==>
          forall ok, out :: (ok ==> out) ==>
            if st.server.sending.headerOut then Enabled(v, st, ServerBody(ok, out))
            else Enabled(v, st, ServerHeader(ok, out)))
    && (st.server.reader.ReadingHeader? ==> Enabled(v, st, ServerStep(S.HeaderError)))
    && (st.server.reader.GotHeader? && st.up == [] && !st.upOpen ==> Enabled(v, st, ServerReadFails))
    && (st.server.reader.GotHeader? && st.up != [] ==> forall ok :: Enabled(v, st, ServerReadBody(ok)))
  }

  /** The runs leave nothing out: in every state either stream may be cut anywhere, every write may
      succeed, fail or get lost, and every header or body due may be unreadable. */
  lemma FailuresAnytime(v: S.Service, r: Run, i: nat)
    requires IsRun(v, r) && i < |r.states|
    ensures ClientMayFail(v, r.states[i]) && ServerMayFail(v, r.states[i])
    ensures forall k: nat :: k <= |r.states[i].up| ==> Enabled(v, r.states[i], CutUp(k))
    ensures forall k: nat :: k <= |r.states[i].down| ==> Enabled(v, r.states[i], CutDown(k))
  {
    hide IsRun, Aligned;
    InvInEveryRun(v, r, i);
    AlignedInEveryRun(v, r, i);
    InvClientMayFail(v, r.states[i]);
    InvServerMayFail(v, r.states[i]);
    hide Inv;
  }

  /** What the invariant says of whoever is about to read or write. */
  lemma InvReady(v: S.Service, st: State)
    requires Inv(v, st)
    ensures st.client.receiver.Removed? && st.client.receiver.call.Some? ==>
              st.client.receiver.call.value < |st.client.calls|
    ensures st.server.sending.Held? ==> S.AtSend(st.server, st.server.sending.party)
    ensures st.server.reader.GotHeader? ==>
              st.server.reqs != [] && st.server.reqs[|st.server.reqs| - 1].target in v.known
  {
    hide C.CallOk, C.TableOk, S.RequestOk, UpFrames, DownFrames, RepliesOk, UpTail, DownTail;
  }

  lemma InvClientMayFail(v: S.Service, st: State)
    requires Inv(v, st)
    ensures ClientMayFail(v, st)
  {
    hide Inv, S.Enabled, ServerActionOf;
    InvReady(v, st);
    InvAligned(v, st);
  }

  lemma InvServerMayFail(v: S.Service, st: State)
    requires Inv(v, st)
    ensures ServerMayFail(v, st)
  {
    hide Inv, C.Enabled, ClientActionOf, S.AtSend;
    InvReady(v, st);
    InvAligned(v, st);
  }
}

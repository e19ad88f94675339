/** The RPC client's pending-call protocol: senders, the receive loop, Close and removal interleave
    under the locks sending and mu. What the codec does is an input of the steps. */
module RpcClient {
  import opened Common

  type CallId = nat
  type Seq = nat

  datatype Failure = Shutdown | WriteError | ConnectionError | ServerError(text: string) | BodyError

  /** Where the goroutine running send for a call stands. From Locked to ToUnlock it holds sending. */
  datatype Sender = Ready | Locked | Registered | HeaderOut | WriteFailed | ToSignal | ToUnlock | Sent

  /** num is the sequence number, 0 until registered; signals counts the sends on Done; removed marks an explicit removal. */
  datatype Call = Call(target: string, args: Bytes, num: Seq, sender: Sender,
                       error: Option<Failure>, reply: Option<Bytes>, signals: nat, removed: bool)

  /** Where the receive loop stands. Notifying is the loop of terminateCalls, which holds both locks. */
  datatype Receiver =
    | Reading
    | GotHeader(num: Seq, err: string)
    | Removed(num: Seq, call: Option<CallId>, err: string)
    | ToDone(done: CallId, goOn: bool)
    | NeedSending
    | NeedMu
    | Notifying(rest: set<Seq>)
    | Stopped

  datatype Lock = Free | HeldBy(call: CallId) | HeldByReceiver

  /** regs is the history of registrations: sequence number q went to call regs[q-1]. */
  datatype State = State(calls: seq<Call>, next: Seq, pending: map<Seq, CallId>, regs: seq<CallId>,
                         closing: bool, shutdown: bool, sending: Lock, receiver: Receiver)

  datatype Action =
    | NewCall(target: string, args: Bytes)    // Go
    | TakeSending(c: CallId)
    | Register(c: CallId)                     // registerCall
    | EncodeHeader(c: CallId, ok: bool)       // first half of cc.Write
    | EncodeBody(c: CallId, ok: bool)         // second half of cc.Write
    | TakeBack(c: CallId)                     // removeCall after a failed write
    | SignalSender(c: CallId)                 // call.done() in send
    | Release(c: CallId)
    | RecvHeader(num: Seq, err: string)       // cc.ReadHeader
    | RecvHeaderError
    | RemoveReceived                          // removeCall in receive
    | RecvBody(ok: bool, value: Bytes)        // cc.ReadBody
    | SignalReceived                          // call.done() in receive
    | TerminateLock                           // terminateCalls takes sending
    | TerminateBegin                          // ... then mu, and sets shutdown
    | Notify(q: Seq)                          // ... and signals one pending call after another
    | TerminateEnd
    | Close
    | RemoveByUser(num: Seq)                  // removeCall from outside

  const Init := State([], 1, map[], [], false, false, Free, Reading)

  predicate MuFree(s: State) {
    !s.receiver.Notifying?
  }

  // ---------------------------------------------------------------- the regions under mu

  function SetCall(s: State, c: CallId, call: Call): State
    requires c < |s.calls|
  {
    s.(calls := s.calls[c := call])
  }

  function DoRegister(s: State, c: CallId): State
    requires c < |s.calls|
  {
    if s.closing || s.shutdown then
      SetCall(s, c, s.calls[c].(error := Some(Shutdown), sender := ToSignal))
    else
      SetCall(s, c, s.calls[c].(num := s.next, sender := Registered))
      .(pending := s.pending[s.next := c], next := s.next + 1, regs := s.regs + [c])
  }

  /** The call pending under a sequence number, and the table without it. */
  function Lookup(s: State, q: Seq): Option<CallId> {
    if q in s.pending then Some(s.pending[q]) else None
  }

  function Without(s: State, q: Seq): State {
    s.(pending := s.pending - {q})
  }

  function DoTakeBack(s: State, c: CallId): State
    requires c < |s.calls|
  {
    var q := s.calls[c].num;
    if Lookup(s, q) == Some(c)
    then SetCall(Without(s, q), c, s.calls[c].(error := Some(WriteError), sender := ToSignal))
    else SetCall(Without(s, q), c, s.calls[c].(sender := ToUnlock))
  }

  function DoRecvBody(s: State, call: Option<CallId>, err: string, ok: bool, value: Bytes): State
    requires call.Some? ==> call.value < |s.calls|
  {
    match call
    case None => s.(receiver := if ok then Reading else NeedSending)
    case Some(c) =>
      var x := s.calls[c];
      var y := if err != "" then x.(error := Some(ServerError(err)))
               else if ok then x.(reply := Some(value))
               else x.(error := Some(BodyError));
      SetCall(s, c, y).(receiver := ToDone(c, ok))
  }

  function Signalled(call: Call): Call {
    call.(signals := call.signals + 1)
  }

  predicate Holding(s: State, c: CallId, at: Sender) {
    c < |s.calls| && s.calls[c].sender == at
  }

  predicate Enabled(s: State, a: Action) {
    match a
    case NewCall(_, _) => true
    case TakeSending(c) => Holding(s, c, Ready) && s.sending.Free?
    case Register(c) => Holding(s, c, Locked) && MuFree(s)
    case EncodeHeader(c, _) => Holding(s, c, Registered)
    case EncodeBody(c, _) => Holding(s, c, HeaderOut)
    case TakeBack(c) => Holding(s, c, WriteFailed) && MuFree(s)
    case SignalSender(c) => Holding(s, c, ToSignal)
    case Release(c) => Holding(s, c, ToUnlock)
    case RecvHeader(_, _) => s.receiver.Reading?
    case RecvHeaderError => s.receiver.Reading?
    case RemoveReceived => s.receiver.GotHeader?
    case RecvBody(_, _) => s.receiver.Removed? && (s.receiver.call.Some? ==> s.receiver.call.value < |s.calls|)
    case SignalReceived => s.receiver.ToDone? && s.receiver.done < |s.calls|
    case TerminateLock => s.receiver.NeedSending? && s.sending.Free?
    case TerminateBegin => s.receiver.NeedMu?
    case Notify(q) =>
      s.receiver.Notifying? && q in s.receiver.rest && q in s.pending && s.pending[q] < |s.calls|
    case TerminateEnd => s.receiver.Notifying? && s.receiver.rest == {}
    case Close => MuFree(s)
    case RemoveByUser(_) => MuFree(s)
  }

  function Do(s: State, a: Action): State
    requires Enabled(s, a)
  {
    match a
    case NewCall(target, args) => s.(calls := s.calls + [Call(target, args, 0, Ready, None, None, 0, false)])
    case TakeSending(c) => SetCall(s, c, s.calls[c].(sender := Locked)).(sending := HeldBy(c))
    case Register(c) => DoRegister(s, c)
    case EncodeHeader(c, ok) => SetCall(s, c, s.calls[c].(sender := if ok then HeaderOut else WriteFailed))
    case EncodeBody(c, ok) => SetCall(s, c, s.calls[c].(sender := if ok then ToUnlock else WriteFailed))
    case TakeBack(c) => DoTakeBack(s, c)
    case SignalSender(c) => SetCall(s, c, Signalled(s.calls[c]).(sender := ToUnlock))
    case Release(c) => SetCall(s, c, s.calls[c].(sender := Sent)).(sending := Free)
    case RecvHeader(q, err) => s.(receiver := GotHeader(q, err))
    case RecvHeaderError => s.(receiver := NeedSending)
    case RemoveReceived =>
      var q := s.receiver.num;
      Without(s, q).(receiver := Removed(q, Lookup(s, q), s.receiver.err))
    case RecvBody(ok, value) => DoRecvBody(s, s.receiver.call, s.receiver.err, ok, value)
    case SignalReceived =>
      var c := s.receiver.done;
      SetCall(s, c, Signalled(s.calls[c])).(receiver := if s.receiver.goOn then Reading else NeedSending)
    case TerminateLock => s.(sending := HeldByReceiver, receiver := NeedMu)
    case TerminateBegin => s.(shutdown := true, receiver := Notifying(s.pending.Keys))
    case Notify(q) =>
      var c := s.pending[q];
      SetCall(s, c, Signalled(s.calls[c]).(error := Some(ConnectionError)))
      .(receiver := Notifying(s.receiver.rest - {q}))
    case TerminateEnd => s.(receiver := Stopped, sending := Free)
    case Close => s.(closing := true)
    case RemoveByUser(q) =>
      var r := Without(s, q);
      match Lookup(s, q)
      case None => r
      case Some(c) => if c < |s.calls| then SetCall(r, c, s.calls[c].(removed := true)) else r
  }

  // ---------------------------------------------------------------- who may still signal a call

  /** terminateCalls has already signalled this entry. */
  predicate Notified(s: State, q: Seq) {
    s.receiver.Stopped? || (s.receiver.Notifying? && q !in s.receiver.rest)
  }

  predicate HeldInTable(s: State, c: CallId)
    requires c < |s.calls|
  {
    Lookup(s, s.calls[c].num) == Some(c) && !Notified(s, s.calls[c].num)
  }

  predicate HeldByReceive(s: State, c: CallId) {
    (s.receiver.Removed? && s.receiver.call == Some(c)) || (s.receiver.ToDone? && s.receiver.done == c)
  }

  /** The right to signal a call, used up or held by exactly one party. */
  function Tokens(s: State, c: CallId): nat
    requires c < |s.calls|
  {
    var x := s.calls[c];
    x.signals + Count(HeldInTable(s, c)) + Count(HeldByReceive(s, c)) + Count(x.sender.ToSignal?)
    + Count(x.removed && x.signals == 0)
  }

  /** The call is between registration and the end of its write. */
  predicate Writing(x: Call) {
    x.sender.Registered? || x.sender.HeaderOut? || x.sender.WriteFailed?
  }

  predicate HoldsSending(x: Call) {
    !x.sender.Ready? && !x.sender.Sent?
  }

  ghost predicate CallOk(s: State, c: CallId)
    requires c < |s.calls|
  {
    var x := s.calls[c];
    && (x.sender.Ready? || x.sender.Locked? ==> x.num == 0 && Tokens(s, c) == 0)
    && (!x.sender.Ready? && !x.sender.Locked? ==> Tokens(s, c) == 1)
    && (x.num > 0 ==> x.num <= |s.regs| && s.regs[x.num - 1] == c)
    && (x.num == 0 ==> !HeldByReceive(s, c) && !x.removed)
    && (Lookup(s, x.num) == Some(c) && Notified(s, x.num) ==> x.signals == 1)
    && (Writing(x) ==> x.num > 0 && !s.shutdown)
    && (HoldsSending(x) <==> s.sending == HeldBy(c))
  }

  ghost predicate RegOk(s: State, i: nat)
    requires i < |s.regs|
  {
    s.regs[i] < |s.calls| && s.calls[s.regs[i]].num == i + 1
  }

  ghost predicate EntryOk(s: State, q: Seq)
    requires q in s.pending
  {
    0 < q < s.next && q <= |s.regs| && s.pending[q] == s.regs[q - 1]
  }

  ghost predicate TableOk(s: State) {
    && s.next == |s.regs| + 1
    && (forall i: nat :: i < |s.regs| ==> RegOk(s, i))
    && (forall q :: q in s.pending ==> EntryOk(s, q))
  }

  /** The locks and the receive loop. */
  ghost predicate LocksOk(s: State) {
    && (s.shutdown <==> s.receiver.Notifying? || s.receiver.Stopped?)
    && (s.sending.HeldByReceiver? <==> s.receiver.NeedMu? || s.receiver.Notifying?)
    && (s.sending.HeldBy? ==> s.sending.call < |s.calls|)
    && (s.receiver.Notifying? ==> s.receiver.rest <= s.pending.Keys)
    && (s.receiver.Removed? && s.receiver.call.Some? ==>
          0 < s.receiver.num <= |s.regs| && s.regs[s.receiver.num - 1] == s.receiver.call.value < |s.calls|)
    && (s.receiver.ToDone? ==> s.receiver.done < |s.calls|)
  }

  ghost predicate Inv(s: State) {
    && TableOk(s) && LocksOk(s)
    && (forall c: CallId :: c < |s.calls| ==> CallOk(s, c))
  }

  /** A table entry and the registration history agree. */
  lemma EntryIsRegistration(s: State, q: Seq)
    requires Inv(s) && q in s.pending
    ensures s.pending[q] < |s.calls| && s.calls[s.pending[q]].num == q
    ensures forall c: CallId :: c < |s.calls| && s.calls[c].num == q ==> c == s.pending[q]
  {
    assert EntryOk(s, q);
    assert RegOk(s, q - 1);
    forall c: CallId | c < |s.calls| && s.calls[c].num == q ensures c == s.pending[q] {
      assert CallOk(s, c);
    }
  }

  predicate BySender(a: Action) {
    a.TakeSending? || a.EncodeHeader? || a.EncodeBody? || a.SignalSender? || a.Release?
  }

  lemma OwnCallStep(s: State, a: Action)
    requires Enabled(s, a) && BySender(a) && a.c < |s.calls| && CallOk(s, a.c)
    ensures CallOk(Do(s, a), a.c)
  {
  }

  lemma OtherCallStep(s: State, a: Action, c: CallId)
    requires Enabled(s, a) && BySender(a) && c < |s.calls| && c != a.c
    requires CallOk(s, c) && CallOk(s, a.c)
    ensures CallOk(Do(s, a), c)
  {
    assert Do(s, a).calls[c] == s.calls[c];
  }

  lemma InvCall(s: State, c: CallId)
    requires Inv(s) && c < |s.calls|
    ensures CallOk(s, c) && TableOk(s) && LocksOk(s)
  {
  }

  lemma RegisterCallStep(s: State, a: Action)
    requires Inv(s) && Enabled(s, a) && a.Register?
    ensures a.c < |s.calls| && CallOk(Do(s, a), a.c)
  {
    hide Inv;
    InvCall(s, a.c);
  }

  /** A call the step does not concern, when a new entry is made in the table. */
  lemma NotRegisteredCallStep(s: State, a: Action, c: CallId)
    requires Inv(s) && Enabled(s, a) && a.Register? && c < |s.calls| && c != a.c
    ensures CallOk(Do(s, a), c)
  {
    hide Inv;
    InvCall(s, c);
    InvCall(s, a.c);
    assert Do(s, a).calls[c] == s.calls[c];
  }

  lemma TakeBackCallStep(s: State, a: Action)
    requires Inv(s) && Enabled(s, a) && a.TakeBack?
    ensures a.c < |s.calls| && CallOk(Do(s, a), a.c)
  {
    hide Inv, TableOk;
    InvCall(s, a.c);
    if s.calls[a.c].num in s.pending {
      EntryIsRegistration(s, s.calls[a.c].num);
    }
  }

  /** The table without an entry that is not c's. */
  ghost predicate OtherEntryGone(s: State, s': State, q: Seq, c: CallId) {
    && c < |s.calls| && c < |s'.calls| && s'.calls[c] == s.calls[c]
    && s'.regs == s.regs && s'.receiver == s.receiver && s'.shutdown == s.shutdown && s'.sending == s.sending
    && s'.pending == s.pending - {q} && Lookup(s, q) != Some(c)
  }

  lemma OtherEntryGoneStep(s: State, s': State, q: Seq, c: CallId)
    requires OtherEntryGone(s, s', q, c) && CallOk(s, c)
    ensures CallOk(s', c)
  {
    var num := s.calls[c].num;
    assert Lookup(s', num) == Some(c) <==> Lookup(s, num) == Some(c);
  }

  lemma NotTakenBackCallStep(s: State, a: Action, c: CallId)
    requires Inv(s) && Enabled(s, a) && a.TakeBack? && c < |s.calls| && c != a.c
    ensures CallOk(Do(s, a), c)
  {
    hide Inv, TableOk, CallOk, LocksOk;
    InvCall(s, c);
    TakenEntry(s, a.c);
    OtherEntryGoneStep(s, Do(s, a), s.calls[a.c].num, c);
  }

  lemma TakenEntry(s: State, c: CallId)
    requires Inv(s) && c < |s.calls|
    ensures s.calls[c].num in s.pending ==> s.pending[s.calls[c].num] == c
  {
    hide Inv;
    if s.calls[c].num in s.pending {
      EntryIsRegistration(s, s.calls[c].num);
    }
  }

  lemma ReceivedCallStep(s: State, a: Action, c: CallId)
    requires Inv(s) && Enabled(s, a) && c < |s.calls| && a.RemoveReceived?
    ensures CallOk(Do(s, a), c)
  {
    assert CallOk(s, c);
    var q := s.receiver.num;
    if q in s.pending {
      EntryIsRegistration(s, q);
    }
  }

  lemma RemovedCallStep(s: State, a: Action, c: CallId)
    requires Inv(s) && Enabled(s, a) && c < |s.calls| && a.RemoveByUser? && Lookup(s, a.num) == Some(c)
    ensures CallOk(Do(s, a), c)
  {
    assert CallOk(s, c);
    EntryIsRegistration(s, a.num);
    hide Inv;
  }

  lemma NotRemovedCallStep(s: State, a: Action, c: CallId)
    requires Inv(s) && Enabled(s, a) && c < |s.calls| && a.RemoveByUser? && Lookup(s, a.num) != Some(c)
    ensures CallOk(Do(s, a), c)
  {
    hide Inv, TableOk, CallOk, LocksOk;
    InvCall(s, c);
    OtherEntryGoneStep(s, Do(s, a), a.num, c);
  }

  lemma NotifyCallStep(s: State, a: Action, c: CallId)
    requires Inv(s) && Enabled(s, a) && a.Notify? && c < |s.calls|
    ensures CallOk(Do(s, a), c)
  {
    assert CallOk(s, c);
    EntryIsRegistration(s, a.q);
  }

  lemma ReceiverCallStep(s: State, a: Action, c: CallId)
    requires Inv(s) && Enabled(s, a) && c < |s.calls| && (a.RecvHeader? || a.RecvHeaderError? || a.Close?)
    ensures CallOk(Do(s, a), c)
  {
    assert CallOk(s, c);
    assert s.receiver.Notifying? || s.receiver.Stopped? <==> s.shutdown;
    hide Inv;
  }

  /** The call keeps its tokens: the receive loop only passes on the call it holds. */
  ghost predicate PassedOn(s: State, s': State, c: CallId) {
    && c < |s.calls| && c < |s'.calls|
    && s'.calls[c] == s.calls[c].(error := s'.calls[c].error, reply := s'.calls[c].reply)
    && s'.pending == s.pending && s'.regs == s.regs && s'.sending == s.sending && s'.shutdown == s.shutdown
    && (HeldByReceive(s', c) <==> HeldByReceive(s, c)) && !s.shutdown
    && !s.receiver.Notifying? && !s.receiver.Stopped? && !s'.receiver.Notifying? && !s'.receiver.Stopped?
  }

  lemma PassedOnStep(s: State, s': State, c: CallId)
    requires PassedOn(s, s', c) && CallOk(s, c)
    ensures CallOk(s', c)
  {
    SameLookup(s, s', s.calls[c].num);
  }

  lemma BodyCallStep(s: State, a: Action, c: CallId)
    requires Inv(s) && Enabled(s, a) && c < |s.calls| && a.RecvBody?
    ensures CallOk(Do(s, a), c)
  {
    hide Inv, TableOk, CallOk;
    InvCall(s, c);
    PassedOnStep(s, Do(s, a), c);
  }

  lemma SameLookup(s: State, s': State, q: Seq)
    requires s'.pending == s.pending
    ensures Lookup(s', q) == Lookup(s, q)
  {
  }

  lemma SignalCallStep(s: State, a: Action, c: CallId)
    requires Inv(s) && Enabled(s, a) && c < |s.calls| && a.SignalReceived?
    ensures CallOk(Do(s, a), c)
  {
    assert CallOk(s, c);
    hide Inv;
  }

  lemma TerminateCallStep(s: State, a: Action, c: CallId)
    requires Inv(s) && Enabled(s, a) && c < |s.calls|
    requires a.TerminateLock? || a.TerminateBegin? || a.TerminateEnd?
    ensures CallOk(Do(s, a), c)
  {
    assert CallOk(s, c);
  }

  lemma NewCallStep(s: State, a: Action, c: CallId)
    requires Inv(s) && Enabled(s, a) && a.NewCall? && c < |Do(s, a).calls|
    ensures CallOk(Do(s, a), c)
  {
    if c < |s.calls| {
      assert CallOk(s, c);
    } else {
      assert forall q :: q in s.pending ==> EntryOk(s, q);
      assert 0 !in s.pending;
    }
  }

  lemma SameCalls(s: State, a: Action)
    requires Inv(s) && Enabled(s, a) && !a.NewCall?
    ensures |Do(s, a).calls| == |s.calls|
  {
  }

  lemma CallStep(s: State, a: Action, c: CallId)
    requires Inv(s) && Enabled(s, a) && c < |Do(s, a).calls|
    ensures CallOk(Do(s, a), c)
  {
    hide Do, CallOk, Enabled;
    if a.NewCall? {
      NewCallStep(s, a, c);
    } else {
      SameCalls(s, a);
      if BySender(a) {
        ActorExists(s, a);
        if c == a.c {
          OwnCallStep(s, a);
        } else {
          OtherCallStep(s, a, c);
        }
      } else if a.Register? {
        if c == a.c {
          RegisterCallStep(s, a);
        } else {
          NotRegisteredCallStep(s, a, c);
        }
      } else if a.Notify? {
        NotifyCallStep(s, a, c);
      } else if a.TakeBack? {
        if c == a.c {
          TakeBackCallStep(s, a);
        } else {
          NotTakenBackCallStep(s, a, c);
        }
      } else if a.RemoveReceived? {
        ReceivedCallStep(s, a, c);
      } else if a.RemoveByUser? {
        if Lookup(s, a.num) == Some(c) {
          RemovedCallStep(s, a, c);
        } else {
          NotRemovedCallStep(s, a, c);
        }
      } else if a.TerminateLock? || a.TerminateBegin? || a.TerminateEnd? {
        TerminateCallStep(s, a, c);
      } else if a.RecvBody? {
        BodyCallStep(s, a, c);
      } else if a.SignalReceived? {
        SignalCallStep(s, a, c);
      } else {
        ReceiverCallStep(s, a, c);
      }
    }
  }

  lemma ActorExists(s: State, a: Action)
    requires Enabled(s, a) && BySender(a)
    ensures a.c < |s.calls|
  {
  }

  /** The call keeps what it asks for, and its number unless it is being registered. */
  ghost predicate CallKept(s: State, s': State, c: CallId, register: bool)
    requires c < |s.calls|
  {
    && c < |s'.calls|
    && s'.calls[c].target == s.calls[c].target && s'.calls[c].args == s.calls[c].args
    && (!register ==> s'.calls[c].num == s.calls[c].num)
  }

  predicate BySend(a: Action) {
    BySender(a) || a.Register? || a.TakeBack?
  }

  lemma SenderKeepsCall(s: State, a: Action, c: CallId)
    requires Enabled(s, a) && c < |s.calls| && BySend(a)
    ensures CallKept(s, Do(s, a), c, a.Register?)
  {
    hide Lookup;
  }

  lemma ReceiverKeepsCall(s: State, a: Action, c: CallId)
    requires Enabled(s, a) && c < |s.calls| && !BySend(a)
    ensures CallKept(s, Do(s, a), c, false)
  {
  }

  lemma CallsKept(s: State, a: Action)
    requires Enabled(s, a)
    ensures |s.calls| <= |Do(s, a).calls|
    ensures forall c :: 0 <= c < |s.calls| ==> CallKept(s, Do(s, a), c, a.Register?)
  {
    hide Do, Enabled, BySender;
    forall c: CallId | c < |s.calls| ensures CallKept(s, Do(s, a), c, a.Register?) {
      if BySend(a) {
        SenderKeepsCall(s, a, c);
      } else {
        ReceiverKeepsCall(s, a, c);
      }
    }
    assert s.calls != [] ==> CallKept(s, Do(s, a), |s.calls| - 1, a.Register?);
  }

  /** Only registerCall hands out numbers; everything else can only shrink the table. */
  lemma EntryKept(s: State, a: Action, q: Seq)
    requires Enabled(s, a) && !a.Register? && q in Do(s, a).pending
    ensures q in s.pending && Do(s, a).pending[q] == s.pending[q]
  {
  }

  lemma TableFrame(s: State, a: Action)
    requires Enabled(s, a) && !a.Register?
    ensures Do(s, a).regs == s.regs && Do(s, a).next == s.next
    ensures forall q :: q in Do(s, a).pending ==> q in s.pending && Do(s, a).pending[q] == s.pending[q]
  {
    forall q | q in Do(s, a).pending ensures q in s.pending && Do(s, a).pending[q] == s.pending[q] {
      EntryKept(s, a, q);
    }
    hide Without, Lookup, Signalled;
  }

  lemma RegisterTable(s: State, c: CallId)
    requires Inv(s) && Enabled(s, Register(c))
    ensures TableOk(Do(s, Register(c)))
  {
    var s' := Do(s, Register(c));
    assert CallOk(s, c);
    forall i: nat | i < |s'.regs| ensures RegOk(s', i) {
      if i < |s.regs| {
        assert RegOk(s, i);
      }
    }
    forall q | q in s'.pending ensures EntryOk(s', q) {
      if q in s.pending {
        assert EntryOk(s, q);
      }
    }
  }

  lemma TableStep(s: State, a: Action)
    requires Inv(s) && Enabled(s, a)
    ensures TableOk(Do(s, a))
  {
    hide Do;
    if a.Register? {
      RegisterTable(s, a.c);
    } else {
      TableFrame(s, a);
      CallsKept(s, a);
      var s' := Do(s, a);
      forall i: nat | i < |s'.regs| ensures RegOk(s', i) {
        assert RegOk(s, i) && CallKept(s, s', s.regs[i], false);
      }
      forall q | q in s'.pending ensures EntryOk(s', q) {
        assert EntryOk(s, q);
      }
    }
  }

  lemma SenderLockStep(s: State, a: Action)
    requires Inv(s) && Enabled(s, a) && BySend(a)
    ensures LocksOk(Do(s, a))
  {
    assert CallOk(s, a.c);
    assert LocksOk(s);
    hide Inv;
  }

  lemma ReceiverLockStep(s: State, a: Action)
    requires Inv(s) && Enabled(s, a) && !BySend(a) && !a.RemoveReceived? && !a.RemoveByUser?
    ensures LocksOk(Do(s, a))
  {
    assert LocksOk(s);
    hide Inv;
  }

  lemma RemovalLockStep(s: State, a: Action)
    requires Inv(s) && Enabled(s, a) && (a.RemoveReceived? || a.RemoveByUser?)
    ensures LocksOk(Do(s, a))
  {
    assert LocksOk(s);
    if a.RemoveReceived? && s.receiver.num in s.pending {
      assert EntryOk(s, s.receiver.num);
      EntryIsRegistration(s, s.receiver.num);
    }
    hide Inv;
  }

  lemma InvStep(s: State, a: Action)
    requires Inv(s) && Enabled(s, a)
    ensures Inv(Do(s, a))
  {
    hide Do, Enabled, LocksOk, TableOk;
    TableStep(s, a);
    if BySend(a) {
      SenderLockStep(s, a);
    } else if a.RemoveReceived? || a.RemoveByUser? {
      RemovalLockStep(s, a);
    } else {
      ReceiverLockStep(s, a);
    }
    forall c: CallId | c < |Do(s, a).calls| ensures CallOk(Do(s, a), c) {
      CallStep(s, a, c);
    }
  }

  // ---------------------------------------------------------------- runs

  datatype Run = Run(states: seq<State>, actions: seq<Action>)

  /** Any interleaving, with any behaviour of the connection and any replies. */
  ghost predicate IsRun(r: Run) {
    && |r.states| == |r.actions| + 1
    && r.states[0] == Init
    && (forall i :: 0 <= i < |r.actions| ==>
          Enabled(r.states[i], r.actions[i]) && r.states[i + 1] == Do(r.states[i], r.actions[i]))
  }

  lemma {:induction false} InvInEveryRun(r: Run, i: nat)
    requires IsRun(r) && i < |r.states|
    ensures Inv(r.states[i])
  {
    if i > 0 {
      InvInEveryRun(r, i - 1);
      InvStep(r.states[i - 1], r.actions[i - 1]);
    }
  }

  // ---------------------------------------------------------------- exactly once

  /** The step is about to send call c on its Done channel. */
  predicate SignalsCall(s: State, a: Action, c: CallId) {
    || a == SignalSender(c)
    || (a.SignalReceived? && s.receiver.ToDone? && s.receiver.done == c)
    || (a.Notify? && Lookup(s, a.q) == Some(c))
  }

  /** No call is signalled twice, so a Done channel with room for one never blocks the signaller. */
  lemma SignalledAtMostOnce(r: Run, i: nat, c: CallId)
    requires IsRun(r) && i < |r.states| && c < |r.states[i].calls|
    ensures r.states[i].calls[c].signals <= 1
    ensures i < |r.actions| && SignalsCall(r.states[i], r.actions[i], c) ==> r.states[i].calls[c].signals == 0
  {
    InvInEveryRun(r, i);
    var s := r.states[i];
    assert CallOk(s, c);
    if i < |r.actions| && r.actions[i].Notify? {
      assert Enabled(s, r.actions[i]);
      EntryIsRegistration(s, r.actions[i].q);
    }
  }

  /** Once send has returned and the receive loop has ended, a call has been signalled exactly once,
      unless it was taken out of the table by an explicit removal before anyone signalled it. */
  lemma SignalledExactlyOnce(r: Run, i: nat, c: CallId)
    requires IsRun(r) && i < |r.states| && c < |r.states[i].calls|
    requires r.states[i].calls[c].sender.Sent? && r.states[i].receiver.Stopped?
    ensures r.states[i].calls[c].signals == 1 || (r.states[i].calls[c].signals == 0 && r.states[i].calls[c].removed)
  {
    InvInEveryRun(r, i);
    assert CallOk(r.states[i], c);
  }

  /** Every signal comes with an outcome: a reply, or an error. */
  ghost predicate Decided(s: State, c: CallId)
    requires c < |s.calls|
  {
    var x := s.calls[c];
    x.signals > 0 || x.sender.ToSignal? || (s.receiver.ToDone? && s.receiver.done == c) ==>
      x.error.Some? || x.reply.Some?
  }

  lemma DecidedStep(s: State, a: Action, c: CallId)
    requires Enabled(s, a) && c < |s.calls| && Decided(s, c)
    ensures c < |Do(s, a).calls| && Decided(Do(s, a), c)
  {
    hide Decided, Do, Enabled;
    if a.SignalSender? || a.SignalReceived? || a.Notify? {
      SignalDecided(s, a, c);
    } else if a.RecvBody? {
      ReceivedDecided(s, a, c);
    } else if a.RemoveByUser? {
      RemovedDecided(s, a, c);
    } else if a.Register? || a.TakeBack? {
      RefusedDecided(s, a, c);
    } else if BySend(a) {
      SenderDecided(s, a, c);
    } else {
      OtherDecided(s, a, c);
    }
  }

  lemma SignalDecided(s: State, a: Action, c: CallId)
    requires Enabled(s, a) && c < |s.calls| && Decided(s, c) && (a.SignalSender? || a.SignalReceived? || a.Notify?)
    ensures c < |Do(s, a).calls| && Decided(Do(s, a), c)
  {
  }

  lemma ReceivedDecided(s: State, a: Action, c: CallId)
    requires Enabled(s, a) && c < |s.calls| && Decided(s, c) && a.RecvBody?
    ensures c < |Do(s, a).calls| && Decided(Do(s, a), c)
  {
  }

  lemma RemovedDecided(s: State, a: Action, c: CallId)
    requires Enabled(s, a) && c < |s.calls| && Decided(s, c) && a.RemoveByUser?
    ensures c < |Do(s, a).calls| && Decided(Do(s, a), c)
  {
  }

  lemma RefusedDecided(s: State, a: Action, c: CallId)
    requires Enabled(s, a) && c < |s.calls| && Decided(s, c) && (a.Register? || a.TakeBack?)
    ensures c < |Do(s, a).calls| && Decided(Do(s, a), c)
  {
    hide Lookup;
  }

  lemma SenderDecided(s: State, a: Action, c: CallId)
    requires Enabled(s, a) && c < |s.calls| && Decided(s, c)
    requires BySender(a) && !a.SignalSender?
    ensures c < |Do(s, a).calls| && Decided(Do(s, a), c)
  {
  }

  lemma OtherDecided(s: State, a: Action, c: CallId)
    requires Enabled(s, a) && c < |s.calls| && Decided(s, c) && !BySend(a)
    requires !a.SignalReceived? && !a.Notify? && !a.RecvBody? && !a.RemoveByUser?
    ensures c < |Do(s, a).calls| && Decided(Do(s, a), c)
  {
  }

  lemma NewCallDecided(s: State, a: Action, c: CallId)
    requires Inv(s) && Enabled(s, a) && |s.calls| <= c < |Do(s, a).calls|
    ensures Decided(Do(s, a), c)
  {
  }

  lemma {:induction false} SignalledIsDecided(r: Run, i: nat, c: CallId)
    requires IsRun(r) && i < |r.states| && c < |r.states[i].calls|
    ensures Decided(r.states[i], c)
  {
    hide Do, Inv, Decided, Enabled;
    if i > 0 {
      InvInEveryRun(r, i - 1);
      if c < |r.states[i - 1].calls| {
        SignalledIsDecided(r, i - 1, c);
        DecidedStep(r.states[i - 1], r.actions[i - 1], c);
      } else {
        NewCallDecided(r.states[i - 1], r.actions[i - 1], c);
      }
    }
  }
}

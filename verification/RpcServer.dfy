/** One connection of the RPC server: the read loop starts a handler and a worker per request; the
    two meet on the unbuffered channels called and sent, and a timer may overtake the worker. */
module RpcServer {
  import opened Common

  type Seq = nat
  type ReqId = nat

  /** What a method leaves in the reply and the text of the error it returns, None without one. */
  datatype Outcome = Outcome(reply: Bytes, err: Option<string>)

  /** timed is whether a handle timeout is configured. */
  datatype Service = Service(known: set<string>, run: (string, Bytes) -> Outcome, timed: bool)

  datatype Handler = Waiting | TimerFired | AwaitSent | Finished
  datatype Worker = Running | AtCalled | Released | AtSent | Gone

  /** Fresh: only the header was read. Bad: answered with an error by the read loop itself. */
  datatype Job = Fresh | Bad | Normal(handler: Handler, worker: Worker)

  /** errText is h.Error; attempts counts the calls of sendResponse for the request. */
  datatype Request = Request(num: Seq, target: string, args: Bytes, job: Job, errText: string, attempts: nat)

  datatype Reader = ReadingHeader | GotHeader | Replying | Draining | Closed

  datatype Party = ReadLoop | HandlerOf(h: ReqId) | WorkerOf(w: ReqId)

  /** The mutex held by a sendResponse; headerOut once the header is encoded. */
  datatype Lock = Free | Held(party: Party, headerOut: bool)

  /** The read loop is always at the last request. */
  datatype State = State(reqs: seq<Request>, reader: Reader, sending: Lock)

  datatype Action =
    | ReadHeader(num: Seq, target: string)
    | HeaderError
    | RejectUnknown                        // findService fails; the body stays unread
    | ReadBody(ok: bool, args: Bytes)
    | MethodReturns(i: ReqId)
    | MeetCalled(i: ReqId)                 // called <- struct{}{} and <-called
    | TimerFires(i: ReqId)
    | MeetSent(i: ReqId)                   // sent <- struct{}{} and <-sent
    | BeginSend(p: Party)                  // sendResponse takes the mutex
    | EncodeHeader(ok: bool)
    | EncodeBody(ok: bool)
    | CloseCodec                           // wg.Wait() is over

  const Init := State([], ReadingHeader, Free)
  const BAD_TEXT: string := "invalid request"
  const TIMEOUT_TEXT: string := "rpc server: request handle timeout"

  function SetJob(s: State, i: ReqId, job: Job): State
    requires i < |s.reqs|
  {
    s.(reqs := s.reqs[i := s.reqs[i].(job := job)])
  }

  predicate Has(s: State, i: ReqId, h: Handler, w: Worker) {
    i < |s.reqs| && s.reqs[i].job == Normal(h, w)
  }

  /** The party is at its call of sendResponse. */
  predicate AtSend(s: State, p: Party) {
    match p
    case ReadLoop => s.reader.Replying? && s.reqs != []
    case HandlerOf(i) => i < |s.reqs| && s.reqs[i].job.Normal? && s.reqs[i].job.handler.TimerFired?
    case WorkerOf(i) => Has(s, i, AwaitSent, Released)
  }

  function RequestOf(s: State, p: Party): ReqId
    requires AtSend(s, p)
  {
    match p
    case ReadLoop => |s.reqs| - 1
    case HandlerOf(i) => i
    case WorkerOf(i) => i
  }

  /** The party goes on after sendResponse. */
  function AfterSend(s: State, p: Party): State
    requires AtSend(s, p)
  {
    match p
    case ReadLoop => s.(reader := ReadingHeader, sending := Free)
    case HandlerOf(i) => SetJob(s, i, Normal(Finished, s.reqs[i].job.worker)).(sending := Free)
    case WorkerOf(i) => SetJob(s, i, Normal(AwaitSent, AtSent)).(sending := Free)
  }

  predicate AllHandled(s: State) {
    forall i :: 0 <= i < |s.reqs| && s.reqs[i].job.Normal? ==> s.reqs[i].job.handler.Finished?
  }

  predicate Enabled(v: Service, s: State, a: Action) {
    match a
    case ReadHeader(_, _) => s.reader.ReadingHeader?
    case HeaderError => s.reader.ReadingHeader?
    case RejectUnknown => s.reader.GotHeader? && s.reqs != [] && s.reqs[|s.reqs| - 1].target !in v.known
    case ReadBody(_, _) => s.reader.GotHeader? && s.reqs != [] && s.reqs[|s.reqs| - 1].target in v.known
    case MethodReturns(i) => i < |s.reqs| && s.reqs[i].job.Normal? && s.reqs[i].job.worker.Running?
    case MeetCalled(i) => Has(s, i, Waiting, AtCalled)
    case TimerFires(i) => v.timed && i < |s.reqs| && s.reqs[i].job.Normal? && s.reqs[i].job.handler.Waiting?
    case MeetSent(i) => Has(s, i, AwaitSent, AtSent)
    case BeginSend(p) => s.sending.Free? && AtSend(s, p)
    case EncodeHeader(_) => s.sending.Held? && !s.sending.headerOut && AtSend(s, s.sending.party)
    case EncodeBody(_) => s.sending.Held? && s.sending.headerOut && AtSend(s, s.sending.party)
    case CloseCodec => s.reader.Draining? && AllHandled(s)
  }

  function ErrTextOf(o: Outcome): string {
    match o.err case None => "" case Some(t) => t
  }

  function Do(v: Service, s: State, a: Action): State
    requires Enabled(v, s, a)
  {
    match a
    case ReadHeader(num, target) =>
      s.(reqs := s.reqs + [Request(num, target, [], Fresh, "", 0)], reader := GotHeader)
    case HeaderError => s.(reader := Draining)
    case RejectUnknown =>
      var i := |s.reqs| - 1;
      s.(reqs := s.reqs[i := s.reqs[i].(job := Bad, errText := BAD_TEXT)], reader := Replying)
    case ReadBody(ok, args) =>
      var i := |s.reqs| - 1;
      if ok then
        s.(reqs := s.reqs[i := s.reqs[i].(args := args, job := Normal(Waiting, Running))], reader := ReadingHeader)
      else
        s.(reqs := s.reqs[i := s.reqs[i].(job := Bad, errText := BAD_TEXT)], reader := Replying)
    case MethodReturns(i) => SetJob(s, i, Normal(s.reqs[i].job.handler, AtCalled))
    case MeetCalled(i) =>
      var r := s.reqs[i];
      s.(reqs := s.reqs[i := r.(job := Normal(AwaitSent, Released), errText := ErrTextOf(v.run(r.target, r.args)))])
    case TimerFires(i) =>
      var r := s.reqs[i];
      s.(reqs := s.reqs[i := r.(job := Normal(TimerFired, r.job.worker), errText := TIMEOUT_TEXT)])
    case MeetSent(i) => SetJob(s, i, Normal(Finished, Gone))
    case BeginSend(p) =>
      var i := RequestOf(s, p);
      s.(sending := Held(p, false), reqs := s.reqs[i := s.reqs[i].(attempts := s.reqs[i].attempts + 1)])
    case EncodeHeader(ok) =>
      if ok then s.(sending := Held(s.sending.party, true)) else AfterSend(s, s.sending.party)
    case EncodeBody(ok) => AfterSend(s, s.sending.party)
    case CloseCodec => s.(reader := Closed)
  }

  // ---------------------------------------------------------------- invariant

  predicate SendsNow(s: State, p: Party) {
    s.sending.Held? && s.sending.party == p
  }

  ghost predicate RequestOk(s: State, i: ReqId)
    requires i < |s.reqs|
  {
    var r := s.reqs[i];
    match r.job
    case Fresh => s.reader.GotHeader? && i == |s.reqs| - 1 && r.attempts == 0
    case Bad =>
      && r.errText != ""
      && r.attempts == (if s.reader.Replying? && i == |s.reqs| - 1 then Count(SendsNow(s, ReadLoop)) else 1)
    case Normal(h, w) =>
      match h
      case Waiting => (w.Running? || w.AtCalled?) && r.attempts == 0
      case TimerFired =>
        (w.Running? || w.AtCalled?) && r.errText == TIMEOUT_TEXT && r.attempts == Count(SendsNow(s, HandlerOf(i)))
      case AwaitSent =>
        (w.Released? && r.attempts == Count(SendsNow(s, WorkerOf(i)))) || (w.AtSent? && r.attempts == 1)
      case Finished => (w.Running? || w.AtCalled? || w.Gone?) && r.attempts == 1
  }

  ghost predicate Inv(s: State) {
    && (forall i: ReqId :: i < |s.reqs| ==> RequestOk(s, i))
    && (s.sending.Held? ==> AtSend(s, s.sending.party))
    && (s.reader.GotHeader? ==> s.reqs != [] && s.reqs[|s.reqs| - 1].job.Fresh?)
    && (s.reader.Replying? ==> s.reqs != [] && s.reqs[|s.reqs| - 1].job.Bad?)
    && (s.reader.Closed? ==> AllHandled(s))
  }

  /** The request a step of a handler or worker, or a send, concerns. */
  function Concerned(s: State, a: Action): Option<ReqId> {
    match a
    case MethodReturns(i) => Some(i)
    case MeetCalled(i) => Some(i)
    case TimerFires(i) => Some(i)
    case MeetSent(i) => Some(i)
    case BeginSend(p) => if AtSend(s, p) then Some(RequestOf(s, p)) else None
    case EncodeHeader(_) =>
      if s.sending.Held? && AtSend(s, s.sending.party) then Some(RequestOf(s, s.sending.party)) else None
    case EncodeBody(_) =>
      if s.sending.Held? && AtSend(s, s.sending.party) then Some(RequestOf(s, s.sending.party)) else None
    case _ => None
  }

  predicate ByReadLoop(a: Action) {
    a.ReadHeader? || a.HeaderError? || a.RejectUnknown? || a.ReadBody? || a.CloseCodec?
  }

  /** A step of the read loop itself. */
  lemma ReadStep(v: Service, s: State, a: Action, i: ReqId)
    requires Inv(s) && Enabled(v, s, a) && i < |Do(v, s, a).reqs| && ByReadLoop(a)
    ensures RequestOk(Do(v, s, a), i)
  {
    if i < |s.reqs| {
      assert RequestOk(s, i);
    }
  }

  /** A step of a handler or worker, or a send: its own request, and the others. */
  lemma OwnRequestStep(v: Service, s: State, a: Action, i: ReqId)
    requires Inv(s) && Enabled(v, s, a) && !ByReadLoop(a) && Concerned(s, a) == Some(i) && i < |s.reqs|
    ensures i < |Do(v, s, a).reqs| && RequestOk(Do(v, s, a), i)
  {
    assert RequestOk(s, i);
    assert s.sending.Held? ==> AtSend(s, s.sending.party);
    hide Inv;
  }

  lemma OthersKept(v: Service, s: State, a: Action, i: ReqId)
    requires Enabled(v, s, a) && !ByReadLoop(a) && Concerned(s, a) != Some(i) && i < |s.reqs|
    ensures |Do(v, s, a).reqs| == |s.reqs| && Do(v, s, a).reqs[i] == s.reqs[i]
    ensures Do(v, s, a).reader == s.reader || s.sending == Held(ReadLoop, true) || s.sending == Held(ReadLoop, false)
  {
  }

  lemma OtherRequestStep(v: Service, s: State, a: Action, i: ReqId)
    requires Inv(s) && Enabled(v, s, a) && !ByReadLoop(a) && Concerned(s, a) != Some(i) && i < |s.reqs|
    ensures i < |Do(v, s, a).reqs| && RequestOk(Do(v, s, a), i)
  {
    assert RequestOk(s, i);
    OthersKept(v, s, a, i);
    hide Inv, Has;
  }

  lemma SendingStep(v: Service, s: State, a: Action)
    requires Inv(s) && Enabled(v, s, a)
    ensures Do(v, s, a).sending.Held? ==> AtSend(Do(v, s, a), Do(v, s, a).sending.party)
  {
    hide RequestOk;
  }

  lemma ReaderStep(v: Service, s: State, a: Action)
    requires Inv(s) && Enabled(v, s, a)
    ensures var s' := Do(v, s, a);
            && (s'.reader.GotHeader? ==> s'.reqs != [] && s'.reqs[|s'.reqs| - 1].job.Fresh?)
            && (s'.reader.Replying? ==> s'.reqs != [] && s'.reqs[|s'.reqs| - 1].job.Bad?)
  {
    hide RequestOk, AllHandled;
  }

  lemma InvStep(v: Service, s: State, a: Action)
    requires Inv(s) && Enabled(v, s, a)
    ensures Inv(Do(v, s, a))
  {
    hide Do, Enabled, RequestOk, Concerned;
    var s' := Do(v, s, a);
    SendingStep(v, s, a);
    ReaderStep(v, s, a);
    SameRequests(v, s, a);
    forall i: ReqId | i < |s'.reqs| ensures RequestOk(s', i) {
      if ByReadLoop(a) {
        ReadStep(v, s, a, i);
      } else if Concerned(s, a) == Some(i) {
        OwnRequestStep(v, s, a, i);
      } else {
        OtherRequestStep(v, s, a, i);
      }
    }
  }

  lemma SameRequests(v: Service, s: State, a: Action)
    requires Inv(s) && Enabled(v, s, a)
    ensures !ByReadLoop(a) ==> |Do(v, s, a).reqs| == |s.reqs|
    ensures Do(v, s, a).reader.Closed? ==> AllHandled(Do(v, s, a))
  {
    hide RequestOk;
  }

  // ---------------------------------------------------------------- runs

  datatype Run = Run(states: seq<State>, actions: seq<Action>)

  ghost predicate IsRun(v: Service, r: Run) {
    && |r.states| == |r.actions| + 1
    && r.states[0] == Init
    && (forall i :: 0 <= i < |r.actions| ==>
          Enabled(v, r.states[i], r.actions[i]) && r.states[i + 1] == Do(v, r.states[i], r.actions[i]))
  }

  lemma {:induction false} InvInEveryRun(v: Service, r: Run, i: nat)
    requires IsRun(v, r) && i < |r.states|
    ensures Inv(r.states[i])
  {
    if i > 0 {
      InvInEveryRun(v, r, i - 1);
      InvStep(v, r.states[i - 1], r.actions[i - 1]);
    }
  }

  lemma ReadLoopStep(v: Service, s: State, a: Action)
    requires Inv(s) && Enabled(v, s, a)
    ensures var t := Do(v, s, a);
            t.reader.Draining? || t.reader.Closed? <==> s.reader.Draining? || s.reader.Closed? || a.HeaderError?
  {
    hide RequestOk, AllHandled;
  }

  /** The read loop goes on after every request, also after one it had to refuse. It ends if and only if
      a header could not be read. */
  lemma {:induction false} LoopEndsIffHeaderFailed(v: Service, r: Run, i: nat)
    requires IsRun(v, r) && i < |r.states|
    ensures r.states[i].reader.Draining? || r.states[i].reader.Closed? <==>
              exists j :: 0 <= j < i && r.actions[j].HeaderError?
  {
    hide Do, Enabled, Inv;
    if i > 0 {
      LoopEndsIffHeaderFailed(v, r, i - 1);
      InvInEveryRun(v, r, i - 1);
      ReadLoopStep(v, r.states[i - 1], r.actions[i - 1]);
    }
  }

  // ---------------------------------------------------------------- one response per request

  lemma AtMostOneResponse(v: Service, r: Run, i: nat, q: ReqId)
    requires IsRun(v, r) && i < |r.states| && q < |r.states[i].reqs|
    ensures r.states[i].reqs[q].attempts <= 1
  {
    InvInEveryRun(v, r, i);
    assert RequestOk(r.states[i], q);
  }

  /** When the codec is closed every request whose header was read has had its one response, and the
      write of it is over. */
  lemma OneResponseBeforeClose(v: Service, r: Run, i: nat, q: ReqId)
    requires IsRun(v, r) && i < |r.states| && q < |r.states[i].reqs| && r.states[i].reader.Closed?
    ensures r.states[i].reqs[q].attempts == 1
    ensures r.states[i].sending.Free?
  {
    InvInEveryRun(v, r, i);
    var s := r.states[i];
    assert RequestOk(s, q);
    if s.sending.Held? {
      SenderUnfinished(s, s.sending.party);
    }
  }

  /** A party at its send keeps the connection open. */
  lemma SenderUnfinished(s: State, p: Party)
    requires AtSend(s, p)
    ensures s.reader.Replying? || !AllHandled(s)
  {
    if !p.ReadLoop? {
      var i := RequestOf(s, p);
      assert s.reqs[i].job.Normal? && !s.reqs[i].job.handler.Finished?;
    }
  }

  /** After the close only methods can still return; no response is begun. */
  lemma ClosedStep(v: Service, s: State, a: Action)
    requires Inv(s) && s.reader.Closed? && Enabled(v, s, a)
    ensures a.MethodReturns?
    ensures Do(v, s, a).reader.Closed? && Do(v, s, a).sending == s.sending && |Do(v, s, a).reqs| == |s.reqs|
    ensures forall q :: 0 <= q < |s.reqs| ==> Do(v, s, a).reqs[q].attempts == s.reqs[q].attempts
  {
    if a.BeginSend? {
      SenderUnfinished(s, a.p);
    } else if a.EncodeHeader? || a.EncodeBody? {
      SenderUnfinished(s, s.sending.party);
    }
  }

  /** Once the codec is closed nothing is sent any more, however the run goes on. */
  lemma {:induction false} NothingSentAfterClose(v: Service, r: Run, i: nat, j: nat)
    requires IsRun(v, r) && i <= j < |r.states| && r.states[i].reader.Closed?
    ensures r.states[j].reader.Closed? && r.states[j].sending.Free? && |r.states[j].reqs| == |r.states[i].reqs|
    ensures forall q :: 0 <= q < |r.states[i].reqs| ==> r.states[j].reqs[q].attempts == r.states[i].reqs[q].attempts
    decreases j - i
  {
    hide Do, Enabled, RequestOk;
    InvInEveryRun(v, r, i);
    if i == j {
      if r.states[i].sending.Held? {
        SenderUnfinished(r.states[i], r.states[i].sending.party);
      }
    } else {
      NothingSentAfterClose(v, r, i, j - 1);
      InvInEveryRun(v, r, j - 1);
      ClosedStep(v, r.states[j - 1], r.actions[j - 1]);
    }
  }

  /** The timer arm was taken and the worker is still before its send on called. */
  ghost predicate TimedOut(s: State, q: ReqId) {
    && q < |s.reqs| && s.reqs[q].job.Normal?
    && (s.reqs[q].job.handler.TimerFired? || s.reqs[q].job.handler.Finished?)
    && (s.reqs[q].job.worker.Running? || s.reqs[q].job.worker.AtCalled?)
    && s.reqs[q].errText == TIMEOUT_TEXT
  }

  /** A timeout beats the worker for good. */
  lemma {:induction false} TimedOutWorkerNeverSends(v: Service, r: Run, i: nat, j: nat, q: ReqId)
    requires IsRun(v, r) && i <= j < |r.states| && q < |r.states[i].reqs|
    requires r.states[i].reqs[q].job.Normal? && r.states[i].reqs[q].job.handler.TimerFired?
    ensures TimedOut(r.states[j], q)
    decreases j - i
  {
    if i == j {
      InvInEveryRun(v, r, i);
      assert RequestOk(r.states[i], q);
    } else {
      TimedOutWorkerNeverSends(v, r, i, j - 1, q);
      InvInEveryRun(v, r, j - 1);
      TimedOutStep(v, r.states[j - 1], r.actions[j - 1], q);
    }
  }

  lemma TimedOutStep(v: Service, s: State, a: Action, q: ReqId)
    requires Inv(s) && TimedOut(s, q) && Enabled(v, s, a)
    ensures TimedOut(Do(v, s, a), q)
  {
    hide Do, Enabled, Concerned, RequestOk;
    if ByReadLoop(a) {
      ReadLoopKeepsJobs(v, s, a, q);
    } else if Concerned(s, a) == Some(q) {
      OwnTimedOut(v, s, a, q);
    } else {
      OthersKept(v, s, a, q);
    }
  }

  /** The read loop does not touch a request it has handed over. */
  lemma ReadLoopKeepsJobs(v: Service, s: State, a: Action, q: ReqId)
    requires Inv(s) && Enabled(v, s, a) && ByReadLoop(a) && q < |s.reqs| && s.reqs[q].job.Normal?
    ensures q < |Do(v, s, a).reqs| && Do(v, s, a).reqs[q] == s.reqs[q]
  {
    hide RequestOk;
  }

  lemma OwnTimedOut(v: Service, s: State, a: Action, q: ReqId)
    requires Inv(s) && TimedOut(s, q) && Enabled(v, s, a) && !ByReadLoop(a) && Concerned(s, a) == Some(q)
    ensures TimedOut(Do(v, s, a), q)
  {
    assert RequestOk(s, q);
    assert s.sending.Held? ==> AtSend(s, s.sending.party);
    hide Inv;
  }
}

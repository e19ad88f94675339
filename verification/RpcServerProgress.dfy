/** The server comes to rest: once the read loop has ended, a bounded number of steps closes the codec. */
module RpcServerProgress {
  import opened Common
  import opened RpcServer

  predicate Ending(s: State) { s.reader.Draining? || s.reader.Closed? }

  function HandlerWork(h: Handler, w: Worker, attempts: nat): nat {
    match h
    case Waiting => 6
    case TimerFired => if attempts == 0 then 3 else 1
    case AwaitSent => if w.AtSent? then 1 else if attempts == 0 then 5 else 3
    case Finished => 0
  }

  /** Steps a request can still take; the two steps of a write count once each, in the lock. */
  function RequestWork(r: Request): nat {
    match r.job
    case Fresh => 0
    case Bad => 0
    case Normal(h, w) => Count(w.Running?) + HandlerWork(h, w, r.attempts)
  }

  function WorkTo(reqs: seq<Request>, n: nat): nat
    requires n <= |reqs|
  {
    if n == 0 then 0 else WorkTo(reqs, n - 1) + RequestWork(reqs[n - 1])
  }

  /** Steps a draining connection can still take. */
  function Work(s: State): nat {
    WorkTo(s.reqs, |s.reqs|) + Count(s.sending.Held? && !s.sending.headerOut) + Count(s.reader.Draining?)
  }

  lemma {:induction false} WorkWithOneChange(a: seq<Request>, b: seq<Request>, n: nat, i: nat)
    requires |a| == |b| && n <= |a| && i < |a| && forall k :: 0 <= k < |a| && k != i ==> a[k] == b[k]
    ensures WorkTo(b, n) + (if i < n then RequestWork(a[i]) else 0)
         == WorkTo(a, n) + (if i < n then RequestWork(b[i]) else 0)
  {
    if n > 0 {
      WorkWithOneChange(a, b, n - 1, i);
    }
  }

  lemma {:induction false} WorkToBounded(reqs: seq<Request>, n: nat)
    requires n <= |reqs|
    ensures WorkTo(reqs, n) <= 7 * n
  {
    if n > 0 {
      WorkToBounded(reqs, n - 1);
    }
  }

  /** The request concerned and the lock together have less to do afterwards. */
  lemma OwnWorkLowers(v: Service, s: State, a: Action, i: ReqId)
    requires Inv(s) && Ending(s) && Enabled(v, s, a) && Concerned(s, a) == Some(i) && i < |s.reqs|
    ensures var s' := Do(v, s, a);
            && |s'.reqs| == |s.reqs| && s'.reader == s.reader
            && RequestWork(s'.reqs[i]) + Count(s'.sending.Held? && !s'.sending.headerOut)
             < RequestWork(s.reqs[i]) + Count(s.sending.Held? && !s.sending.headerOut)
  {
    assert RequestOk(s, i);
    hide Inv;
  }

  lemma ConcernedExists(v: Service, s: State, a: Action)
    requires Inv(s) && Ending(s) && Enabled(v, s, a)
    ensures !ByReadLoop(a) ==> Concerned(s, a).Some? && Concerned(s, a).value < |s.reqs|
    ensures ByReadLoop(a) ==> a.CloseCodec? && Do(v, s, a) == s.(reader := Closed) && s.reader.Draining?
  {
    hide RequestOk;
  }

  lemma EndingStep(v: Service, s: State, a: Action)
    requires Inv(s) && Ending(s) && Enabled(v, s, a)
    ensures Ending(Do(v, s, a)) && |Do(v, s, a).reqs| == |s.reqs| && Work(Do(v, s, a)) < Work(s)
  {
    hide Inv, Do, Enabled, Concerned, RequestWork;
    var s' := Do(v, s, a);
    ConcernedExists(v, s, a);
    if !ByReadLoop(a) {
      var i := Concerned(s, a).value;
      OwnWorkLowers(v, s, a, i);
      forall k: ReqId | k < |s.reqs| && k != i ensures s'.reqs[k] == s.reqs[k] {
        OthersKept(v, s, a, k);
      }
      WorkWithOneChange(s.reqs, s'.reqs, |s.reqs|, i);
    }
  }

  /** While the connection drains some step is possible, and one that is not the return of a method if
      there is a timeout: then not even a method that never returns keeps wg.Wait from its end. */
  lemma DrainingNeverStuck(v: Service, s: State) returns (a: Action)
    requires Inv(s) && s.reader.Draining?
    ensures Enabled(v, s, a) && (v.timed ==> !a.MethodReturns?)
  {
    if AllHandled(s) {
      a := CloseCodec;
    } else if s.sending.Held? {
      a := if s.sending.headerOut then EncodeBody(true) else EncodeHeader(true);
    } else {
      var i: ReqId :| i < |s.reqs| && s.reqs[i].job.Normal? && !s.reqs[i].job.handler.Finished?;
      assert RequestOk(s, i);
      a := match s.reqs[i].job.handler
        case Waiting =>
          if v.timed then TimerFires(i) else if s.reqs[i].job.worker.Running? then MethodReturns(i) else MeetCalled(i)
        case TimerFired => BeginSend(HandlerOf(i))
        case AwaitSent => if s.reqs[i].job.worker.Released? then BeginSend(WorkerOf(i)) else MeetSent(i)
        case Finished => CloseCodec;
    }
  }

  lemma {:induction false} WorkIsUsedUp(v: Service, r: Run, i: nat, j: nat)
    requires IsRun(v, r) && i <= j < |r.states| && Ending(r.states[i])
    ensures Ending(r.states[j]) && |r.states[j].reqs| == |r.states[i].reqs|
    ensures j - i + Work(r.states[j]) <= Work(r.states[i])
    decreases j - i
  {
    hide Work, Inv;
    if i < j {
      WorkIsUsedUp(v, r, i, j - 1);
      InvInEveryRun(v, r, j - 1);
      EndingStep(v, r.states[j - 1], r.actions[j - 1]);
    }
  }

  /** Draining ends: it takes at most seven steps a request and two more, whatever the order, and only
      a closed connection has no step left. */
  lemma DrainingEnds(v: Service, r: Run, i: nat, j: nat)
    requires IsRun(v, r) && i <= j < |r.states| && Ending(r.states[i])
    ensures j - i <= 7 * |r.states[i].reqs| + 2
    ensures (forall a :: Enabled(v, r.states[j], a) ==> v.timed && a.MethodReturns?) ==> r.states[j].reader.Closed?
  {
    WorkIsUsedUp(v, r, i, j);
    WorkToBounded(r.states[i].reqs, |r.states[i].reqs|);
    InvInEveryRun(v, r, j);
    if r.states[j].reader.Draining? {
      var a := DrainingNeverStuck(v, r.states[j]);
    }
  }
}

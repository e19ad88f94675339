/** The client comes to rest: once nothing arrives on the connection any more, the locks sending and mu
    are always passed on, and a bounded number of steps ends with every call decided. */
module RpcClientProgress {
  import opened Common
  import opened RpcClient

  /** A step once the connection is down: no new calls, nothing received; writes may fail or seem to
      succeed. */
  predicate Winding(a: Action) {
    !a.NewCall? && !a.Close? && !a.RemoveByUser? && !a.RecvHeader? && (a.RecvBody? ==> !a.ok)
  }

  /** Every send has returned and the receive loop has ended. */
  ghost predicate AtRest(s: State) {
    s.receiver.Stopped? && forall c :: 0 <= c < |s.calls| ==> s.calls[c].sender.Sent?
  }

  // ---------------------------------------------------------------- some step is always possible

  lemma HolderCanStep(s: State, c: CallId) returns (a: Action)
    requires Inv(s) && s.sending == HeldBy(c)
    ensures Winding(a) && Enabled(s, a)
  {
    assert CallOk(s, c);
    a := match s.calls[c].sender
      case Locked => Register(c)
      case Registered => EncodeHeader(c, false)
      case HeaderOut => EncodeBody(c, false)
      case WriteFailed => TakeBack(c)
      case ToSignal => SignalSender(c)
      case _ => Release(c);
  }

  lemma ReceiverCanStep(s: State) returns (a: Action)
    requires Inv(s) && !s.sending.HeldBy? && !s.receiver.Stopped?
    ensures Winding(a) && Enabled(s, a)
  {
    match s.receiver
    case Reading => a := RecvHeaderError;
    case GotHeader(_, _) => a := RemoveReceived;
    case Removed(_, _, _) => a := RecvBody(false, []);
    case ToDone(_, _) => a := SignalReceived;
    case NeedSending => a := TerminateLock;
    case NeedMu => a := TerminateBegin;
    case Notifying(rest) =>
      if rest == {} {
        a := TerminateEnd;
      } else {
        var q :| q in rest;
        EntryIsRegistration(s, q);
        a := Notify(q);
      }
  }

  /** No deadlock over the two locks: until the client is at rest, some step is possible. */
  lemma NeverStuck(s: State) returns (a: Action)
    requires Inv(s) && !AtRest(s)
    ensures Winding(a) && Enabled(s, a)
  {
    if s.sending.HeldBy? {
      a := HolderCanStep(s, s.sending.call);
    } else if !s.receiver.Stopped? {
      a := ReceiverCanStep(s);
    } else {
      var c: CallId :| c < |s.calls| && !s.calls[c].sender.Sent?;
      assert CallOk(s, c);
      a := TakeSending(c);
    }
  }

  // ---------------------------------------------------------------- the measure

  function SenderWork(x: Sender): nat {
    match x
    case Ready => 8
    case Locked => 7
    case Registered => 5
    case HeaderOut => 4
    case WriteFailed => 3
    case ToSignal => 2
    case ToUnlock => 1
    case Sent => 0
  }

  function SendersTo(calls: seq<Call>, n: nat): nat
    requires n <= |calls|
  {
    if n == 0 then 0 else SendersTo(calls, n - 1) + SenderWork(calls[n - 1].sender)
  }

  /** Steps left to the receive loop; every entry of the table may have to be notified. */
  function ReceiverWork(r: Receiver, entries: nat): nat {
    match r
    case GotHeader(_, _) => 7 + entries
    case Removed(_, _, _) => 6 + entries
    case ToDone(_, _) => 5 + entries
    case Reading => 4 + entries
    case NeedSending => 3 + entries
    case NeedMu => 2 + entries
    case Notifying(rest) => 1 + |rest|
    case Stopped => 0
  }

  function Work(s: State): nat {
    SendersTo(s.calls, |s.calls|) + ReceiverWork(s.receiver, |s.pending.Keys|)
  }

  lemma {:induction false} SendersWithOneChange(a: seq<Call>, b: seq<Call>, n: nat, c: CallId)
    requires |a| == |b| && n <= |a|
    requires forall k :: 0 <= k < |a| && k != c ==> a[k].sender == b[k].sender
    ensures SendersTo(b, n) + (if c < n then SenderWork(a[c].sender) else 0)
         == SendersTo(a, n) + (if c < n then SenderWork(b[c].sender) else 0)
  {
    if n > 0 {
      SendersWithOneChange(a, b, n - 1, c);
    }
  }

  lemma {:induction false} SendersBounded(calls: seq<Call>, n: nat)
    requires n <= |calls|
    ensures SendersTo(calls, n) <= 8 * n
  {
    if n > 0 {
      SendersBounded(calls, n - 1);
    }
  }

  /** What a step of a sender does to its own call. */
  lemma SenderStepLowers(s: State, a: Action)
    requires Enabled(s, a) && BySend(a)
    ensures Do(s, a).receiver == s.receiver && a.c < |s.calls| == |Do(s, a).calls|
    ensures SenderWork(Do(s, a).calls[a.c].sender) + Count(a.Register?) < SenderWork(s.calls[a.c].sender)
  {
    hide SenderWork, Do, Enabled;
    if a.Register? || a.TakeBack? {
      TableStepMoves(s, a);
    } else {
      PlainStepMoves(s, a);
    }
  }

  lemma PlainStepMoves(s: State, a: Action)
    requires Enabled(s, a) && BySender(a)
    ensures Do(s, a).receiver == s.receiver && a.c < |s.calls| == |Do(s, a).calls|
    ensures SenderWork(Do(s, a).calls[a.c].sender) < SenderWork(s.calls[a.c].sender)
  {
  }

  lemma TableStepMoves(s: State, a: Action)
    requires Enabled(s, a) && (a.Register? || a.TakeBack?)
    ensures Do(s, a).receiver == s.receiver && a.c < |s.calls| == |Do(s, a).calls|
    ensures SenderWork(Do(s, a).calls[a.c].sender) + Count(a.Register?) < SenderWork(s.calls[a.c].sender)
  {
    hide Lookup;
  }

  lemma SenderKeepsOthers(s: State, a: Action, k: CallId)
    requires Enabled(s, a) && BySend(a) && k < |s.calls| && k != a.c
    ensures k < |Do(s, a).calls| && Do(s, a).calls[k].sender == s.calls[k].sender
  {
    hide Lookup;
  }

  lemma SenderTable(s: State, a: Action)
    requires Enabled(s, a) && BySend(a)
    ensures Do(s, a).pending.Keys <= s.pending.Keys + if a.Register? then {s.next} else {}
  {
  }

  /** What a step of the receive loop does to the senders and the table. */
  lemma ReceiverKeepsSender(s: State, a: Action, k: CallId)
    requires Enabled(s, a) && Winding(a) && !BySend(a) && k < |s.calls|
    ensures k < |Do(s, a).calls| && Do(s, a).calls[k].sender == s.calls[k].sender
  {
  }

  lemma ReceiverKeepsTable(s: State, a: Action)
    requires Enabled(s, a) && Winding(a) && !BySend(a)
    ensures |Do(s, a).calls| == |s.calls| && Do(s, a).pending.Keys <= s.pending.Keys
  {
  }

  lemma ReceiverMoves(s: State, a: Action)
    requires Enabled(s, a) && Winding(a) && !BySend(a)
    ensures var r, r' := s.receiver, Do(s, a).receiver;
            match r
            case Reading => r'.NeedSending?
            case GotHeader(_, _) => r'.Removed?
            case Removed(_, _, _) => r'.ToDone? || r'.NeedSending?
            case ToDone(_, _) => r'.Reading? || r'.NeedSending?
            case NeedSending => r'.NeedMu?
            case NeedMu => r' == Notifying(s.pending.Keys)
            case Notifying(rest) => r'.Stopped? || (exists q :: q in rest && r' == Notifying(rest - {q}))
            case Stopped => false
  {
    if a.Notify? {
      assert Do(s, a).receiver == Notifying(s.receiver.rest - {a.q});
    }
  }

  lemma ReceiverWorkLowers(s: State, a: Action)
    requires Enabled(s, a) && Winding(a) && !BySend(a)
    ensures ReceiverWork(Do(s, a).receiver, |s.pending.Keys|) < ReceiverWork(s.receiver, |s.pending.Keys|)
  {
    hide Do, Enabled;
    ReceiverMoves(s, a);
  }

  lemma MoreEntries(r: Receiver, m: nat, n: nat)
    requires m <= n
    ensures ReceiverWork(r, m) <= ReceiverWork(r, n) <= ReceiverWork(r, m) + (n - m)
  {
  }

  lemma SubsetSize<T>(a: set<T>, b: set<T>)
    requires a <= b
    ensures |a| <= |b|
  {
    assert b == a + (b - a);
  }

  lemma TableGrows(s: State, a: Action)
    requires Inv(s) && Enabled(s, a) && BySend(a)
    ensures |Do(s, a).pending.Keys| <= |s.pending.Keys| + Count(a.Register?)
  {
    hide Inv, Do, Enabled, SenderWork;
    SenderTable(s, a);
    if a.Register? {
      SubsetSize(Do(s, a).pending.Keys, s.pending.Keys + {s.next});
      UnionSize(s.pending.Keys, {s.next});
    } else {
      SubsetSize(Do(s, a).pending.Keys, s.pending.Keys);
    }
  }

  lemma SenderWinds(s: State, a: Action)
    requires Inv(s) && Enabled(s, a) && BySend(a)
    ensures Work(Do(s, a)) < Work(s) && |Do(s, a).calls| == |s.calls|
  {
    hide Inv, Do, Enabled, SenderWork, ReceiverWork, SendersTo;
    var s' := Do(s, a);
    SenderStepLowers(s, a);
    forall k: CallId | k < |s.calls| && k != a.c ensures s'.calls[k].sender == s.calls[k].sender {
      SenderKeepsOthers(s, a, k);
    }
    SendersWithOneChange(s.calls, s'.calls, |s.calls|, a.c);
    TableGrows(s, a);
    var m, n := |s.pending.Keys|, |s'.pending.Keys|;
    if n <= m {
      MoreEntries(s.receiver, n, m);
    } else {
      MoreEntries(s.receiver, m, n);
    }
  }

  lemma UnionSize<T>(a: set<T>, b: set<T>)
    ensures |a + b| <= |a| + |b|
  {
    assert a + b == a + (b - a);
    SubsetSize(b - a, b);
  }

  lemma ReceiverWinds(s: State, a: Action)
    requires Enabled(s, a) && Winding(a) && !BySend(a)
    ensures Work(Do(s, a)) < Work(s) && |Do(s, a).calls| == |s.calls|
  {
    hide Do, Enabled, SenderWork, ReceiverWork, SendersTo;
    var s' := Do(s, a);
    ReceiverKeepsTable(s, a);
    forall k: CallId | k < |s.calls| ensures s'.calls[k].sender == s.calls[k].sender {
      ReceiverKeepsSender(s, a, k);
    }
    ReceiverWorkLowers(s, a);
    SendersWithOneChange(s.calls, s'.calls, |s.calls|, |s.calls|);
    SubsetSize(s'.pending.Keys, s.pending.Keys);
    MoreEntries(s'.receiver, |s'.pending.Keys|, |s.pending.Keys|);
  }

  lemma WindingStep(s: State, a: Action)
    requires Inv(s) && Enabled(s, a) && Winding(a)
    ensures Work(Do(s, a)) < Work(s) && |Do(s, a).calls| == |s.calls|
  {
    hide Inv, Do, Enabled, Work;
    if BySend(a) {
      SenderWinds(s, a);
    } else {
      ReceiverWinds(s, a);
    }
  }

  /** From state i on the run only winds down. */
  ghost predicate WindsFrom(r: Run, i: nat) {
    forall k :: i <= k < |r.actions| ==> Winding(r.actions[k])
  }

  lemma {:induction false} WorkIsUsedUp(r: Run, i: nat, j: nat)
    requires IsRun(r) && i <= j < |r.states| && WindsFrom(r, i)
    ensures |r.states[j].calls| == |r.states[i].calls|
    ensures j - i + Work(r.states[j]) <= Work(r.states[i])
    decreases j - i
  {
    hide Inv, Work, Do, Enabled;
    if i < j {
      WorkIsUsedUp(r, i, j - 1);
      InvInEveryRun(r, j - 1);
      WindingStep(r.states[j - 1], r.actions[j - 1]);
    }
  }

  /** Once nothing arrives any more, the client takes at most eight steps a call, one a pending call and
      seven more; and when no step is left every send has returned, the receive loop has ended, and
      every call has been signalled exactly once or was removed before it could be. */
  lemma ClientComesToRest(r: Run, i: nat, j: nat)
    requires IsRun(r) && i <= j < |r.states| && WindsFrom(r, i)
    ensures j - i <= 8 * |r.states[i].calls| + |r.states[i].pending.Keys| + 7
    ensures (forall a :: Winding(a) ==> !Enabled(r.states[j], a)) ==>
              && AtRest(r.states[j])
              && forall c :: 0 <= c < |r.states[j].calls| ==>
                   var x := r.states[j].calls[c];
                   x.signals == 1 || (x.signals == 0 && x.removed)
  {
    WorkIsUsedUp(r, i, j);
    SendersBounded(r.states[i].calls, |r.states[i].calls|);
    InvInEveryRun(r, i);
    if r.states[i].receiver.Notifying? {
      SubsetSize(r.states[i].receiver.rest, r.states[i].pending.Keys);
    }
    InvInEveryRun(r, j);
    var s := r.states[j];
    if !AtRest(s) {
      var a := NeverStuck(s);
    } else {
      forall c | 0 <= c < |s.calls| ensures s.calls[c].signals == 1 || (s.calls[c].signals == 0 && s.calls[c].removed) {
        SignalledExactlyOnce(r, j, c);
      }
    }
  }
}

/** What the client's past says about its state: why the receive loop has ended, who closed the client,
    where a call's error comes from, and what becomes of a call whose write failed. */
module RpcClientHistory {
  import opened Common
  import opened RpcClient

  // ---------------------------------------------------------------- the receive loop

  /** The error that ends the loop: a header or a body could not be read. */
  predicate ReadFails(a: Action) {
    a.RecvHeaderError? || (a.RecvBody? && !a.ok)
  }

  /** The loop is on its way to terminateCalls, or past it. */
  predicate LoopOver(s: State) {
    match s.receiver
    case Reading => false
    case GotHeader(_, _) => false
    case Removed(_, _, _) => false
    case ToDone(_, goOn) => !goOn
    case NeedSending => true
    case NeedMu => true
    case Notifying(_) => true
    case Stopped => true
  }

  lemma LoopStep(s: State, a: Action)
    requires Enabled(s, a)
    ensures LoopOver(Do(s, a)) <==> LoopOver(s) || ReadFails(a)
  {
    hide DoRegister, DoTakeBack;
    if a.Register? || a.TakeBack? {
      SendKeepsReceiver(s, a);
    }
  }

  lemma SendKeepsReceiver(s: State, a: Action)
    requires Enabled(s, a) && (a.Register? || a.TakeBack?)
    ensures Do(s, a).receiver == s.receiver
  {
  }

  /** The receive loop goes on after every response, with or without an error of the server, and after
      responses nobody waits for. It ends if and only if a read failed. */
  lemma {:induction false} LoopEndsIffReadFailed(r: Run, i: nat)
    requires IsRun(r) && i < |r.states|
    ensures LoopOver(r.states[i]) <==> exists j :: 0 <= j < i && ReadFails(r.actions[j])
  {
    hide Do, Enabled;
    if i > 0 {
      LoopEndsIffReadFailed(r, i - 1);
      LoopStep(r.states[i - 1], r.actions[i - 1]);
      assert r.states[i] == Do(r.states[i - 1], r.actions[i - 1]);
    }
  }

  // ---------------------------------------------------------------- Close

  lemma ClosingStep(s: State, a: Action)
    requires Enabled(s, a)
    ensures Do(s, a).closing <==> s.closing || a.Close?
    ensures s.closing || s.shutdown ==> Do(s, a).regs == s.regs && Do(s, a).next == s.next
    ensures (s.closing || s.shutdown) && a.Register? ==>
              a.c < |s.calls| && a.c < |Do(s, a).calls| &&
              Do(s, a).calls[a.c] == s.calls[a.c].(error := Some(Shutdown), sender := ToSignal)
  {
    hide Lookup, Signalled, DoRecvBody;
    if a.RecvBody? {
      BodyKeepsTable(s, a);
    }
  }

  lemma BodyKeepsTable(s: State, a: Action)
    requires Enabled(s, a) && a.RecvBody?
    ensures Do(s, a).regs == s.regs && Do(s, a).next == s.next && Do(s, a).closing == s.closing
  {
  }

  /** The client is closing if and only if someone called Close. */
  lemma {:induction false} ClosingIffClosed(r: Run, i: nat)
    requires IsRun(r) && i < |r.states|
    ensures r.states[i].closing <==> exists j :: 0 <= j < i && r.actions[j].Close?
  {
    hide Do, Enabled;
    if i > 0 {
      ClosingIffClosed(r, i - 1);
      ClosingStep(r.states[i - 1], r.actions[i - 1]);
    }
  }

  lemma {:induction false} NoNumbersAfterClose(r: Run, j: nat, i: nat)
    requires IsRun(r) && j <= i < |r.states| && r.states[j].closing
    ensures r.states[i].closing && r.states[i].regs == r.states[j].regs && r.states[i].next == r.states[j].next
    decreases i - j
  {
    hide Do, Enabled;
    if i > j {
      NoNumbersAfterClose(r, j, i - 1);
      ClosingStep(r.states[i - 1], r.actions[i - 1]);
    }
  }

  /** After a Close no call gets a number any more: whoever registers is refused, with ErrShutdown. */
  lemma RefusedAfterClose(r: Run, j: nat, i: nat)
    requires IsRun(r) && j < i < |r.actions| && r.actions[j].Close?
    ensures r.states[i + 1].regs == r.states[j].regs
    ensures r.actions[i].Register? ==>
              var c := r.actions[i].c;
              && c < |r.states[i + 1].calls|
              && r.states[i + 1].calls[c].error == Some(Shutdown) && r.states[i + 1].calls[c].sender.ToSignal?
              && r.states[i + 1].calls[c].num == 0
  {
    hide Do, Enabled;
    ClosingIffClosed(r, j + 1);
    ClosingKeepsNumbers(r.states[j], r.actions[j]);
    NoNumbersAfterClose(r, j + 1, i + 1);
    NoNumbersAfterClose(r, j + 1, i);
    ClosingStep(r.states[i], r.actions[i]);
    if r.actions[i].Register? {
      InvInEveryRun(r, i);
      Unnumbered(r.states[i], r.actions[i].c);
    }
  }

  lemma ClosingKeepsNumbers(s: State, a: Action)
    requires Enabled(s, a) && a.Close?
    ensures Do(s, a).regs == s.regs
  {
  }

  lemma Unnumbered(s: State, c: CallId)
    requires Inv(s) && Enabled(s, Register(c))
    ensures c < |s.calls| && s.calls[c].num == 0
  {
    assert CallOk(s, c);
  }

  /** terminateCalls holds mu while it notifies: nobody registers, takes back, removes or closes meanwhile.
      At any other time a caller may close the client or remove a call. */
  lemma MuExcludes(s: State, c: CallId, q: Seq)
    ensures Enabled(s, Close) <==> !s.receiver.Notifying?
    ensures Enabled(s, RemoveByUser(q)) <==> !s.receiver.Notifying?
    ensures Enabled(s, Register(c)) || Enabled(s, TakeBack(c)) || Enabled(s, RemoveReceived) ==> !s.receiver.Notifying?
  {
  }

  // ---------------------------------------------------------------- where errors come from

  /** The step gives call c this error. */
  predicate Causes(s: State, a: Action, c: CallId, e: Failure) {
    match e
    case Shutdown => a == Register(c) && (s.closing || s.shutdown)
    case WriteError => a == TakeBack(c)
    case ServerError(text) =>
      a.RecvBody? && s.receiver.Removed? && s.receiver.call == Some(c) && s.receiver.err == text != ""
    case BodyError => a.RecvBody? && !a.ok && s.receiver.Removed? && s.receiver.call == Some(c) && s.receiver.err == ""
    case ConnectionError => a.Notify? && Lookup(s, a.q) == Some(c)
  }

  /** The step gives call c this reply. */
  predicate Fills(s: State, a: Action, c: CallId, value: Bytes) {
    a == RecvBody(true, value) && s.receiver.Removed? && s.receiver.call == Some(c) && s.receiver.err == ""
  }

  ghost predicate ErrorOk(s: State, a: Action, s': State, c: CallId)
    requires c < |s.calls| && c < |s'.calls|
  {
    s'.calls[c].error == s.calls[c].error ||
    (s'.calls[c].error.Some? && Causes(s, a, c, s'.calls[c].error.value))
  }

  ghost predicate ReplyOk(s: State, a: Action, s': State, c: CallId)
    requires c < |s.calls| && c < |s'.calls|
  {
    s'.calls[c].reply == s.calls[c].reply ||
    (s'.calls[c].reply.Some? && Fills(s, a, c, s'.calls[c].reply.value))
  }

  /** send writes to its own call only. */
  lemma OthersUntouched(s: State, a: Action, c: CallId)
    requires Enabled(s, a) && c < |s.calls| && BySend(a) && a.c != c
    ensures c < |Do(s, a).calls| && Do(s, a).calls[c] == s.calls[c]
  {
    hide Lookup;
  }

  lemma RegionOutcome(s: State, a: Action, c: CallId)
    requires Enabled(s, a) && c < |s.calls| && (a.Register? || a.TakeBack?) && a.c == c
    ensures c < |Do(s, a).calls| && ErrorOk(s, a, Do(s, a), c) && ReplyOk(s, a, Do(s, a), c)
  {
    hide Lookup;
  }

  lemma SendOutcome(s: State, a: Action, c: CallId)
    requires Enabled(s, a) && c < |s.calls| && BySender(a) && a.c == c
    ensures c < |Do(s, a).calls|
    ensures Do(s, a).calls[c].error == s.calls[c].error && Do(s, a).calls[c].reply == s.calls[c].reply
  {
  }

  predicate Delivers(a: Action) {
    a.RecvBody? || a.SignalReceived? || a.Notify?
  }

  lemma BodyOutcome(s: State, a: Action, c: CallId)
    requires Enabled(s, a) && c < |s.calls| && a.RecvBody?
    ensures c < |Do(s, a).calls| && ErrorOk(s, a, Do(s, a), c) && ReplyOk(s, a, Do(s, a), c)
  {
  }

  lemma DeliveryOutcome(s: State, a: Action, c: CallId)
    requires Enabled(s, a) && c < |s.calls| && (a.SignalReceived? || a.Notify?)
    ensures c < |Do(s, a).calls| && ErrorOk(s, a, Do(s, a), c) && ReplyOk(s, a, Do(s, a), c)
  {
  }

  lemma OtherOutcome(s: State, a: Action, c: CallId)
    requires Enabled(s, a) && c < |s.calls| && !BySend(a) && !Delivers(a)
    ensures c < |Do(s, a).calls|
    ensures Do(s, a).calls[c].error == s.calls[c].error && Do(s, a).calls[c].reply == s.calls[c].reply
  {
  }

  lemma OutcomeStep(s: State, a: Action, c: CallId)
    requires Enabled(s, a) && c < |s.calls|
    ensures c < |Do(s, a).calls| && ErrorOk(s, a, Do(s, a), c) && ReplyOk(s, a, Do(s, a), c)
  {
    hide Do, Enabled, Causes, Fills;
    if BySend(a) {
      if a.c == c {
        if BySender(a) {
          SendOutcome(s, a, c);
        } else {
          RegionOutcome(s, a, c);
        }
      } else {
        OthersUntouched(s, a, c);
      }
    } else if a.RecvBody? {
      BodyOutcome(s, a, c);
    } else if Delivers(a) {
      DeliveryOutcome(s, a, c);
    } else {
      OtherOutcome(s, a, c);
    }
  }

  lemma NewCallBlank(s: State, a: Action, c: CallId)
    requires Inv(s) && Enabled(s, a) && |s.calls| <= c < |Do(s, a).calls|
    ensures Do(s, a).calls[c].error == None && Do(s, a).calls[c].reply == None
    ensures a == NewCall(Do(s, a).calls[c].target, Do(s, a).calls[c].args)
  {
    hide Inv, Enabled, DoRegister, DoTakeBack, DoRecvBody;
    if !a.NewCall? {
      SameCalls(s, a);
    }
  }

  lemma {:induction false} ErrorGiven(r: Run, i: nat, c: CallId) returns (j: nat)
    requires IsRun(r) && i < |r.states| && c < |r.states[i].calls| && r.states[i].calls[c].error.Some?
    ensures j < i && Causes(r.states[j], r.actions[j], c, r.states[i].calls[c].error.value)
  {
    hide Do, Enabled, Causes, Inv;
    if i == 0 {
      assert false;
    } else {
      var s, a := r.states[i - 1], r.actions[i - 1];
      j := i - 1;
      InvInEveryRun(r, i - 1);
      if c < |s.calls| {
        OutcomeStep(s, a, c);
        if r.states[i].calls[c].error == s.calls[c].error {
          j := ErrorGiven(r, i - 1, c);
        }
      } else {
        NewCallBlank(s, a, c);
      }
    }
  }

  lemma {:induction false} ReplyGiven(r: Run, i: nat, c: CallId) returns (j: nat)
    requires IsRun(r) && i < |r.states| && c < |r.states[i].calls| && r.states[i].calls[c].reply.Some?
    ensures j < i && Fills(r.states[j], r.actions[j], c, r.states[i].calls[c].reply.value)
  {
    hide Do, Enabled, Fills, Inv;
    if i == 0 {
      assert false;
    } else {
      var s, a := r.states[i - 1], r.actions[i - 1];
      j := i - 1;
      InvInEveryRun(r, i - 1);
      if c < |s.calls| {
        OutcomeStep(s, a, c);
        if r.states[i].calls[c].reply == s.calls[c].reply {
          j := ReplyGiven(r, i - 1, c);
        }
      } else {
        NewCallBlank(s, a, c);
      }
    }
  }

  /** The response at hand. */
  function AtHand(s: State): Option<(Seq, string)> {
    match s.receiver
    case GotHeader(q, err) => Some((q, err))
    case Removed(q, _, err) => Some((q, err))
    case _ => None
  }

  lemma AtHandStep(s: State, a: Action)
    requires Enabled(s, a) && AtHand(Do(s, a)).Some?
    ensures AtHand(Do(s, a)) == AtHand(s) || a == RecvHeader(AtHand(Do(s, a)).value.0, AtHand(Do(s, a)).value.1)
  {
    hide DoRegister, DoTakeBack;
    if a.Register? || a.TakeBack? {
      SendKeepsReceiver(s, a);
    }
  }

  lemma {:induction false} HeaderWasRead(r: Run, i: nat) returns (j: nat)
    requires IsRun(r) && i < |r.states| && AtHand(r.states[i]).Some?
    ensures j < i && r.actions[j] == RecvHeader(AtHand(r.states[i]).value.0, AtHand(r.states[i]).value.1)
  {
    hide Do, Enabled;
    if i == 0 {
      assert false;
    } else {
      j := i - 1;
      AtHandStep(r.states[i - 1], r.actions[i - 1]);
      if AtHand(r.states[i]) == AtHand(r.states[i - 1]) {
        j := HeaderWasRead(r, i - 1);
      }
    }
  }

  lemma NumberStep(s: State, a: Action, c: CallId)
    requires Inv(s) && Enabled(s, a) && c < |s.calls| && s.calls[c].num > 0
    ensures c < |Do(s, a).calls| && Do(s, a).calls[c].num == s.calls[c].num
  {
    hide Inv, Do, Enabled;
    CallsKept(s, a);
    assert CallKept(s, Do(s, a), c, a.Register?);
    if a.Register? {
      NumberedOnce(s, a, c);
    }
  }

  lemma NumberedOnce(s: State, a: Action, c: CallId)
    requires Inv(s) && Enabled(s, a) && a.Register? && c < |s.calls| && s.calls[c].num > 0
    ensures c < |Do(s, a).calls| && Do(s, a).calls[c].num == s.calls[c].num
  {
    hide Inv;
    InvCall(s, c);
  }

  /** A call that has a number keeps it. */
  lemma {:induction false} NumberKept(r: Run, j: nat, i: nat, c: CallId)
    requires IsRun(r) && j <= i < |r.states| && c < |r.states[j].calls| && r.states[j].calls[c].num > 0
    ensures c < |r.states[i].calls| && r.states[i].calls[c].num == r.states[j].calls[c].num
    decreases i - j
  {
    hide Inv, Do, Enabled;
    if i > j {
      NumberKept(r, j, i - 1, c);
      InvInEveryRun(r, i - 1);
      NumberStep(r.states[i - 1], r.actions[i - 1], c);
    }
  }

  /** The call the response at hand was for has that response's number. */
  lemma HandedNumber(s: State, c: CallId)
    requires Inv(s) && s.receiver.Removed? && s.receiver.call == Some(c)
    ensures c < |s.calls| && s.calls[c].num == s.receiver.num > 0
  {
    assert RegOk(s, s.receiver.num - 1);
  }

  /** A response with the call's number and this error text has been read before step i. */
  ghost predicate Responded(r: Run, i: nat, num: Seq, text: string) {
    exists j :: 0 <= j < i <= |r.actions| && r.actions[j] == RecvHeader(num, text)
  }

  lemma ResponseRead(r: Run, j: nat, i: nat, c: CallId)
    requires IsRun(r) && j < i < |r.states| && r.states[j].receiver.Removed? && r.states[j].receiver.call == Some(c)
    ensures c < |r.states[i].calls| && Responded(r, i, r.states[i].calls[c].num, r.states[j].receiver.err)
  {
    hide Inv, Do, Enabled;
    InvInEveryRun(r, j);
    HandedNumber(r.states[j], c);
    NumberKept(r, j, i, c);
    var h := HeaderWasRead(r, j);
  }

  /** Every reply was read with the body of a response that had the call's number and no error text. */
  lemma ReplyWasRead(r: Run, i: nat, c: CallId)
    requires IsRun(r) && i < |r.states| && c < |r.states[i].calls| && r.states[i].calls[c].reply.Some?
    ensures Responded(r, i, r.states[i].calls[c].num, "")
    ensures exists j :: 0 <= j < i && r.actions[j] == RecvBody(true, r.states[i].calls[c].reply.value)
  {
    hide Do, Enabled, Responded, IsRun;
    var j := ReplyGiven(r, i, c);
    RunLength(r);
    ResponseRead(r, j, i, c);
  }

  lemma RunLength(r: Run)
    requires IsRun(r)
    ensures |r.states| == |r.actions| + 1
  {
  }

  predicate WriteFails(a: Action, c: CallId) {
    a == EncodeHeader(c, false) || a == EncodeBody(c, false)
  }

  /** What must have happened before a call can show an error. */
  ghost predicate Explained(r: Run, i: nat, c: CallId, num: Seq, e: Failure) {
    match e
    case Shutdown =>
      && (exists j :: 0 <= j < i <= |r.actions| && r.actions[j] == Register(c))
      && (exists j :: 0 <= j < i <= |r.actions| && (r.actions[j].Close? || ReadFails(r.actions[j])))
    case WriteError =>
      exists j :: 0 <= j < i <= |r.actions| && WriteFails(r.actions[j], c)
    case ServerError(text) => text != "" && Responded(r, i, num, text)
    case BodyError =>
      Responded(r, i, num, "") && exists j :: 0 <= j < i <= |r.actions| && r.actions[j].RecvBody? && !r.actions[j].ok
    case ConnectionError => exists j :: 0 <= j < i <= |r.actions| && ReadFails(r.actions[j])
  }

  lemma OverOnceShutDown(s: State)
    requires Inv(s) && (s.shutdown || s.receiver.Notifying?)
    ensures LoopOver(s)
  {
  }

  lemma WriteFailedStep(s: State, a: Action, c: CallId)
    requires Inv(s) && Enabled(s, a) && c < |Do(s, a).calls| && Do(s, a).calls[c].sender.WriteFailed?
    ensures WriteFails(a, c) || (c < |s.calls| && s.calls[c].sender.WriteFailed?)
  {
    hide Inv;
    if !a.NewCall? {
      SameCalls(s, a);
    }
  }

  lemma {:induction false} WriteHasFailed(r: Run, i: nat, c: CallId) returns (j: nat)
    requires IsRun(r) && i < |r.states| && c < |r.states[i].calls| && r.states[i].calls[c].sender.WriteFailed?
    ensures j < i && WriteFails(r.actions[j], c)
  {
    hide Do, Enabled, Inv;
    if i == 0 {
      assert false;
    } else {
      j := i - 1;
      InvInEveryRun(r, i - 1);
      WriteFailedStep(r.states[i - 1], r.actions[i - 1], c);
      if !WriteFails(r.actions[i - 1], c) {
        j := WriteHasFailed(r, i - 1, c);
      }
    }
  }

  /** Every error a call shows has its cause in the run. */
  lemma ErrorHasCause(r: Run, i: nat, c: CallId)
    requires IsRun(r) && i < |r.states| && c < |r.states[i].calls| && r.states[i].calls[c].error.Some?
    ensures Explained(r, i, c, r.states[i].calls[c].num, r.states[i].calls[c].error.value)
  {
    hide Do, Enabled, Inv, LoopOver;
    var j := ErrorGiven(r, i, c);
    var s := r.states[j];
    InvInEveryRun(r, j);
    assert Enabled(s, r.actions[j]);
    match r.states[i].calls[c].error.value
    case Shutdown =>
      ClosingIffClosed(r, j);
      LoopEndsIffReadFailed(r, j);
      if s.shutdown {
        OverOnceShutDown(s);
      }
    case WriteError =>
      TakingBack(s, c);
      var k := WriteHasFailed(r, j, c);
    case ServerError(text) => ResponseRead(r, j, i, c);
    case BodyError => ResponseRead(r, j, i, c);
    case ConnectionError =>
      LoopEndsIffReadFailed(r, j);
      Notifying(s, r.actions[j]);
      OverOnceShutDown(s);
  }

  lemma TakingBack(s: State, c: CallId)
    requires Enabled(s, TakeBack(c))
    ensures c < |s.calls| && s.calls[c].sender.WriteFailed?
  {
  }

  lemma Notifying(s: State, a: Action)
    requires Enabled(s, a) && a.Notify?
    ensures s.receiver.Notifying?
  {
  }

  // ---------------------------------------------------------------- failed writes and removals

  lemma GoneStep(s: State, a: Action, q: Seq)
    requires Inv(s) && Enabled(s, a) && q < s.next && q !in s.pending
    ensures q < Do(s, a).next && q !in Do(s, a).pending
  {
    hide Do, Inv, Enabled;
    if a.Register? {
      RegisterAddsNext(s, a);
    } else {
      TableFrame(s, a);
    }
  }

  lemma RegisterAddsNext(s: State, a: Action)
    requires Enabled(s, a) && a.Register?
    ensures Do(s, a).next >= s.next
    ensures forall q :: q in Do(s, a).pending ==> q in s.pending || q == s.next
  {
  }

  /** A number that has left the table never comes back. */
  lemma {:induction false} GoneForGood(r: Run, j: nat, i: nat, q: Seq)
    requires IsRun(r) && j <= i < |r.states| && q < r.states[j].next && q !in r.states[j].pending
    ensures q < r.states[i].next && q !in r.states[i].pending
    decreases i - j
  {
    hide Inv, Do, Enabled;
    if i > j {
      GoneForGood(r, j, i - 1, q);
      InvInEveryRun(r, i - 1);
      GoneStep(r.states[i - 1], r.actions[i - 1], q);
    }
  }

  /** After a failed write the call is still with its sender, or it is out of the table. */
  ghost predicate TakenOut(s: State, c: CallId) {
    && c < |s.calls| && 0 < s.calls[c].num < s.next
    && (s.calls[c].sender.WriteFailed? ||
        ((s.calls[c].sender.ToSignal? || s.calls[c].sender.ToUnlock? || s.calls[c].sender.Sent?) &&
         s.calls[c].num !in s.pending))
  }

  lemma WriteFailsStep(s: State, a: Action, c: CallId)
    requires Inv(s) && Enabled(s, a) && WriteFails(a, c)
    ensures TakenOut(Do(s, a), c)
  {
    hide Inv;
    InvCall(s, c);
  }

  lemma OwnTakenOutStep(s: State, a: Action, c: CallId)
    requires Inv(s) && Enabled(s, a) && TakenOut(s, c) && BySend(a) && a.c == c
    ensures TakenOut(Do(s, a), c)
  {
    hide Inv;
  }

  lemma SenderKept(s: State, a: Action, c: CallId)
    requires Enabled(s, a) && c < |s.calls| && !BySend(a)
    ensures c < |Do(s, a).calls| && Do(s, a).calls[c].sender == s.calls[c].sender
  {
    hide Do, Enabled;
    if Delivers(a) {
      DeliveryKeepsSender(s, a, c);
    } else {
      OtherKeepsSender(s, a, c);
    }
  }

  lemma DeliveryKeepsSender(s: State, a: Action, c: CallId)
    requires Enabled(s, a) && c < |s.calls| && Delivers(a)
    ensures c < |Do(s, a).calls| && Do(s, a).calls[c].sender == s.calls[c].sender
  {
  }

  lemma OtherKeepsSender(s: State, a: Action, c: CallId)
    requires Enabled(s, a) && c < |s.calls| && !BySend(a) && !Delivers(a)
    ensures c < |Do(s, a).calls| && Do(s, a).calls[c].sender == s.calls[c].sender
  {
    hide Lookup;
  }

  lemma NextGrows(s: State, a: Action)
    requires Enabled(s, a)
    ensures Do(s, a).next >= s.next
  {
    hide Do, Enabled;
    if a.Register? {
      RegisterAddsNext(s, a);
    } else {
      TableFrame(s, a);
    }
  }

  lemma TakenOutStep(s: State, a: Action, c: CallId)
    requires Inv(s) && Enabled(s, a) && TakenOut(s, c)
    ensures TakenOut(Do(s, a), c)
  {
    hide Inv, Do, Enabled;
    if BySend(a) && a.c == c {
      OwnTakenOutStep(s, a, c);
    } else {
      if BySend(a) {
        OthersUntouched(s, a, c);
      } else {
        SenderKept(s, a, c);
      }
      NumberStep(s, a, c);
      NextGrows(s, a);
      if s.calls[c].num !in s.pending {
        GoneStep(s, a, s.calls[c].num);
      }
    }
  }

  /** When send returns after a failed write, the call is no longer in the table: send took it back, or
      the receive loop or a caller had taken it out before. */
  lemma {:induction false} FailedWriteIsTakenBack(r: Run, j: nat, i: nat, c: CallId)
    requires IsRun(r) && j < i < |r.states|
    requires r.actions[j] == EncodeHeader(c, false) || r.actions[j] == EncodeBody(c, false)
    ensures c < |r.states[i].calls|
    ensures r.states[i].calls[c].sender.Sent? ==> r.states[i].calls[c].num !in r.states[i].pending
    ensures TakenOut(r.states[i], c)
    decreases i - j
  {
    hide Inv, Do, Enabled;
    InvInEveryRun(r, i - 1);
    if i == j + 1 {
      WriteFailsStep(r.states[j], r.actions[j], c);
    } else {
      FailedWriteIsTakenBack(r, j, i - 1, c);
      TakenOutStep(r.states[i - 1], r.actions[i - 1], c);
    }
  }

  lemma RemovedStep(s: State, a: Action, c: CallId)
    requires Inv(s) && Enabled(s, a) && c < |s.calls| && s.calls[c].removed
    ensures c < |Do(s, a).calls| && Do(s, a).calls[c].removed && Do(s, a).calls[c].signals == s.calls[c].signals
  {
    hide Inv, Do, Enabled;
    InvCall(s, c);
    if a.SignalSender? || a.SignalReceived? || a.Notify? {
      SignalSkipsRemoved(s, a, c);
    } else if BySend(a) && a.c != c {
      OthersUntouched(s, a, c);
    } else if BySend(a) {
      SendSignals(s, a, c);
    } else {
      NoSignal(s, a, c);
    }
  }

  lemma SignalSkipsRemoved(s: State, a: Action, c: CallId)
    requires Inv(s) && Enabled(s, a) && c < |s.calls| && s.calls[c].removed
    requires a.SignalSender? || a.SignalReceived? || a.Notify?
    ensures c < |Do(s, a).calls| && Do(s, a).calls[c] == s.calls[c]
  {
    InvCall(s, c);
    if a.Notify? {
      EntryIsRegistration(s, a.q);
    }
    hide Inv;
  }

  lemma SendSignals(s: State, a: Action, c: CallId)
    requires Enabled(s, a) && c < |s.calls| && BySend(a) && a.c == c && !a.SignalSender?
    ensures c < |Do(s, a).calls| && Do(s, a).calls[c].signals == s.calls[c].signals
    ensures s.calls[c].removed ==> Do(s, a).calls[c].removed
  {
    hide Lookup;
  }

  lemma NoSignal(s: State, a: Action, c: CallId)
    requires Enabled(s, a) && c < |s.calls| && !BySend(a) && !a.SignalReceived? && !a.Notify?
    ensures c < |Do(s, a).calls| && Do(s, a).calls[c].signals == s.calls[c].signals
    ensures s.calls[c].removed ==> Do(s, a).calls[c].removed
  {
    hide Lookup;
  }

  lemma RemovalStep(s: State, q: Seq)
    requires Inv(s) && Enabled(s, RemoveByUser(q))
    ensures var s' := Do(s, RemoveByUser(q));
            && q !in s'.pending && s'.next == s.next
            && (q in s.pending ==>
                  && s.pending[q] < |s.calls| && s.pending[q] < |s'.calls|
                  && s'.calls[s.pending[q]] == s.calls[s.pending[q]].(removed := true))
  {
    if q in s.pending {
      EntryIsRegistration(s, q);
    }
    hide Inv;
  }

  /** A call removed from outside is never signalled from then on, and its number never comes back. */
  lemma RemovedForGood(r: Run, j: nat, i: nat, q: Seq)
    requires IsRun(r) && j < i < |r.states| && r.actions[j] == RemoveByUser(q) && q < r.states[j].next
    ensures q !in r.states[i].pending
    ensures q in r.states[j].pending ==>
              var c := r.states[j].pending[q];
              && c < |r.states[j].calls| && c < |r.states[i].calls|
              && r.states[i].calls[c].signals == r.states[j].calls[c].signals
  {
    hide Inv, Do, Enabled;
    InvInEveryRun(r, j);
    RemovalStep(r.states[j], q);
    GoneForGood(r, j + 1, i, q);
    if q in r.states[j].pending {
      NeverSignalled(r, j + 1, i, r.states[j].pending[q]);
    }
  }

  lemma {:induction false} NeverSignalled(r: Run, j: nat, i: nat, c: CallId)
    requires IsRun(r) && j <= i < |r.states| && c < |r.states[j].calls| && r.states[j].calls[c].removed
    ensures c < |r.states[i].calls| && r.states[i].calls[c].removed
    ensures r.states[i].calls[c].signals == r.states[j].calls[c].signals
    decreases i - j
  {
    hide Inv, Do, Enabled;
    if i > j {
      NeverSignalled(r, j, i - 1, c);
      InvInEveryRun(r, i - 1);
      RemovedStep(r.states[i - 1], r.actions[i - 1], c);
    }
  }
}

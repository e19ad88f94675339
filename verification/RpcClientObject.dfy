/** The client as an object: each method is the body of one region under mu, and is shown to take
    exactly the step of the protocol in RpcClient that bears its name. */
module RpcClientObject {
  import opened Common
  import C = RpcClient

  type Seq = C.Seq
  type CallId = C.CallId

  class Call {
    const serviceMethod: string
    const args: Bytes
    ghost const id: CallId      // its place among all calls made
    var num: Seq
    var error: Option<C.Failure>
    var reply: Option<Bytes>
    var signals: nat            // values sent on Done

    constructor (serviceMethod: string, args: Bytes, ghost id: CallId)
      ensures this.serviceMethod == serviceMethod && this.args == args && this.id == id
      ensures num == 0 && error == None && reply == None && signals == 0
    {
      this.serviceMethod, this.args, this.id := serviceMethod, args, id;
      num, error, reply, signals := 0, None, None, 0;
    }

    ghost predicate Shows(c: C.Call)
      reads this
    {
      serviceMethod == c.target && args == c.args && num == c.num && error == c.error &&
      reply == c.reply && signals == c.signals
    }

    method Done()
      modifies `signals
      ensures signals == old(signals) + 1
    {
      signals := signals + 1;
    }
  }

  ghost predicate KeepsOthers(s: C.State, s': C.State, c: CallId) {
    && c < |s.calls| == |s'.calls|
    && forall d :: 0 <= d < |s.calls| && d != c ==> s'.calls[d] == s.calls[d]
  }

  /** What a step of the protocol leaves alone. */
  ghost predicate OnlyCall(s: C.State, s': C.State, c: CallId) {
    KeepsOthers(s, s', c) && s'.next == s.next && s'.closing == s.closing && s'.shutdown == s.shutdown
  }

  lemma RegisterStep(s: C.State, c: CallId) returns (s': C.State)
    requires C.Inv(s) && C.Enabled(s, C.Register(c))
    ensures s' == C.Do(s, C.Register(c)) && C.Inv(s') && KeepsOthers(s, s', c)
    ensures s'.closing == s.closing && s'.shutdown == s.shutdown
    ensures if s.closing || s.shutdown
            then s'.calls[c] == s.calls[c].(error := Some(C.Shutdown), sender := C.ToSignal) &&
                 s'.pending == s.pending && s'.next == s.next
            else s'.calls[c] == s.calls[c].(num := s.next, sender := C.Registered) &&
                 s'.pending == s.pending[s.next := c] && s'.next == s.next + 1
  {
    s' := C.Do(s, C.Register(c));
    C.InvStep(s, C.Register(c));
  }

  /** The call objects show both states alike. */
  ghost predicate SameShown(s: C.State, s': C.State) {
    && |s'.calls| == |s.calls|
    && forall c :: 0 <= c < |s.calls| ==>
         s'.calls[c] == s.calls[c].(sender := s'.calls[c].sender, removed := s'.calls[c].removed)
  }

  lemma TakeBackStep(s: C.State, c: CallId) returns (s': C.State)
    requires C.Inv(s) && C.Enabled(s, C.TakeBack(c))
    ensures s' == C.Do(s, C.TakeBack(c)) && C.Inv(s') && c < |s.calls| && OnlyCall(s, s', c)
    ensures s'.pending == s.pending - {s.calls[c].num}
    ensures var x := s.calls[c];
            if x.num in s.pending
            then s.pending[x.num] == c && s'.calls[c] == x.(error := Some(C.WriteError), sender := C.ToSignal)
            else s'.calls[c] == x.(sender := C.ToUnlock) && SameShown(s, s')
  {
    s' := C.Do(s, C.TakeBack(c));
    C.InvStep(s, C.TakeBack(c));
    if s.calls[c].num in s.pending {
      C.EntryIsRegistration(s, s.calls[c].num);
    }
  }

  lemma RemoveReceivedStep(s: C.State) returns (s': C.State)
    requires C.Inv(s) && C.Enabled(s, C.RemoveReceived)
    ensures s' == C.Do(s, C.RemoveReceived) && C.Inv(s') && s.receiver.GotHeader?
    ensures var q := s.receiver.num;
            s' == s.(pending := s.pending - {q}, receiver := C.Removed(q, C.Lookup(s, q), s.receiver.err))
  {
    s' := C.Do(s, C.RemoveReceived);
    C.InvStep(s, C.RemoveReceived);
  }

  lemma RemoveByUserStep(s: C.State, q: Seq) returns (s': C.State)
    requires C.Inv(s) && C.Enabled(s, C.RemoveByUser(q))
    ensures s' == C.Do(s, C.RemoveByUser(q)) && C.Inv(s') && s'.pending == s.pending - {q}
    ensures |s'.calls| == |s.calls| && s'.next == s.next && s'.closing == s.closing && s'.shutdown == s.shutdown
    ensures SameShown(s, s')
  {
    s' := C.Do(s, C.RemoveByUser(q));
    C.InvStep(s, C.RemoveByUser(q));
  }

  lemma NotifyStep(s: C.State, q: Seq) returns (s': C.State, c: CallId)
    requires C.Inv(s) && s.receiver.Notifying? && q in s.receiver.rest
    ensures C.Enabled(s, C.Notify(q)) && s' == C.Do(s, C.Notify(q)) && C.Inv(s')
    ensures q in s.pending && s.pending[q] == c && OnlyCall(s, s', c) && s'.pending == s.pending
    ensures s'.receiver == C.Notifying(s.receiver.rest - {q}) && s.calls[c].num == q
    ensures s'.calls[c] == s.calls[c].(signals := s.calls[c].signals + 1, error := Some(C.ConnectionError))
    ensures forall d :: 0 <= d < |s.calls| && s.calls[d].num == q ==> d == c
  {
    C.EntryIsRegistration(s, q);
    c := s.pending[q];
    s' := C.Do(s, C.Notify(q));
    C.InvStep(s, C.Notify(q));
  }

  lemma TerminateSteps(s: C.State)
    requires C.Inv(s)
    ensures s.receiver.NeedMu? ==>
              var s' := C.Do(s, C.TerminateBegin);
              C.Inv(s') && s' == s.(shutdown := true, receiver := C.Notifying(s.pending.Keys))
    ensures s.receiver == C.Notifying({}) ==>
              var s' := C.Do(s, C.TerminateEnd);
              C.Inv(s') && s' == s.(receiver := C.Stopped, sending := C.Free)
  {
    if s.receiver.NeedMu? {
      C.InvStep(s, C.TerminateBegin);
    } else if s.receiver == C.Notifying({}) {
      C.InvStep(s, C.TerminateEnd);
    }
  }

  /** Every call, as it stands while the entries in todo are still to be notified. */
  ghost predicate Notified(before: C.State, s: C.State, todo: set<Seq>) {
    && s.pending == before.pending && |s.calls| == |before.calls|
    && forall c :: 0 <= c < |s.calls| ==>
         var was := before.calls[c];
         var hit := C.Lookup(before, was.num) == Some(c) && was.num !in todo;
         s.calls[c] == was.(signals := was.signals + (if hit then 1 else 0),
                            error := if hit then Some(C.ConnectionError) else was.error)
  }

  lemma NotifiedStep(before: C.State, s: C.State, todo: set<Seq>, q: Seq)
    requires C.Inv(s) && s.receiver == C.Notifying(todo) && q in todo && Notified(before, s, todo)
    ensures C.Enabled(s, C.Notify(q)) && Notified(before, C.Do(s, C.Notify(q)), todo - {q})
    ensures C.Do(s, C.Notify(q)).receiver == C.Notifying(todo - {q}) && C.Do(s, C.Notify(q)).shutdown == s.shutdown
  {
    hide C.Inv, C.Do;
    var s', c := NotifyStep(s, q);
  }

  /** The table of call objects and the table of the protocol agree. */
  ghost predicate TableShows(pending: map<Seq, Call>, table: map<Seq, CallId>, calls: seq<Call>) {
    && pending.Keys == table.Keys
    && forall q :: q in pending ==> table[q] < |calls| && pending[q] == calls[table[q]]
  }

  lemma RemovalShown(pending: map<Seq, Call>, table: map<Seq, CallId>, calls: seq<Call>, q: Seq)
    requires TableShows(pending, table, calls)
    ensures TableShows(pending - {q}, table - {q}, calls)
    ensures q in pending <==> q in table
    ensures q in table ==> table[q] < |calls| && pending[q] == calls[table[q]]
  {
  }

  class Client {
    var seqNo: Seq
    var pending: map<Seq, Call>
    var closing: bool
    var shutdown: bool

    ghost var state: C.State     // the protocol state this object is in
    ghost var calls: seq<Call>   // every call ever made, in order
    ghost var made: set<Call>    // the same calls

    ghost predicate Shown()
      reads `state, `calls, `made, made
    {
      && |calls| == |state.calls|
      && forall c :: 0 <= c < |calls| ==> calls[c] in made && calls[c].id == c && calls[c].Shows(state.calls[c])
    }

    ghost predicate Valid()
      reads this, made
    {
      && C.Inv(state) && Shown()
      && seqNo == state.next && closing == state.closing && shutdown == state.shutdown
      && TableShows(pending, state.pending, calls)
    }

    lemma ShownAt(c: CallId)
      requires Shown() && c < |state.calls|
      ensures |calls| == |state.calls| && calls[c] in made && calls[c].num == state.calls[c].num
    {
    }

    lemma ShownLength()
      requires Shown()
      ensures |calls| == |state.calls|
    {
    }

    constructor ()
      ensures Valid() && state == C.Init && calls == [] && made == {}
    {
      seqNo, pending, closing, shutdown := 1, map[], false, false;
      state, calls, made := C.Init, [], {};
    }

    /** Go, up to the start of send. */
    method NewCall(serviceMethod: string, args: Bytes) returns (call: Call)
      requires Valid()
      modifies this
      ensures Valid() && fresh(call) && calls == old(calls) + [call] && made == old(made) + {call}
      ensures state == C.Do(old(state), C.NewCall(serviceMethod, args))
      ensures call.serviceMethod == serviceMethod && call.args == args && call.num == 0 && call.signals == 0
    {
      call := new Call(serviceMethod, args, |calls|);
      C.InvStep(state, C.NewCall(serviceMethod, args));
      state := C.Do(state, C.NewCall(serviceMethod, args));
      calls, made := calls + [call], made + {call};
    }

    method IsAvailable() returns (ok: bool)
      requires Valid()
      ensures ok == (!state.closing && !state.shutdown)
    {
      ok := !closing && !shutdown;
    }

    /** registerCall, and the error that send stores in the call when it is refused. */
    method RegisterCall(call: Call, ghost c: CallId) returns (num: Seq, refused: bool)
      requires Valid() && C.Enabled(state, C.Register(c)) && call == calls[c]
      modifies `pending, `seqNo, `state, call
      ensures Valid()
      ensures state == C.Do(old(state), C.Register(c))
      ensures refused == (old(closing) || old(shutdown))
      ensures !refused ==> num == call.num == old(seqNo) == seqNo - 1 && pending == old(pending)[num := call]
      ensures refused ==> call.error == Some(C.Shutdown) && pending == old(pending) && seqNo == old(seqNo)
    {
      hide C.Inv, C.Do, C.Enabled, Shown;
      ghost var after := RegisterStep(state, c);
      ShownAt(c);
      if closing || shutdown {
        num, refused := 0, true;
        SetError(call, C.Shutdown, c, after);
      } else {
        num, refused := seqNo, false;
        SetNumber(call, num, c, after);
        pending := pending[num := call];
        seqNo := seqNo + 1;
      }
    }

    /** call.Seq = client.seq, as part of the step that leads to the state after. */
    method SetNumber(call: Call, num: Seq, ghost c: CallId, ghost after: C.State)
      requires Shown() && c < |calls| && call == calls[c] && KeepsOthers(state, after, c)
      requires after.calls[c] == state.calls[c].(num := num, sender := after.calls[c].sender)
      modifies `state, call`num
      ensures Shown() && state == after && call.num == num
    {
      call.num := num;
      state := after;
    }

    /** removeCall: the region itself, used by send, by receive and from outside. */
    method RemoveCall(num: Seq) returns (call: Call?)
      modifies `pending
      ensures pending == old(pending) - {num}
      ensures call == if num in old(pending) then old(pending)[num] else null
    {
      call := if num in pending then pending[num] else null;
      pending := pending - {num};
    }

    /** What send does after a failed write; the call is to be signalled only if it was still pending. */
    method TakeBack(call: Call, ghost c: CallId) returns (signal: bool)
      requires Valid() && C.Enabled(state, C.TakeBack(c)) && call == calls[c]
      modifies `pending, `state, call
      ensures Valid()
      ensures state == C.Do(old(state), C.TakeBack(c))
      ensures signal == (call.num in old(pending)) && call.num == old(call.num)
      ensures signal ==> call.error == Some(C.WriteError)
      ensures pending == old(pending) - {call.num}
    {
      hide C.Inv, C.Do, C.Enabled, Shown, SameShown, KeepsOthers, TableShows;
      ghost var after := TakeBackStep(state, c);
      RemovalShown(pending, state.pending, calls, call.num);
      ShownAt(c);
      var removed := RemoveCall(call.num);
      signal := removed != null;
      if removed != null {
        SetError(removed, C.WriteError, c, after);
      } else {
        Follow(after);
      }
    }

    /** A step that the call objects do not show. */
    ghost method Follow(after: C.State)
      requires Shown() && SameShown(state, after)
      modifies `state
      ensures Shown() && state == after
    {
      state := after;
    }

    /** call.Error = err, as part of the step that leads to the state after. */
    method SetError(call: Call, error: C.Failure, ghost c: CallId, ghost after: C.State)
      requires Shown() && c < |calls| && call == calls[c] && KeepsOthers(state, after, c)
      requires after.calls[c] == state.calls[c].(error := Some(error), sender := after.calls[c].sender)
      modifies `state, call`error
      ensures Shown() && state == after && call.error == Some(error)
    {
      call.error := Some(error);
      state := after;
    }

    /** receive, after a header with this number. */
    method RemoveReceived(num: Seq) returns (call: Call?)
      requires Valid() && C.Enabled(state, C.RemoveReceived) && num == state.receiver.num
      modifies `pending, `state
      ensures Valid()
      ensures state == C.Do(old(state), C.RemoveReceived)
      ensures call != null <==> state.receiver.call.Some?
      ensures call != null ==> state.receiver.call.value < |calls| && call == calls[state.receiver.call.value]
    {
      hide C.Inv, C.Do, C.Enabled, Shown, TableShows;
      ghost var after := RemoveReceivedStep(state);
      RemovalShown(pending, state.pending, calls, num);
      ShownLength();
      call := RemoveCall(num);
      Follow(after);
    }

    method RemoveByUser(num: Seq) returns (call: Call?)
      requires Valid() && C.Enabled(state, C.RemoveByUser(num))
      modifies `pending, `state
      ensures Valid()
      ensures state == C.Do(old(state), C.RemoveByUser(num))
      ensures pending == old(pending) - {num}
      ensures call == if num in old(pending) then old(pending)[num] else null
    {
      hide C.Inv, C.Do, C.Enabled, Shown, SameShown, TableShows;
      ghost var after := RemoveByUserStep(state, num);
      RemovalShown(pending, state.pending, calls, num);
      call := RemoveCall(num);
      Follow(after);
    }

    /** Close, up to closing the connection; a second Close is an error. */
    method Close() returns (alreadyClosed: bool)
      requires Valid() && C.Enabled(state, C.Close)
      modifies `closing, `state
      ensures Valid()
      ensures state == C.Do(old(state), C.Close)
      ensures closing && alreadyClosed == old(closing)
    {
      hide C.Inv;
      C.InvStep(state, C.Close);
      state := C.Do(state, C.Close);
      if closing {
        return true;
      }
      closing := true;
      alreadyClosed := false;
    }

    /** terminateCalls, once it has both locks: client.shutdown = true. */
    method SetShutdown()
      requires Valid() && state.receiver.NeedMu?
      modifies `shutdown, `state
      ensures Valid() && state == C.Do(old(state), C.TerminateBegin)
      ensures state == old(state).(shutdown := true, receiver := C.Notifying(pending.Keys))
      ensures Notified(old(state), state, pending.Keys)
    {
      hide C.Inv, C.Do;
      TerminateSteps(state);
      shutdown := true;
      state := C.Do(state, C.TerminateBegin);
    }

    /** One round of the loop in terminateCalls. */
    method Notify(q: Seq, call: Call)
      requires Valid() && state.receiver.Notifying? && q in state.receiver.rest
      requires q in pending && call == pending[q]
      modifies `state, call
      ensures Valid() && C.Enabled(old(state), C.Notify(q)) && state == C.Do(old(state), C.Notify(q))
      ensures state.receiver == C.Notifying(old(state.receiver.rest) - {q})
    {
      hide C.Inv, C.Do, Shown;
      ghost var after, c := NotifyStep(state, q);
      ShownAt(c);
      FailAndSignal(call, c, after);
    }

    method FailAndSignal(call: Call, ghost c: CallId, ghost after: C.State)
      requires Shown() && c < |calls| && call == calls[c] && KeepsOthers(state, after, c)
      requires var x := state.calls[c];
               after.calls[c] == x.(error := Some(C.ConnectionError), signals := x.signals + 1)
      modifies `state, call`error, call`signals
      ensures Shown() && state == after
    {
      call.error := Some(C.ConnectionError);
      call.Done();
      state := after;
    }

    /** Every pending call gets the error and one signal, in whatever order the map is visited. The
        entries stay in the table. */
    method TerminateCalls()
      requires Valid() && state.receiver.NeedMu?
      modifies `shutdown, `state, made
      ensures Valid() && state.shutdown && state.receiver.Stopped? && state.sending.Free?
      ensures Notified(old(state), state, {})
    {
      hide Valid, C.Do;
      ghost var before := state;
      SetShutdown();
      var todo := pending.Keys;
      NotifyAll(todo, before);
      Unlocked();
    }

    /** The two deferred Unlocks. */
    ghost method Unlocked()
      requires Valid() && state.receiver == C.Notifying({})
      modifies `state
      ensures Valid() && state == old(state).(receiver := C.Stopped, sending := C.Free)
    {
      hide C.Inv, C.Do;
      TerminateSteps(state);
      state := C.Do(state, C.TerminateEnd);
    }

    method NotifyAll(keys: set<Seq>, ghost before: C.State)
      requires Valid() && state.receiver == C.Notifying(keys) && keys <= pending.Keys
      requires Notified(before, state, keys)
      modifies `state, made
      ensures Valid() && state.receiver == C.Notifying({}) && state.shutdown == old(state.shutdown)
      ensures Notified(before, state, {})
    {
      hide C.Inv, C.Do, C.Enabled, Shown, Notified;
      var todo := keys;
      while todo != {}
        invariant Valid() && todo <= pending.Keys
        invariant state.receiver == C.Notifying(todo) && state.shutdown == old(state.shutdown)
        invariant Notified(before, state, todo)
        decreases |todo|
      {
        var q :| q in todo;
        NotifiedStep(before, state, todo, q);
        ShownLength();
        ShownAt(state.pending[q]);
        Notify(q, pending[q]);
        todo := todo - {q};
      }
    }
  }
}

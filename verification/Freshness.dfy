/** The registry and one discovery client on one clock: how old can an address be that is handed out? */
module Freshness {
  import opened Common
  import opened Ordered
  import opened Discovery
  import opened RegistryDiscovery
  import Registry
  import ServerList

  /** How the client's refresh stands: no request out, one sent after the clock read asked, or one
      answered by the registry with this header. */
  datatype Phase = Idle | Waiting(asked: Time) | Answered(asked: Time, header: string)

  /** ops is everything the registry has done so far; its table is Registry.Run of it. */
  datatype System = System(ops: seq<Registry.Op>, clock: Time, view: View, phase: Phase)

  datatype Event =
    | AtRegistry(op: Registry.Op)                                       // a heartbeat or another client's listing
    | Begin(now: Time, mode: int, draw: Draw)                           // Get reads the clock
    | Answer(from: Time, to: Time, reading: string -> Time)             // the registry serves the client's request
    | Finish(done: Time, arrived: bool, mode: int, draw: Draw)          // the response is in, or the request failed

  /** Timeouts of registry and client, and the longest time a successful fetch takes. */
  datatype Config = Config(registryTimeout: Time, updateTimeout: Time, fetchTime: Time)

  ghost predicate Enabled(c: Config, s: System, e: Event) {
    match e
    case AtRegistry(op) =>
      Registry.ClockedOp(s.clock, op) && (op.Put? ==> op.addr == "" || ServerList.Clean(op.addr))
    case Begin(now, _, _) => s.phase.Idle? && s.clock <= now
    case Answer(from, to, reading) => s.phase.Waiting? && Registry.ClockedOp(s.clock, Registry.List(from, to, reading))
    case Finish(done, arrived, _, _) =>
      && !s.phase.Idle? && s.clock <= done
      && (arrived ==> s.phase.Answered? && done - s.phase.asked <= c.fetchTime)
  }

  /** The registry's answer to a listing. */
  ghost function Listing(c: Config, ops: seq<Registry.Op>, op: Registry.Op): seq<string> {
    SortedKeys(Registry.Step(c.registryTimeout, Registry.Run(c.registryTimeout, ops), op).Keys)
  }

  /** What the client made of its request. */
  function FetchedBy(s: System, e: Event): Fetched {
    if e.Finish? && e.arrived && s.phase.Answered? then Header(s.phase.header) else Failed
  }

  ghost function Next(c: Config, s: System, e: Event): System
    requires Enabled(c, s, e)
  {
    match e
    case AtRegistry(op) => s.(ops := s.ops + [op], clock := Registry.EndOf(op))
    case Begin(now, mode, _) =>
      if RefreshOk(s.view, c.updateTimeout, now, Failed)
      then s.(clock := now, view := GetView(s.view, c.updateTimeout, now, Failed, now, mode))
      else s.(clock := now, phase := Waiting(now))
    case Answer(from, to, reading) =>
      var op := Registry.List(from, to, reading);
      s.(ops := s.ops + [op], clock := to,
         phase := Answered(s.phase.asked, ServerList.Join(Listing(c, s.ops, op))))
    case Finish(done, arrived, mode, _) =>
      s.(clock := done, phase := Idle,
         view := GetView(s.view, c.updateTimeout, s.phase.asked, FetchedBy(s, e), done, mode))
  }

  /** What the event hands to the caller of Get, if it ends a Get. */
  ghost function HandedOut(c: Config, s: System, e: Event): Option<Picked>
    requires Enabled(c, s, e)
  {
    match e
    case Begin(now, mode, draw) =>
      if RefreshOk(s.view, c.updateTimeout, now, Failed)
      then Some(GetAnswer(s.view, c.updateTimeout, now, Failed, now, mode, draw))
      else None
    case Finish(done, arrived, mode, draw) =>
      Some(GetAnswer(s.view, c.updateTimeout, s.phase.asked, FetchedBy(s, e), done, mode, draw))
    case _ => None
  }

  /** A heartbeat of a at a time no earlier than since is on record. */
  ghost predicate HeardSince(ops: seq<Registry.Op>, a: string, since: Time, until: Time) {
    exists k :: 0 <= k < |ops| && ops[k].Put? && ops[k].addr == a && since <= ops[k].at <= until
  }

  lemma HeardLonger(ops: seq<Registry.Op>, more: seq<Registry.Op>, a: string,
                    since: Time, until: Time, since': Time, until': Time)
    requires HeardSince(ops, a, since, until) && since' <= since && until <= until'
    ensures HeardSince(ops + more, a, since', until')
  {
    var k :| 0 <= k < |ops| && ops[k].Put? && ops[k].addr == a && since <= ops[k].at <= until;
    assert (ops + more)[k] == ops[k];
  }

  ghost predicate HistoryInv(s: System, start: Time) {
    && Registry.Clocked(start, s.ops) && Registry.EndTime(start, s.ops) <= s.clock
    && (forall k :: 0 <= k < |s.ops| && s.ops[k].Put? ==>
                      s.ops[k].addr == "" || ServerList.Clean(s.ops[k].addr))
  }

  /** Every address in the snapshot was heard of within the registry's timeout, give or take one fetch,
      of the time the snapshot carries. */
  ghost predicate SnapshotInv(c: Config, s: System) {
    && s.view.lastUpdate <= s.clock
    && forall a :: a in s.view.multi.servers ==>
                     HeardSince(s.ops, a, s.view.lastUpdate - c.registryTimeout - c.fetchTime + 1, s.view.lastUpdate)
  }

  /** An answer under way lists only servers heard of within the registry's timeout of the request. */
  ghost predicate AnswerInv(c: Config, s: System) {
    && (!s.phase.Idle? ==> s.phase.asked <= s.clock && s.view.lastUpdate + c.updateTimeout <= s.phase.asked)
    && (s.phase.Answered? ==>
          forall a :: a in ServerList.Parse(s.phase.header) ==>
                        HeardSince(s.ops, a, s.phase.asked - c.registryTimeout + 1, s.clock))
  }

  ghost predicate Inv(c: Config, s: System, start: Time) {
    HistoryInv(s, start) && SnapshotInv(c, s) && AnswerInv(c, s)
  }

  ghost predicate Init(s: System, start: Time) {
    && s.ops == [] && s.clock == start && s.phase == Idle
    && s.view.multi.servers == [] && s.view.lastUpdate <= start
  }

  lemma HistoryExtends(s: System, start: Time, op: Registry.Op)
    requires HistoryInv(s, start) && Registry.ClockedOp(s.clock, op)
    requires op.Put? ==> op.addr == "" || ServerList.Clean(op.addr)
    ensures Registry.Clocked(start, s.ops + [op]) && Registry.EndTime(start, s.ops + [op]) == Registry.EndOf(op)
    ensures s.clock <= Registry.EndOf(op)
    ensures forall k :: 0 <= k < |s.ops + [op]| && (s.ops + [op])[k].Put? ==>
                          (s.ops + [op])[k].addr == "" || ServerList.Clean((s.ops + [op])[k].addr)
  {
    assert (s.ops + [op])[..|s.ops|] == s.ops;
    Registry.EndsInOrder(s.clock, op);
  }

  lemma {:induction false} LastPutOnRecord(ops: seq<Registry.Op>, a: string, since: Time, until: Time)
    requires Registry.LastPut(ops, a).Some? && since <= Registry.LastPut(ops, a).value <= until
    ensures HeardSince(ops, a, since, until) && a != ""
  {
    var n := |ops| - 1;
    if ops[n].Put? && ops[n].addr == a && a != "" {
    } else {
      LastPutOnRecord(ops[..n], a, since, until);
      assert ops == ops[..n] + [ops[n]];
      HeardLonger(ops[..n], [ops[n]], a, since, until, since, until);
    }
  }

  lemma {:induction false} LastPutNotAfter(ops: seq<Registry.Op>, start: Time, a: string)
    requires Registry.Clocked(start, ops) && Registry.LastPut(ops, a).Some?
    ensures Registry.LastPut(ops, a).value <= Registry.EndTime(start, ops)
  {
    var n := |ops| - 1;
    if !(ops[n].Put? && ops[n].addr == a && a != "") {
      LastPutNotAfter(ops[..n], start, a);
      Registry.EndsInOrder(Registry.EndTime(start, ops[..n]), ops[n]);
    }
  }

  /** The list the registry answers with: clean addresses, each heard of within its timeout, and the
      client reads off the header exactly that list. */
  lemma ListingIsRecent(c: Config, s: System, start: Time, op: Registry.Op)
    requires HistoryInv(s, start) && c.registryTimeout > 0
    requires op.List? && Registry.ClockedOp(s.clock, op)
    ensures var list := Listing(c, s.ops, op);
            && ServerList.Parse(ServerList.Join(list)) == list
            && forall a :: a in list ==> HeardSince(s.ops, a, s.clock - c.registryTimeout + 1, s.clock)
  {
    var list := Listing(c, s.ops, op);
    var left := Registry.Step(c.registryTimeout, Registry.Run(c.registryTimeout, s.ops), op);
    Registry.ListingEqualsHistory(start, c.registryTimeout, s.ops, op);
    SortedKeysListing(left.Keys);
    MultisetNoDuplicates(list, left.Keys);
    forall a | a in list
      ensures HeardSince(s.ops, a, s.clock - c.registryTimeout + 1, s.clock) && ServerList.Clean(a)
    {
      var p := Registry.LastPut(s.ops, a).value;
      LastPutNotAfter(s.ops, start, a);
      assert p + c.registryTimeout > op.reading(a) >= s.clock;
      LastPutOnRecord(s.ops, a, s.clock - c.registryTimeout + 1, s.clock);
    }
    ServerList.RoundTripIffClean(list);
  }

  lemma AtRegistryKeepsInv(c: Config, s: System, start: Time, op: Registry.Op)
    requires Inv(c, s, start) && Enabled(c, s, AtRegistry(op))
    ensures Inv(c, Next(c, s, AtRegistry(op)), start)
  {
    hide Registry.ClockedOp, ServerList.Clean, ServerList.Parse;
    var s' := Next(c, s, AtRegistry(op));
    HistoryExtends(s, start, op);
    forall a | a in s'.view.multi.servers
      ensures HeardSince(s'.ops, a, s.view.lastUpdate - c.registryTimeout - c.fetchTime + 1, s.view.lastUpdate)
    {
      var since := s.view.lastUpdate - c.registryTimeout - c.fetchTime + 1;
      HeardLonger(s.ops, [op], a, since, s.view.lastUpdate, since, s.view.lastUpdate);
    }
    if s.phase.Answered? {
      forall a | a in ServerList.Parse(s.phase.header)
        ensures HeardSince(s'.ops, a, s.phase.asked - c.registryTimeout + 1, s'.clock)
      {
        var since := s.phase.asked - c.registryTimeout + 1;
        HeardLonger(s.ops, [op], a, since, s.clock, since, s'.clock);
      }
    }
  }

  lemma AnswerKeepsInv(c: Config, s: System, start: Time, from: Time, to: Time, reading: string -> Time)
    requires Inv(c, s, start) && c.registryTimeout > 0 && Enabled(c, s, Answer(from, to, reading))
    ensures Inv(c, Next(c, s, Answer(from, to, reading)), start)
  {
    hide ServerList.Clean, ServerList.Parse, ServerList.Join;
    var op := Registry.List(from, to, reading);
    var s' := Next(c, s, Answer(from, to, reading));
    HistoryExtends(s, start, op);
    ListingIsRecent(c, s, start, op);
    forall a | a in s'.view.multi.servers
      ensures HeardSince(s'.ops, a, s.view.lastUpdate - c.registryTimeout - c.fetchTime + 1, s.view.lastUpdate)
    {
      var since := s.view.lastUpdate - c.registryTimeout - c.fetchTime + 1;
      HeardLonger(s.ops, [op], a, since, s.view.lastUpdate, since, s.view.lastUpdate);
    }
    forall a | a in ServerList.Parse(s'.phase.header)
      ensures HeardSince(s'.ops, a, s.phase.asked - c.registryTimeout + 1, s'.clock)
    {
      HeardLonger(s.ops, [op], a, s.clock - c.registryTimeout + 1, s.clock,
                  s.phase.asked - c.registryTimeout + 1, s'.clock);
    }
  }

  lemma FinishKeepsInv(c: Config, s: System, start: Time, e: Event)
    requires Inv(c, s, start) && e.Finish? && Enabled(c, s, e)
    ensures Inv(c, Next(c, s, e), start)
  {
    hide ServerList.Clean, ServerList.Parse;
    var s' := Next(c, s, e);
    if e.arrived {
      forall a | a in s'.view.multi.servers
        ensures HeardSince(s'.ops, a, e.done - c.registryTimeout - c.fetchTime + 1, e.done)
      {
        assert a in ServerList.Parse(s.phase.header);
        HeardLonger(s.ops, [], a, s.phase.asked - c.registryTimeout + 1, s.clock,
                    e.done - c.registryTimeout - c.fetchTime + 1, e.done);
        assert s.ops + [] == s.ops;
      }
    }
  }

  lemma NextKeepsInv(c: Config, s: System, start: Time, e: Event)
    requires Inv(c, s, start) && c.registryTimeout > 0 && Enabled(c, s, e)
    ensures Inv(c, Next(c, s, e), start)
  {
    match e
    case AtRegistry(op) => AtRegistryKeepsInv(c, s, start, op);
    case Begin(_, _, _) =>
    case Answer(from, to, reading) => AnswerKeepsInv(c, s, start, from, to, reading);
    case Finish(_, _, _, _) => FinishKeepsInv(c, s, start, e);
  }

  // ---------------------------------------------------------------- runs

  datatype Run = Run(systems: seq<System>, events: seq<Event>)

  ghost predicate IsRun(c: Config, r: Run, start: Time) {
    && |r.systems| == |r.events| + 1 && Init(r.systems[0], start)
    && forall i :: 0 <= i < |r.events| ==>
                     Enabled(c, r.systems[i], r.events[i]) && r.systems[i + 1] == Next(c, r.systems[i], r.events[i])
  }

  lemma {:induction false} InvInEveryRun(c: Config, r: Run, start: Time, i: nat)
    requires IsRun(c, r, start) && c.registryTimeout > 0 && i < |r.systems|
    ensures Inv(c, r.systems[i], start)
  {
    if i > 0 {
      InvInEveryRun(c, r, start, i - 1);
      NextKeepsInv(c, r.systems[i - 1], start, r.events[i - 1]);
    }
  }

  /** Bounded staleness: in every run, whatever the interleaving, an address handed out belongs to a
      server whose heartbeat reached the registry less than registry timeout plus refresh timeout plus
      one fetch ago. */
  lemma StalenessIsBounded(c: Config, r: Run, start: Time, i: nat, a: string)
    requires IsRun(c, r, start) && c.registryTimeout > 0 && c.updateTimeout > 0
    requires i < |r.events| && HandedOut(c, r.systems[i], r.events[i]) == Some(Server(a))
    ensures var now := r.systems[i + 1].clock;
            HeardSince(r.systems[i].ops, a, now - (c.registryTimeout + c.updateTimeout + c.fetchTime - 2), now)
  {
    var s, e := r.systems[i], r.events[i];
    var now := r.systems[i + 1].clock;
    InvInEveryRun(c, r, start, i);
    InvInEveryRun(c, r, start, i + 1);
    if e.Finish? {
      NextKeepsInv(c, s, start, e);
    }
    var v := r.systems[i + 1].view;
    assert a in v.multi.servers;
    HeardLonger(s.ops, [], a, v.lastUpdate - c.registryTimeout - c.fetchTime + 1, v.lastUpdate,
                now - (c.registryTimeout + c.updateTimeout + c.fetchTime - 2), now);
    assert s.ops + [] == s.ops;
  }

  /** A fetch may fail at any time after it was sent. Then the Get that waits for it fails too: nothing of
      the old snapshot is handed out, and the snapshot is kept. */
  lemma FailedFetchHandsOutNothing(c: Config, r: Run, start: Time, i: nat, done: Time, mode: int, draw: Draw)
    requires IsRun(c, r, start) && c.registryTimeout > 0 && i < |r.systems|
    requires !r.systems[i].phase.Idle? && r.systems[i].clock <= done
    ensures var s, e := r.systems[i], Finish(done, false, mode, draw);
            && Enabled(c, s, e) && HandedOut(c, s, e) == Some(RefreshFailed)
            && Next(c, s, e) == s.(clock := done, phase := Idle)
  {
    InvInEveryRun(c, r, start, i);
  }

  /** A run in which an address is handed out when its only heartbeat is as old as the bound allows. */
  function OldestHandOut(c: Config, a: string, start: Time): seq<Event>
    requires c.registryTimeout > 0 && c.updateTimeout > 0 && c.fetchTime >= 0
  {
    var asked := start + c.registryTimeout - 1;
    var done := asked + c.fetchTime;
    [AtRegistry(Registry.Put(a, start)),
     Begin(asked, ROUND_ROBIN_SELECT, (n: nat) => 0),
     Answer(asked, asked, (x: string) => asked),
     Finish(done, true, ROUND_ROBIN_SELECT, (n: nat) => 0),
     Begin(done + c.updateTimeout - 1, ROUND_ROBIN_SELECT, (n: nat) => 0)]
  }

  /** The bound is the best there is: every setting of the timeouts has a run that reaches it. */
  lemma BoundIsReached(c: Config, a: string, start: Time) returns (r: Run)
    requires c.registryTimeout > 0 && c.updateTimeout > 0 && c.fetchTime >= 0 && ServerList.Clean(a)
    ensures IsRun(c, r, start) && |r.events| == 5
    ensures HandedOut(c, r.systems[4], r.events[4]) == Some(Server(a))
    ensures var now := r.systems[5].clock;
            forall since, until :: HeardSince(r.systems[4].ops, a, since, until) ==>
              since <= now - (c.registryTimeout + c.updateTimeout + c.fetchTime - 2)
  {
    hide Listing, ServerList.Clean, ServerList.Parse, ServerList.Join, Registry.Run;
    var es := OldestHandOut(c, a, start);
    var asked := start + c.registryTimeout - 1;
    var done := asked + c.fetchTime;
    var op := Registry.List(asked, asked, (x: string) => asked);
    var s0 := System([], start, View(State([], 0), start - c.updateTimeout), Idle);
    var s1 := Next(c, s0, es[0]);
    var s2 := Next(c, s1, es[1]);
    assert s1.ops == [Registry.Put(a, start)];
    OnlyListed(c, a, start, op);
    var s3 := Next(c, s2, es[2]);
    ServerList.RoundTripIffClean([a]);
    var s4 := Next(c, s3, es[3]);
    assert s3.phase == Answered(asked, ServerList.Join([a]));
    assert s4.view.multi.servers == [a];
    var s5 := Next(c, s4, es[4]);
    r := Run([s0, s1, s2, s3, s4, s5], es);
  }

  lemma OnlyListed(c: Config, a: string, start: Time, op: Registry.Op)
    requires op.List? && ServerList.Clean(a) && Registry.Alive(c.registryTimeout, start, op.reading(a))
    ensures Listing(c, [Registry.Put(a, start)], op) == [a]
  {
    var ops := [Registry.Put(a, start)];
    assert ops[..0] == [];
    assert Registry.Run(c.registryTimeout, ops) == map[a := start];
    var left := Registry.Step(c.registryTimeout, map[a := start], op);
    assert left == map[a := start];
    SortedKeysListing({a});
    assert left.Keys == {a};
    SingleListing(SortedKeys({a}), a);
  }

  lemma SingleListing(list: seq<string>, a: string)
    requires multiset(list) == multiset({a})
    ensures list == [a]
  {
    assert |multiset(list)| == 1;
    assert list[0] in multiset(list);
  }
}

/** Discovery through the registry: a snapshot of the server list, refetched once it is old enough. */
module RegistryDiscovery {
  import opened Common
  import opened Discovery
  import Registry
  import ServerList

  type Time = Registry.Time

  const DEFAULT_UPDATE_TIMEOUT: Time := 10_000_000_000

  /** What came back from the registry: an error, or a response with this header. */
  datatype Fetched = Failed | Header(text: string)

  datatype View = View(multi: State, lastUpdate: Time)

  /** Whether the snapshot is still good at now. */
  predicate Current(v: View, timeout: Time, now: Time) {
    v.lastUpdate + timeout > now
  }

  /** The view once a response has been read at time done. */
  function Refreshed(v: View, header: string, done: Time): View {
    View(State(ServerList.Parse(header), v.multi.index), done)
  }

  function AfterRefresh(v: View, timeout: Time, now: Time, fetched: Fetched, done: Time): View {
    if Current(v, timeout, now) || fetched.Failed? then v else Refreshed(v, fetched.text, done)
  }

  predicate RefreshOk(v: View, timeout: Time, now: Time, fetched: Fetched) {
    Current(v, timeout, now) || fetched.Header?
  }

  /** What a Get answers: a choice from the refreshed snapshot, or the failure of the refresh. */
  function GetAnswer(v: View, timeout: Time, now: Time, fetched: Fetched, done: Time, mode: int, draw: Draw): Picked {
    if RefreshOk(v, timeout, now, fetched) then PickFrom(AfterRefresh(v, timeout, now, fetched, done).multi, mode, draw)
    else RefreshFailed
  }

  /** The view after a Get. */
  function GetView(v: View, timeout: Time, now: Time, fetched: Fetched, done: Time, mode: int): View {
    if RefreshOk(v, timeout, now, fetched) then
      var after := AfterRefresh(v, timeout, now, fetched, done);
      after.(multi := AfterGet(after.multi, mode))
    else v
  }

  /** A Get on a snapshot younger than the timeout answers from it, whatever a fetch would have brought,
      and keeps list and time. */
  lemma YoungSnapshotAnswers(v: View, timeout: Time, now: Time, fetched: Fetched, done: Time, mode: int, draw: Draw)
    requires now - v.lastUpdate < timeout
    ensures GetAnswer(v, timeout, now, fetched, done, mode, draw) == PickFrom(v.multi, mode, draw)
    ensures GetView(v, timeout, now, fetched, done, mode) == View(AfterGet(v.multi, mode), v.lastUpdate)
  {
  }

  /** A Get on an older snapshot answers from what the registry lists now, and the list read is exactly
      the one sent; without a response it fails and keeps the old snapshot without answering from it. */
  lemma OldSnapshotIsReplaced(v: View, timeout: Time, now: Time, list: seq<string>, done: Time, mode: int, draw: Draw)
    requires now - v.lastUpdate >= timeout && forall x :: x in list ==> ServerList.Clean(x)
    ensures var listed := State(list, v.multi.index);
            var response := Header(ServerList.Join(list));
            && GetAnswer(v, timeout, now, response, done, mode, draw) == PickFrom(listed, mode, draw)
            && GetView(v, timeout, now, response, done, mode) == View(AfterGet(listed, mode), done)
    ensures GetAnswer(v, timeout, now, Failed, done, mode, draw) == RefreshFailed
    ensures GetView(v, timeout, now, Failed, done, mode) == v
  {
    ServerList.RoundTripIffClean(list);
  }

  lemma {:induction false} KeptConcat(a: seq<string>, b: seq<string>)
    ensures ServerList.Kept(a + b) == ServerList.Kept(a) + ServerList.Kept(b)
  {
    hide ServerList.KeepOne;
    if a == [] {
      assert a + b == b;
    } else {
      KeptConcat(a[1..], b);
      assert (a + b)[1..] == a[1..] + b && (a + b)[0] == a[0];
      var x, y, z := ServerList.KeepOne(a[0]), ServerList.Kept(a[1..]), ServerList.Kept(b);
      assert x + (y + z) == (x + y) + z;
    }
  }

  class GeeRegistryDiscovery {
    const multi: MultiServersDiscovery
    const timeout: Time
    var lastUpdate: Time

    function Contents(): View
      reads this, multi
    {
      View(multi.Contents(), lastUpdate)
    }

    /** zeroTime is the zero value of time.Time. */
    constructor (timeout: Time, draw: Draw, zeroTime: Time)
      ensures this.timeout == if timeout == 0 then 10_000_000_000 else timeout
      ensures fresh(multi) && Contents() == View(State([], draw(0x7FFF_FFFE)), zeroTime)
    {
      this.timeout := if timeout == 0 then DEFAULT_UPDATE_TIMEOUT else timeout;
      multi := new MultiServersDiscovery([], draw);
      lastUpdate := zeroTime;
    }

    method Update(servers: seq<string>, now: Time)
      modifies this, multi
      ensures Contents() == View(State(servers, old(multi.index)), now)
    {
      multi.servers := servers;
      lastUpdate := now;
    }

    method Refresh(now: Time, fetched: Fetched, done: Time) returns (ok: bool)
      modifies this, multi
      ensures Contents() == AfterRefresh(old(Contents()), timeout, now, fetched, done)
      ensures ok == RefreshOk(old(Contents()), timeout, now, fetched)
      ensures multi.index == old(multi.index)
    {
      if lastUpdate + timeout > now {
        return true;
      }
      if fetched.Failed? {
        return false;
      }
      var parts := ServerList.Split(fetched.text);
      multi.servers := [];
      for i := 0 to |parts|
        invariant multi.servers == ServerList.Kept(parts[..i])
        invariant multi.index == old(multi.index) && lastUpdate == old(lastUpdate)
      {
        KeptConcat(parts[..i], [parts[i]]);
        assert parts[..i + 1] == parts[..i] + [parts[i]];
        if ServerList.TrimSpace(parts[i]) != "" {
          multi.servers := multi.servers + [ServerList.TrimSpace(parts[i])];
        }
      }
      assert parts[..|parts|] == parts;
      lastUpdate := done;
      ok := true;
    }

    method Get(mode: int, draw: Draw, now: Time, fetched: Fetched, done: Time) returns (r: Picked)
      modifies this, multi
      ensures r == GetAnswer(old(Contents()), timeout, now, fetched, done, mode, draw)
      ensures Contents() == GetView(old(Contents()), timeout, now, fetched, done, mode)
    {
      var ok := Refresh(now, fetched, done);
      if !ok {
        return RefreshFailed;
      }
      r := multi.Get(mode, draw);
    }
  }
}

/** The shared gateway: removing a host by swapping it with the last one, adding a host that is
    not there yet, and the in-place loops that do so over all servers. */
module Hosts {
  import opened Model

  function FirstIndex(hosts: seq<string>, host: string): (j: nat)
    requires host in hosts
    ensures j < |hosts| && hosts[j] == host && host !in hosts[..j]
  {
    if hosts[0] == host then 0
    else
      var j := FirstIndex(hosts[1..], host) + 1;
      assert hosts[..j] == [hosts[0]] + hosts[1..][..j - 1];
      j
  }

  function SwapRemove(hosts: seq<string>, host: string): seq<string> {
    if host in hosts
    then hosts[FirstIndex(hosts, host) := hosts[|hosts| - 1]][..|hosts| - 1]
    else hosts
  }

  function AppendIfAbsent(hosts: seq<string>, host: string): seq<string> {
    if host in hosts then hosts else hosts + [host]
  }

  datatype Edit = Remove | Add

  function EditHosts(hosts: seq<string>, host: string, edit: Edit): seq<string> {
    match edit
    case Remove => SwapRemove(hosts, host)
    case Add => AppendIfAbsent(hosts, host)
  }

  function EditServer(info: IstioInfo, server: Server, host: string, edit: Edit): Server {
    if Managed(info, server) then server.(hosts := EditHosts(server.hosts, host, edit)) else server
  }

  function EditServers(info: IstioInfo, servers: seq<Server>, host: string, edit: Edit): (edited: seq<Server>)
    ensures |edited| == |servers|
  {
    seq(|servers|, i requires 0 <= i < |servers| => EditServer(info, servers[i], host, edit))
  }

  // --------------------------------------------------------------- meaning as multisets

  /** Swap-remove takes exactly one occurrence out and loses no other host. */
  lemma SwapRemoveTakesOne(hosts: seq<string>, host: string)
    ensures multiset(SwapRemove(hosts, host)) == multiset(hosts) - multiset{host}
  {
    if host in hosts {
      var n := |hosts| - 1;
      var swapped := hosts[FirstIndex(hosts, host) := hosts[n]];
      assert swapped == SwapRemove(hosts, host) + [hosts[n]];
      var before, after, last := multiset(hosts), multiset(SwapRemove(hosts, host)), multiset{hosts[n]};
      assert multiset(swapped) == before - multiset{host} + last;
      assert after == after + last - last == before - multiset{host} + last - last;
    }
  }

  lemma AppendIfAbsentAddsOne(hosts: seq<string>, host: string)
    ensures multiset(AppendIfAbsent(hosts, host))
         == if host in hosts then multiset(hosts) else multiset(hosts) + multiset{host}
  {
  }

  /** What an edit does to the multiset of hosts. */
  function Counted(m: multiset<string>, host: string, edit: Edit): multiset<string> {
    match edit
    case Remove => m - multiset{host}
    case Add => if host in m then m else m + multiset{host}
  }

  lemma EditHostsCounts(hosts: seq<string>, host: string, edit: Edit)
    ensures multiset(EditHosts(hosts, host, edit)) == Counted(multiset(hosts), host, edit)
  {
    SwapRemoveTakesOne(hosts, host);
    AppendIfAbsentAddsOne(hosts, host);
    assert host in hosts <==> host in multiset(hosts);
  }

  lemma CountedCommutes(m: multiset<string>, x: string, e: Edit, y: string, f: Edit)
    requires x != y
    ensures Counted(Counted(m, x, e), y, f) == Counted(Counted(m, y, f), x, e)
  {
  }

  /** The same server, up to the order of its hosts. */
  ghost predicate SameServer(a: Server, b: Server) {
    a.portName == b.portName && multiset(a.hosts) == multiset(b.hosts)
  }

  ghost predicate SameServers(a: seq<Server>, b: seq<Server>) {
    |a| == |b| && forall i :: 0 <= i < |a| ==> SameServer(a[i], b[i])
  }

  lemma EditServerCongruent(info: IstioInfo, a: Server, b: Server, host: string, edit: Edit)
    requires SameServer(a, b)
    ensures SameServer(EditServer(info, a, host, edit), EditServer(info, b, host, edit))
  {
    EditHostsCounts(a.hosts, host, edit);
    EditHostsCounts(b.hosts, host, edit);
  }

  lemma EditServersCongruent(info: IstioInfo, a: seq<Server>, b: seq<Server>, host: string, edit: Edit)
    requires SameServers(a, b)
    ensures SameServers(EditServers(info, a, host, edit), EditServers(info, b, host, edit))
  {
    forall i | 0 <= i < |a|
      ensures SameServer(EditServers(info, a, host, edit)[i], EditServers(info, b, host, edit)[i])
    {
      EditServerCongruent(info, a[i], b[i], host, edit);
    }
  }

  lemma EditServerCommutes(info: IstioInfo, a: Server, x: string, e: Edit, y: string, f: Edit)
    requires x != y
    ensures SameServer(EditServer(info, EditServer(info, a, x, e), y, f),
                       EditServer(info, EditServer(info, a, y, f), x, e))
  {
    EditHostsCounts(a.hosts, x, e);
    EditHostsCounts(EditHosts(a.hosts, x, e), y, f);
    EditHostsCounts(a.hosts, y, f);
    EditHostsCounts(EditHosts(a.hosts, y, f), x, e);
    CountedCommutes(multiset(a.hosts), x, e, y, f);
  }

  /** Edits of different hosts commute, up to the order of hosts. */
  lemma EditServersCommute(info: IstioInfo, a: seq<Server>, x: string, e: Edit, y: string, f: Edit)
    requires x != y
    ensures SameServers(EditServers(info, EditServers(info, a, x, e), y, f),
                        EditServers(info, EditServers(info, a, y, f), x, e))
  {
    forall i | 0 <= i < |a|
      ensures SameServer(EditServers(info, EditServers(info, a, x, e), y, f)[i],
                         EditServers(info, EditServers(info, a, y, f), x, e)[i])
    {
      EditServerCommutes(info, a[i], x, e, y, f);
    }
  }

  /** Adding a fresh host and removing it again restores the list, order included, exactly when
      the host was not there: otherwise an occurrence that was not added is taken out. */
  lemma AppendThenSwapRemove(hosts: seq<string>, host: string)
    ensures SwapRemove(AppendIfAbsent(hosts, host), host) == hosts <==> host !in hosts
  {
  }

  ghost predicate DuplicateFree(hosts: seq<string>) {
    forall i, j :: 0 <= i < j < |hosts| ==> hosts[i] != hosts[j]
  }

  lemma {:induction false} DuplicateFreeCounts(hosts: seq<string>, host: string)
    requires DuplicateFree(hosts)
    ensures multiset(hosts)[host] <= 1
  {
    if hosts != [] {
      DuplicateFreeCounts(hosts[1..], host);
      assert hosts == [hosts[0]] + hosts[1..];
      if host == hosts[0] {
        assert host !in hosts[1..];
      }
    }
  }

  /** The last host takes the place of the removed one, and all others stay where they are. */
  lemma SwapRemoveKeepsPlaces(hosts: seq<string>, host: string)
    ensures host !in hosts ==> SwapRemove(hosts, host) == hosts
    ensures host in hosts ==>
      && |SwapRemove(hosts, host)| == |hosts| - 1
      && exists j :: 0 <= j < |hosts| && hosts[j] == host && host !in hosts[..j]
           && forall k :: 0 <= k < |hosts| - 1 ==>
                SwapRemove(hosts, host)[k] == if k == j then hosts[|hosts| - 1] else hosts[k]
  {
    if host in hosts {
      var j := FirstIndex(hosts, host);
      assert hosts[j] == host && host !in hosts[..j];
      assert forall k :: 0 <= k < |hosts| - 1 ==>
        SwapRemove(hosts, host)[k] == if k == j then hosts[|hosts| - 1] else hosts[k];
    }
  }

  // ------------------------------------------------------------------- by port name

  /** The host is off both named servers, once where it was, and nothing else has changed. */
  ghost predicate OffNamedServers(info: IstioInfo, before: seq<Server>, after: seq<Server>, host: string) {
    && |after| == |before|
    && forall i :: 0 <= i < |before| ==>
         if before[i].portName == info.http || before[i].portName == info.https
         then after[i].portName == before[i].portName
              && multiset(after[i].hosts) == multiset(before[i].hosts) - multiset{host}
         else after[i] == before[i]
  }

  /** The host is at the end of both named servers, where it was not there yet, and nothing else has
      changed. */
  ghost predicate OnNamedServers(info: IstioInfo, before: seq<Server>, after: seq<Server>, host: string) {
    && |after| == |before|
    && forall i :: 0 <= i < |before| ==>
         if (before[i].portName == info.http || before[i].portName == info.https) && host !in before[i].hosts
         then after[i].portName == before[i].portName && after[i].hosts == before[i].hosts + [host]
         else after[i] == before[i]
  }

  lemma EditsByPortName(info: IstioInfo, servers: seq<Server>, host: string)
    ensures OffNamedServers(info, servers, EditServers(info, servers, host, Remove), host)
    ensures OnNamedServers(info, servers, EditServers(info, servers, host, Add), host)
  {
    forall i | 0 <= i < |servers|
      ensures multiset(SwapRemove(servers[i].hosts, host)) == multiset(servers[i].hosts) - multiset{host}
    {
      SwapRemoveTakesOne(servers[i].hosts, host);
    }
  }

  // ---------------------------------------------------------------- the in-place loops

  /** The controller's own copy of the gateway, fetched from the API, edited in place and then
      sent back by an update. */
  class Gateway {
    const servers: array<Server>

    constructor (fetched: seq<Server>)
      ensures fresh(this) && fresh(servers) && servers[..] == fetched
    {
      servers := new Server[|fetched|](i requires 0 <= i < |fetched| => fetched[i]);
    }

    method RemoveHost(info: IstioInfo, host: string)
      modifies servers
      ensures servers[..] == EditServers(info, old(servers[..]), host, Remove)
      ensures OffNamedServers(info, old(servers[..]), servers[..], host)
    {
      for i := 0 to servers.Length
        invariant servers[..i] == EditServers(info, old(servers[..]), host, Remove)[..i]
        invariant servers[i..] == old(servers[i..])
      {
        ghost var was := servers[i].hosts;
        assert servers[i] == old(servers[..])[i];
        if servers[i].portName == info.http || servers[i].portName == info.https {
          var j := 0;
          while j < |servers[i].hosts|
            invariant 0 <= j <= |was|
            invariant servers[i] == old(servers[i])
            invariant servers[..i] == EditServers(info, old(servers[..]), host, Remove)[..i]
            invariant servers[i + 1..] == old(servers[i + 1..])
            invariant host !in was[..j]
          {
            if servers[i].hosts[j] == host {
              var last := |servers[i].hosts| - 1;
              assert FirstIndex(was, host) == j;
              servers[i] := servers[i].(hosts := servers[i].hosts[j := servers[i].hosts[last]]);
              servers[i] := servers[i].(hosts := servers[i].hosts[last := ""]);
              servers[i] := servers[i].(hosts := servers[i].hosts[..last]);
              break;
            }
            j := j + 1;
          }
          assert servers[i].hosts == SwapRemove(was, host);
        }
        assert servers[i] == EditServers(info, old(servers[..]), host, Remove)[i];
        assert servers[..i + 1] == servers[..i] + [servers[i]];
      }
      assert servers[..] == EditServers(info, old(servers[..]), host, Remove);
      EditsByPortName(info, old(servers[..]), host);
    }

    method AddHost(info: IstioInfo, host: string)
      modifies servers
      ensures servers[..] == EditServers(info, old(servers[..]), host, Add)
      ensures OnNamedServers(info, old(servers[..]), servers[..], host)
    {
      for i := 0 to servers.Length
        invariant servers[..i] == EditServers(info, old(servers[..]), host, Add)[..i]
        invariant servers[i..] == old(servers[i..])
      {
        assert servers[i] == old(servers[..])[i];
        if servers[i].portName == info.http || servers[i].portName == info.https {
          var found := false;
          for j := 0 to |servers[i].hosts|
            invariant found <==> host in servers[i].hosts[..j]
          {
            if servers[i].hosts[j] == host {
              found := true;
            }
          }
          if !found {
            servers[i] := servers[i].(hosts := servers[i].hosts + [host]);
          }
        }
        assert servers[i] == EditServers(info, old(servers[..]), host, Add)[i];
        assert servers[..i + 1] == servers[..i] + [servers[i]];
      }
      assert servers[..] == EditServers(info, old(servers[..]), host, Add);
      EditsByPortName(info, old(servers[..]), host);
    }
  }
}

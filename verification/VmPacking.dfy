/** The packing of the emulated nodes' VMs on hosts: VMs of one flavour fill one
    host after another. */
module VmPacking {
  import opened Model

  type Name = nat
  type VmId = nat

  datatype Flavor = Flavor(core: nat, mem: nat)

  datatype Group = Group(flavor: Flavor, names: seq<Name>)

  datatype Capacity = Capacity(core: nat, mem: nat)

  // A request for hosts: each of `number` VMs under one identifier.
  datatype Machine = Machine(id: VmId, number: nat, flavor: Flavor)

  // ---- what one group needs ----

  // What k VMs use of something.
  function Used(k: nat, size: nat): nat {
    k * size
  }

  lemma UsedMore(k: nat, size: nat)
    ensures Used(k + 1, size) == Used(k, size) + size
  {
    assert (k + 1) * size == k * size + size;
  }

  predicate Exceeds(host: Capacity, coreUsed: nat, memUsed: nat) {
    host.core < coreUsed || host.mem < memUsed
  }

  // A host holds k VMs of the flavour.
  ghost predicate Fits(f: Flavor, host: Capacity, k: nat) {
    Used(k, f.core) <= host.core && Used(k, f.mem) <= host.mem
  }

  // The most of n VMs that a host holds.
  ghost function Room(f: Flavor, host: Capacity, n: nat): (m: nat)
    ensures m <= n && Fits(f, host, m)
    ensures m < n ==> !Fits(f, host, m + 1)
  {
    if n == 0 || Fits(f, host, n) then n else Room(f, host, n - 1)
  }

  lemma FitsFewer(f: Flavor, host: Capacity, k: nat, j: nat)
    requires Fits(f, host, k) && j <= k
    ensures Fits(f, host, j)
  {
    assert k * f.core == j * f.core + (k - j) * f.core;
    assert k * f.mem == j * f.mem + (k - j) * f.mem;
  }

  // How many VMs end up on each host: the first takes those that fit, every
  // other one more, since the VM that opens a host is not counted there.
  function Hosts(n: nat, m: nat): seq<nat> {
    if n == 0 then [] else if n <= m then [n] else [m] + Full(n - m, m + 1)
  }

  function Full(n: nat, k: nat): seq<nat>
    requires 0 < k
  {
    if n == 0 then [] else if n <= k then [n] else [k] + Full(n - k, k)
  }

  lemma {:induction false} FullNext(n: nat, k: nat)
    requires 0 < k && 0 < n
    ensures var s := Full(n, k);
      && s != []
      && s[|s| - 1] <= k
      && Full(n + 1, k) == if s[|s| - 1] < k then s[|s| - 1 := s[|s| - 1] + 1] else s + [1]
    decreases n
  {
    if n > k {
      FullNext(n - k, k);
    } else if n == k {
      assert Full(n + 1, k) == [k] + Full(1, k);
    }
  }

  // One more VM goes to the last host, or opens a host.
  lemma HostsNext(n: nat, m: nat)
    requires 0 < m && 0 < n
    ensures var s := Hosts(n, m);
      && s != []
      && s[|s| - 1] <= (if |s| == 1 then m else m + 1)
      && Hosts(n + 1, m) == if s[|s| - 1] < (if |s| == 1 then m else m + 1) then s[|s| - 1 := s[|s| - 1] + 1]
                              else s + [1]
  {
    if n > m {
      FullNext(n - m, m + 1);
      assert |Hosts(n, m)| > 1;
    } else if n == m {
      assert Full(1, m + 1) == [1];
    }
  }

  lemma RoomFits(f: Flavor, host: Capacity, n: nat, k: nat)
    requires k <= n
    ensures Fits(f, host, k) <==> k <= Room(f, host, n)
  {
    var m := Room(f, host, n);
    var more: nat := m + 1;
    if k <= m {
      FitsFewer(f, host, m, k);
    } else if Fits(f, host, k) {
      FitsFewer(f, host, k, more);
    }
  }

  // ---- filling hosts one VM at a time ----

  // The VMs that count against the current host.
  function Counted(filled: seq<nat>, current: nat): nat {
    if filled == [] || current == 0 then current else current - 1
  }

  // After i of n VMs: the hosts filled, the VMs on the current one, and what
  // is counted as used there.
  ghost predicate Filling(f: Flavor, host: Capacity, n: nat, i: nat, filled: seq<nat>, current: nat, coreUsed: nat,
                          memUsed: nat) {
    && i <= n
    && coreUsed == Used(Counted(filled, current), f.core)
    && memUsed == Used(Counted(filled, current), f.mem)
    && if i == 0 then filled == [] && current == 0
       else 0 < current <= i && 0 < Room(f, host, n) && Hosts(i, Room(f, host, n)) == filled + [current]
  }

  // A host is closed exactly when the next VM does not fit beside those counted.
  lemma ClosesIff(f: Flavor, host: Capacity, n: nat, i: nat, filled: seq<nat>, current: nat, coreUsed: nat,
                  memUsed: nat)
    requires Filling(f, host, n, i, filled, current, coreUsed, memUsed) && i < n
    ensures Exceeds(host, coreUsed + f.core, memUsed + f.mem) <==> Counted(filled, current) == Room(f, host, n)
    ensures Counted(filled, current) <= Room(f, host, n)
  {
    var k := Counted(filled, current);
    UsedMore(k, f.core);
    UsedMore(k, f.mem);
    RoomFits(f, host, n, k + 1);
    RoomFits(f, host, n, 0);
    if i > 0 {
      HostsNext(i, Room(f, host, n));
    }
  }

  lemma FillingCloses(f: Flavor, host: Capacity, n: nat, i: nat, filled: seq<nat>, current: nat, coreUsed: nat,
                      memUsed: nat)
    requires Filling(f, host, n, i, filled, current, coreUsed, memUsed) && i < n
    requires Counted(filled, current) == Room(f, host, n) && current > 0
    ensures Filling(f, host, n, i + 1, filled + [current], 1, 0, 0)
  {
    HostsNext(i, Room(f, host, n));
  }

  lemma FillingAdds(f: Flavor, host: Capacity, n: nat, i: nat, filled: seq<nat>, current: nat, coreUsed: nat,
                    memUsed: nat)
    requires Filling(f, host, n, i, filled, current, coreUsed, memUsed) && i < n
    requires Counted(filled, current) < Room(f, host, n)
    ensures Filling(f, host, n, i + 1, filled, current + 1, coreUsed + f.core, memUsed + f.mem)
  {
    UsedMore(Counted(filled, current), f.core);
    UsedMore(Counted(filled, current), f.mem);
    if i > 0 {
      var s := Hosts(i, Room(f, host, n));
      HostsNext(i, Room(f, host, n));
      assert s[|s| - 1 := current + 1] == filled + [current + 1];
    }
  }

  // ---- all groups ----

  ghost function GroupHosts(g: Group, host: Capacity): seq<nat> {
    Hosts(|g.names|, Room(g.flavor, host, |g.names|))
  }

  // A VM of the group does not fit on an empty host.
  ghost predicate Unfit(g: Group, host: Capacity) {
    g.names != [] && !Fits(g.flavor, host, 1)
  }

  lemma UnfitIff(g: Group, host: Capacity)
    ensures Unfit(g, host) <==> g.names != [] && Room(g.flavor, host, |g.names|) == 0
  {
    if g.names != [] {
      RoomFits(g.flavor, host, |g.names|, 1);
    }
  }

  // The hosts of the first k groups, with the flavour of their VMs.
  ghost function Expected(groups: seq<Group>, host: Capacity, k: nat): seq<(nat, Flavor)>
    requires k <= |groups|
  {
    if k == 0 then [] else Expected(groups, host, k - 1) + Tagged(GroupHosts(groups[k - 1], host), groups[k - 1].flavor)
  }

  ghost function Tagged(numbers: seq<nat>, f: Flavor): seq<(nat, Flavor)> {
    seq(|numbers|, i requires 0 <= i < |numbers| => (numbers[i], f))
  }

  lemma TaggedNext(numbers: seq<nat>, n: nat, f: Flavor)
    ensures Tagged(numbers + [n], f) == Tagged(numbers, f) + [(n, f)]
  {
  }

  lemma GroupFilled(g: Group, host: Capacity, filled: seq<nat>, current: nat, coreUsed: nat, memUsed: nat)
    requires Filling(g.flavor, host, |g.names|, |g.names|, filled, current, coreUsed, memUsed)
    ensures GroupHosts(g, host) == if current > 0 then filled + [current] else filled
    ensures !Unfit(g, host)
  {
    UnfitIff(g, host);
  }

  /** One for the market, and one for each host that the packing takes; none when
      a VM is too big for a host. */
  method GetNumberVms(groups: seq<Group>, host: Capacity) returns (r: Option<nat>)
    ensures r.None? <==> exists k :: 0 <= k < |groups| && Unfit(groups[k], host)
    ensures r.Some? ==> r.value == 1 + |Expected(groups, host, |groups|)|
  {
    var total := 1;
    for k := 0 to |groups|
      invariant total == 1 + |Expected(groups, host, k)|
      invariant forall j :: 0 <= j < k ==> !Unfit(groups[j], host)
    {
      var g := groups[k];
      var coreUsed: nat, memUsed: nat, current: nat := 0, 0, 0;
      ghost var filled: seq<nat> := [];
      for i := 0 to |g.names|
        invariant Filling(g.flavor, host, |g.names|, i, filled, current, coreUsed, memUsed)
        invariant total == 1 + |Expected(groups, host, k)| + |filled|
      {
        ClosesIff(g.flavor, host, |g.names|, i, filled, current, coreUsed, memUsed);
        if Exceeds(host, coreUsed + g.flavor.core, memUsed + g.flavor.mem) {
          if current == 0 {
            UnfitIff(g, host);
            return None;
          }
          FillingCloses(g.flavor, host, |g.names|, i, filled, current, coreUsed, memUsed);
          filled := filled + [current];
          total, coreUsed, memUsed, current := total + 1, 0, 0, 1;
        } else {
          FillingAdds(g.flavor, host, |g.names|, i, filled, current, coreUsed, memUsed);
          coreUsed, memUsed, current := coreUsed + g.flavor.core, memUsed + g.flavor.mem, current + 1;
        }
      }
      GroupFilled(g, host, filled, current, coreUsed, memUsed);
      if current > 0 {
        total := total + 1;
      }
    }
    return Some(total);
  }

  // ---- assigning ----

  // A VM and the identifier it was assigned, in the order of assignment.
  type Log = seq<(Name, VmId)>

  function Count(log: Log, id: VmId): nat
    decreases |log|
  {
    if log == [] then 0 else Count(log[..|log| - 1], id) + if log[|log| - 1].1 == id then 1 else 0
  }

  // Later assignments overwrite earlier ones.
  ghost function MapOf(log: Log): map<Name, VmId>
    decreases |log|
  {
    if log == [] then map[] else MapOf(log[..|log| - 1])[log[|log| - 1].0 := log[|log| - 1].1]
  }

  ghost function NamesOf(log: Log): seq<Name> {
    seq(|log|, i requires 0 <= i < |log| => log[i].0)
  }

  ghost function AllNames(groups: seq<Group>, k: nat): seq<Name>
    requires k <= |groups|
  {
    if k == 0 then [] else AllNames(groups, k - 1) + groups[k - 1].names
  }

  ghost function Shapes(machines: seq<Machine>): seq<(nat, Flavor)> {
    seq(|machines|, i requires 0 <= i < |machines| => (machines[i].number, machines[i].flavor))
  }

  ghost predicate Listed(machines: seq<Machine>, id: VmId) {
    exists j :: 0 <= j < |machines| && machines[j].id == id
  }

  // Identifiers are fresh, and every host is asked for as many VMs as carry its
  // identifier.
  ghost predicate Tracks(log: Log, machines: seq<Machine>, id: VmId, current: nat) {
    && (forall i, j :: 0 <= i < j < |machines| ==> machines[i].id < machines[j].id)
    && (forall j :: 0 <= j < |machines| ==> machines[j].id < id && Count(log, machines[j].id) == machines[j].number)
    && Count(log, id) == current
    && (forall later :: id < later ==> Count(log, later) == 0)
    && (forall i :: 0 <= i < |log| ==> log[i].1 == id || Listed(machines, log[i].1))
  }

  lemma Placed(log: Log, machines: seq<Machine>, id: VmId, current: nat, name: Name)
    requires Tracks(log, machines, id, current)
    ensures Tracks(log + [(name, id)], machines, id, current + 1)
    ensures MapOf(log + [(name, id)]) == MapOf(log)[name := id]
    ensures NamesOf(log + [(name, id)]) == NamesOf(log) + [name]
  {
    var more := log + [(name, id)];
    assert more[..|more| - 1] == log;
  }

  // No VM carries an identifier that was not used.
  lemma {:induction false} CountNone(log: Log, id: VmId, i: nat)
    requires Count(log, id) == 0 && i < |log|
    ensures log[i].1 != id
    decreases |log|
  {
    if i < |log| - 1 {
      CountNone(log[..|log| - 1], id, i);
    }
  }

  lemma Closed(log: Log, machines: seq<Machine>, id: VmId, current: nat, f: Flavor)
    requires Tracks(log, machines, id, current)
    ensures Tracks(log, machines + [Machine(id, current, f)], id + 1, 0)
    ensures Shapes(machines + [Machine(id, current, f)]) == Shapes(machines) + [(current, f)]
  {
    var more := machines + [Machine(id, current, f)];
    assert more[|machines|].id == id;
    forall i | 0 <= i < |log| ensures Listed(more, log[i].1) {
      if log[i].1 != id {
        var j :| 0 <= j < |machines| && machines[j].id == log[i].1;
        assert more[j].id == log[i].1;
      }
    }
  }

  lemma Renewed(log: Log, machines: seq<Machine>, id: VmId)
    requires Tracks(log, machines, id, 0)
    ensures Tracks(log, machines, id + 1, 0)
  {
    forall i | 0 <= i < |log| ensures log[i].1 != id {
      CountNone(log, id, i);
    }
  }

  datatype Assignment = Assignment(attributions: map<Name, VmId>, machines: seq<Machine>)

  // The first k VMs of a group are entered, and the hosts they filled.
  ghost predicate Entered(g: Group, k: nat, filled: seq<nat>, logBefore: Log, machinesBefore: seq<Machine>,
                          attributions: map<Name, VmId>, machines: seq<Machine>, log: Log) {
    && k <= |g.names|
    && attributions == MapOf(log)
    && NamesOf(log) == NamesOf(logBefore) + g.names[..k]
    && Shapes(machines) == Shapes(machinesBefore) + Tagged(filled, g.flavor)
  }

  lemma EnteredHost(g: Group, k: nat, filled: seq<nat>, logBefore: Log, machinesBefore: seq<Machine>,
                    attributions: map<Name, VmId>, machines: seq<Machine>, log: Log, id: VmId, current: nat)
    requires Entered(g, k, filled, logBefore, machinesBefore, attributions, machines, log)
    ensures Entered(g, k, filled + [current], logBefore, machinesBefore, attributions,
        machines + [Machine(id, current, g.flavor)], log)
  {
    TaggedNext(filled, current, g.flavor);
    assert Shapes(machines + [Machine(id, current, g.flavor)]) == Shapes(machines) + [(current, g.flavor)];
  }

  lemma EnteredVm(g: Group, k: nat, filled: seq<nat>, logBefore: Log, machinesBefore: seq<Machine>,
                  attributions: map<Name, VmId>, machines: seq<Machine>, log: Log, id: VmId)
    requires Entered(g, k, filled, logBefore, machinesBefore, attributions, machines, log) && k < |g.names|
    ensures Entered(g, k + 1, filled, logBefore, machinesBefore, attributions[g.names[k] := id], machines,
        log + [(g.names[k], id)])
  {
    var more := log + [(g.names[k], id)];
    assert more[..|more| - 1] == log;
    assert g.names[..k + 1] == g.names[..k] + [g.names[k]];
    assert NamesOf(more) == NamesOf(log) + [g.names[k]];
  }

  // The VMs of one group; `id` is the identifier generated for it.
  method AssignGroup(g: Group, host: Capacity, attributions: map<Name, VmId>, machines: seq<Machine>, id: VmId,
                     ghost log: Log)
    returns (r: Option<Assignment>, next: VmId, ghost after: Log)
    requires Tracks(log, machines, id, 0) && attributions == MapOf(log)
    ensures r.None? <==> Unfit(g, host)
    ensures r.Some? ==>
      && Tracks(after, r.value.machines, next, 0)
      && Entered(g, |g.names|, GroupHosts(g, host), log, machines, r.value.attributions, r.value.machines, after)
  {
    var hosts: map<Name, VmId>, requested := attributions, machines;
    next, after := id, log;
    var coreUsed: nat, memUsed: nat, current: nat := 0, 0, 0;
    ghost var filled: seq<nat> := [];
    for i := 0 to |g.names|
      invariant Filling(g.flavor, host, |g.names|, i, filled, current, coreUsed, memUsed)
      invariant Tracks(after, requested, next, current)
      invariant Entered(g, i, filled, log, machines, hosts, requested, after)
    {
      ClosesIff(g.flavor, host, |g.names|, i, filled, current, coreUsed, memUsed);
      if Exceeds(host, coreUsed + g.flavor.core, memUsed + g.flavor.mem) {
        if current == 0 {
          UnfitIff(g, host);
          return None, next, after;
        }
        FillingCloses(g.flavor, host, |g.names|, i, filled, current, coreUsed, memUsed);
        Closed(after, requested, next, current, g.flavor);
        EnteredHost(g, i, filled, log, machines, hosts, requested, after, next, current);
        requested := requested + [Machine(next, current, g.flavor)];
        filled := filled + [current];
        coreUsed, memUsed, current, next := 0, 0, 0, next + 1;
      } else {
        FillingAdds(g.flavor, host, |g.names|, i, filled, current, coreUsed, memUsed);
        coreUsed, memUsed := coreUsed + g.flavor.core, memUsed + g.flavor.mem;
      }
      Placed(after, requested, next, current, g.names[i]);
      EnteredVm(g, i, filled, log, machines, hosts, requested, after, next);
      current := current + 1;
      hosts := hosts[g.names[i] := next];
      after := after + [(g.names[i], next)];
    }
    GroupFilled(g, host, filled, current, coreUsed, memUsed);
    if current > 0 {
      Closed(after, requested, next, current, g.flavor);
      EnteredHost(g, |g.names|, filled, log, machines, hosts, requested, after, next, current);
      requested, next := requested + [Machine(next, current, g.flavor)], next + 1;
    }
    return Some(Assignment(hosts, requested)), next, after;
  }

  // What holds when the first k groups are assigned.
  ghost predicate Packed(groups: seq<Group>, host: Capacity, k: nat, a: Assignment, log: Log) {
    && k <= |groups|
    && a.attributions == MapOf(log)
    && NamesOf(log) == AllNames(groups, k)
    && Shapes(a.machines) == Expected(groups, host, k)
  }

  lemma PackedNext(groups: seq<Group>, host: Capacity, k: nat, a: Assignment, log: Log, next: Assignment, after: Log)
    requires Packed(groups, host, k, a, log) && k < |groups|
    requires Entered(groups[k], |groups[k].names|, GroupHosts(groups[k], host), log, a.machines, next.attributions,
        next.machines, after)
    ensures Packed(groups, host, k + 1, next, after)
  {
    assert groups[k].names[..|groups[k].names|] == groups[k].names;
  }

  /** Every VM is assigned once, in order; every host is requested for as many
      VMs as were assigned to it; the hosts are those counted beforehand. */
  method AssignVmToHosts(groups: seq<Group>, host: Capacity)
    returns (r: Option<Assignment>, ghost log: Log, ghost next: VmId)
    ensures r.None? <==> exists k :: 0 <= k < |groups| && Unfit(groups[k], host)
    ensures r.Some? ==> Packed(groups, host, |groups|, r.value, log) && Tracks(log, r.value.machines, next, 0)
    ensures r.Some? ==> |r.value.machines| == |Expected(groups, host, |groups|)|
  {
    var current, id := Assignment(map[], []), 0;
    log, next := [], 0;
    for k := 0 to |groups|
      invariant Tracks(log, current.machines, id, 0)
      invariant Packed(groups, host, k, current, log)
      invariant forall j :: 0 <= j < k ==> !Unfit(groups[j], host)
    {
      // Each group starts with a new identifier.
      Renewed(log, current.machines, id);
      var outcome, id', log' := AssignGroup(groups[k], host, current.attributions, current.machines, id + 1, log);
      if outcome.None? {
        return None, log, next;
      }
      PackedNext(groups, host, k, current, log, outcome.value, log');
      current, id, log := outcome.value, id', log';
    }
    assert |Shapes(current.machines)| == |current.machines|;
    return Some(current), log, id;
  }

  // ---- what the packing is worth ----

  lemma {:induction false} FullAtMost(n: nat, k: nat, j: nat)
    requires 0 < k && j < |Full(n, k)|
    ensures Full(n, k)[j] <= k
    decreases n
  {
    if n > k && j > 0 {
      FullAtMost(n - k, k, j - 1);
    }
  }

  /** The first host of a flavour holds what fits; some other host holds one VM
      more than fits exactly when there are VMs to fill a second host. */
  lemma OvershootIff(f: Flavor, host: Capacity, n: nat)
    requires 0 < Room(f, host, n)
    ensures var m := Room(f, host, n);
      (exists j :: 0 <= j < |Hosts(n, m)| && !Fits(f, host, Hosts(n, m)[j])) <==> 2 * m + 1 <= n
    ensures forall j :: 0 <= j < |Hosts(n, Room(f, host, n))| ==> Hosts(n, Room(f, host, n))[j] <= Room(f, host, n) + 1
  {
    var m := Room(f, host, n);
    var s := Hosts(n, m);
    forall j | 0 <= j < |s| ensures s[j] <= m + 1 {
      if n > m && j > 0 {
        FullAtMost(n - m, m + 1, j - 1);
      }
    }
    if 2 * m + 1 <= n {
      assert s[1] == m + 1;
    } else {
      forall j | 0 <= j < |s| ensures Fits(f, host, s[j]) {
        RoomFits(f, host, n, s[j]);
      }
    }
  }

  lemma {:induction false} FullCount(n: nat, k: nat)
    requires 0 < k && 0 < n
    ensures 0 < |Full(n, k)| && Used(|Full(n, k)| - 1, k) < n <= Used(|Full(n, k)|, k)
    decreases n
  {
    if n > k {
      FullCount(n - k, k);
      UsedMore(|Full(n - k, k)| - 1, k);
      UsedMore(|Full(n - k, k)|, k);
    }
  }

  /** The hosts that n VMs of a flavour take: n + 1 by m + 1, rounded up, when m
      of them fit on one. */
  lemma HostsCount(n: nat, m: nat)
    requires 0 < m && 0 < n
    ensures 0 < |Hosts(n, m)| && Used(|Hosts(n, m)| - 1, m + 1) < n + 1 <= Used(|Hosts(n, m)|, m + 1)
  {
    if n > m {
      FullCount(n - m, m + 1);
      var h := |Full(n - m, m + 1)|;
      UsedMore(h - 1, m + 1);
      UsedMore(h, m + 1);
    } else {
      UsedMore(0, m + 1);
    }
  }

  ghost predicate Distinct(names: seq<Name>) {
    forall i, j :: 0 <= i < j < |names| ==> names[i] != names[j]
  }

  // How many of the VMs have the identifier.
  ghost function Carriers(names: seq<Name>, attributions: map<Name, VmId>, id: VmId): nat
    decreases |names|
  {
    if names == [] then 0
    else
      var name := names[|names| - 1];
      Carriers(names[..|names| - 1], attributions, id)
      + if name in attributions && attributions[name] == id then 1 else 0
  }

  lemma {:induction false} MapOfDistinct(log: Log, i: nat)
    requires Distinct(NamesOf(log)) && i < |log|
    ensures log[i].0 in MapOf(log) && MapOf(log)[log[i].0] == log[i].1
    decreases |log|
  {
    var front := log[..|log| - 1];
    if i < |log| - 1 {
      assert NamesOf(front) == NamesOf(log)[..|log| - 1];
      MapOfDistinct(front, i);
      assert NamesOf(log)[i] != NamesOf(log)[|log| - 1];
    }
  }

  lemma {:induction false} CarriersCount(log: Log, attributions: map<Name, VmId>, id: VmId)
    requires forall i :: 0 <= i < |log| ==> log[i].0 in attributions && attributions[log[i].0] == log[i].1
    ensures Carriers(NamesOf(log), attributions, id) == Count(log, id)
    decreases |log|
  {
    if log != [] {
      var front := log[..|log| - 1];
      CarriersCount(front, attributions, id);
      assert NamesOf(front) == NamesOf(log)[..|log| - 1];
    }
  }

  /** When no two VMs share a name, each is attributed one requested host, and
      every host is requested for exactly the VMs attributed to it. */
  lemma AttributionsMatch(groups: seq<Group>, host: Capacity, a: Assignment, log: Log, next: VmId)
    requires Packed(groups, host, |groups|, a, log) && Tracks(log, a.machines, next, 0)
    requires Distinct(AllNames(groups, |groups|))
    ensures forall i :: 0 <= i < |AllNames(groups, |groups|)| ==>
      var name := AllNames(groups, |groups|)[i]; name in a.attributions && Listed(a.machines, a.attributions[name])
    ensures forall j :: 0 <= j < |a.machines| ==>
      Carriers(AllNames(groups, |groups|), a.attributions, a.machines[j].id) == a.machines[j].number
  {
    var names := AllNames(groups, |groups|);
    forall i | 0 <= i < |log| ensures log[i].0 in a.attributions && a.attributions[log[i].0] == log[i].1 {
      MapOfDistinct(log, i);
    }
    forall i | 0 <= i < |names| ensures names[i] in a.attributions && Listed(a.machines, a.attributions[names[i]]) {
      assert names[i] == log[i].0;
      if log[i].1 == next {
        CountNone(log, next, i);
      }
    }
    forall j | 0 <= j < |a.machines| ensures Carriers(names, a.attributions, a.machines[j].id) == a.machines[j].number {
      CarriersCount(log, a.attributions, a.machines[j].id);
    }
  }

  // ---- roles ----

  // The VMs before the i-th that have the same identifier.
  function Before(items: Log, i: nat): nat
    requires i < |items|
  {
    Count(items[..i], items[i].1)
  }

  // Each VM got the host at its place among those of its identifier.
  ghost predicate Given<Host>(items: Log, roles: map<VmId, seq<Host>>, hosts: seq<Host>) {
    && |hosts| == |items|
    && forall i :: 0 <= i < |items| ==>
         && items[i].1 in roles && Before(items, i) < |roles[items[i].1]|
         && hosts[i] == roles[items[i].1][Before(items, i)]
  }

  // The attributions in the order they were made, and the hosts obtained for
  // each identifier; too few hosts are an error.
  method AttributesRoles<Host>(items: Log, roles: map<VmId, seq<Host>>) returns (r: Option<seq<Host>>)
    ensures r.None? <==> exists i ::
      0 <= i < |items| && (items[i].1 !in roles || |roles[items[i].1]| <= Before(items, i))
    ensures r.Some? ==> Given(items, roles, r.value)
  {
    var count: map<VmId, nat> := map[];
    var given := [];
    for i := 0 to |items|
      invariant |given| == i
      invariant forall id :: (if id in count then count[id] else 0) == Count(items[..i], id)
      invariant forall j :: 0 <= j < i ==>
        items[j].1 in roles && Before(items, j) < |roles[items[j].1]| && given[j] == roles[items[j].1][Before(items, j)]
    {
      var id := items[i].1;
      var k := if id in count then count[id] else 0;
      assert k == Before(items, i);
      if id !in roles || |roles[id]| <= k {
        return None;
      }
      given := given + [roles[id][k]];
      count := count[id := k + 1];
      assert items[..i + 1][..i] == items[..i];
    }
    return Some(given);
  }

  lemma {:induction false} CountGrows(items: Log, i: nat, j: nat, id: VmId)
    requires i <= j <= |items|
    ensures Count(items[..i], id) <= Count(items[..j], id)
    decreases j
  {
    if i < j {
      assert items[..j][..j - 1] == items[..j - 1];
      CountGrows(items, i, j - 1, id);
    }
  }

  lemma BeforeGrows(items: Log, i: nat, j: nat)
    requires i < j < |items| && items[i].1 == items[j].1
    ensures Before(items, i) < Before(items, j)
  {
    assert items[..i + 1][..i] == items[..i];
    CountGrows(items, i + 1, j, items[i].1);
  }

  // No host is listed twice.
  ghost predicate NoHostTwice<Host(!new)>(roles: map<VmId, seq<Host>>) {
    forall a, k, b, l ::
      a in roles && b in roles && 0 <= k < |roles[a]| && 0 <= l < |roles[b]| && roles[a][k] == roles[b][l]
      ==> a == b && k == l
  }

  /** If no host was obtained twice, no two VMs get the same host. */
  lemma RolesAreExclusive<Host(!new)>(items: Log, roles: map<VmId, seq<Host>>, hosts: seq<Host>)
    requires Given(items, roles, hosts) && NoHostTwice(roles)
    ensures forall i, j :: 0 <= i < j < |hosts| ==> hosts[i] != hosts[j]
  {
    forall i, j | 0 <= i < j < |hosts| ensures hosts[i] != hosts[j] {
      if items[i].1 == items[j].1 {
        BeforeGrows(items, i, j);
      }
    }
  }

  /** There is a host for every VM if as many were obtained for each identifier
      as VMs carry it. */
  lemma RolesSuffice<Host>(items: Log, roles: map<VmId, seq<Host>>)
    requires forall i :: 0 <= i < |items| ==> items[i].1 in roles && Count(items, items[i].1) <= |roles[items[i].1]|
    ensures forall i :: 0 <= i < |items| ==> Before(items, i) < |roles[items[i].1]|
  {
    forall i | 0 <= i < |items| ensures Before(items, i) < |roles[items[i].1]| {
      assert items[..i + 1][..i] == items[..i] && items[..|items|] == items;
      CountGrows(items, i + 1, |items|, items[i].1);
    }
  }
}

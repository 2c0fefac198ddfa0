/** One task's container simulator: it fetches its input over the network, works for its
    life time, and ends when its node manager polls it. After a kill the same object is
    launched again. */
module ContainerSimulator {
  import opened Options
  import opened Sequences

  datatype Transfer = Transfer(source: string, destination: string, bytes: int)

  const NEVER: int := 0x7fff_ffff_ffff_ffff

  /** What the simulator remembers. */
  datatype Sim = Sim(lifeTime: int, endTime: int, open: seq<int>)

  function New(lifeTime: int): Sim { Sim(lifeTime, NEVER, []) }

  function WithoutAll(s: seq<int>, ids: seq<int>): seq<int> {
    if ids == [] then s else Without(WithoutAll(s, ids[..|ids| - 1]), ids[|ids| - 1])
  }

  lemma {:induction false} WithoutAllCounts(s: seq<int>, ids: seq<int>)
    ensures multiset(WithoutAll(s, ids)) == multiset(s) - multiset(ids)
  {
    if ids != [] {
      var front, x := ids[..|ids| - 1], ids[|ids| - 1];
      assert ids == front + [x];
      WithoutAllCounts(s, front);
      WithoutCounts(WithoutAll(s, front), x);
    }
  }

  function Hear(s: Sim, ids: seq<int>): Sim { s.(open := WithoutAll(s.open, ids)) }

  function Work(s: Sim, now: int): Sim { s.(endTime := now + s.lifeTime) }

  /** Transmissions have been asked for; they may take fifty life times. */
  function Fetch(s: Sim, ids: seq<int>, now: int): Sim {
    s.(open := s.open + ids, endTime := now + s.lifeTime * 50)
  }

  // ---- what is fetched --------------------------------------------------------------------

  /** A reduce's share from each map elsewhere, up to a map that has no container. */
  function Shuffle(hosts: seq<Option<string>>, destination: string, share: int): seq<Transfer> {
    if hosts == [] || hosts[0].None? then []
    else
      (if hosts[0].value == destination then [] else [Transfer(hosts[0].value, destination, share)])
      + Shuffle(hosts[1..], destination, share)
  }

  function Bytes(ts: seq<Transfer>): int {
    if ts == [] then 0 else ts[0].bytes + Bytes(ts[1..])
  }

  function Local(hosts: seq<Option<string>>, destination: string): nat {
    if hosts == [] then 0
    else (if hosts[0] == Some(destination) then 1 else 0) + Local(hosts[1..], destination)
  }

  predicate AllPlaced(hosts: seq<Option<string>>) {
    forall k | 0 <= k < |hosts| :: hosts[k].Some?
  }

  /** Each map elsewhere sends one share. */
  lemma {:induction false} ShuffleBytes(hosts: seq<Option<string>>, destination: string, share: int)
    requires AllPlaced(hosts)
    ensures var ts := Shuffle(hosts, destination, share);
            && |ts| + Local(hosts, destination) == |hosts|
            && Bytes(ts) == |ts| * share
            && forall k | 0 <= k < |ts| :: ts[k].source != destination && Some(ts[k].source) in hosts
  {
    if hosts != [] {
      ShuffleBytes(hosts[1..], destination, share);
      var ts := Shuffle(hosts[1..], destination, share);
      Distribute(1, |ts|, share);
      if hosts[0].value != destination {
        var first := Transfer(hosts[0].value, destination, share);
        assert ([first] + ts)[1..] == ts;
      } else {
        assert [] + ts == ts;
      }
    }
  }

  /** From each host but its own, a reduce asks for one share for every map there, up to the
      first map that has no container, and asks for nothing else. */
  lemma {:induction false} SharesFrom(hosts: seq<Option<string>>, n: nat, destination: string, share: int,
      source: string)
    requires n <= |hosts| && AllPlaced(hosts[..n]) && (n < |hosts| ==> hosts[n].None?)
    ensures var ts := Shuffle(hosts, destination, share);
            && multiset(ts)[Transfer(source, destination, share)] ==
               (if source == destination then 0 else multiset(hosts[..n])[Some(source)])
            && forall t | t in ts :: t.destination == destination && t.bytes == share
  {
    if n > 0 {
      assert hosts[0] == hosts[..n][0] && hosts[..n] == [hosts[0]] + hosts[1..][..n - 1];
      forall k | 0 <= k < n - 1 ensures hosts[1..][k].Some? { assert hosts[1..][k] == hosts[..n][k + 1]; }
      SharesFrom(hosts[1..], n - 1, destination, share, source);
    }
  }

  lemma Distribute(a: int, b: int, c: int)
    ensures (a + b) * c == a * c + b * c
  {
  }

  /** One map's part of the input, cut to whole bytes. */
  function Share(inputBytes: nat, maps: nat): nat {
    if maps == 0 then 0 else inputBytes / maps
  }

  /** What is sent and what is at hand make up the input, less than one byte a map short. */
  lemma InputArrives(hosts: seq<Option<string>>, destination: string, inputBytes: nat)
    requires hosts != [] && AllPlaced(hosts)
    ensures var share := Share(inputBytes, |hosts|);
            var all := Bytes(Shuffle(hosts, destination, share)) + Local(hosts, destination) * share;
            inputBytes - |hosts| < all <= inputBytes
  {
    var share := Share(inputBytes, |hosts|);
    var ts, here := Shuffle(hosts, destination, share), Local(hosts, destination);
    ShuffleBytes(hosts, destination, share);
    hide *;
    SharesAddUp(inputBytes, |hosts|, |ts|, here);
  }

  lemma SharesAddUp(bytes: nat, n: nat, a: nat, b: nat)
    requires n > 0 && a + b == n
    ensures bytes - n < a * Share(bytes, n) + b * Share(bytes, n) <= bytes
  {
    Distribute(a, b, Share(bytes, n));
    ShareIsPart(bytes, n);
  }

  lemma ShareIsPart(bytes: nat, n: nat)
    requires n > 0
    ensures bytes - n < n * Share(bytes, n) <= bytes
  {
  }

  /** The network emulator. Its replies are its own: an id, or -1 where it fails. */
  class NetworkEmulator {
    const reply: nat -> int
    var sent: seq<Transfer>

    constructor (reply: nat -> int)
      ensures this.reply == reply && sent == []
    {
      this.reply := reply;
      sent := [];
    }

    /** The n replies after the first `before`. */
    ghost function Replies(before: nat, n: nat): seq<int> {
      seq(n, (i: nat) => reply(before + i))
    }

    method TransmitNBytes(source: string, destination: string, bytes: int) returns (id: int)
      modifies this
      ensures sent == old(sent) + [Transfer(source, destination, bytes)] && id == reply(|old(sent)|)
    {
      id := reply(|sent|);
      sent := sent + [Transfer(source, destination, bytes)];
    }
  }

  class ContainerSimulator {
    const lifeTime: int
    const isMap: bool
    const inputBytes: nat
    const splitLocations: seq<string>
    var endTime: int
    var assignedContainer: Option<string>
    var openTransmissions: seq<int>

    ghost function State(): Sim
      reads this
    {
      Sim(lifeTime, endTime, openTransmissions)
    }

    constructor (lifeTime: int, isMap: bool, inputBytes: nat, splitLocations: seq<string>)
      ensures State() == New(lifeTime) && assignedContainer.None?
      ensures this.isMap == isMap && this.inputBytes == inputBytes && this.splitLocations == splitLocations
    {
      this.lifeTime, this.isMap, this.inputBytes, this.splitLocations := lifeTime, isMap, inputBytes, splitLocations;
      endTime, assignedContainer, openTransmissions := NEVER, None, [];
    }

    method StartWork(now: int)
      modifies this`endTime
      ensures State() == old(Work(State(), now))
    {
      endTime := lifeTime + now;
    }

    method NotifyTransmissionCompleted(id: int)
      modifies this`openTransmissions
      ensures State() == old(Hear(State(), [id]))
    {
      assert WithoutAll(openTransmissions, []) == openTransmissions;
      assert [id][..0] == [];
      openTransmissions := Without(openTransmissions, id);
    }

    predicate IsAllTransmissionsCompleted()
      reads this
    {
      openTransmissions == []
    }

    /** Nothing is fetched without the emulator or by a map that runs where a split is. A map
        without splits, or a reduce that finds a map without a container, fails. */
    method StartTransmission(enabled: bool, now: int, net: NetworkEmulator, maps: seq<ContainerSimulator>)
      returns (ok: bool)
      requires assignedContainer.Some?
      modifies this`openTransmissions, this`endTime, net
      ensures
        var here, was, asked := assignedContainer.value, old(State()), old(net.sent);
        var hosts := HostsOf(maps);
        if !enabled || (isMap && here in splitLocations) then ok && State() == was && net.sent == asked
        else if isMap && splitLocations == [] then !ok && State() == was && net.sent == asked
        else if isMap then
          && ok && net.sent == asked + [Transfer(splitLocations[0], here, inputBytes)]
          && State() == Fetch(was, net.Replies(|asked|, 1), now)
        else
          var ts := Shuffle(hosts, here, Share(inputBytes, |maps|));
          && (ok <==> AllPlaced(hosts)) && net.sent == asked + ts
          && openTransmissions == was.open + net.Replies(|asked|, |ts|)
          && endTime == if ok then now + lifeTime * 50 else was.endTime
    {
      hide Share, Shuffle;
      ghost var hosts := HostsOf(maps);
      if !enabled { return true; }
      var destination := assignedContainer.value;
      if isMap {
        for i := 0 to |splitLocations|
          invariant destination !in splitLocations[..i]
        {
          if splitLocations[i] == destination { return true; }
        }
        if splitLocations == [] { return false; }
        var id := net.TransmitNBytes(splitLocations[0], destination, inputBytes);
        openTransmissions := openTransmissions + [id];
      } else {
        ok := Gather(destination, net, maps);
        assert HostsOf(maps) == hosts;
        if !ok { return; }
      }
      endTime := now + lifeTime * 50;
      assert HostsOf(maps) == hosts;
      ok := true;
    }

    /** A reduce asks for its share of every map's output. */
    method Gather(destination: string, net: NetworkEmulator, maps: seq<ContainerSimulator>) returns (ok: bool)
      requires !isMap
      modifies this`openTransmissions, net
      ensures
        var hosts := HostsOf(maps);
        var ts := Shuffle(hosts, destination, Share(inputBytes, |maps|));
        && (ok <==> AllPlaced(hosts)) && net.sent == old(net.sent) + ts
        && openTransmissions == old(openTransmissions) + net.Replies(|old(net.sent)|, |ts|)
    {
      hide Share;
      ghost var hosts := HostsOf(maps);
      for i := 0 to |maps|
        invariant HostsOf(maps) == hosts
        invariant AllPlaced(hosts[..i])
        invariant net.sent == old(net.sent) + Shuffle(hosts[..i], destination, Share(inputBytes, |maps|))
        invariant |net.sent| >= |old(net.sent)|
        invariant openTransmissions ==
                  old(openTransmissions) + net.Replies(|old(net.sent)|, |net.sent| - |old(net.sent)|)
      {
        ShuffleMore(hosts, destination, Share(inputBytes, |maps|), i);
        if maps[i].assignedContainer.None? {
          assert hosts[i].None?;
          return false;
        }
        var source := maps[i].assignedContainer.value;
        if source != destination {
          var id := net.TransmitNBytes(source, destination, Share(inputBytes, |maps|));
          openTransmissions := openTransmissions + [id];
        }
      }
      assert hosts[..|maps|] == hosts && HostsOf(maps) == hosts;
      ok := true;
    }
  }

  ghost function HostsOf(maps: seq<ContainerSimulator>): (hosts: seq<Option<string>>)
    reads maps
    ensures |hosts| == |maps|
  {
    seq(|maps|, i requires 0 <= i < |maps| reads maps => maps[i].assignedContainer)
  }

  /** One map more; a map without a container is the last one looked at. */
  lemma {:induction false} ShuffleMore(hosts: seq<Option<string>>, destination: string, share: int, i: nat)
    requires i < |hosts| && AllPlaced(hosts[..i])
    ensures hosts[i].Some? ==>
              && AllPlaced(hosts[..i + 1])
              && Shuffle(hosts[..i + 1], destination, share) == Shuffle(hosts[..i], destination, share) +
                 if hosts[i].value == destination then [] else [Transfer(hosts[i].value, destination, share)]
    ensures hosts[i].None? ==> Shuffle(hosts, destination, share) == Shuffle(hosts[..i], destination, share)
  {
    hide Local, Share;
    if i > 0 {
      assert hosts[..i][1..] == hosts[1..][..i - 1] && hosts[..i + 1][1..] == hosts[1..][..i];
      assert hosts[..i][0] == hosts[0] && hosts[0].Some?;
      forall k | 0 <= k < i - 1 ensures hosts[1..][k].Some? { assert hosts[..i][k + 1].Some?; }
      ShuffleMore(hosts[1..], destination, share, i - 1);
    } else {
      assert hosts[..1][1..] == [];
    }
  }

  // ---- the node manager's turn -----------------------------------------------------------

  /** A completed transmission is told to every simulator that waits. */
  method NotifyAll(waiting: seq<ContainerSimulator>, id: int)
    requires Distinct(waiting)
    modifies waiting`openTransmissions
    ensures forall cs | cs in waiting :: cs.State() == old(Hear(cs.State(), [id]))
  {
    for i := 0 to |waiting|
      invariant forall k | 0 <= k < i :: waiting[k].State() == old(Hear(waiting[k].State(), [id]))
      invariant forall k | i <= k < |waiting| :: waiting[k].State() == old(waiting[k].State())
    {
      waiting[i].NotifyTransmissionCompleted(id);
    }
  }

  /** Those with nothing open start their work; the others go on waiting. */
  method StartReady(waiting: seq<ContainerSimulator>, now: int) returns (still: seq<ContainerSimulator>)
    modifies waiting`endTime
    ensures forall cs | cs in waiting ::
              cs.State() == if old(cs.openTransmissions) == [] then old(Work(cs.State(), now)) else old(cs.State())
    ensures forall cs :: cs in still <==> cs in waiting && cs.openTransmissions != []
  {
    still := [];
    for i := 0 to |waiting|
      invariant forall cs | cs in waiting ::
                  cs.State() == if cs in waiting[..i] && old(cs.openTransmissions) == [] then old(Work(cs.State(), now))
                                else old(cs.State())
      invariant forall cs :: cs in still <==> cs in waiting[..i] && cs.openTransmissions != []
    {
      if waiting[i].IsAllTransmissionsCompleted() {
        waiting[i].StartWork(now);
      } else {
        still := still + [waiting[i]];
      }
    }
  }
}

/**
 What a rollback makes of an adapter: the state it ends in, when that state passes the final
 comparison, and when it is exactly the captured one.
 */
module Ipv4Restoration {
  import opened Std
  import opened Config
  import opened Ipv4Recovery

  // Deletions.

  /** The networks whose address is not among those given. */
  function Unclaimed(nets: seq<Ipv4Net>, addresses: seq<Ipv4>): (r: seq<Ipv4Net>)
    ensures forall n :: n in r <==> n in nets && n.address !in addresses
    ensures r == nets <==> forall n :: n in nets ==> n.address !in addresses
    ensures |r| <= |nets|
  {
    if nets == [] then []
    else
      var rest := Unclaimed(nets[1..], addresses);
      assert nets == [nets[0]] + nets[1..];
      if nets[0].address in addresses then rest else [nets[0]] + rest
  }

  /** The gateways that are not among those given. */
  function OtherHops(hops: seq<Ipv4>, gone: seq<Ipv4>): (r: seq<Ipv4>)
    ensures forall h :: h in r <==> h in hops && h !in gone
    ensures r == hops <==> forall h :: h in hops ==> h !in gone
    ensures |r| <= |hops|
  {
    if hops == [] then []
    else
      var rest := OtherHops(hops[1..], gone);
      assert hops == [hops[0]] + hops[1..];
      if hops[0] in gone then rest else [hops[0]] + rest
  }

  lemma UnclaimedCons(n: Ipv4Net, nets: seq<Ipv4Net>, addresses: seq<Ipv4>)
    ensures Unclaimed([n] + nets, addresses) == if n.address in addresses then Unclaimed(nets, addresses) else [n] + Unclaimed(nets, addresses)
  {
    assert ([n] + nets)[0] == n && ([n] + nets)[1..] == nets;
  }

  lemma {:induction false} UnclaimedStep(nets: seq<Ipv4Net>, addresses: seq<Ipv4>)
    requires addresses != []
    ensures Unclaimed(WithoutAddress(nets, addresses[0]), addresses[1..]) == Unclaimed(nets, addresses)
  {
    if nets != [] {
      var n, left := nets[0], WithoutAddress(nets[1..], addresses[0]);
      UnclaimedStep(nets[1..], addresses);
      if n.address == addresses[0] {
        assert WithoutAddress(nets, addresses[0]) == left;
      } else {
        assert WithoutAddress(nets, addresses[0]) == [n] + left;
        UnclaimedCons(n, left, addresses[1..]);
        assert n.address in addresses <==> n.address in addresses[1..];
      }
    }
  }

  lemma OtherHopsCons(hop: Ipv4, hops: seq<Ipv4>, gone: seq<Ipv4>)
    ensures OtherHops([hop] + hops, gone) == if hop in gone then OtherHops(hops, gone) else [hop] + OtherHops(hops, gone)
  {
    assert ([hop] + hops)[0] == hop && ([hop] + hops)[1..] == hops;
  }

  lemma {:induction false} OtherHopsStep(hops: seq<Ipv4>, gone: seq<Ipv4>)
    requires gone != []
    ensures OtherHops(WithoutHop(hops, gone[0]), gone[1..]) == OtherHops(hops, gone)
  {
    if hops != [] {
      var hop, left := hops[0], WithoutHop(hops[1..], gone[0]);
      OtherHopsStep(hops[1..], gone);
      if hop == gone[0] {
        assert WithoutHop(hops, gone[0]) == left;
      } else {
        assert WithoutHop(hops, gone[0]) == [hop] + left;
        OtherHopsCons(hop, left, gone[1..]);
        assert hop in gone <==> hop in gone[1..];
      }
    }
  }

  lemma {:induction false} AbsentAddress(nets: seq<Ipv4Net>, a: Ipv4)
    requires forall n :: n in nets ==> n.address != a
    ensures WithoutAddress(nets, a) == nets
  {
    if nets != [] {
      assert nets[0] in nets;
      AbsentAddress(nets[1..], a);
    }
  }

  lemma {:induction false} AbsentHop(hops: seq<Ipv4>, hop: Ipv4)
    requires hop !in hops
    ensures WithoutHop(hops, hop) == hops
  {
    if hops != [] {
      AbsentHop(hops[1..], hop);
    }
  }

  /** Every address an adapter holds is reported there. */
  predicate Reported(at: Net, net: Net) {
    forall a :: net.HasAddress(a) ==> at.HasAddress(a)
  }

  lemma ReportedAfter(at: Net, net: Net, a: Ipv4)
    requires Reported(at, net)
    ensures Reported(at, net.(manual := WithoutAddress(net.manual, a), leased := WithoutAddress(net.leased, a)))
    ensures !at.HasAddress(a) ==> WithoutAddress(net.manual, a) == net.manual && WithoutAddress(net.leased, a) == net.leased
  {
    var next := net.(manual := WithoutAddress(net.manual, a), leased := WithoutAddress(net.leased, a));
    forall b | next.HasAddress(b)
      ensures at.HasAddress(b)
    {
      var n :| n in next.manual + next.leased && n.address == b;
      assert n in net.manual + net.leased;
    }
    if !at.HasAddress(a) {
      assert forall n :: n in net.manual ==> n in net.manual + net.leased;
      assert forall n :: n in net.leased ==> n in net.manual + net.leased;
      AbsentAddress(net.manual, a);
      AbsentAddress(net.leased, a);
    }
  }

  /** Deleting the listed addresses that are still there leaves the unclaimed ones. */
  lemma {:induction false} RunDeleteAddresses(env: Environment, addresses: seq<Ipv4>, at: Net, net: Net)
    requires Reported(at, net)
    ensures RunAll(env, DeleteAddresses(addresses, at), net)
         == net.(manual := Unclaimed(net.manual, addresses), leased := Unclaimed(net.leased, addresses))
    decreases |addresses|
  {
    if addresses == [] {
      assert Unclaimed(net.manual, []) == net.manual && Unclaimed(net.leased, []) == net.leased;
    } else {
      var a, rest := addresses[0], DeleteAddresses(addresses[1..], at);
      var next := net.(manual := WithoutAddress(net.manual, a), leased := WithoutAddress(net.leased, a));
      ReportedAfter(at, net, a);
      UnclaimedStep(net.manual, addresses);
      UnclaimedStep(net.leased, addresses);
      RunDeleteAddresses(env, addresses[1..], at, next);
      if at.HasAddress(a) {
        assert DeleteAddresses(addresses, at) == [DeleteAddress(a)] + rest && ([DeleteAddress(a)] + rest)[1..] == rest;
      } else {
        assert DeleteAddresses(addresses, at) == rest && next == net;
      }
    }
  }

  /** The first gateway is gone afterwards, whether it had to be deleted or not. */
  lemma DeleteGatewaysStep(env: Environment, gateways: seq<Ipv4>, at: Net, net: Net)
    requires gateways != [] && forall g :: g in net.gateways ==> g in at.gateways
    ensures var next := net.(gateways := WithoutHop(net.gateways, gateways[0]));
      && RunAll(env, DeleteGateways(gateways, at), net) == RunAll(env, DeleteGateways(gateways[1..], at), next)
      && forall g :: g in next.gateways ==> g in at.gateways
  {
    var g, rest := gateways[0], DeleteGateways(gateways[1..], at);
    if g in at.gateways {
      assert DeleteGateways(gateways, at) == [DeleteGateway(g)] + rest && ([DeleteGateway(g)] + rest)[1..] == rest;
    } else {
      AbsentHop(net.gateways, g);
      assert DeleteGateways(gateways, at) == rest;
    }
  }

  lemma {:induction false} RunDeleteGateways(env: Environment, gateways: seq<Ipv4>, at: Net, net: Net)
    requires forall g :: g in net.gateways ==> g in at.gateways
    ensures RunAll(env, DeleteGateways(gateways, at), net) == net.(gateways := OtherHops(net.gateways, gateways))
    decreases |gateways|
  {
    if gateways == [] {
      assert OtherHops(net.gateways, []) == net.gateways;
    } else {
      DeleteGatewaysStep(env, gateways, at, net);
      OtherHopsStep(net.gateways, gateways);
      RunDeleteGateways(env, gateways[1..], at, net.(gateways := WithoutHop(net.gateways, gateways[0])));
    }
  }

  /** The cleanup removes the recorded targets and nothing else. */
  lemma CleanupEffect(env: Environment, r: NetRestore, net: Net)
    ensures RunAll(env, Cleanup(r, net), net)
         == net.(manual := Unclaimed(net.manual, r.appliedAddresses), leased := Unclaimed(net.leased, r.appliedAddresses),
                 gateways := OtherHops(net.gateways, r.appliedGateways))
  {
    var d, g := DeleteAddresses(r.appliedAddresses, net), DeleteGateways(r.appliedGateways, net);
    RunAllSum(env, d, g, net);
    RunDeleteAddresses(env, r.appliedAddresses, net, net);
    RunDeleteGateways(env, r.appliedGateways, net, RunAll(env, d, net));
  }

  // The state a rollback ends in, found without running its commands.

  /** Addresses and routes after the repair of an adapter found in state `net`. */
  function RepairedAddress(env: Environment, r: NetRestore, net: Net): Net {
    if r.snapshot.manual != [] then
      if net.manual == r.snapshot.manual && net.gateways == r.snapshot.gateways then net
      else net.(dhcp := false, leased := [], manual := r.snapshot.manual, gateways := r.snapshot.gateways)
    else if r.snapshot.dhcp && !net.dhcp then Effect(env, AddressFromDhcp, net)
    else net
  }

  function RepairedDns(env: Environment, r: NetRestore, net: Net): (seq<IpAddr>, bool) {
    if r.dnsFromDhcp then (if net.dnsStatic then Servers(env.dns, V6s(net.dns)) else net.dns, false)
    else if net.dnsStatic && net.dns == r.snapshot.dns then (net.dns, true)
    else (Servers(V4s(r.snapshot.dns), V6s(r.snapshot.dns)), V4s(r.snapshot.dns) != [])
  }

  function RepairedWins(env: Environment, r: NetRestore, net: Net): (seq<Ipv4>, bool) {
    if r.winsFromDhcp then (if net.winsStatic then env.wins else net.wins, false)
    else if net.winsStatic && net.wins == r.snapshot.wins then (net.wins, true)
    else (r.snapshot.wins, r.snapshot.wins != [])
  }

  /** Where the rollback of an adapter found in state `net` ends. */
  function Ending(env: Environment, r: NetRestore, net: Net): Net {
    var n := RepairedAddress(env, r, net);
    Net(n.dhcp, Unclaimed(n.manual, r.appliedAddresses), Unclaimed(n.leased, r.appliedAddresses),
        OtherHops(n.gateways, r.appliedGateways),
        RepairedDns(env, r, net).0, RepairedDns(env, r, net).1, RepairedWins(env, r, net).0, RepairedWins(env, r, net).1)
  }

  lemma RepairAddressEffect(env: Environment, r: NetRestore, net: Net)
    ensures RunAll(env, RepairAddress(r, net), net) == RepairedAddress(env, r, net)
  {
    if r.snapshot.manual != [] {
      RunAddresses(env, r.snapshot.manual, r.snapshot.gateways, net);
    } else {
      assert RunAll(env, [AddressFromDhcp], net) == RunAll(env, [], Effect(env, AddressFromDhcp, net));
    }
  }

  /** `net` is the state the commands were chosen from, `mid` the state they run in. */
  lemma RepairDnsEffect(env: Environment, r: NetRestore, net: Net, mid: Net)
    requires mid.dns == net.dns && mid.dnsStatic == net.dnsStatic
    ensures RunAll(env, RepairDns(r, net), mid) == mid.(dns := RepairedDns(env, r, net).0, dnsStatic := RepairedDns(env, r, net).1)
  {
    assert RunAll(env, [DnsFromDhcp], mid) == RunAll(env, [], Effect(env, DnsFromDhcp, mid));
    RunDns(env, r.snapshot.dns, mid);
  }

  lemma RepairWinsEffect(env: Environment, r: NetRestore, net: Net, mid: Net)
    requires mid.wins == net.wins && mid.winsStatic == net.winsStatic
    ensures RunAll(env, RepairWins(r, net), mid) == mid.(wins := RepairedWins(env, r, net).0, winsStatic := RepairedWins(env, r, net).1)
  {
    assert RunAll(env, [WinsFromDhcp], mid) == RunAll(env, [], Effect(env, WinsFromDhcp, mid));
    RunWins(env, r.snapshot.wins, mid);
  }

  /** The commands of a rollback, run one after another, end where `Ending` says, from any state at all. */
  lemma RestoredIsEnding(env: Environment, r: NetRestore, net: Net)
    ensures Restored(env, r, net) == Ending(env, r, net)
  {
    var a, d, w := RepairAddress(r, net), RepairDns(r, net), RepairWins(r, net);
    RunAllSum(env, a + d, w, net);
    RunAllSum(env, a, d, net);
    RepairAddressEffect(env, r, net);
    var n1 := RunAll(env, a, net);
    RepairDnsEffect(env, r, net, n1);
    var n2 := RunAll(env, d, n1);
    RepairWinsEffect(env, r, net, n2);
    CleanupEffect(env, r, RunAll(env, w, n2));
  }
}

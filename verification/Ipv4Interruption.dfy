/**
 Recovery from every interruption point of a static reconfiguration: when the rollback passes the
 code's own comparison, and when the adapter is exactly as it was.
 */
module Ipv4Interruption {
  import opened Std
  import opened Config
  import opened Ipv4Recovery
  import opened Ipv4Restoration

  predicate ToStatic(target: Ipv4Config) {
    target.Static? && target.addresses != []
  }

  function AddressList(target: Ipv4Config): seq<Command>
    requires ToStatic(target)
  {
    AddressCommands(target.addresses, target.gateways)
  }

  /** Commands issued before the first one about DNS. */
  function AddressSteps(target: Ipv4Config): nat
    requires ToStatic(target)
  {
    |AddressList(target)|
  }

  /** Commands issued before the first one about WINS. */
  function ServerSteps(target: Ipv4Config): nat
    requires ToStatic(target)
  {
    |AddressList(target)| + |DnsCommands(target.dns, false)|
  }

  /** The state after the first `k` commands of a static run. */
  function CutOff(env: Environment, target: Ipv4Config, net: Net, k: nat): Net
    requires ToStatic(target) && k <= |StaticCommands(target)|
  {
    RunAll(env, StaticCommands(target)[..k], net)
  }

  // What the commands issued so far have written.

  function Min(a: nat, b: nat): nat {
    if a <= b then a else b
  }

  /** Gateways written by the first `k` commands, of which there is at least one. */
  function HopsWritten(target: Ipv4Config, k: nat): seq<Ipv4>
    requires ToStatic(target) && k > 0
  {
    target.gateways[..Min(|target.gateways|, if k <= |target.addresses| then 1 else k - |target.addresses| + 1)]
  }

  /** Commands issued before the first one about IPv6 DNS servers. */
  function Dns4Steps(target: Ipv4Config): nat
    requires ToStatic(target)
  {
    AddressSteps(target) + |Dns4Commands(V4s(target.dns))|
  }

  /** IPv6 DNS servers after the first `k` commands. */
  function V6Written(target: Ipv4Config, before: Net, k: nat): seq<Ipv6>
    requires ToStatic(target)
  {
    if k <= Dns4Steps(target) then V6s(before.dns) else V6s(target.dns)[..Min(|V6s(target.dns)|, k - Dns4Steps(target))]
  }

  function V4Written(target: Ipv4Config, k: nat): seq<Ipv4>
    requires ToStatic(target) && k > AddressSteps(target)
  {
    V4s(target.dns)[..Min(|V4s(target.dns)|, k - AddressSteps(target))]
  }

  /** The adapter after the first `k` commands, of which there is at least one. */
  function Written(target: Ipv4Config, before: Net, k: nat): Net
    requires ToStatic(target) && k > 0
  {
    Net(false, target.addresses[..Min(|target.addresses|, k)], [], HopsWritten(target, k),
        if k <= AddressSteps(target) then before.dns else Servers(V4Written(target, k), V6Written(target, before, k)),
        if k <= AddressSteps(target) then before.dnsStatic else V4s(target.dns) != [],
        if k <= ServerSteps(target) then before.wins else target.wins[..Min(|target.wins|, k - ServerSteps(target))],
        if k <= ServerSteps(target) then before.winsStatic else target.wins != [])
  }

  // The first commands of a list are the list for the first entries.

  lemma AddressPrefix(target: Ipv4Config, k: nat)
    requires ToStatic(target) && 0 < k <= AddressSteps(target)
    ensures AddressList(target)[..k] == AddressCommands(target.addresses[..Min(|target.addresses|, k)], HopsWritten(target, k))
  {
  }

  lemma Dns4Prefix(servers: seq<Ipv4>, k: nat)
    requires 0 < k <= |Dns4Commands(servers)|
    ensures Dns4Commands(servers)[..k] == Dns4Commands(servers[..Min(|servers|, k)])
  {
  }

  lemma Dns6Prefix(servers: seq<Ipv6>, k: nat)
    requires 0 < k <= |Dns6Commands(servers)|
    ensures Dns6Commands(servers)[..k] == Dns6Commands(servers[..Min(|servers|, k)])
  {
  }

  lemma WinsPrefix(servers: seq<Ipv4>, k: nat)
    requires 0 < k <= |WinsCommands(servers, false)|
    ensures WinsCommands(servers, false)[..k] == WinsCommands(servers[..Min(|servers|, k)], false)
  {
  }

  lemma CutInAddresses(env: Environment, target: Ipv4Config, before: Net, k: nat)
    requires ToStatic(target) && 0 < k <= AddressSteps(target)
    ensures CutOff(env, target, before, k) == Written(target, before, k)
  {
    assert StaticCommands(target)[..k] == AddressList(target)[..k];
    AddressPrefix(target, k);
    RunAddresses(env, target.addresses[..Min(|target.addresses|, k)], HopsWritten(target, k), before);
  }

  /** The state in which the server commands begin. */
  lemma AddressesDone(env: Environment, target: Ipv4Config, before: Net)
    requires ToStatic(target)
    ensures RunAll(env, AddressList(target), before)
         == before.(dhcp := false, leased := [], manual := target.addresses, gateways := target.gateways)
    ensures forall k :: k >= AddressSteps(target) && k > 0 ==>
      target.addresses[..Min(|target.addresses|, k)] == target.addresses && HopsWritten(target, k) == target.gateways
  {
    RunAddresses(env, target.addresses, target.gateways, before);
  }

  lemma CutInDns4(env: Environment, target: Ipv4Config, before: Net, k: nat)
    requires ToStatic(target) && AddressSteps(target) < k <= Dns4Steps(target)
    ensures CutOff(env, target, before, k) == Written(target, before, k)
  {
    var a, servers, j := AddressList(target), V4s(target.dns), k - AddressSteps(target);
    assert StaticCommands(target)[..k] == a + Dns4Commands(servers)[..j];
    RunAllSum(env, a, Dns4Commands(servers)[..j], before);
    AddressesDone(env, target, before);
    Dns4Prefix(servers, j);
    RunDns4(env, servers[..Min(|servers|, j)], RunAll(env, a, before));
  }

  lemma Dns4Done(env: Environment, target: Ipv4Config, before: Net)
    requires ToStatic(target)
    ensures RunAll(env, AddressList(target) + Dns4Commands(V4s(target.dns)), before)
         == before.(dhcp := false, leased := [], manual := target.addresses, gateways := target.gateways,
                    dns := Servers(V4s(target.dns), V6s(before.dns)), dnsStatic := V4s(target.dns) != [])
  {
    RunAllSum(env, AddressList(target), Dns4Commands(V4s(target.dns)), before);
    AddressesDone(env, target, before);
    RunDns4(env, V4s(target.dns), RunAll(env, AddressList(target), before));
  }

  lemma WrittenInDns6(target: Ipv4Config, before: Net, k: nat, servers: seq<Ipv6>)
    requires ToStatic(target) && Dns4Steps(target) < k <= ServerSteps(target)
    requires servers == V6s(target.dns)[..Min(|V6s(target.dns)|, k - Dns4Steps(target))]
    ensures Written(target, before, k)
         == Net(false, target.addresses, [], target.gateways, Servers(V4s(target.dns), servers), V4s(target.dns) != [],
                before.wins, before.winsStatic)
  {
    assert V4Written(target, k) == V4s(target.dns);
    assert target.addresses[..|target.addresses|] == target.addresses && HopsWritten(target, k) == target.gateways;
  }

  lemma CutCommands6(target: Ipv4Config, k: nat)
    requires ToStatic(target) && Dns4Steps(target) < k <= ServerSteps(target)
    ensures StaticCommands(target)[..k]
         == AddressList(target) + Dns4Commands(V4s(target.dns)) + Dns6Commands(V6s(target.dns))[..k - Dns4Steps(target)]
  {
    var a, four, six, w := AddressList(target), Dns4Commands(V4s(target.dns)), Dns6Commands(V6s(target.dns)), WinsCommands(target.wins, false);
    assert StaticCommands(target) == (a + four) + (six + w);
    assert (six + w)[..k - Dns4Steps(target)] == six[..k - Dns4Steps(target)];
  }

  lemma CutInDns6(env: Environment, target: Ipv4Config, before: Net, k: nat)
    requires ToStatic(target) && Dns4Steps(target) < k <= ServerSteps(target)
    ensures CutOff(env, target, before, k) == Written(target, before, k)
  {
    var done, all, j := AddressList(target) + Dns4Commands(V4s(target.dns)), V6s(target.dns), k - Dns4Steps(target);
    var servers := all[..Min(|all|, j)];
    CutCommands6(target, k);
    Dns6Prefix(all, j);
    RunAllSum(env, done, Dns6Commands(servers), before);
    Dns4Done(env, target, before);
    ServersSplit(V4s(target.dns), V6s(before.dns));
    RunDns6(env, servers, RunAll(env, done, before));
    WrittenInDns6(target, before, k, servers);
  }

  lemma CutInWins(env: Environment, target: Ipv4Config, before: Net, k: nat)
    requires ToStatic(target) && ServerSteps(target) < k <= |StaticCommands(target)|
    ensures CutOff(env, target, before, k) == Written(target, before, k)
  {
    var a, d, servers, j := AddressList(target), DnsCommands(target.dns, false), target.wins, k - ServerSteps(target);
    assert StaticCommands(target)[..k] == (a + d) + WinsCommands(servers, false)[..j];
    RunAllSum(env, a + d, WinsCommands(servers, false)[..j], before);
    RunAllSum(env, a, d, before);
    AddressesDone(env, target, before);
    RunDns(env, target.dns, RunAll(env, a, before));
    WinsPrefix(servers, j);
    RunWins(env, servers[..Min(|servers|, j)], RunAll(env, a + d, before));
    assert V4Written(target, k) == V4s(target.dns) && V6Written(target, before, k) == V6s(target.dns);
  }

  /** What a static run cut off after `k` commands leaves, entry by entry. */
  lemma CutRun(env: Environment, target: Ipv4Config, before: Net, k: nat)
    requires ToStatic(target) && k <= |StaticCommands(target)|
    ensures CutOff(env, target, before, k) == if k == 0 then before else Written(target, before, k)
  {
    if k == 0 {
      assert StaticCommands(target)[..k] == [];
    } else if k <= AddressSteps(target) {
      CutInAddresses(env, target, before, k);
    } else if k <= Dns4Steps(target) {
      CutInDns4(env, target, before, k);
    } else if k <= ServerSteps(target) {
      CutInDns6(env, target, before, k);
    } else {
      CutInWins(env, target, before, k);
    }
  }

  /** Addresses have been written: DHCP is off and only declared addresses are there. */
  predicate AddressesBegun(target: Ipv4Config, net: Net)
    requires ToStatic(target)
  {
    !net.dhcp && net.leased == [] && forall n :: n in net.manual ==> n in target.addresses
  }

  /** DNS servers have been written, the IPv4 family first. */
  predicate DnsBegun(servers: seq<IpAddr>, net: Net) {
    && V4First(net.dns)
    && net.dnsStatic == (V4s(servers) != [])
    && (V4s(net.dns) == [] <==> V4s(servers) == [])
  }

  /** WINS servers have been written. */
  predicate WinsBegun(servers: seq<Ipv4>, net: Net) {
    net.winsStatic == (servers != []) && (net.wins == [] <==> servers == [])
  }

  /** What matters to the rollback about a run cut off after `k` commands. */
  predicate Reached(target: Ipv4Config, before: Net, k: nat, net: Net)
    requires ToStatic(target)
  {
    && (if k == 0 then net == before else AddressesBegun(target, net))
    && (if k <= AddressSteps(target) then net.dns == before.dns && net.dnsStatic == before.dnsStatic else DnsBegun(target.dns, net))
    && (if k <= ServerSteps(target) then net.wins == before.wins && net.winsStatic == before.winsStatic else WinsBegun(target.wins, net))
  }

  lemma CutReached(env: Environment, target: Ipv4Config, before: Net, k: nat)
    requires ToStatic(target) && k <= |StaticCommands(target)|
    ensures Reached(target, before, k, CutOff(env, target, before, k))
  {
    CutRun(env, target, before, k);
    if k > AddressSteps(target) {
      ServersSplit(V4Written(target, k), V6Written(target, before, k));
    }
  }

  // The comparison made after rollback.

  lemma NothingOfBeforeClaimed(before: Net, target: Ipv4Config, adapter: nat)
    requires ToStatic(target)
    ensures var r := Capture(adapter, before, before, target);
      && Unclaimed(before.manual, r.appliedAddresses) == before.manual
      && OtherHops(before.gateways, r.appliedGateways) == before.gateways
      && (before.manual == [] ==> forall n :: n in target.addresses ==> n.address in r.appliedAddresses)
  {
  }

  lemma NoneClaimed(nets: seq<Ipv4Net>, addresses: seq<Ipv4>)
    requires forall n :: n in nets ==> n.address in addresses
    ensures Unclaimed(nets, addresses) == []
  {
  }

  /** An adapter that had manual addresses has them again, and nothing else. */
  lemma ManualEnding(env: Environment, before: Net, target: Ipv4Config, adapter: nat, net: Net)
    requires ToStatic(target) && AddressesBegun(target, net) && before.manual != []
    ensures var e := Ending(env, Capture(adapter, before, before, target), net);
      !e.dhcp && e.manual == before.manual && e.leased == [] && e.gateways == before.gateways
  {
    NothingOfBeforeClaimed(before, target, adapter);
    NoneClaimed([], Capture(adapter, before, before, target).appliedAddresses);
  }

  /** An adapter that had none loses the targets, and gets what the network offers if it was on DHCP. */
  lemma LeasedEnding(env: Environment, before: Net, target: Ipv4Config, adapter: nat, net: Net)
    requires ToStatic(target) && AddressesBegun(target, net) && before.manual == []
    ensures var r := Capture(adapter, before, before, target);
      var e := Ending(env, r, net);
      && e.dhcp == before.dhcp && e.manual == []
      && e.leased == (if before.dhcp then Unclaimed(env.addresses, r.appliedAddresses) else [])
      && e.gateways == OtherHops(Routes(env, before.dhcp, net.gateways), r.appliedGateways)
  {
    var r := Capture(adapter, before, before, target);
    NothingOfBeforeClaimed(before, target, adapter);
    NoneClaimed(net.manual, r.appliedAddresses);
    NoneClaimed([], r.appliedAddresses);
    assert net.gateways + [] == net.gateways;
  }

  /** The routes left after switching back to DHCP, or without switching. */
  function Routes(env: Environment, dhcp: bool, installed: seq<Ipv4>): seq<Ipv4> {
    (if dhcp && env.clearsManual then [] else installed) + if dhcp then env.gateways else []
  }

  /**
   From every interruption point of a static run, and whatever the adapter's state was, a rollback
   whose own commands succeed passes the final comparison if and only if: an adapter on DHCP that
   also held manual addresses had not been touched, a static DNS list that was touched names IPv4
   servers and names them first, and a static WINS list that was touched was not empty.
   */
  lemma RecoveryFromEveryInterruption(env: Environment, before: Net, target: Ipv4Config, adapter: nat, k: nat)
    requires ToStatic(target) && k <= |StaticCommands(target)|
    ensures var r := Capture(adapter, before, before, target);
      VerifyRestored(r, Restored(env, r, CutOff(env, target, before, k)))
      <==> && (before.dhcp && before.manual != [] ==> k == 0)
           && (before.dnsStatic && k > AddressSteps(target) ==> V4s(before.dns) != [] && V4First(before.dns))
           && (before.winsStatic && k > ServerSteps(target) ==> before.wins != [])
  {
    var r, net := Capture(adapter, before, before, target), CutOff(env, target, before, k);
    CutReached(env, target, before, k);
    RestoredIsEnding(env, r, net);
    NothingOfBeforeClaimed(before, target, adapter);
    var e := Ending(env, r, net);
    AddressCompared(env, before, target, adapter, net, k);
    assert !e.dnsStatic == r.dnsFromDhcp && (r.dnsFromDhcp || e.dns == before.dns)
      <==> (before.dnsStatic && k > AddressSteps(target) ==> V4s(before.dns) != [] && V4First(before.dns));
    assert !e.winsStatic == r.winsFromDhcp && (r.winsFromDhcp || e.wins == before.wins)
      <==> (before.winsStatic && k > ServerSteps(target) ==> before.wins != []);
  }

  lemma AddressCompared(env: Environment, before: Net, target: Ipv4Config, adapter: nat, net: Net, k: nat)
    requires ToStatic(target) && Reached(target, before, k, net)
    ensures var r := Capture(adapter, before, before, target);
      var e := Ending(env, r, net);
      (&& e.dhcp == before.dhcp
       && (if before.manual == [] then forall a :: a in r.appliedAddresses ==> !e.HasAddress(a)
           else e.manual == before.manual && e.gateways == before.gateways))
      <==> (before.dhcp && before.manual != [] ==> k == 0)
  {
    var r := Capture(adapter, before, before, target);
    var e := Ending(env, r, net);
    NothingOfBeforeClaimed(before, target, adapter);
    if k > 0 && before.manual != [] {
      ManualEnding(env, before, target, adapter, net);
    } else if k > 0 {
      LeasedEnding(env, before, target, adapter, net);
    }
    assert forall a :: a in r.appliedAddresses ==> forall n :: n in e.manual + e.leased ==> n.address != a;
  }

  // When the adapter is exactly as it was.

  /**
   DHCP mode, addresses and routes come back: untouched, if no lease is a target address; with
   manual addresses, if that was all there was; without, if the leases are those on offer that are
   no target addresses, and the routes those on offer and those the rollback leaves.
   */
  predicate AddressBack(env: Environment, before: Net, target: Ipv4Config, k: nat)
    requires ToStatic(target)
  {
    var claimed := NewAddresses(target.addresses, before);
    if k == 0 then forall n :: n in before.leased ==> n.address !in claimed
    else if before.manual != [] then !before.dhcp && before.leased == []
    else
      && before.leased == (if before.dhcp then Unclaimed(env.addresses, claimed) else [])
      && before.gateways == OtherHops(Routes(env, before.dhcp, HopsWritten(target, k)), NewGateways(target.gateways, before))
  }

  /**
   The DNS servers come back: untouched, static with IPv4 servers first, or from DHCP, if the IPv4
   servers on offer (none when the target names none) and the IPv6 servers written are what was there.
   */
  predicate DnsBack(env: Environment, before: Net, target: Ipv4Config, k: nat)
    requires ToStatic(target)
  {
    k > AddressSteps(target) ==>
      if before.dnsStatic then V4s(before.dns) != [] && V4First(before.dns)
      else before.dns == Servers(if V4s(target.dns) == [] then [] else env.dns, V6Written(target, before, k))
  }

  /** The WINS servers come back: untouched, static and some, or those on offer (none when the target names none). */
  predicate WinsBack(env: Environment, before: Net, target: Ipv4Config, k: nat)
    requires ToStatic(target)
  {
    k > ServerSteps(target) ==>
      if before.winsStatic then before.wins != []
      else before.wins == if target.wins == [] then [] else env.wins
  }

  lemma AddressBackIff(env: Environment, before: Net, target: Ipv4Config, adapter: nat, k: nat)
    requires ToStatic(target) && k <= |StaticCommands(target)|
    ensures var e := Ending(env, Capture(adapter, before, before, target), CutOff(env, target, before, k));
      e.dhcp == before.dhcp && e.manual == before.manual && e.leased == before.leased && e.gateways == before.gateways
      <==> AddressBack(env, before, target, k)
  {
    var net := CutOff(env, target, before, k);
    CutRun(env, target, before, k);
    NothingOfBeforeClaimed(before, target, adapter);
    if k > 0 && before.manual != [] {
      ManualEnding(env, before, target, adapter, net);
    } else if k > 0 {
      LeasedEnding(env, before, target, adapter, net);
    }
  }

  lemma DnsBackIff(env: Environment, before: Net, target: Ipv4Config, adapter: nat, k: nat)
    requires ToStatic(target) && k <= |StaticCommands(target)|
    ensures var e := Ending(env, Capture(adapter, before, before, target), CutOff(env, target, before, k));
      e.dns == before.dns && e.dnsStatic == before.dnsStatic <==> DnsBack(env, before, target, k)
  {
    CutRun(env, target, before, k);
    if k > AddressSteps(target) {
      ServersSplit(V4Written(target, k), V6Written(target, before, k));
    }
  }

  lemma WinsBackIff(env: Environment, before: Net, target: Ipv4Config, adapter: nat, k: nat)
    requires ToStatic(target) && k <= |StaticCommands(target)|
    ensures var e := Ending(env, Capture(adapter, before, before, target), CutOff(env, target, before, k));
      e.wins == before.wins && e.winsStatic == before.winsStatic <==> WinsBack(env, before, target, k)
  {
    CutRun(env, target, before, k);
  }

  /** From every interruption point, the adapter is exactly as it was if and only if its three parts come back. */
  lemma RestoredExactlyIff(env: Environment, before: Net, target: Ipv4Config, adapter: nat, k: nat)
    requires ToStatic(target) && k <= |StaticCommands(target)|
    ensures Restored(env, Capture(adapter, before, before, target), CutOff(env, target, before, k)) == before
      <==> AddressBack(env, before, target, k) && DnsBack(env, before, target, k) && WinsBack(env, before, target, k)
  {
    RestoredIsEnding(env, Capture(adapter, before, before, target), CutOff(env, target, before, k));
    AddressBackIff(env, before, target, adapter, k);
    DnsBackIff(env, before, target, adapter, k);
    WinsBackIff(env, before, target, adapter, k);
  }

  /** Everything about the adapter is static, and written as the commands write it. */
  predicate FullyStatic(net: Net) {
    && !net.dhcp && net.manual != [] && net.leased == []
    && net.dnsStatic && V4s(net.dns) != [] && V4First(net.dns)
    && net.winsStatic && net.wins != []
  }

  /** Such an adapter comes back whole from every interruption point, whatever the network offers. */
  lemma FullyStaticComesBack(env: Environment, before: Net, target: Ipv4Config, adapter: nat, k: nat)
    requires ToStatic(target) && k <= |StaticCommands(target)| && FullyStatic(before)
    ensures Restored(env, Capture(adapter, before, before, target), CutOff(env, target, before, k)) == before
  {
    RestoredExactlyIff(env, before, target, adapter, k);
  }

  /** For a static adapter with static servers the comparison is complete, leases apart. */
  lemma ComparisonComplete(before: Net, r: NetRestore, after: Net)
    requires r.snapshot == before && !r.dnsFromDhcp && !r.winsFromDhcp
    requires before.manual != [] && before.dnsStatic && before.winsStatic
    ensures VerifyRestored(r, after) <==> after == before.(leased := after.leased)
  {
  }

  /** The comparison passes after a complete run on an adapter that was on DHCP only. */
  lemma CompleteRunPasses(env: Environment, before: Net, target: Ipv4Config, adapter: nat)
    requires ToStatic(target) && before.manual == [] && !before.dnsStatic
    requires before.winsStatic ==> before.wins != []
    ensures var r := Capture(adapter, before, before, target);
      VerifyRestored(r, Restored(env, r, RunAll(env, StaticCommands(target), before)))
  {
    var k := |StaticCommands(target)|;
    assert StaticCommands(target)[..k] == StaticCommands(target);
    RecoveryFromEveryInterruption(env, before, target, adapter, k);
  }

  /** The DNS servers an adapter whose servers came from DHCP ends with. */
  lemma ServersAfterRollback(env: Environment, before: Net, target: Ipv4Config, adapter: nat)
    requires ToStatic(target) && !before.dnsStatic
    ensures var after := Restored(env, Capture(adapter, before, before, target), RunAll(env, StaticCommands(target), before));
      after.dns == Servers(if V4s(target.dns) == [] then [] else env.dns, V6s(target.dns))
  {
    StaticInstalled(env, target, before);
    ServersSplit(V4s(target.dns), V6s(target.dns));
    RestoredIsEnding(env, Capture(adapter, before, before, target), RunAll(env, StaticCommands(target), before));
  }

  /**
   What the comparison misses: switching DNS back to DHCP does not touch IPv6, so after a complete
   run the target's IPv6 servers stay on an adapter whose servers came from DHCP.
   */
  lemma Ipv6ServersStay(env: Environment, before: Net, target: Ipv4Config, adapter: nat)
    requires ToStatic(target) && V4s(target.dns) != [] && V6s(target.dns) != []
    requires before.manual == [] && !before.dnsStatic && V6s(before.dns) == []
    requires before.winsStatic ==> before.wins != []
    ensures var r := Capture(adapter, before, before, target);
      var after := Restored(env, r, RunAll(env, StaticCommands(target), before));
      VerifyRestored(r, after) && after.dns == Servers(env.dns, V6s(target.dns)) && after != before
  {
    CompleteRunPasses(env, before, target, adapter);
    ServersAfterRollback(env, before, target, adapter);
    ServersSplit(env.dns, V6s(target.dns));
  }

  /**
   A target without IPv4 servers leaves no static list behind, so the rollback believes DNS still
   comes from DHCP and does not ask for it again: the servers are gone and the comparison passes.
   */
  lemma DhcpServersLost(env: Environment, before: Net, target: Ipv4Config, adapter: nat)
    requires ToStatic(target) && V4s(target.dns) == []
    requires before.manual == [] && !before.dnsStatic && V4s(before.dns) != []
    requires before.winsStatic ==> before.wins != []
    ensures var r := Capture(adapter, before, before, target);
      var after := Restored(env, r, RunAll(env, StaticCommands(target), before));
      VerifyRestored(r, after) && V4s(after.dns) == [] && after != before
  {
    CompleteRunPasses(env, before, target, adapter);
    ServersAfterRollback(env, before, target, adapter);
    ServersSplit([], V6s(target.dns));
  }

  /**
   An adapter that began on DHCP holds, after a run that had begun, exactly the leases on offer
   whose address is no target address.
   */
  lemma RecoveredLeases(env: Environment, before: Net, target: Ipv4Config, adapter: nat, k: nat)
    requires ToStatic(target) && 0 < k <= |StaticCommands(target)|
    requires before.dhcp && before.manual == []
    ensures var after := Restored(env, Capture(adapter, before, before, target), CutOff(env, target, before, k));
      && after.dhcp && after.manual == []
      && (forall lease :: lease in after.leased <==> lease in env.addresses && forall n :: n in target.addresses ==> n.address != lease.address)
      && (after.leased == env.addresses <==> forall lease, n :: lease in env.addresses && n in target.addresses ==> n.address != lease.address)
  {
    var net := CutOff(env, target, before, k);
    CutReached(env, target, before, k);
    LeasedEnding(env, before, target, adapter, net);
    RestoredIsEnding(env, Capture(adapter, before, before, target), net);
  }

  // Inputs at which the code does not do what it sets out to do.

  const HOST: Ipv4Net := Ipv4Net(0x0A00_0005, 24)
  const OTHER_HOST: Ipv4Net := Ipv4Net(0x0A00_0006, 24)
  const OFFER: Environment := Environment([HOST], [1], [2], [], true, true)

  /** A static target without WINS servers is applied again although nothing would change. */
  lemma NeverRecognised()
    ensures var target := Static([HOST], [1], [V4(2)], []);
      var after := RunAll(OFFER, StaticCommands(target), Net(true, [], [HOST], [1], [V4(2)], false, [], false));
      && !StaticMatches(Capture(0, after, after, target), target)
      && RunAll(OFFER, StaticCommands(target), after) == after
  {
    var target := Static([HOST], [1], [V4(2)], []);
    var start := Net(true, [], [HOST], [1], [V4(2)], false, [], false);
    StaticIdempotentIff(OFFER, target, start, 0);
    StaticInstalled(OFFER, target, start);
    StaticInstalled(OFFER, target, RunAll(OFFER, StaticCommands(target), start));
  }

  /** A static adapter whose DNS list names an IPv6 server first fails the comparison once DNS was touched. */
  lemma Ipv6FirstIsNotRestored()
    ensures var target := Static([HOST], [1], [V4(2)], []);
      var before := Net(false, [OTHER_HOST], [], [1], [V6(7), V4(3)], true, [], false);
      var r := Capture(0, before, before, target);
      !VerifyRestored(r, Restored(OFFER, r, RunAll(OFFER, StaticCommands(target), before)))
  {
    var target := Static([HOST], [1], [V4(2)], []);
    var before := Net(false, [OTHER_HOST], [], [1], [V6(7), V4(3)], true, [], false);
    var k := |StaticCommands(target)|;
    assert StaticCommands(target)[..k] == StaticCommands(target);
    assert V4s(before.dns[1..]) == [3] && V6s(before.dns) == [7] + V6s(before.dns[1..]);
    assert Servers(V4s(before.dns), V6s(before.dns))[0] == V4(3);
    RecoveryFromEveryInterruption(OFFER, before, target, 0, k);
  }

  /** An adapter on DHCP that also holds a manual address fails it as soon as one command was issued. */
  lemma DhcpWithManualIsNotRestored()
    ensures var target := Static([HOST], [1], [V4(2)], []);
      var before := Net(true, [OTHER_HOST], [], [1], [V4(2)], false, [], false);
      var r := Capture(0, before, before, target);
      !VerifyRestored(r, Restored(OFFER, r, RunAll(OFFER, StaticCommands(target)[..1], before)))
  {
    var target := Static([HOST], [1], [V4(2)], []);
    RecoveryFromEveryInterruption(OFFER, Net(true, [OTHER_HOST], [], [1], [V4(2)], false, [], false), target, 0, 1);
  }
}

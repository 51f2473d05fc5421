/**
 IPv4 reconfiguration of one adapter: the `netsh` command lists issued by apply and by
 rollback, a model of what each command does, and the comparison made after rollback.
 */
module Ipv4Recovery {
  import opened Std
  import opened Config

  /**
   The IPv4 state of an adapter as the inventory reports it. `dnsStatic` and `winsStatic` say
   whether the registry holds a non-empty static server list.
   */
  datatype Net = Net(
    dhcp: bool,
    manual: seq<Ipv4Net>,
    leased: seq<Ipv4Net>,
    gateways: seq<Ipv4>,
    dns: seq<IpAddr>,
    dnsStatic: bool,
    wins: seq<Ipv4>,
    winsStatic: bool)
  {
    predicate HasAddress(a: Ipv4) {
      exists n :: n in manual + leased && n.address == a
    }
  }

  /**
   What the network offers an adapter that uses DHCP, whether switching to DHCP drops the manual
   addresses and routes of the active store, and whether a command that fails changes nothing.
   Theorems hold for every such environment unless they say otherwise.
   */
  datatype Environment = Environment(
    addresses: seq<Ipv4Net>,
    gateways: seq<Ipv4>,
    dns: seq<Ipv4>,
    wins: seq<Ipv4>,
    clearsManual: bool,
    failsClean: bool)

  datatype Command =
    | AddressFromDhcp
    | SetPrimary(net: Ipv4Net, gateway: Option<Ipv4>)
    | AddAddress(net: Ipv4Net)
    | AddGateway(hop: Ipv4)
    | DeleteAddress(address: Ipv4)
    | DeleteGateway(hop: Ipv4)
    | DnsFromDhcp
    | SetDns4(first: Option<Ipv4>)
    | AddDns4(server4: Ipv4)
    | SetDns6(first6: Option<Ipv6>)
    | AddDns6(server6: Ipv6)
    | WinsFromDhcp
    | SetWins(first: Option<Ipv4>)
    | AddWins(server4: Ipv4)

  function V4s(dns: seq<IpAddr>): seq<Ipv4> {
    if dns == [] then [] else (if dns[0].V4? then [dns[0].v4] else []) + V4s(dns[1..])
  }

  function V6s(dns: seq<IpAddr>): seq<Ipv6> {
    if dns == [] then [] else (if dns[0].V6? then [dns[0].v6] else []) + V6s(dns[1..])
  }

  function Servers(v4: seq<Ipv4>, v6: seq<Ipv6>): seq<IpAddr> {
    seq(|v4|, i requires 0 <= i < |v4| => V4(v4[i])) + seq(|v6|, i requires 0 <= i < |v6| => V6(v6[i]))
  }

  function FirstOf<T>(s: seq<T>): Option<T> {
    if s == [] then None else Some(s[0])
  }

  function AsSeq<T>(o: Option<T>): seq<T> {
    if o.Some? then [o.value] else []
  }

  function WithoutAddress(nets: seq<Ipv4Net>, a: Ipv4): (r: seq<Ipv4Net>)
    ensures forall n :: n in r <==> n in nets && n.address != a
  {
    if nets == [] then []
    else (if nets[0].address == a then [] else [nets[0]]) + WithoutAddress(nets[1..], a)
  }

  function WithoutHop(hops: seq<Ipv4>, hop: Ipv4): (r: seq<Ipv4>)
    ensures forall h :: h in r <==> h in hops && h != hop
  {
    if hops == [] then [] else (if hops[0] == hop then [] else [hops[0]]) + WithoutHop(hops[1..], hop)
  }

  /** The effect of one successful command. */
  function Effect(env: Environment, command: Command, net: Net): Net {
    match command
    case AddressFromDhcp =>
      net.(dhcp := true, leased := env.addresses,
           manual := if env.clearsManual then [] else net.manual,
           gateways := (if env.clearsManual then [] else net.gateways) + env.gateways)
    case SetPrimary(address, gateway) =>
      net.(dhcp := false, leased := [], manual := [address], gateways := AsSeq(gateway))
    case AddAddress(address) => net.(manual := net.manual + [address])
    case AddGateway(hop) => net.(gateways := net.gateways + [hop])
    case DeleteAddress(a) => net.(manual := WithoutAddress(net.manual, a), leased := WithoutAddress(net.leased, a))
    case DeleteGateway(hop) => net.(gateways := WithoutHop(net.gateways, hop))
    case DnsFromDhcp => net.(dns := Servers(env.dns, V6s(net.dns)), dnsStatic := false)
    case SetDns4(first) => net.(dns := Servers(AsSeq(first), V6s(net.dns)), dnsStatic := first.Some?)
    case AddDns4(server) => net.(dns := Servers(V4s(net.dns) + [server], V6s(net.dns)))
    case SetDns6(first) => net.(dns := Servers(V4s(net.dns), AsSeq(first)))
    case AddDns6(server) => net.(dns := Servers(V4s(net.dns), V6s(net.dns) + [server]))
    case WinsFromDhcp => net.(wins := env.wins, winsStatic := false)
    case SetWins(first) => net.(wins := AsSeq(first), winsStatic := first.Some?)
    case AddWins(server) => net.(wins := net.wins + [server])
  }

  function RunAll(env: Environment, commands: seq<Command>, net: Net): Net {
    if commands == [] then net else RunAll(env, commands[1..], Effect(env, commands[0], net))
  }

  // Command lists.

  function Dns4Commands(servers: seq<Ipv4>): seq<Command> {
    [SetDns4(FirstOf(servers))] + seq(if servers == [] then 0 else |servers| - 1, i requires 0 <= i < |servers| - 1 => AddDns4(servers[i + 1]))
  }

  function Dns6Commands(servers: seq<Ipv6>): seq<Command> {
    [SetDns6(FirstOf(servers))] + seq(if servers == [] then 0 else |servers| - 1, i requires 0 <= i < |servers| - 1 => AddDns6(servers[i + 1]))
  }

  function DnsCommands(servers: seq<IpAddr>, fromDhcp: bool): seq<Command> {
    if fromDhcp then [DnsFromDhcp] else Dns4Commands(V4s(servers)) + Dns6Commands(V6s(servers))
  }

  function WinsCommands(servers: seq<Ipv4>, fromDhcp: bool): seq<Command> {
    if fromDhcp then [WinsFromDhcp]
    else [SetWins(FirstOf(servers))] + seq(if servers == [] then 0 else |servers| - 1, i requires 0 <= i < |servers| - 1 => AddWins(servers[i + 1]))
  }

  function AddressCommands(addresses: seq<Ipv4Net>, gateways: seq<Ipv4>): seq<Command>
    requires addresses != []
  {
    [SetPrimary(addresses[0], FirstOf(gateways))]
    + seq(|addresses| - 1, i requires 0 <= i < |addresses| - 1 => AddAddress(addresses[i + 1]))
    + seq(if gateways == [] then 0 else |gateways| - 1, i requires 0 <= i < |gateways| - 1 => AddGateway(gateways[i + 1]))
  }

  function StaticCommands(target: Ipv4Config): seq<Command>
    requires target.Static? && target.addresses != []
  {
    AddressCommands(target.addresses, target.gateways) + DnsCommands(target.dns, false) + WinsCommands(target.wins, false)
  }

  function Addresses(nets: seq<Ipv4Net>): seq<Ipv4> {
    seq(|nets|, i requires 0 <= i < |nets| => nets[i].address)
  }

  function DeleteAddresses(addresses: seq<Ipv4>, current: Net): seq<Command> {
    if addresses == [] then []
    else (if current.HasAddress(addresses[0]) then [DeleteAddress(addresses[0])] else []) + DeleteAddresses(addresses[1..], current)
  }

  function DeleteGateways(gateways: seq<Ipv4>, current: Net): seq<Command> {
    if gateways == [] then []
    else (if gateways[0] in current.gateways then [DeleteGateway(gateways[0])] else []) + DeleteGateways(gateways[1..], current)
  }

  // The undo record.

  /** The state captured before an IPv4 change and the targets it may leave behind. */
  datatype NetRestore = NetRestore(
    adapter: nat,
    snapshot: Net,
    dnsFromDhcp: bool,
    winsFromDhcp: bool,
    appliedAddresses: seq<Ipv4>,
    appliedGateways: seq<Ipv4>)

  function NewAddresses(addresses: seq<Ipv4Net>, snapshot: Net): (r: seq<Ipv4>)
    ensures forall a :: a in r <==> (exists n :: n in addresses && n.address == a) && !(exists n :: n in snapshot.manual && n.address == a)
  {
    if addresses == [] then []
    else
      var rest := NewAddresses(addresses[1..], snapshot);
      assert forall n :: n in addresses <==> n == addresses[0] || n in addresses[1..];
      if exists n :: n in snapshot.manual && n.address == addresses[0].address then rest
      else [addresses[0].address] + rest
  }

  function NewGateways(gateways: seq<Ipv4>, snapshot: Net): (r: seq<Ipv4>)
    ensures forall g :: g in r <==> g in gateways && g !in snapshot.gateways
  {
    if gateways == [] then []
    else (if gateways[0] in snapshot.gateways then [] else [gateways[0]]) + NewGateways(gateways[1..], snapshot)
  }

  /** `snapshot` comes from the inventory; the two registry values are read from `registry`. */
  function Capture(adapter: nat, snapshot: Net, registry: Net, target: Ipv4Config): NetRestore {
    NetRestore(adapter, snapshot, !registry.dnsStatic, !registry.winsStatic,
               if target.Static? then NewAddresses(target.addresses, snapshot) else [],
               if target.Static? then NewGateways(target.gateways, snapshot) else [])
  }

  predicate StaticMatches(r: NetRestore, target: Ipv4Config)
    requires target.Static?
  {
    && !r.dnsFromDhcp
    && !r.winsFromDhcp
    && r.snapshot.manual == target.addresses
    && r.snapshot.gateways == target.gateways
    && r.snapshot.dns == target.dns
    && r.snapshot.wins == target.wins
  }

  predicate DhcpUnchanged(r: NetRestore, dnsFromDhcp: bool) {
    && r.snapshot.dhcp && r.snapshot.manual == []
    && !(dnsFromDhcp && !r.dnsFromDhcp)
    && !(dnsFromDhcp && !r.winsFromDhcp)
  }

  // Rollback of one adapter.

  function RepairAddress(r: NetRestore, current: Net): seq<Command> {
    if r.snapshot.manual != [] then
      if current.manual != r.snapshot.manual || current.gateways != r.snapshot.gateways
      then AddressCommands(r.snapshot.manual, r.snapshot.gateways) else []
    else if r.snapshot.dhcp != current.dhcp && r.snapshot.dhcp then [AddressFromDhcp] else []
  }

  function RepairDns(r: NetRestore, current: Net): seq<Command> {
    if !current.dnsStatic != r.dnsFromDhcp || (!r.dnsFromDhcp && current.dns != r.snapshot.dns)
    then DnsCommands(r.snapshot.dns, r.dnsFromDhcp) else []
  }

  function RepairWins(r: NetRestore, current: Net): seq<Command> {
    if !current.winsStatic != r.winsFromDhcp || (!r.winsFromDhcp && current.wins != r.snapshot.wins)
    then WinsCommands(r.snapshot.wins, r.winsFromDhcp) else []
  }

  /** The commands issued first, all chosen from the state read when the rollback starts. */
  function Repair(r: NetRestore, current: Net): seq<Command> {
    RepairAddress(r, current) + RepairDns(r, current) + RepairWins(r, current)
  }

  /** The cleanup commands, chosen from the state read again after the repair. */
  function Cleanup(r: NetRestore, current: Net): seq<Command> {
    DeleteAddresses(r.appliedAddresses, current) + DeleteGateways(r.appliedGateways, current)
  }

  /** The comparison that decides whether the adapter counts as restored. */
  predicate VerifyRestored(r: NetRestore, current: Net) {
    && current.dhcp == r.snapshot.dhcp
    && (if r.snapshot.manual == [] then forall a :: a in r.appliedAddresses ==> !current.HasAddress(a)
        else current.manual == r.snapshot.manual && current.gateways == r.snapshot.gateways)
    && !current.dnsStatic == r.dnsFromDhcp
    && (r.dnsFromDhcp || current.dns == r.snapshot.dns)
    && !current.winsStatic == r.winsFromDhcp
    && (r.winsFromDhcp || current.wins == r.snapshot.wins)
  }

  /** The state after a rollback in which every command succeeds. */
  function Restored(env: Environment, r: NetRestore, net: Net): Net {
    var repaired := RunAll(env, Repair(r, net), net);
    RunAll(env, Cleanup(r, repaired), repaired)
  }

  // Composition of command lists.

  lemma {:induction false} RunAllSum(env: Environment, a: seq<Command>, b: seq<Command>, net: Net)
    ensures RunAll(env, a + b, net) == RunAll(env, b, RunAll(env, a, net))
  {
    if a == [] {
      assert a + b == b;
    } else {
      assert (a + b)[0] == a[0] && (a + b)[1..] == a[1..] + b;
      RunAllSum(env, a[1..], b, Effect(env, a[0], net));
    }
  }

  lemma {:induction false} ServersSplit(v4: seq<Ipv4>, v6: seq<Ipv6>)
    ensures V4s(Servers(v4, v6)) == v4 && V6s(Servers(v4, v6)) == v6
  {
    var s := Servers(v4, v6);
    if v4 != [] {
      assert s[1..] == Servers(v4[1..], v6);
      ServersSplit(v4[1..], v6);
    } else if v6 != [] {
      assert s[1..] == Servers([], v6[1..]);
      ServersSplit([], v6[1..]);
    }
  }

  /** Appending the last element of a server list last. */
  lemma {:induction false} RunDns4(env: Environment, servers: seq<Ipv4>, net: Net)
    ensures RunAll(env, Dns4Commands(servers), net)
         == net.(dns := Servers(servers, V6s(net.dns)), dnsStatic := servers != [])
    decreases |servers|
  {
    if |servers| <= 1 {
      assert Dns4Commands(servers) == [SetDns4(FirstOf(servers))];
      assert AsSeq(FirstOf(servers)) == servers;
      assert RunAll(env, Dns4Commands(servers), net) == RunAll(env, [], Effect(env, SetDns4(FirstOf(servers)), net));
    } else {
      var init, last := servers[..|servers| - 1], servers[|servers| - 1];
      assert Dns4Commands(servers) == Dns4Commands(init) + [AddDns4(last)];
      RunAllSum(env, Dns4Commands(init), [AddDns4(last)], net);
      RunDns4(env, init, net);
      var mid := RunAll(env, Dns4Commands(init), net);
      ServersSplit(init, V6s(net.dns));
      assert init + [last] == servers;
      assert RunAll(env, [AddDns4(last)], mid) == RunAll(env, [], Effect(env, AddDns4(last), mid));
    }
  }

  lemma {:induction false} RunDns6(env: Environment, servers: seq<Ipv6>, net: Net)
    ensures RunAll(env, Dns6Commands(servers), net) == net.(dns := Servers(V4s(net.dns), servers))
    decreases |servers|
  {
    if |servers| <= 1 {
      assert Dns6Commands(servers) == [SetDns6(FirstOf(servers))];
      assert AsSeq(FirstOf(servers)) == servers;
      assert RunAll(env, Dns6Commands(servers), net) == RunAll(env, [], Effect(env, SetDns6(FirstOf(servers)), net));
    } else {
      var init, last := servers[..|servers| - 1], servers[|servers| - 1];
      assert Dns6Commands(servers) == Dns6Commands(init) + [AddDns6(last)];
      RunAllSum(env, Dns6Commands(init), [AddDns6(last)], net);
      RunDns6(env, init, net);
      var mid := RunAll(env, Dns6Commands(init), net);
      ServersSplit(V4s(net.dns), init);
      assert init + [last] == servers;
      assert RunAll(env, [AddDns6(last)], mid) == RunAll(env, [], Effect(env, AddDns6(last), mid));
    }
  }

  /** A static DNS list is written family by family, whatever the list was before. */
  lemma RunDns(env: Environment, servers: seq<IpAddr>, net: Net)
    ensures RunAll(env, DnsCommands(servers, false), net)
         == net.(dns := Servers(V4s(servers), V6s(servers)), dnsStatic := V4s(servers) != [])
  {
    RunAllSum(env, Dns4Commands(V4s(servers)), Dns6Commands(V6s(servers)), net);
    RunDns4(env, V4s(servers), net);
    var mid := RunAll(env, Dns4Commands(V4s(servers)), net);
    ServersSplit(V4s(servers), V6s(net.dns));
    RunDns6(env, V6s(servers), mid);
  }

  lemma {:induction false} RunAddWins(env: Environment, servers: seq<Ipv4>, net: Net)
    ensures RunAll(env, seq(|servers|, i requires 0 <= i < |servers| => AddWins(servers[i])), net)
         == net.(wins := net.wins + servers)
    decreases |servers|
  {
    var commands := seq(|servers|, i requires 0 <= i < |servers| => AddWins(servers[i]));
    if servers == [] {
      assert net.wins + servers == net.wins;
    } else {
      assert commands[1..] == seq(|servers[1..]|, i requires 0 <= i < |servers[1..]| => AddWins(servers[1..][i]));
      RunAddWins(env, servers[1..], Effect(env, commands[0], net));
      assert net.wins + [servers[0]] + servers[1..] == net.wins + servers;
    }
  }

  lemma RunWins(env: Environment, servers: seq<Ipv4>, net: Net)
    ensures RunAll(env, WinsCommands(servers, false), net) == net.(wins := servers, winsStatic := servers != [])
  {
    var first, more := [SetWins(FirstOf(servers))], if servers == [] then [] else servers[1..];
    var adds := seq(|more|, i requires 0 <= i < |more| => AddWins(more[i]));
    assert WinsCommands(servers, false) == first + adds;
    RunAllSum(env, first, adds, net);
    var mid := Effect(env, first[0], net);
    assert RunAll(env, first, net) == RunAll(env, [], mid);
    RunAddWins(env, more, mid);
    assert AsSeq(FirstOf(servers)) + more == servers;
  }

  lemma {:induction false} RunAddGateways(env: Environment, hops: seq<Ipv4>, net: Net)
    ensures RunAll(env, seq(|hops|, i requires 0 <= i < |hops| => AddGateway(hops[i])), net)
         == net.(gateways := net.gateways + hops)
    decreases |hops|
  {
    var commands := seq(|hops|, i requires 0 <= i < |hops| => AddGateway(hops[i]));
    if hops == [] {
      assert net.gateways + hops == net.gateways;
    } else {
      assert commands[1..] == seq(|hops[1..]|, i requires 0 <= i < |hops[1..]| => AddGateway(hops[1..][i]));
      RunAddGateways(env, hops[1..], Effect(env, commands[0], net));
      assert net.gateways + [hops[0]] + hops[1..] == net.gateways + hops;
    }
  }

  lemma {:induction false} RunAddAddresses(env: Environment, nets: seq<Ipv4Net>, net: Net)
    ensures RunAll(env, seq(|nets|, i requires 0 <= i < |nets| => AddAddress(nets[i])), net)
         == net.(manual := net.manual + nets)
    decreases |nets|
  {
    var commands := seq(|nets|, i requires 0 <= i < |nets| => AddAddress(nets[i]));
    if nets == [] {
      assert net.manual + nets == net.manual;
    } else {
      assert commands[1..] == seq(|nets[1..]|, i requires 0 <= i < |nets[1..]| => AddAddress(nets[1..][i]));
      RunAddAddresses(env, nets[1..], Effect(env, commands[0], net));
      assert net.manual + [nets[0]] + nets[1..] == net.manual + nets;
    }
  }

  /** The address commands install exactly the given addresses and gateways, in order. */
  lemma RunAddresses(env: Environment, addresses: seq<Ipv4Net>, gateways: seq<Ipv4>, net: Net)
    requires addresses != []
    ensures RunAll(env, AddressCommands(addresses, gateways), net)
         == net.(dhcp := false, leased := [], manual := addresses, gateways := gateways)
  {
    var primary := [SetPrimary(addresses[0], FirstOf(gateways))];
    var moreHops := if gateways == [] then [] else gateways[1..];
    var adds := seq(|addresses[1..]|, i requires 0 <= i < |addresses[1..]| => AddAddress(addresses[1..][i]));
    var routes := seq(|moreHops|, i requires 0 <= i < |moreHops| => AddGateway(moreHops[i]));
    assert AddressCommands(addresses, gateways) == primary + adds + routes;
    var first := Effect(env, primary[0], net);
    assert RunAll(env, primary, net) == RunAll(env, [], first);
    RunAllSum(env, primary + adds, routes, net);
    RunAllSum(env, primary, adds, net);
    RunAddAddresses(env, addresses[1..], first);
    RunAddGateways(env, moreHops, RunAll(env, adds, first));
    assert [addresses[0]] + addresses[1..] == addresses;
    assert AsSeq(FirstOf(gateways)) + moreHops == gateways;
  }

  // What a static target installs, and when installing it twice changes nothing.

  /** The declared addresses, gateways and servers, and nothing else. */
  function Installed(target: Ipv4Config): Net
    requires target.Static?
  {
    Net(false, target.addresses, [], target.gateways,
        Servers(V4s(target.dns), V6s(target.dns)), V4s(target.dns) != [],
        target.wins, target.wins != [])
  }

  /** A complete static run leaves the adapter with the declared addresses, gateways and servers. */
  lemma StaticInstalled(env: Environment, target: Ipv4Config, net: Net)
    requires target.Static? && target.addresses != []
    ensures RunAll(env, StaticCommands(target), net) == Installed(target)
  {
    var a, d, w := AddressCommands(target.addresses, target.gateways), DnsCommands(target.dns, false), WinsCommands(target.wins, false);
    RunAllSum(env, a + d, w, net);
    RunAllSum(env, a, d, net);
    RunAddresses(env, target.addresses, target.gateways, net);
    RunDns(env, target.dns, RunAll(env, a, net));
    RunWins(env, target.wins, RunAll(env, a + d, net));
  }

  /** Every IPv4 server precedes every IPv6 server. */
  predicate V4First(dns: seq<IpAddr>) {
    dns == Servers(V4s(dns), V6s(dns))
  }

  /** A second static apply is recognised as a no-op exactly under this condition on the target. */
  lemma StaticIdempotentIff(env: Environment, target: Ipv4Config, net: Net, adapter: nat)
    requires target.Static? && target.addresses != []
    ensures var after := RunAll(env, StaticCommands(target), net);
      StaticMatches(Capture(adapter, after, after, target), target)
      <==> V4s(target.dns) != [] && V4First(target.dns) && target.wins != []
  {
    StaticInstalled(env, target, net);
  }

  /**
   The comparison before a static apply does not look at the DHCP flag: an adapter it takes as configured
   is what the apply would install under exactly this condition.
   */
  lemma TakenAsInstalledIff(net: Net, target: Ipv4Config, adapter: nat)
    requires target.Static? && StaticMatches(Capture(adapter, net, net, target), target)
    ensures net == Installed(target)
        <==> !net.dhcp && net.leased == [] && V4s(target.dns) != [] && V4First(target.dns) && target.wins != []
  {
  }

  /** What the comparison before a static apply looks at, and nothing else: neither the DHCP flag nor leases. */
  lemma TakenAsConfiguredIff(net: Net, target: Ipv4Config, adapter: nat)
    requires target.Static?
    ensures StaticMatches(Capture(adapter, net, net, target), target) <==>
      && net.manual == target.addresses && net.gateways == target.gateways
      && net.dnsStatic && net.dns == target.dns && net.winsStatic && net.wins == target.wins
  {
  }

  /** A switch to DHCP is left out when the adapter is on it, holds no manual address and has no server to give up. */
  lemma TakenAsSwitchedIff(net: Net, dnsFromDhcp: bool, adapter: nat)
    ensures DhcpUnchanged(Capture(adapter, net, net, Dhcp(dnsFromDhcp)), dnsFromDhcp) <==>
      net.dhcp && net.manual == [] && (dnsFromDhcp ==> !net.dnsStatic && !net.winsStatic)
  {
  }

  /**
   The comparison after a rollback: the same DHCP flag, the same manual addresses and gateways or, where
   there were none, no address the target brought; and the same servers where they were static.
   */
  lemma ComparedIff(before: Net, target: Ipv4Config, after: Net, adapter: nat)
    requires target.Static?
    ensures VerifyRestored(Capture(adapter, before, before, target), after) <==>
      && after.dhcp == before.dhcp
      && (before.manual != [] ==> after.manual == before.manual && after.gateways == before.gateways)
      && (before.manual == [] ==> forall n :: n in target.addresses ==> !after.HasAddress(n.address))
      && after.dnsStatic == before.dnsStatic && (before.dnsStatic ==> after.dns == before.dns)
      && after.winsStatic == before.winsStatic && (before.winsStatic ==> after.wins == before.wins)
  {
    var applied := NewAddresses(target.addresses, before);
    if before.manual == [] {
      assert forall a :: a in applied <==> exists n :: n in target.addresses && n.address == a;
    }
  }

  // Servers.

  /** The servers of each kind are taken from a list in its order. */
  lemma {:induction false} ServersSum(a: seq<IpAddr>, b: seq<IpAddr>)
    ensures V4s(a + b) == V4s(a) + V4s(b) && V6s(a + b) == V6s(a) + V6s(b)
    decreases |a|
  {
    if a == [] {
      assert a + b == b;
    } else {
      assert (a + b)[0] == a[0] && (a + b)[1..] == a[1..] + b;
      ServersSum(a[1..], b);
    }
  }

  lemma ServersOne(server: IpAddr)
    ensures V4s([server]) == (if server.V4? then [server.v4] else []) && V6s([server]) == (if server.V6? then [server.v6] else [])
  {
    assert [server][1..] == [];
  }
}

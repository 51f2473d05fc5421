/** Switching an adapter to DHCP: where a complete switch ends, and when its rollback is exact. */
module Ipv4Dhcp {
  import opened Std
  import opened Config
  import opened Ipv4Recovery
  import opened Ipv4Restoration
  import opened Ipv4Interruption

  /** The state after the address commands of a switch that began in state `net`. */
  function AddressesDropped(env: Environment, net: Net): Net {
    var asked := if net.dhcp then net else Effect(env, AddressFromDhcp, net);
    if net.manual == [] then asked
    else
      asked.(manual := Unclaimed(asked.manual, Addresses(net.manual)), leased := Unclaimed(asked.leased, Addresses(net.manual)),
             gateways := OtherHops(asked.gateways, net.gateways))
  }

  /** The state a complete switch leaves an adapter in that was in state `net`. */
  function SwitchedToDhcp(env: Environment, net: Net, dnsFromDhcp: bool): Net {
    var dropped := AddressesDropped(env, net);
    dropped.(dns := if dnsFromDhcp && net.dnsStatic then Servers(env.dns, V6s(net.dns)) else net.dns,
             dnsStatic := net.dnsStatic && !dnsFromDhcp,
             wins := if dnsFromDhcp && net.winsStatic then env.wins else net.wins,
             winsStatic := net.winsStatic && !dnsFromDhcp)
  }

  /** The server commands of a switch. */
  function ServerCommands(net: Net, dnsFromDhcp: bool): seq<Command> {
    (if dnsFromDhcp && net.dnsStatic then [DnsFromDhcp] else []) + (if dnsFromDhcp && net.winsStatic then [WinsFromDhcp] else [])
  }

  lemma RunServerCommands(env: Environment, net: Net, mid: Net, dnsFromDhcp: bool)
    requires mid.dns == net.dns && mid.dnsStatic == net.dnsStatic && mid.wins == net.wins && mid.winsStatic == net.winsStatic
    ensures RunAll(env, ServerCommands(net, dnsFromDhcp), mid)
         == mid.(dns := if dnsFromDhcp && net.dnsStatic then Servers(env.dns, V6s(net.dns)) else net.dns,
                 dnsStatic := net.dnsStatic && !dnsFromDhcp,
                 wins := if dnsFromDhcp && net.winsStatic then env.wins else net.wins,
                 winsStatic := net.winsStatic && !dnsFromDhcp)
  {
    var d := if dnsFromDhcp && net.dnsStatic then [DnsFromDhcp] else [];
    var w := if dnsFromDhcp && net.winsStatic then [WinsFromDhcp] else [];
    RunAllSum(env, d, w, mid);
    RunOne(env, DnsFromDhcp, mid);
    RunOne(env, WinsFromDhcp, RunAll(env, d, mid));
  }

  lemma RunOne(env: Environment, command: Command, net: Net)
    ensures RunAll(env, [command], net) == Effect(env, command, net)
  {
    assert RunAll(env, [command], net) == RunAll(env, [], Effect(env, command, net));
  }

  // The rollback of a complete switch.

  /** A switch that has something to do: the record of the adapter is kept. */
  predicate DhcpChanges(net: Net, dnsFromDhcp: bool) {
    !net.dhcp || net.manual != [] || (dnsFromDhcp && (net.dnsStatic || net.winsStatic))
  }

  /**
   The adapter comes back: with manual addresses, if that was all there was; without, if it was on
   DHCP; and static servers that were dropped were written as the commands write them.
   */
  predicate SwitchBack(net: Net, dnsFromDhcp: bool) {
    && (if net.manual != [] then !net.dhcp && net.leased == [] else net.dhcp)
    && (dnsFromDhcp && net.dnsStatic ==> V4s(net.dns) != [] && V4First(net.dns))
    && (dnsFromDhcp && net.winsStatic ==> net.wins != [])
  }

  lemma CapturedManualDropped(env: Environment, net: Net)
    requires net.manual != []
    ensures AddressesDropped(env, net).manual == []
  {
    forall n | n in net.manual
      ensures n.address in Addresses(net.manual)
    {
      var i :| 0 <= i < |net.manual| && net.manual[i] == n;
      assert Addresses(net.manual)[i] == n.address;
    }
    NoneClaimed((if net.dhcp then net else Effect(env, AddressFromDhcp, net)).manual, Addresses(net.manual));
  }

  lemma NothingApplied(n: Net)
    ensures Unclaimed(n.manual, []) == n.manual && Unclaimed(n.leased, []) == n.leased && OtherHops(n.gateways, []) == n.gateways
  {
  }

  lemma SwitchAddressEnding(env: Environment, before: Net, dnsFromDhcp: bool, r: NetRestore)
    requires r == Capture(r.adapter, before, before, Dhcp(dnsFromDhcp))
    ensures var e := Ending(env, r, SwitchedToDhcp(env, before, dnsFromDhcp));
      if before.manual != [] then !e.dhcp && e.manual == before.manual && e.leased == [] && e.gateways == before.gateways
      else e.dhcp && (before.dhcp ==> e.manual == before.manual && e.leased == before.leased && e.gateways == before.gateways)
  {
    var c := SwitchedToDhcp(env, before, dnsFromDhcp);
    NothingApplied(RepairedAddress(env, r, c));
    if before.manual != [] {
      CapturedManualDropped(env, before);
    }
  }

  /** Undoing a complete switch to DHCP brings the adapter back exactly if and only if `SwitchBack` holds. */
  lemma SwitchRestoredIff(env: Environment, before: Net, dnsFromDhcp: bool, adapter: nat)
    ensures Restored(env, Capture(adapter, before, before, Dhcp(dnsFromDhcp)), SwitchedToDhcp(env, before, dnsFromDhcp)) == before
      <==> SwitchBack(before, dnsFromDhcp)
  {
    var r := Capture(adapter, before, before, Dhcp(dnsFromDhcp));
    RestoredIsEnding(env, r, SwitchedToDhcp(env, before, dnsFromDhcp));
    SwitchAddressEnding(env, before, dnsFromDhcp, r);
  }

  /** And it passes the comparison if and only if the same holds, leases apart. */
  lemma SwitchComparedIff(env: Environment, before: Net, dnsFromDhcp: bool, adapter: nat)
    ensures var r := Capture(adapter, before, before, Dhcp(dnsFromDhcp));
      VerifyRestored(r, Restored(env, r, SwitchedToDhcp(env, before, dnsFromDhcp)))
      <==> SwitchBack(before.(leased := []), dnsFromDhcp)
  {
    var r := Capture(adapter, before, before, Dhcp(dnsFromDhcp));
    RestoredIsEnding(env, r, SwitchedToDhcp(env, before, dnsFromDhcp));
    SwitchAddressEnding(env, before, dnsFromDhcp, r);
  }
}

/** What a successful live apply means: every declaration is in effect when it ends. */
module InEffect {
  import opened Std
  import opened Text
  import opened Config
  import opened Selectors
  import opened Ipv4Recovery
  import opened Machine
  import opened Transaction
  import opened Restoration
  import opened AdapterUndo
  import opened RunInvariant
  import opened DriverPhase
  import opened RollbackTheorem
  import opened UndoOrder
  import opened Settlement
  import Validation
  import Plan

  // A declaration in effect.

  /** Identity settings are compared ignoring ASCII case, as Windows does. */
  predicate FieldInEffect(core: Core, identity: Identity, i: nat) {
    && (i == 0 && identity.computerName.Some? ==> SameIgnoringCase(core.computerName, identity.computerName.value))
    && (i == 1 && identity.workgroup.Some? ==>
          core.join.InWorkgroup? && SameIgnoringCase(core.join.workgroup, identity.workgroup.value))
    && (i == 2 && identity.dnsSuffix.Some? ==> SameIgnoringCase(core.dnsSuffix, identity.dnsSuffix.value))
  }

  /** The interface a Wi-Fi declaration is about. */
  function InterfaceOf(hw: Hardware, selector: Option<InterfaceSelector>): Option<nat> {
    var resolved := ResolveWifi(hw.adapters, hw.wifi, selector);
    if resolved.Success? then Some(hw.wifi[resolved.value].guid) else None
  }

  predicate ProfileInEffect(hw: Hardware, core: Core, profile: WifiProfile) {
    var interface := InterfaceOf(hw, profile.selector);
    var name := if profile.name.Some? then profile.name.value else profile.ssid;
    interface.Some? && LookUp(core.profiles, (interface.value, Fold(name))) == Some(Written(profile))
  }

  /** A later action connects or disconnects the same interface. */
  ghost predicate Superseded(config: NetplanConfig, hw: Hardware, i: nat)
    requires i < |config.wifiActions|
  {
    exists j :: i < j < |config.wifiActions| && !config.wifiActions[j].Scan?
      && InterfaceOf(hw, config.wifiActions[j].selector) == InterfaceOf(hw, config.wifiActions[i].selector)
  }

  predicate ActionInEffect(hw: Hardware, core: Core, action: WifiAction) {
    var interface := InterfaceOf(hw, action.selector);
    interface.Some? && LookUp(core.connections, interface.value) == if action.Connect? then Some(Fold(action.profile)) else None
  }

  /** A service to be stopped that was in transition is left in transition. */
  predicate ServiceInEffect(core: Core, service: Service) {
    LookUp(core.services, Fold(service.name)) in
      if service.state == Running then {Some(RunningNow)} else {Some(StoppedNow), Some(Transitional)}
  }

  /** `user` is the user of the first declared account with this identifier. */
  ghost predicate UserOf(accounts: seq<SmbAccount>, reference: string, user: string) {
    exists m :: 0 <= m < |accounts| && FirstWith(accounts, reference, m) && accounts[m].username == user
  }

  predicate FirstWith(accounts: seq<SmbAccount>, reference: string, m: nat)
    requires m < |accounts|
  {
    SameIgnoringCase(accounts[m].id, reference) && forall j :: 0 <= j < m ==> !SameIgnoringCase(accounts[j].id, reference)
  }

  /** A share without accounts is open to everyone; otherwise to the users of its accounts, in order. */
  ghost predicate OpenTo(config: NetplanConfig, share: SmbShare, security: Security) {
    if share.accounts == [] then security == Everyone(share.readOnly)
    else
      && security.Granted? && security.readOnly == share.readOnly && |security.users| == |share.accounts|
      && forall k :: 0 <= k < |share.accounts| ==> UserOf(config.accounts, share.accounts[k], security.users[k])
  }

  ghost predicate ShareInEffect(config: NetplanConfig, core: Core, share: SmbShare) {
    var state := LookUp(core.shares, Fold(share.name));
    && state.Some? && state.value.path == share.path && state.value.remark == share.description
    && OpenTo(config, share, state.value.security)
  }

  predicate MappingInEffect(core: Core, mapping: SmbMapping) {
    if mapping.local.None? then Fold(mapping.remote) in core.remotes
    else Fold(mapping.local.value) in core.drives && SameIgnoringCase(core.drives[Fold(mapping.local.value)], mapping.remote)
  }

  /** The adapter has its override and is on or off as declared. */
  predicate AdapterInEffect(hw: Hardware, core: Core, entry: AdapterConfig) {
    var resolved := ResolveAdapter(hw.adapters, entry.selector);
    && resolved.Success? && resolved.value < |core.enabled| && resolved.value < |core.macs|
    && (entry.mac.Some? ==> core.macs[resolved.value] == Some(CanonicalMac(entry.mac.value)))
    && (entry.enabled.Some? ==> core.enabled[resolved.value] == entry.enabled.value)
  }

  /** Declaration `i` of a phase is in effect; IPv4 targets are treated apart. */
  ghost predicate InEffect(config: NetplanConfig, hw: Hardware, core: Core, phase: nat, i: nat)
    requires phase < Plan.PHASES && i < Plan.Count(config, phase)
  {
    match phase
    case 1 => config.identity.Some? ==> FieldInEffect(core, config.identity.value, i)
    case 2 => AdapterInEffect(hw, core, config.adapters[i])
    case 3 => ProfileInEffect(hw, core, config.wifi[i])
    case 4 => config.wifiActions[i].Scan? || Superseded(config, hw, i) || ActionInEffect(hw, core, config.wifiActions[i])
    case 5 => ServiceInEffect(core, config.services[i])
    case 6 => config.accounts[i].kind == Local ==> Fold(config.accounts[i].username) in core.accounts
    case 7 => ShareInEffect(config, core, config.shares[i])
    case 8 => MappingInEffect(core, config.mappings[i])
    case 9 => config.firewall.Some? ==> core.firewall == Firewall(config.firewall.value, config.firewall.value, config.firewall.value)
    case _ => true
  }

  // Each declaration takes effect, and other declarations leave it in effect.

  lemma ServiceTakesEffect(w: World, i: nat, service: Service)
    ensures var r := ApplyService(w, i, service); r.Ok? ==> ServiceInEffect(r.w.core, service)
  {
  }

  lemma MappingTakesEffect(w: World, i: nat, config: NetplanConfig, mapping: SmbMapping)
    ensures var r := ApplyMapping(w, i, config, mapping); r.Ok? ==> MappingInEffect(r.w.core, mapping)
  {
  }

  lemma {:induction false} FoundIsFirst(accounts: seq<SmbAccount>, reference: string)
    ensures FindAccount(accounts, reference).Some? ==> UserOf(accounts, reference, FindAccount(accounts, reference).value.username)
  {
    if accounts != [] {
      if SameIgnoringCase(accounts[0].id, reference) {
        assert FirstWith(accounts, reference, 0);
      } else {
        FoundIsFirst(accounts[1..], reference);
        var found := FindAccount(accounts[1..], reference);
        if found.Some? {
          var m :| 0 <= m < |accounts| - 1 && FirstWith(accounts[1..], reference, m) && accounts[1..][m].username == found.value.username;
          assert forall j :: 1 <= j < m + 1 ==> accounts[j] == accounts[1..][j - 1];
          assert FirstWith(accounts, reference, m + 1);
        }
      }
    }
  }

  lemma {:induction false} UsersGranted(config: NetplanConfig, references: seq<string>)
    ensures var users := GrantedUsers(config, references);
      users.Some? ==> |users.value| == |references|
                      && forall k :: 0 <= k < |references| ==> UserOf(config.accounts, references[k], users.value[k])
  {
    if references != [] {
      UsersGranted(config, references[1..]);
      FoundIsFirst(config.accounts, references[0]);
      var rest := GrantedUsers(config, references[1..]);
      if rest.Some? {
        assert forall k :: 1 <= k < |references| ==> references[k] == references[1..][k - 1];
      }
    }
  }

  /** Whom a share is opened to. */
  lemma SecurityOpens(config: NetplanConfig, share: SmbShare)
    ensures var security := ShareSecurity(config, share); security.Some? ==> OpenTo(config, share, security.value)
  {
    UsersGranted(config, share.accounts);
  }

  lemma ShareWritten(w: World, i: nat, config: NetplanConfig, share: SmbShare)
    ensures var r, security := ApplyShare(w, i, config, share), ShareSecurity(config, share);
      r.Ok? ==> security.Some?
                && LookUp(r.w.core.shares, Fold(share.name)) == Some(ShareState(share.path, share.description, security.value, 0))
  {
  }

  lemma ShareTakesEffect(w: World, i: nat, config: NetplanConfig, share: SmbShare)
    ensures var r := ApplyShare(w, i, config, share); r.Ok? ==> ShareInEffect(config, r.w.core, share)
  {
    ShareWritten(w, i, config, share);
    SecurityOpens(config, share);
  }

  lemma ActionTakesEffect(w: World, i: nat, action: WifiAction)
    ensures var r := ApplyAction(w, i, action); r.Ok? && !action.Scan? ==> ActionInEffect(w.hw, r.w.core, action)
  {
  }

  lemma ProfileTakesEffect(w: World, i: nat, profile: WifiProfile)
    ensures var r := ApplyProfile(w, i, profile); r.Ok? ==> ProfileInEffect(w.hw, r.w.core, profile)
  {
  }

  lemma IdentityTakesEffect(w: World, config: NetplanConfig, i: nat)
    requires i < 3
    ensures var r := ApplyIdentity(w, config, i); r.Ok? ==> InEffect(config, w.hw, r.w.core, Plan.IDENTITY, i)
  {
  }

  lemma TakesEffect(w: World, config: NetplanConfig, phase: nat, i: nat)
    requires Plan.IDENTITY <= phase < Plan.DRIVERS && phase != Plan.ADAPTERS && i < Plan.Count(config, phase)
    ensures var r := RunItem(w, config, phase, i); r.Ok? ==> InEffect(config, w.hw, r.w.core, phase, i)
  {
    match phase
    case 1 => IdentityTakesEffect(w, config, i);
    case 3 => ProfileTakesEffect(w, i, config.wifi[i]);
    case 4 => ActionTakesEffect(w, i, config.wifiActions[i]);
    case 5 => ServiceTakesEffect(w, i, config.services[i]);
    case 7 => ShareTakesEffect(w, i, config, config.shares[i]);
    case 8 => MappingTakesEffect(w, i, config, config.mappings[i]);
    case _ =>
  }

  /** The fields the declarations of a phase are about are the same. */
  ghost predicate SameFields(phase: nat, a: Core, b: Core) {
    match phase
    case 1 => b.computerName == a.computerName && b.join == a.join && b.dnsSuffix == a.dnsSuffix
    case 2 => b.enabled == a.enabled && b.macs == a.macs
    case 3 => b.profiles == a.profiles
    case 4 => b.connections == a.connections
    case 5 => b.services == a.services
    case 6 => b.accounts == a.accounts
    case 7 => b.shares == a.shares
    case 8 => b.drives == a.drives && b.remotes == a.remotes
    case 9 => b.firewall == a.firewall
    case _ => true
  }

  /** Only the fields of this phase may differ. */
  ghost predicate Touches(phase: nat, a: Core, b: Core) {
    match phase
    case 1 => b == a.(computerName := b.computerName, join := b.join, dnsSuffix := b.dnsSuffix)
    case 2 => b == a.(enabled := b.enabled, macs := b.macs)
    case 3 => b == a.(profiles := b.profiles)
    case 4 => b == a.(connections := b.connections)
    case 5 => b == a.(services := b.services)
    case 6 => b == a.(accounts := b.accounts)
    case 7 => b == a.(shares := b.shares)
    case 8 => b == a.(drives := b.drives, remotes := b.remotes)
    case 9 => b == a.(firewall := b.firewall)
    case _ => b == a
  }

  lemma EarlyTouches(phase: nat, a: Core, b: Core)
    requires phase <= Plan.SERVICES && Touches(phase, a, b)
    ensures forall other: nat :: other != phase ==> SameFields(other, a, b)
  {
  }

  lemma LaterTouches(phase: nat, a: Core, b: Core)
    requires phase > Plan.SERVICES && Touches(phase, a, b)
    ensures forall other: nat :: other != phase ==> SameFields(other, a, b)
  {
  }

  lemma EntryTouches(w: World, i: nat, entry: AdapterConfig, a: nat)
    requires Sized(w) && a < |w.hw.adapters|
    ensures Touches(Plan.ADAPTERS, w.core, ApplyAdapterAt(w, i, entry, a).w.core)
  {
    var r1 := EnableStep(w, i, entry, a);
    if r1.Ok? {
      MacFacts(r1.w, i, entry, a);
      var r2 := MacStep(r1.w, i, entry, a);
      if r2.Ok? {
        Ipv4StepFrame(r2.w, i, entry, a);
      }
    }
  }

  lemma IdentityTouches(w: World, config: NetplanConfig, i: nat)
    ensures var r := ApplyIdentity(w, config, i).w; r.hw == w.hw && Touches(Plan.IDENTITY, w.core, r.core)
  {
  }

  lemma ProfileTouches(w: World, i: nat, profile: WifiProfile)
    ensures var r := ApplyProfile(w, i, profile).w; r.hw == w.hw && Touches(Plan.PROFILES, w.core, r.core)
  {
  }

  lemma ActionTouches(w: World, i: nat, action: WifiAction)
    ensures var r := ApplyAction(w, i, action).w; r.hw == w.hw && Touches(Plan.ACTIONS, w.core, r.core)
  {
  }

  lemma ServiceTouches(w: World, i: nat, service: Service)
    ensures var r := ApplyService(w, i, service).w; r.hw == w.hw && Touches(Plan.SERVICES, w.core, r.core)
  {
    ServiceShape(w, i, service);
  }

  lemma AccountTouches(w: World, i: nat, account: SmbAccount)
    ensures var r := ApplyAccount(w, i, account).w; r.hw == w.hw && Touches(Plan.ACCOUNTS, w.core, r.core)
  {
  }

  lemma MappingTouches(w: World, i: nat, config: NetplanConfig, mapping: SmbMapping)
    ensures var r := ApplyMapping(w, i, config, mapping).w; r.hw == w.hw && Touches(Plan.MAPPINGS, w.core, r.core)
  {
    MappingShape(w, config, i, mapping);
  }

  lemma FirewallTouches(w: World, on: bool)
    ensures var r := ApplyFirewall(w, on).w; r.hw == w.hw && Touches(Plan.FIREWALL, w.core, r.core)
  {
  }

  lemma AdapterTouches(w: World, i: nat, entry: AdapterConfig)
    ensures var r := ApplyAdapter(w, i, entry).w; r.hw == w.hw && Touches(Plan.ADAPTERS, w.core, r.core)
  {
    var resolved := ResolveAdapter(w.hw.adapters, entry.selector);
    if resolved.Success? && Sized(w) {
      EntryTouches(w, i, entry, resolved.value);
    }
  }

  lemma ItemTouches(w: World, config: NetplanConfig, phase: nat, i: nat)
    requires Plan.IDENTITY <= phase < Plan.DRIVERS && i < Plan.Count(config, phase)
    ensures var r := RunItem(w, config, phase, i).w; r.hw == w.hw && Touches(phase, w.core, r.core)
  {
    match phase
    case 1 => IdentityTouches(w, config, i);
    case 2 => AdapterTouches(w, i, config.adapters[i]);
    case 3 => ProfileTouches(w, i, config.wifi[i]);
    case 4 => ActionTouches(w, i, config.wifiActions[i]);
    case 5 => ServiceTouches(w, i, config.services[i]);
    case 6 => AccountTouches(w, i, config.accounts[i]);
    case 7 => ShareShape(w, i, config, config.shares[i]);
    case 8 => MappingTouches(w, i, config, config.mappings[i]);
    case 9 =>
      if config.firewall.Some? {
        FirewallTouches(w, config.firewall.value);
      }
  }

  lemma SameFieldsKeep(config: NetplanConfig, hw: Hardware, a: Core, b: Core, phase: nat, i: nat)
    requires phase < Plan.PHASES && i < Plan.Count(config, phase) && SameFields(phase, a, b)
    ensures InEffect(config, hw, a, phase, i) ==> InEffect(config, hw, b, phase, i)
  {
  }

  lemma LaterFieldKeeps(w: World, config: NetplanConfig, i: nat, j: nat)
    requires i < j < 3 && InEffect(config, w.hw, w.core, Plan.IDENTITY, i)
    ensures InEffect(config, w.hw, ApplyIdentity(w, config, j).w.core, Plan.IDENTITY, i)
  {
  }

  lemma LaterProfileKeeps(w: World, i: nat, earlier: WifiProfile, later: WifiProfile)
    requires ProfileInEffect(w.hw, w.core, earlier) && !SameIgnoringCase(earlier.ProfileName(), later.ProfileName())
    ensures ProfileInEffect(w.hw, ApplyProfile(w, i, later).w.core, earlier)
  {
  }

  lemma LaterActionKeeps(w: World, i: nat, earlier: WifiAction, later: WifiAction)
    requires ActionInEffect(w.hw, w.core, earlier)
    requires later.Scan? || InterfaceOf(w.hw, later.selector) != InterfaceOf(w.hw, earlier.selector)
    ensures ActionInEffect(w.hw, ApplyAction(w, i, later).w.core, earlier)
  {
    var interface := InterfaceOf(w.hw, later.selector);
    if interface.Some? {
      var w3 := Push(Tick(Attempt(w, Plan.WifiRun(i, Plan.KindOf(later)))), UndoConnection(interface.value, LookUp(w.core.connections, interface.value)));
      ConnectionElsewhere(w3, interface.value, if later.Connect? then Fold(later.profile) else "");
    }
  }

  lemma ConnectionElsewhere(w: World, interface: nat, name: string)
    ensures forall g :: g != interface ==>
      && LookUp(Machine.Connect(w, interface, name).w.core.connections, g) == LookUp(w.core.connections, g)
      && LookUp(Machine.Disconnect(w, interface).w.core.connections, g) == LookUp(w.core.connections, g)
  {
  }

  lemma LaterServiceKeeps(w: World, i: nat, earlier: Service, later: Service)
    requires ServiceInEffect(w.core, earlier) && !SameIgnoringCase(earlier.name, later.name)
    ensures ServiceInEffect(ApplyService(w, i, later).w.core, earlier)
  {
  }

  lemma LaterShareKeeps(w: World, i: nat, config: NetplanConfig, earlier: SmbShare, later: SmbShare)
    requires ShareInEffect(config, w.core, earlier) && !SameIgnoringCase(earlier.name, later.name)
    ensures ShareInEffect(config, ApplyShare(w, i, config, later).w.core, earlier)
  {
    ShareShape(w, i, config, later);
    LookUpMinus(ApplyShare(w, i, config, later).w.core.shares, w.core.shares, Fold(later.name));
  }

  lemma LaterMappingKeeps(w: World, i: nat, config: NetplanConfig, earlier: SmbMapping, later: SmbMapping)
    requires MappingInEffect(w.core, earlier)
    ensures MappingInEffect(ApplyMapping(w, i, config, later).w.core, earlier)
  {
  }

  /** The later declarations of its own phase. */
  lemma LaterItemKeeps(w: World, config: NetplanConfig, phase: nat, i: nat, j: nat)
    requires Plan.IDENTITY <= phase < Plan.DRIVERS && phase != Plan.ADAPTERS && i < j < Plan.Count(config, phase) && Validation.NamesDistinct(config)
    requires InEffect(config, w.hw, w.core, phase, i)
    ensures InEffect(config, w.hw, RunItem(w, config, phase, j).w.core, phase, i)
  {
    match phase
    case 1 => LaterFieldKeeps(w, config, i, j);
    case 3 => LaterProfileKeeps(w, j, config.wifi[i], config.wifi[j]);
    case 4 =>
      if !config.wifiActions[i].Scan? && !Superseded(config, w.hw, i) {
        LaterActionKeeps(w, j, config.wifiActions[i], config.wifiActions[j]);
      }
    case 5 => LaterServiceKeeps(w, j, config.services[i], config.services[j]);
    case 7 => LaterShareKeeps(w, j, config, config.shares[i], config.shares[j]);
    case 8 => LaterMappingKeeps(w, j, config, config.mappings[i], config.mappings[j]);
    case _ =>
  }

  // Adapter entries.

  lemma MacTakesEffect(w: World, i: nat, entry: AdapterConfig, a: nat)
    requires Sized(w) && a < |w.hw.adapters|
    ensures var r := MacStep(w, i, entry, a);
      r.Ok? && entry.mac.Some? ==> a < |r.w.core.macs| && r.w.core.macs[a] == Some(CanonicalMac(entry.mac.value))
  {
  }

  lemma EntryTakesEffect(w: World, i: nat, entry: AdapterConfig, a: nat)
    requires Sized(w) && a < |w.hw.adapters| && w.core.enabled[a] == w.inventory.enabled[a]
    requires ResolveAdapter(w.hw.adapters, entry.selector) == Success(a)
    ensures var r := ApplyAdapterAt(w, i, entry, a); r.Ok? ==> AdapterInEffect(w.hw, r.w.core, entry)
  {
    EnableShape(w, i, entry, a);
    var r1 := EnableStep(w, i, entry, a);
    if r1.Ok? {
      MacShape(r1.w, i, entry, a);
      MacTakesEffect(r1.w, i, entry, a);
      var r2 := MacStep(r1.w, i, entry, a);
      if r2.Ok? {
        Ipv4StepFrame(r2.w, i, entry, a);
      }
    }
  }

  /** An entry leaves the switch and the override of other adapters alone. */
  lemma OtherAdapterKept(w: World, i: nat, entry: AdapterConfig, a: nat, b: nat)
    requires Sized(w) && a < |w.hw.adapters| && b < |w.hw.adapters| && b != a
    ensures var r := ApplyAdapterAt(w, i, entry, a).w;
      Sized(r) && r.hw == w.hw && r.core.enabled[b] == w.core.enabled[b] && r.core.macs[b] == w.core.macs[b]
  {
    var r1 := EnableStep(w, i, entry, a);
    if r1.Ok? {
      MacFacts(r1.w, i, entry, a);
      var r2 := MacStep(r1.w, i, entry, a);
      if r2.Ok? {
        Ipv4StepFrame(r2.w, i, entry, a);
      }
    }
  }

  ghost predicate EntriesInEffect(config: NetplanConfig, w: World, n: nat) {
    n <= |config.adapters| && forall j :: 0 <= j < n ==> AdapterInEffect(w.hw, w.core, config.adapters[j])
  }

  lemma NextEntry(config: NetplanConfig, origin: Core, nets0: seq<Net>, w: World, i: nat)
    requires AtEntry(config, origin, nets0, w, i) && i < |config.adapters|
    ensures var r := ApplyAdapter(w, i, config.adapters[i]); r.Ok? ==> AtEntry(config, origin, nets0, r.w, i + 1)
  {
    AdapterItemKeeps(config, origin, nets0, w, i);
    AdapterArranged(config, origin, nets0, w, i);
  }

  lemma EarlierEntryKept(config: NetplanConfig, w: World, i: nat, j: nat)
    requires Protected(config, w.hw.adapters, w.hw.wifi) && Sized(w) && j < i < |config.adapters|
    requires AdapterInEffect(w.hw, w.core, config.adapters[j])
    ensures var r := ApplyAdapter(w, i, config.adapters[i]).w; AdapterInEffect(r.hw, r.core, config.adapters[j])
  {
    EntriesOnDistinctAdapters(config, w.hw.adapters, w.hw.wifi, j, i);
    var b := ResolveAdapter(w.hw.adapters, config.adapters[j].selector).value;
    var a := ResolveAdapter(w.hw.adapters, config.adapters[i].selector).value;
    OtherAdapterKept(w, i, config.adapters[i], a, b);
  }

  lemma EntryAddsEffect(config: NetplanConfig, origin: Core, nets0: seq<Net>, w: World, i: nat)
    requires AtEntry(config, origin, nets0, w, i) && i < |config.adapters| && EntriesInEffect(config, w, i)
    ensures var r := ApplyAdapter(w, i, config.adapters[i]);
      r.Ok? ==> EntriesInEffect(config, r.w, i + 1)
  {
    EntryIsFresh(config, origin, nets0, w, i);
    var entry, a := config.adapters[i], ResolveAdapter(w.hw.adapters, config.adapters[i].selector).value;
    EntryTakesEffect(w, i, entry, a);
    var r := ApplyAdapter(w, i, entry);
    assert r.w.hw == w.hw;
    forall j | 0 <= j < i
      ensures AdapterInEffect(r.w.hw, r.w.core, config.adapters[j])
    {
      EarlierEntryKept(config, w, i, j);
    }
  }

  lemma EntryAdvances(config: NetplanConfig, origin: Core, nets0: seq<Net>, w: World, i: nat)
    requires AtEntry(config, origin, nets0, w, i) && i < |config.adapters| && EntriesInEffect(config, w, i)
    ensures var r := ApplyAdapter(w, i, config.adapters[i]);
      r.Ok? ==> AtEntry(config, origin, nets0, r.w, i + 1) && EntriesInEffect(config, r.w, i + 1)
  {
    NextEntry(config, origin, nets0, w, i);
    EntryAddsEffect(config, origin, nets0, w, i);
  }

  lemma EntryItemAdvances(config: NetplanConfig, origin: Core, nets0: seq<Net>, w: World, i: nat)
    requires AtEntry(config, origin, nets0, w, i) && i < |config.adapters| && EntriesInEffect(config, w, i)
    ensures var r := RunItem(w, config, Plan.ADAPTERS, i);
      r.w.hw == w.hw && (r.Ok? ==> AtEntry(config, origin, nets0, r.w, i + 1) && EntriesInEffect(config, r.w, i + 1))
  {
    EntryAdvances(config, origin, nets0, w, i);
    AdapterItem(w, config, i);
    AdapterItemKeeps(config, origin, nets0, w, i);
  }

  lemma EntriesTakeEffect(config: NetplanConfig, origin: Core, nets0: seq<Net>, w: World)
    requires AtEntry(config, origin, nets0, w, 0)
    ensures var r := RunPhase(w, config, Plan.ADAPTERS, 0); r.Ok? ==> EntriesInEffect(config, r.w, |config.adapters|)
  {
    var inv := (v: World, j: nat) => AtEntry(config, origin, nets0, v, j) && EntriesInEffect(config, v, j);
    var halt := (v: World) => true;
    forall v: World, j: nat | v.hw == w.hw && j < Plan.Count(config, Plan.ADAPTERS) && inv(v, j)
      ensures ItemStep(inv, halt, config, Plan.ADAPTERS, v, j)
    {
      EntryItemAdvances(config, origin, nets0, v, j);
    }
    PhaseInduction(inv, halt, w.hw, config, Plan.ADAPTERS, w, 0);
  }

  // Whole phases.

  lemma ItemOfOtherPhaseKeeps(w: World, config: NetplanConfig, phase: nat, i: nat, other: nat, j: nat)
    requires phase < Plan.PHASES && i < Plan.Count(config, phase)
    requires Plan.IDENTITY <= other < Plan.DRIVERS && other != phase && j < Plan.Count(config, other)
    requires InEffect(config, w.hw, w.core, phase, i)
    ensures var r := RunItem(w, config, other, j).w; r.hw == w.hw && InEffect(config, w.hw, r.core, phase, i)
  {
    var r := RunItem(w, config, other, j).w;
    ItemTouches(w, config, other, j);
    if other <= Plan.SERVICES {
      EarlyTouches(other, w.core, r.core);
    } else {
      LaterTouches(other, w.core, r.core);
    }
    SameFieldsKeep(config, w.hw, w.core, r.core, phase, i);
  }

  lemma {:induction false} OtherPhaseKeeps(w: World, config: NetplanConfig, phase: nat, i: nat, other: nat, j: nat)
    requires phase < Plan.PHASES && i < Plan.Count(config, phase)
    requires Plan.IDENTITY <= other < Plan.DRIVERS && other != phase && j <= Plan.Count(config, other)
    requires InEffect(config, w.hw, w.core, phase, i)
    ensures var r := RunPhase(w, config, other, j).w; r.hw == w.hw && InEffect(config, w.hw, r.core, phase, i)
    decreases Plan.Count(config, other) - j
  {
    if j < Plan.Count(config, other) {
      ItemOfOtherPhaseKeeps(w, config, phase, i, other, j);
      var r := RunItem(w, config, other, j);
      if r.Ok? {
        OtherPhaseKeeps(r.w, config, phase, i, other, j + 1);
      }
    }
  }

  lemma {:induction false} RestOfPhaseKeeps(w: World, config: NetplanConfig, phase: nat, i: nat, j: nat)
    requires Plan.IDENTITY <= phase < Plan.DRIVERS && phase != Plan.ADAPTERS && i < j <= Plan.Count(config, phase)
    requires Validation.NamesDistinct(config) && InEffect(config, w.hw, w.core, phase, i)
    ensures var r := RunPhase(w, config, phase, j).w; r.hw == w.hw && InEffect(config, w.hw, r.core, phase, i)
    decreases Plan.Count(config, phase) - j
  {
    if j < Plan.Count(config, phase) {
      ItemTouches(w, config, phase, j);
      LaterItemKeeps(w, config, phase, i, j);
      var r := RunItem(w, config, phase, j);
      if r.Ok? {
        RestOfPhaseKeeps(r.w, config, phase, i, j + 1);
      }
    }
  }

  lemma {:induction false} PhaseTakesEffect(w: World, config: NetplanConfig, phase: nat, i: nat, j: nat)
    requires Plan.IDENTITY <= phase < Plan.DRIVERS && phase != Plan.ADAPTERS && j <= i < Plan.Count(config, phase)
    requires Validation.NamesDistinct(config)
    ensures var r := RunPhase(w, config, phase, j); r.w.hw == w.hw && (r.Ok? ==> InEffect(config, w.hw, r.w.core, phase, i))
    decreases i - j
  {
    ItemTouches(w, config, phase, j);
    var r := RunItem(w, config, phase, j);
    if r.Ok? {
      if j == i {
        TakesEffect(w, config, phase, i);
        RestOfPhaseKeeps(r.w, config, phase, i, j + 1);
      } else {
        PhaseTakesEffect(r.w, config, phase, i, j + 1);
      }
    }
  }

  lemma {:induction false} LaterPhasesKeep(w: World, config: NetplanConfig, phase: nat, i: nat, from: nat)
    requires phase < from <= Plan.DRIVERS && Plan.IDENTITY <= phase && i < Plan.Count(config, phase)
    requires InEffect(config, w.hw, w.core, phase, i)
    ensures var r := RunPhases(w, config, from, Plan.DRIVERS).w; r.hw == w.hw && InEffect(config, w.hw, r.core, phase, i)
    decreases Plan.DRIVERS - from
  {
    if from < Plan.DRIVERS {
      var r1 := Enter(w, config, from);
      assert r1.w.core == w.core && r1.w.hw == w.hw;
      if r1.Ok? {
        OtherPhaseKeeps(r1.w, config, phase, i, from, 0);
        var r2 := RunPhase(r1.w, config, from, 0);
        if r2.Ok? {
          LaterPhasesKeep(r2.w, config, phase, i, from + 1);
        }
      }
    }
  }

  lemma {:induction false} PhaseHardware(w: World, config: NetplanConfig, phase: nat, i: nat)
    requires Plan.IDENTITY <= phase < Plan.DRIVERS && i <= Plan.Count(config, phase)
    ensures RunPhase(w, config, phase, i).w.hw == w.hw
    decreases Plan.Count(config, phase) - i
  {
    if i < Plan.Count(config, phase) {
      ItemTouches(w, config, phase, i);
      var r := RunItem(w, config, phase, i);
      if r.Ok? {
        PhaseHardware(r.w, config, phase, i + 1);
      }
    }
  }

  /** Every declaration of the phases from `from` on but the adapters'. */
  lemma {:induction false} PhasesTakeEffect(w: World, config: NetplanConfig, phase: nat, i: nat, from: nat)
    requires Plan.IDENTITY <= from <= phase < Plan.DRIVERS && phase != Plan.ADAPTERS && i < Plan.Count(config, phase)
    requires Validation.NamesDistinct(config)
    ensures var r := RunPhases(w, config, from, Plan.DRIVERS);
      r.Ok? ==> r.w.hw == w.hw && InEffect(config, w.hw, r.w.core, phase, i)
    decreases phase - from
  {
    var r1 := Enter(w, config, from);
    assert r1.w.core == w.core && r1.w.hw == w.hw;
    if r1.Ok? {
      PhaseHardware(r1.w, config, from, 0);
      var r2 := RunPhase(r1.w, config, from, 0);
      if r2.Ok? {
        if from == phase {
          PhaseTakesEffect(r1.w, config, phase, i, 0);
          LaterPhasesKeep(r2.w, config, phase, i, from + 1);
        } else {
          PhasesTakeEffect(r2.w, config, phase, i, from + 1);
        }
      }
    }
  }
}

/** The whole of a run that reports success. */
module Success {
  import opened Std
  import opened Text
  import opened Config
  import opened Model
  import opened Selectors
  import opened Ipv4Recovery
  import opened Machine
  import opened Transaction
  import opened Restoration
  import opened AdapterUndo
  import opened DriverPhase
  import opened RunInvariant
  import opened RollbackTheorem
  import opened UndoOrder
  import opened Settlement
  import opened SafeStart
  import opened ExactRollback
  import opened InEffect
  import Validation
  import Plan

  // Until driver operations.

  /** The adapter phase and the ones before it. */
  lemma AdaptersTakeEffect(w: World, config: NetplanConfig, i: nat)
    requires Ready(w) && SharesDistinct(config) && Protected(config, w.hw.adapters, w.hw.wifi) && i < |config.adapters|
    ensures var b := RunPhases(w, config, Plan.BEFORE_HOOKS, Plan.IDENTITY).w;
      var r := RunPhases(b, config, Plan.IDENTITY, Plan.DRIVERS);
      r.Ok? ==> InEffect.InEffect(config, w.hw, r.w.core, Plan.ADAPTERS, i)
  {
    AdapterPhaseBegins(w, config);
    var b := RunPhases(w, config, Plan.BEFORE_HOOKS, Plan.IDENTITY).w;
    var first := RunPhases(b, config, Plan.IDENTITY, Plan.ADAPTERS);
    RunPhasesSplit(b, config, Plan.IDENTITY, Plan.ADAPTERS, Plan.DRIVERS);
    if first.Ok? {
      EnterKeeps(config, w.core, w.nets, first.w, Plan.ADAPTERS);
      EnterArranged(config, w.core, first.w, Plan.ADAPTERS);
      AdapterPhaseUnfold(first.w, config);
      var entered := Enter(first.w, config, Plan.ADAPTERS);
      if entered.Ok? {
        EntriesTakeEffect(config, w.core, w.nets, entered.w);
        PhaseHardware(entered.w, config, Plan.ADAPTERS, 0);
        var r := RunPhase(entered.w, config, Plan.ADAPTERS, 0);
        if r.Ok? {
          LaterPhasesKeep(r.w, config, Plan.ADAPTERS, i, Plan.PROFILES);
        }
      }
    }
  }

  lemma ReversibleInEffect(w: World, config: NetplanConfig, phase: nat, i: nat)
    requires Ready(w) && SharesDistinct(config) && Protected(config, w.hw.adapters, w.hw.wifi) && Validation.NamesDistinct(config)
    requires Plan.IDENTITY <= phase < Plan.DRIVERS && i < Plan.Count(config, phase)
    ensures var b := RunPhases(w, config, Plan.BEFORE_HOOKS, Plan.IDENTITY).w;
      var r := RunPhases(b, config, Plan.IDENTITY, Plan.DRIVERS);
      r.Ok? ==> InEffect.InEffect(config, w.hw, r.w.core, phase, i)
  {
    if phase == Plan.ADAPTERS {
      AdaptersTakeEffect(w, config, i);
    } else {
      StageQuiet(w, config, Plan.BEFORE_HOOKS);
      PhasesTakeEffect(RunPhases(w, config, Plan.BEFORE_HOOKS, Plan.IDENTITY).w, config, phase, i, Plan.IDENTITY);
    }
  }

  /** A service to be stopped ends in transition if and only if it began so. */
  lemma TransitionKept(config: NetplanConfig, origin: Core, v: World, i: nat)
    requires Steady(config, origin, v) && Validation.NamesDistinct(config) && i < |config.services| && config.services[i].state == Stopped
    ensures var n := Fold(config.services[i].name);
      LookUp(v.core.services, n) == Some(Transitional) <==> LookUp(origin.services, n) == Some(Transitional)
  {
  }

  // Driver operations.

  /** The driver operations of a successful run leave the adapters they restart on. */
  lemma {:induction false} RestartsEndOn(w: World, config: NetplanConfig, i: nat, a: nat)
    requires i <= |config.drivers| && RunPhase(w, config, Plan.DRIVERS, i).Ok?
    ensures LastLeft(w, config, i, a) != Some(false)
    decreases |config.drivers| - i
  {
    if i < |config.drivers| {
      DriversUnfold(w, config, i);
      var r := ApplyDriver(w, i, config.drivers[i]);
      assert Restarts(w, config.drivers[i], a) ==> RestartLeaves(Tick(w)) == Some(true);
      RestartsEndOn(r.w, config, i + 1, a);
    }
  }

  // The theorem.

  /** The service is as declared, or still in transition if it was to be stopped and began in transition. */
  predicate ServiceEnds(origin: Core, core: Core, service: Service) {
    var n := Fold(service.name);
    LookUp(core.services, n) == Some(
      if service.state == Running then RunningNow
      else if LookUp(origin.services, n) == Some(Transitional) then Transitional
      else StoppedNow)
  }

  /** The adapter has its override, and is on or off as declared unless a driver operation restarted it. */
  ghost predicate AdapterEnds(w: World, config: NetplanConfig, core: Core, i: nat)
    requires i < |config.adapters|
  {
    var entry, resolved := config.adapters[i], ResolveAdapter(w.hw.adapters, config.adapters[i].selector);
    && resolved.Success? && resolved.value < |core.enabled| && resolved.value < |core.macs|
    && (entry.mac.Some? ==> core.macs[resolved.value] == Some(CanonicalMac(entry.mac.value)))
    && (entry.enabled.Some? ==>
          core.enabled[resolved.value] == (entry.enabled.value || LeftByDrivers(w, config, resolved.value).Some?))
  }

  lemma SuccessReachesDrivers(w: World, config: NetplanConfig)
    requires Apply(w, config).1.ok
    ensures DriversReached(w, config) && Apply(w, config).0 == FailedAt(w, config)
    ensures var b := RunPhases(w, config, Plan.BEFORE_HOOKS, Plan.IDENTITY).w;
      var r := RunPhases(b, config, Plan.IDENTITY, Plan.DRIVERS);
      r.Ok? && r.w == ReversibleEnd(w, config) && RunPhases(r.w, config, Plan.DRIVERS, Plan.ROLLBACK_HOOKS).Ok?
  {
  }

  lemma AdapterSucceeded(w: World, config: NetplanConfig, i: nat)
    requires Ready(w) && SharesDistinct(config) && Protected(config, w.hw.adapters, w.hw.wifi) && Apply(w, config).1.ok
    requires i < |config.adapters|
    ensures AdapterEnds(w, config, Apply(w, config).0.core, i)
  {
    SuccessReachesDrivers(w, config);
    AdaptersTakeEffect(w, config, i);
    var v := ReversibleEnd(w, config);
    ReversibleKeeps(w, config);
    LatePhasesSwitchOnly(v, config);
    var a := ResolveAdapter(w.hw.adapters, config.adapters[i].selector).value;
    SwitchAfterDrivers(w, config, a);
    RestartsEndOn(v, config, 0, a);
  }

  lemma ReversibleSteady(w: World, config: NetplanConfig)
    requires Ready(w) && SharesDistinct(config) && Protected(config, w.hw.adapters, w.hw.wifi) && DriversReached(w, config)
    ensures Steady(config, w.core, ReversibleEnd(w, config))
  {
    StageQuiet(w, config, Plan.BEFORE_HOOKS);
    var b := RunPhases(w, config, Plan.BEFORE_HOOKS, Plan.IDENTITY).w;
    ReadyIsBefore(config, b);
    PhasesKeep(config, b.core, b.nets, b, Plan.IDENTITY, Plan.DRIVERS);
  }

  lemma ServiceSucceeded(w: World, config: NetplanConfig, i: nat)
    requires Ready(w) && SharesDistinct(config) && Protected(config, w.hw.adapters, w.hw.wifi) && Validation.NamesDistinct(config)
    requires Apply(w, config).1.ok && i < |config.services|
    ensures ServiceEnds(w.core, Apply(w, config).0.core, config.services[i])
  {
    var v := ReversibleEnd(w, config);
    SuccessReachesDrivers(w, config);
    ReversibleInEffect(w, config, Plan.SERVICES, i);
    ReversibleSteady(w, config);
    LatePhasesSwitchOnly(v, config);
    if config.services[i].state == Stopped {
      TransitionKept(config, w.core, v, i);
    }
  }

  /**
   A run that reports success has every declaration in effect: identity, Wi-Fi profiles, the last
   action of each interface, accounts, shares, mappings and firewall without exception; services but
   those to be stopped that began in transition; adapters but those a driver operation restarted.
   */
  lemma SuccessMeans(w: World, config: NetplanConfig)
    requires Ready(w) && SharesDistinct(config) && Protected(config, w.hw.adapters, w.hw.wifi) && Validation.NamesDistinct(config)
    requires Apply(w, config).1.ok
    ensures var core := Apply(w, config).0.core;
      && (forall phase: nat, i: nat :: Plan.IDENTITY <= phase < Plan.DRIVERS && phase != Plan.ADAPTERS && i < Plan.Count(config, phase) ==>
            InEffect.InEffect(config, w.hw, core, phase, i))
      && (forall i :: 0 <= i < |config.services| ==> ServiceEnds(w.core, core, config.services[i]))
      && (forall i: nat :: i < |config.adapters| ==> AdapterEnds(w, config, core, i))
  {
    SuccessReachesDrivers(w, config);
    var v, core := ReversibleEnd(w, config), Apply(w, config).0.core;
    LatePhasesSwitchOnly(v, config);
    forall phase: nat, i: nat | Plan.IDENTITY <= phase < Plan.DRIVERS && phase != Plan.ADAPTERS && i < Plan.Count(config, phase)
      ensures InEffect.InEffect(config, w.hw, core, phase, i)
    {
      ReversibleInEffect(w, config, phase, i);
      SameFieldsKeep(config, w.hw, v.core, core, phase, i);
    }
    forall i | 0 <= i < |config.services|
      ensures ServiceEnds(w.core, core, config.services[i])
    {
      ServiceSucceeded(w, config, i);
    }
    forall i: nat | i < |config.adapters|
      ensures AdapterEnds(w, config, core, i)
    {
      AdapterSucceeded(w, config, i);
    }
  }

  /**
   In a well-formed document the users a share is opened to are those of the accounts it lists, each
   found by its identifier, and a share that lists none is open to everyone, read-only as declared.
   */
  lemma SharesOpened(w: World, config: NetplanConfig, i: nat)
    requires Ready(w) && SharesDistinct(config) && Protected(config, w.hw.adapters, w.hw.wifi) && Validation.WellFormed(config)
    requires Apply(w, config).1.ok && i < |config.shares|
    ensures var share, shares := config.shares[i], Apply(w, config).0.core.shares;
      && Fold(share.name) in shares
      && var security := shares[Fold(share.name)].security;
         if share.accounts == [] then security == Everyone(share.readOnly)
         else
           && security.Granted? && security.readOnly == share.readOnly && |security.users| == |share.accounts|
           && forall k, a :: 0 <= k < |share.accounts| && a in config.accounts && SameIgnoringCase(a.id, share.accounts[k]) ==>
                security.users[k] == a.username
  {
    SuccessMeans(w, config);
    var share, core := config.shares[i], Apply(w, config).0.core;
    assert InEffect.InEffect(config, w.hw, core, Plan.SHARES, i);
    assert ShareInEffect(config, core, share);
    var security := core.shares[Fold(share.name)].security;
    forall k, a | share.accounts != [] && 0 <= k < |share.accounts| && a in config.accounts && SameIgnoringCase(a.id, share.accounts[k])
      ensures security.users[k] == a.username
    {
      OnlyUser(config, share.accounts[k], security.users[k], a);
    }
  }

  /** With distinct identifiers there is one account to choose. */
  lemma OnlyUser(config: NetplanConfig, reference: string, user: string, account: SmbAccount)
    requires Validation.AccountIdsDistinct(config) && UserOf(config.accounts, reference, user)
    requires account in config.accounts && SameIgnoringCase(account.id, reference)
    ensures user == account.username
  {
    var m :| 0 <= m < |config.accounts| && FirstWith(config.accounts, reference, m) && config.accounts[m].username == user;
    var n :| 0 <= n < |config.accounts| && config.accounts[n] == account;
    if m != n {
      assert SameIgnoringCase(config.accounts[m].id, config.accounts[n].id);
    }
  }

  /**
   And every declared IPv4 target of an adapter that no driver operation switched: a static one is
   installed unless the adapter was on it already or is switched off at the end, one that was there
   already is left as it was unless the adapter is switched, and a switch to DHCP is complete.
   */
  lemma TargetsSucceeded(w: World, config: NetplanConfig, i: nat, a: nat)
    requires Ready(w) && SharesDistinct(config) && Protected(config, w.hw.adapters, w.hw.wifi)
    requires Apply(w, config).1.ok && Targets(w, config, i, a) && LeftByDrivers(w, config, a).None?
    ensures var final := Apply(w, config).0;
      |final.nets| == |w.nets| && SettledAt(config.adapters[i], w.core.enabled[a], w.nets[a], final, a)
  {
    SuccessReachesDrivers(w, config);
    ReversibleSettled(w, config);
    EndOfAdapter(w, config, i, a);
  }
}

/** How long the plan is: the declarations that need an operation, counted. */
module PlanLength {
  import opened Std
  import opened Config
  import opened Plan

  function HowMany<T>(items: seq<T>, p: T -> bool): nat {
    if items == [] then 0 else OneIf(p(items[0])) + HowMany(items[1..], p)
  }

  function OneIf(b: bool): nat {
    if b then 1 else 0
  }

  function FieldsSet(identity: Option<Identity>): nat {
    match identity
    case None => 0
    case Some(i) => OneIf(i.computerName.Some?) + OneIf(i.workgroup.Some?) + OneIf(i.dnsSuffix.Some?)
  }

  function AtStage(stage: HookStage): Hook -> bool {
    (h: Hook) => h.stage == stage
  }

  predicate SetsSwitch(a: AdapterConfig) {
    a.enabled.Some?
  }

  predicate SetsMac(a: AdapterConfig) {
    a.mac.Some?
  }

  predicate SetsIpv4(a: AdapterConfig) {
    a.ipv4.Some?
  }

  predicate IsLocal(a: SmbAccount) {
    a.kind == Local
  }

  /** The phases each of whose declarations is one operation. */
  lemma {:induction false} OnePerItem(config: NetplanConfig, phase: nat, i: nat)
    requires phase in {PROFILES, ACTIONS, SERVICES, SHARES, MAPPINGS, DRIVERS} && i <= Count(config, phase)
    ensures |PhaseFrom(config, phase, i)| == Count(config, phase) - i
    decreases Count(config, phase) - i
  {
    if i < Count(config, phase) {
      OnePerItem(config, phase, i + 1);
    }
  }

  lemma {:induction false} OnePerHook(config: NetplanConfig, phase: nat, stage: HookStage, i: nat)
    requires (phase, stage) == (BEFORE_HOOKS, BeforeApply) || (phase, stage) == (AFTER_HOOKS, AfterApply) || (phase, stage) == (ROLLBACK_HOOKS, AfterRollback)
    requires i <= |config.hooks|
    ensures |PhaseFrom(config, phase, i)| == HowMany(config.hooks[i..], AtStage(stage))
    decreases |config.hooks| - i
  {
    if i < |config.hooks| {
      OnePerHook(config, phase, stage, i + 1);
      assert config.hooks[i..][1..] == config.hooks[i + 1..];
    }
  }

  /** A hook belongs to one stage. */
  lemma {:induction false} StagesCover(hooks: seq<Hook>)
    ensures HowMany(hooks, AtStage(BeforeApply)) + HowMany(hooks, AtStage(AfterApply))
         + HowMany(hooks, AtStage(AfterRollback)) == |hooks|
  {
    if hooks != [] {
      StagesCover(hooks[1..]);
    }
  }

  lemma OnePerEntrySetting(i: nat, entry: AdapterConfig)
    ensures |AdapterItem(i, entry)| == OneIf(SetsSwitch(entry)) + OneIf(SetsMac(entry)) + OneIf(SetsIpv4(entry))
  {
    match entry.enabled
    case None =>
    case Some(on) =>
      if on {
        assert entry.enabled == Some(true);
      } else {
        assert entry.enabled == Some(false);
      }
  }

  lemma {:induction false} OnePerSetting(config: NetplanConfig, i: nat)
    requires i <= |config.adapters|
    ensures |PhaseFrom(config, ADAPTERS, i)|
         == HowMany(config.adapters[i..], SetsSwitch) + HowMany(config.adapters[i..], SetsMac)
          + HowMany(config.adapters[i..], SetsIpv4)
    decreases |config.adapters| - i
  {
    if i < |config.adapters| {
      OnePerSetting(config, i + 1);
      OnePerEntrySetting(i, config.adapters[i]);
      assert config.adapters[i..][1..] == config.adapters[i + 1..];
    }
  }

  lemma {:induction false} OnePerLocalAccount(config: NetplanConfig, i: nat)
    requires i <= |config.accounts|
    ensures |PhaseFrom(config, ACCOUNTS, i)| == HowMany(config.accounts[i..], IsLocal)
    decreases |config.accounts| - i
  {
    if i < |config.accounts| {
      OnePerLocalAccount(config, i + 1);
      assert config.accounts[i..][1..] == config.accounts[i + 1..];
    }
  }

  lemma OnePerField(config: NetplanConfig)
    ensures |PhaseFrom(config, IDENTITY, 0)| == FieldsSet(config.identity)
  {
    assert PhaseFrom(config, IDENTITY, 2) == IdentityItem(config, 2) + PhaseFrom(config, IDENTITY, 3);
    assert PhaseFrom(config, IDENTITY, 1) == IdentityItem(config, 1) + PhaseFrom(config, IDENTITY, 2);
  }

  /** The hooks of the three stages together. */
  lemma HooksLength(config: NetplanConfig)
    ensures |PhaseFrom(config, BEFORE_HOOKS, 0)| + |PhaseFrom(config, AFTER_HOOKS, 0)| + |PhaseFrom(config, ROLLBACK_HOOKS, 0)| == |config.hooks|
  {
    assert config.hooks[0..] == config.hooks;
    OnePerHook(config, BEFORE_HOOKS, BeforeApply, 0);
    OnePerHook(config, AFTER_HOOKS, AfterApply, 0);
    OnePerHook(config, ROLLBACK_HOOKS, AfterRollback, 0);
    StagesCover(config.hooks);
  }

  /** The phases that are as long as their lists, and the firewall. */
  lemma SinglesLength(config: NetplanConfig)
    ensures |PhaseFrom(config, PROFILES, 0)| == |config.wifi| && |PhaseFrom(config, ACTIONS, 0)| == |config.wifiActions|
    ensures |PhaseFrom(config, SERVICES, 0)| == |config.services| && |PhaseFrom(config, SHARES, 0)| == |config.shares|
    ensures |PhaseFrom(config, MAPPINGS, 0)| == |config.mappings| && |PhaseFrom(config, DRIVERS, 0)| == |config.drivers|
    ensures |PhaseFrom(config, FIREWALL, 0)| == OneIf(config.firewall.Some?)
  {
    OnePerItem(config, PROFILES, 0);
    OnePerItem(config, ACTIONS, 0);
    OnePerItem(config, SERVICES, 0);
    OnePerItem(config, SHARES, 0);
    OnePerItem(config, MAPPINGS, 0);
    OnePerItem(config, DRIVERS, 0);
  }

  lemma PhasesLength(config: NetplanConfig)
    ensures |PlanOf(config)|
         == |PhaseFrom(config, BEFORE_HOOKS, 0)| + |PhaseFrom(config, IDENTITY, 0)| + |PhaseFrom(config, ADAPTERS, 0)|
          + |PhaseFrom(config, PROFILES, 0)| + |PhaseFrom(config, ACTIONS, 0)| + |PhaseFrom(config, SERVICES, 0)|
          + |PhaseFrom(config, ACCOUNTS, 0)| + |PhaseFrom(config, SHARES, 0)| + |PhaseFrom(config, MAPPINGS, 0)|
          + |PhaseFrom(config, FIREWALL, 0)| + |PhaseFrom(config, DRIVERS, 0)| + |PhaseFrom(config, AFTER_HOOKS, 0)|
          + |PhaseFrom(config, ROLLBACK_HOOKS, 0)|
  {
    PhasesSplit(config, 0, 4, PHASES);
    PhasesSplit(config, 4, 8, PHASES);
    assert |Phases(config, 8, PHASES)| == |PhaseFrom(config, 8, 0)| + |PhaseFrom(config, 9, 0)| + |PhaseFrom(config, 10, 0)|
                                        + |PhaseFrom(config, 11, 0)| + |PhaseFrom(config, 12, 0)|;
  }

  /**
   One operation for every hook, identity field, adapter setting, Wi-Fi profile and action, service,
   local account, share, mapping and driver operation, and one for the firewall: nothing is planned
   twice and nothing else is planned.
   */
  lemma PlanLength(config: NetplanConfig)
    ensures |PlanOf(config)|
         == |config.hooks| + FieldsSet(config.identity)
          + HowMany(config.adapters, SetsSwitch) + HowMany(config.adapters, SetsMac)
          + HowMany(config.adapters, SetsIpv4)
          + |config.wifi| + |config.wifiActions| + |config.services| + HowMany(config.accounts, IsLocal)
          + |config.shares| + |config.mappings| + OneIf(config.firewall.Some?) + |config.drivers|
  {
    HooksLength(config);
    OnePerField(config);
    OnePerSetting(config, 0);
    OnePerLocalAccount(config, 0);
    SinglesLength(config);
    assert config.adapters[0..] == config.adapters && config.accounts[0..] == config.accounts;
    PhasesLength(config);
  }
}

/** What every declaration and every phase of a run keeps, whatever its calls do. */
module RunInvariant {
  import opened Std
  import opened Text
  import opened Config
  import opened Selectors
  import opened Ipv4Recovery
  import opened Machine
  import opened Transaction
  import opened Restoration
  import opened AdapterUndo
  import Plan

  /** Share names are pairwise distinct ignoring ASCII case, as validation requires. */
  ghost predicate SharesDistinct(config: NetplanConfig) {
    forall i, j :: 0 <= i < j < |config.shares| ==> Fold(config.shares[i].name) != Fold(config.shares[j].name)
  }

  ghost function ShareNames(config: NetplanConfig, i: nat): set<string>
    requires i <= |config.shares|
  {
    set j | 0 <= j < i :: Fold(config.shares[j].name)
  }

  ghost predicate BaseSized(w: World) {
    |w.hw.adapters| == |w.core.enabled| == |w.core.macs| == |w.nets|
  }

  /** Holds before a phase begins. */
  ghost predicate Before(config: NetplanConfig, origin: Core, nets0: seq<Net>, w: World, phase: nat) {
    && Steady(config, origin, w) && NetsTracked(config, nets0, w) && BaseSized(w)
    && (phase <= Plan.ADAPTERS ==> Restoration.Adapters(w.rollback) == {} && w.core.enabled == origin.enabled && w.nets == nets0)
    && (phase <= Plan.SHARES ==> Shares(w.rollback) == {})
  }

  /** Holds before declaration `i` of a phase. */
  ghost predicate During(config: NetplanConfig, origin: Core, nets0: seq<Net>, w: World, phase: nat, i: nat) {
    && Steady(config, origin, w) && NetsTracked(config, nets0, w) && BaseSized(w)
    && (phase < Plan.ADAPTERS ==> Restoration.Adapters(w.rollback) == {} && w.core.enabled == origin.enabled && w.nets == nets0)
    && (phase == Plan.ADAPTERS && config.adapters != [] ==> Untouched(config, origin, nets0, w, i))
    && (phase < Plan.SHARES ==> Shares(w.rollback) == {})
    && (phase == Plan.SHARES ==> i <= |config.shares| && Shares(w.rollback) <= ShareNames(config, i))
  }

  /** Holds where the run failed. */
  ghost predicate Halted(config: NetplanConfig, origin: Core, nets0: seq<Net>, w: World) {
    UndoableStop(config, origin, w) && NetsTracked(config, nets0, w)
  }

  lemma SidewaysKeeps(config: NetplanConfig, origin: Core, nets0: seq<Net>, w: World, r: Run, phase: nat, i: nat)
    requires During(config, origin, nets0, w, phase, i) && phase != Plan.ADAPTERS && phase != Plan.SHARES
    requires Keeps(config, origin, r) && Sideways(w, r.w, None)
    ensures if r.Ok? then During(config, origin, nets0, r.w, phase, i + 1) else Halted(config, origin, nets0, r.w)
  {
    if r.w.rollback != w.rollback {
      RecordedAfter(w.rollback, Last(r.w));
      TrackOther(config, nets0, w, r.w, Last(r.w));
    }
  }

  lemma ShareItemKeeps(config: NetplanConfig, origin: Core, nets0: seq<Net>, w: World, i: nat)
    requires During(config, origin, nets0, w, Plan.SHARES, i) && i < |config.shares| && SharesDistinct(config)
    ensures var r := ApplyShare(w, i, config, config.shares[i]);
      && r.w.hw == w.hw
      && if r.Ok? then During(config, origin, nets0, r.w, Plan.SHARES, i + 1) else Halted(config, origin, nets0, r.w)
  {
    var r, share := ApplyShare(w, i, config, config.shares[i]), config.shares[i];
    var name := Fold(share.name);
    assert name !in ShareNames(config, i);
    ShareKeeps(config, origin, w, i, share);
    ShareShape(w, i, config, share);
    assert name in ShareNames(config, i + 1) && ShareNames(config, i) <= ShareNames(config, i + 1);
    if r.w.rollback != w.rollback {
      RecordedAfter(w.rollback, Last(r.w));
      TrackOther(config, nets0, w, r.w, Last(r.w));
    }
  }

  lemma HookKeeps(config: NetplanConfig, origin: Core, w: World, stage: HookStage, i: nat)
    requires Steady(config, origin, w) && i < |config.hooks|
    ensures var r := RunHookItem(w, config, stage, i); Keeps(config, origin, r) && Sideways(w, r.w, None)
  {
    QuietKeeps(config, origin, w, RunHookItem(w, config, stage, i));
  }

  lemma PlainItemKeeps(config: NetplanConfig, origin: Core, w: World, phase: nat, i: nat)
    requires Steady(config, origin, w)
    requires phase in {Plan.IDENTITY, Plan.ACCOUNTS, Plan.FIREWALL} && i < Plan.Count(config, phase)
    ensures var r := RunItem(w, config, phase, i); Keeps(config, origin, r) && Sideways(w, r.w, None)
  {
    if phase == Plan.IDENTITY {
      IdentityPlain(w, config, i);
    } else if phase == Plan.ACCOUNTS {
      AccountPlain(w, i, config.accounts[i]);
    } else if config.firewall.Some? {
      FirewallPlain(w, config.firewall.value);
    }
    PlainKeeps(config, origin, w, RunItem(w, config, phase, i));
  }

  lemma OtherItemKeeps(config: NetplanConfig, origin: Core, w: World, phase: nat, i: nat)
    requires Steady(config, origin, w) && Plan.IDENTITY <= phase <= Plan.AFTER_HOOKS && i < Plan.Count(config, phase)
    requires phase !in {Plan.ADAPTERS, Plan.SHARES, Plan.DRIVERS}
    ensures var r := RunItem(w, config, phase, i); Keeps(config, origin, r) && Sideways(w, r.w, None)
  {
    match phase
    case 3 =>
      ProfileKeeps(config, origin, w, i, config.wifi[i]);
      ProfileShape(w, i, config.wifi[i]);
    case 4 =>
      ActionKeeps(config, origin, w, i, config.wifiActions[i]);
      ActionShape(w, i, config.wifiActions[i]);
    case 5 =>
      ServiceKeeps(config, origin, w, i, config.services[i]);
      ServiceShape(w, i, config.services[i]);
    case 8 =>
      MappingKeeps(config, origin, w, i, config.mappings[i]);
      MappingShape(w, config, i, config.mappings[i]);
    case 11 => HookKeeps(config, origin, w, AfterApply, i);
    case _ => PlainItemKeeps(config, origin, w, phase, i);
  }

  lemma AdapterItemKeeps(config: NetplanConfig, origin: Core, nets0: seq<Net>, w: World, i: nat)
    requires During(config, origin, nets0, w, Plan.ADAPTERS, i) && i < |config.adapters|
    requires Protected(config, w.hw.adapters, w.hw.wifi)
    ensures var r := ApplyAdapter(w, i, config.adapters[i]);
      && r.w.hw == w.hw
      && if r.Ok? then During(config, origin, nets0, r.w, Plan.ADAPTERS, i + 1) else Halted(config, origin, nets0, r.w)
  {
    AdapterKeeps(config, origin, nets0, w, i);
  }

  lemma OtherItemStays(config: NetplanConfig, origin: Core, nets0: seq<Net>, w: World, r: Run, phase: nat, i: nat)
    requires During(config, origin, nets0, w, phase, i)
    requires Plan.IDENTITY <= phase <= Plan.AFTER_HOOKS && i < Plan.Count(config, phase) && r == RunItem(w, config, phase, i)
    requires phase !in {Plan.ADAPTERS, Plan.SHARES, Plan.DRIVERS}
    ensures r.w.hw == w.hw
    ensures if r.Ok? then During(config, origin, nets0, r.w, phase, i + 1) else Halted(config, origin, nets0, r.w)
  {
    OtherItemKeeps(config, origin, w, phase, i);
    SidewaysKeeps(config, origin, nets0, w, r, phase, i);
  }

  lemma ItemKeeps(config: NetplanConfig, origin: Core, nets0: seq<Net>, w: World, phase: nat, i: nat)
    requires During(config, origin, nets0, w, phase, i) && SharesDistinct(config)
    requires Protected(config, w.hw.adapters, w.hw.wifi)
    requires Plan.IDENTITY <= phase <= Plan.AFTER_HOOKS && phase != Plan.DRIVERS && i < Plan.Count(config, phase)
    ensures var r := RunItem(w, config, phase, i);
      && r.w.hw == w.hw
      && if r.Ok? then During(config, origin, nets0, r.w, phase, i + 1) else Halted(config, origin, nets0, r.w)
  {
    if phase == Plan.ADAPTERS {
      AdapterItemKeeps(config, origin, nets0, w, i);
      AdapterItem(w, config, i);
    } else if phase == Plan.SHARES {
      ShareItemKeeps(config, origin, nets0, w, i);
      ShareItem(w, config, i);
    } else {
      OtherItemStays(config, origin, nets0, w, RunItem(w, config, phase, i), phase, i);
    }
  }

  lemma AdapterItem(w: World, config: NetplanConfig, i: nat)
    requires i < |config.adapters|
    ensures RunItem(w, config, Plan.ADAPTERS, i) == ApplyAdapter(w, i, config.adapters[i])
  {
  }

  lemma EntriesUnfold(w: World, config: NetplanConfig, i: nat)
    requires i < |config.adapters|
    ensures RunPhase(w, config, Plan.ADAPTERS, i)
         == var r := ApplyAdapter(w, i, config.adapters[i]); if r.Ok? then RunPhase(r.w, config, Plan.ADAPTERS, i + 1) else r
  {
    AdapterItem(w, config, i);
  }

  lemma ShareItem(w: World, config: NetplanConfig, i: nat)
    requires i < |config.shares|
    ensures RunItem(w, config, Plan.SHARES, i) == ApplyShare(w, i, config, config.shares[i])
  {
  }

  ghost predicate ItemStep(inv: (World, nat) -> bool, halt: World -> bool, config: NetplanConfig, phase: nat, w: World, i: nat)
    requires phase < Plan.PHASES && i < Plan.Count(config, phase)
  {
    var r := RunItem(w, config, phase, i);
    r.w.hw == w.hw && if r.Ok? then inv(r.w, i + 1) else halt(r.w)
  }

  /** Steps `i` to `n`, one after another, stopping at the first failure. */
  ghost function Iterate(item: (World, nat) -> Run, n: nat, w: World, i: nat): Run
    requires i <= n
    decreases n - i
  {
    if i == n then Ok(w)
    else
      var r := item(w, i);
      if r.Ok? then Iterate(item, n, r.w, i + 1) else r
  }

  ghost predicate KeepsStep(inv: (World, nat) -> bool, halt: World -> bool, w: World, r: Run, i: nat) {
    r.w.hw == w.hw && if r.Ok? then inv(r.w, i + 1) else halt(r.w)
  }

  lemma {:induction false} IterateKeeps(item: (World, nat) -> Run, inv: (World, nat) -> bool, halt: World -> bool, hw: Hardware, n: nat, w: World, i: nat)
    requires i <= n && inv(w, i) && w.hw == hw
    requires forall v: World, j: nat :: v.hw == hw && j < n && inv(v, j) ==> KeepsStep(inv, halt, v, item(v, j), j)
    ensures var r := Iterate(item, n, w, i); r.w.hw == hw && if r.Ok? then inv(r.w, n) else halt(r.w)
    decreases n - i
  {
    if i < n {
      var r := item(w, i);
      assert KeepsStep(inv, halt, w, r, i);
      if r.Ok? {
        IterateKeeps(item, inv, halt, hw, n, r.w, i + 1);
      }
    }
  }

  ghost function ItemOf(config: NetplanConfig, phase: nat): (World, nat) -> Run
    requires phase < Plan.PHASES
  {
    (v: World, j: nat) => if j < Plan.Count(config, phase) then RunItem(v, config, phase, j) else Ok(v)
  }

  lemma {:induction false} PhaseIterates(w: World, config: NetplanConfig, phase: nat, i: nat)
    requires phase < Plan.PHASES && i <= Plan.Count(config, phase)
    ensures RunPhase(w, config, phase, i) == Iterate(ItemOf(config, phase), Plan.Count(config, phase), w, i)
    decreases Plan.Count(config, phase) - i
  {
    if i < Plan.Count(config, phase) {
      var r := ItemOf(config, phase)(w, i);
      if r.Ok? {
        PhaseIterates(r.w, config, phase, i + 1);
      }
    }
  }

  /** A property each declaration keeps is kept by the phase. */
  lemma PhaseInduction(inv: (World, nat) -> bool, halt: World -> bool, hw: Hardware, config: NetplanConfig, phase: nat, w: World, i: nat)
    requires phase < Plan.PHASES && i <= Plan.Count(config, phase) && inv(w, i) && w.hw == hw
    requires forall v: World, j: nat :: v.hw == hw && j < Plan.Count(config, phase) && inv(v, j) ==> ItemStep(inv, halt, config, phase, v, j)
    ensures var r := RunPhase(w, config, phase, i);
      r.w.hw == hw && if r.Ok? then inv(r.w, Plan.Count(config, phase)) else halt(r.w)
  {
    var item, n := ItemOf(config, phase), Plan.Count(config, phase);
    forall v: World, j: nat | v.hw == hw && j < n && inv(v, j)
      ensures KeepsStep(inv, halt, v, item(v, j), j)
    {
      assert ItemStep(inv, halt, config, phase, v, j);
    }
    IterateKeeps(item, inv, halt, hw, n, w, i);
    PhaseIterates(w, config, phase, i);
  }

  ghost predicate PhaseStep(inv: (World, nat) -> bool, halt: World -> bool, config: NetplanConfig, w: World, phase: nat)
    requires phase < Plan.PHASES
  {
    var r1 := Enter(w, config, phase);
    var r := if r1.Ok? then RunPhase(r1.w, config, phase, 0) else r1;
    r.w.hw == w.hw && if r.Ok? then inv(r.w, phase + 1) else halt(r.w)
  }

  /** A property each phase keeps is kept by a run of phases. */
  lemma {:induction false} PhasesInduction(inv: (World, nat) -> bool, halt: World -> bool, hw: Hardware, config: NetplanConfig, w: World, phase: nat, last: nat)
    requires phase <= last <= Plan.PHASES && inv(w, phase) && w.hw == hw
    requires forall v: World, p: nat :: v.hw == hw && phase <= p < last && inv(v, p) ==> PhaseStep(inv, halt, config, v, p)
    ensures var r := RunPhases(w, config, phase, last);
      r.w.hw == hw && if r.Ok? then inv(r.w, last) else halt(r.w)
    decreases last - phase
  {
    if phase < last {
      assert PhaseStep(inv, halt, config, w, phase);
      var r1 := Enter(w, config, phase);
      if r1.Ok? {
        var r2 := RunPhase(r1.w, config, phase, 0);
        if r2.Ok? {
          PhasesInduction(inv, halt, hw, config, r2.w, phase + 1, last);
        }
      }
    }
  }

  lemma PhaseKeeps(config: NetplanConfig, origin: Core, nets0: seq<Net>, w: World, phase: nat)
    requires Plan.IDENTITY <= phase <= Plan.AFTER_HOOKS
    requires During(config, origin, nets0, w, phase, 0) && SharesDistinct(config) && (phase == Plan.DRIVERS ==> config.drivers == [])
    requires Protected(config, w.hw.adapters, w.hw.wifi)
    ensures var r := RunPhase(w, config, phase, 0);
      && r.w.hw == w.hw
      && if r.Ok? then During(config, origin, nets0, r.w, phase, Plan.Count(config, phase)) else Halted(config, origin, nets0, r.w)
  {
    var inv := (v: World, j: nat) => During(config, origin, nets0, v, phase, j);
    var halt := (v: World) => Halted(config, origin, nets0, v);
    forall v: World, j: nat | v.hw == w.hw && j < Plan.Count(config, phase) && inv(v, j)
      ensures ItemStep(inv, halt, config, phase, v, j)
    {
      ItemKeeps(config, origin, nets0, v, phase, j);
    }
    PhaseInduction(inv, halt, w.hw, config, phase, w, 0);
  }

  lemma EnterKeeps(config: NetplanConfig, origin: Core, nets0: seq<Net>, w: World, phase: nat)
    requires Before(config, origin, nets0, w, phase)
    ensures var r := Enter(w, config, phase);
      && r.w.hw == w.hw
      && if r.Ok? then During(config, origin, nets0, r.w, phase, 0) else Halted(config, origin, nets0, r.w)
  {
    var r := Enter(w, config, phase);
    QuietKeeps(config, origin, w, r);
    if r.Ok? && phase == Plan.ADAPTERS && config.adapters != [] {
      assert r.w.nets == nets0;
      assert Untouched(config, origin, nets0, r.w, 0);
    }
  }

  lemma DuringIsBefore(config: NetplanConfig, origin: Core, nets0: seq<Net>, w: World, phase: nat, i: nat)
    requires During(config, origin, nets0, w, phase, i)
    ensures Before(config, origin, nets0, w, phase + 1)
  {
  }

  lemma PhasesKeep(config: NetplanConfig, origin: Core, nets0: seq<Net>, w: World, phase: nat, last: nat)
    requires Plan.IDENTITY <= phase <= last <= Plan.ROLLBACK_HOOKS
    requires Before(config, origin, nets0, w, phase) && SharesDistinct(config) && (last <= Plan.DRIVERS || config.drivers == [])
    requires Protected(config, w.hw.adapters, w.hw.wifi)
    ensures var r := RunPhases(w, config, phase, last);
      r.w.hw == w.hw && if r.Ok? then Before(config, origin, nets0, r.w, last) else Halted(config, origin, nets0, r.w)
  {
    var inv := (v: World, p: nat) => Before(config, origin, nets0, v, p);
    var halt := (v: World) => Halted(config, origin, nets0, v);
    forall v: World, p: nat | v.hw == w.hw && phase <= p < last && inv(v, p)
      ensures PhaseStep(inv, halt, config, v, p)
    {
      EnterKeeps(config, origin, nets0, v, p);
      var r1 := Enter(v, config, p);
      if r1.Ok? {
        PhaseKeeps(config, origin, nets0, r1.w, p);
        var r2 := RunPhase(r1.w, config, p, 0);
        if r2.Ok? {
          DuringIsBefore(config, origin, nets0, r2.w, p, Plan.Count(config, p));
        }
      }
    }
    PhasesInduction(inv, halt, w.hw, config, w, phase, last);
  }
}

/** From a job's recorded state to the machine it ran on. */
module EndToEnd {
  import opened Std
  import opened Protocol
  import Config
  import Daemon
  import Guarded
  import InEffect
  import Machine
  import Model
  import Plan
  import RollbackTheorem
  import RunInvariant
  import SafeStart
  import Selectors
  import Success
  import Transaction
  import Validation

  /** Parsing validates: only well-formed documents come out of it. */
  ghost predicate Validates(parse: Daemon.Parser) {
    forall document, format :: parse(document, format).Success? ==> Validation.WellFormed(parse(document, format).value)
  }

  /** The interface list a preflight consults: none is read when no Wi-Fi is declared. */
  function Consulted(config: Config.NetplanConfig, interfaces: seq<Selectors.WifiInterface>): seq<Selectors.WifiInterface> {
    if config.wifi == [] && config.wifiActions == [] then [] else interfaces
  }

  /** Every planned operation is permitted, and every selector resolves away from the protected adapters. */
  ghost predicate Admits(capabilities: seq<Model.Capability>, config: Config.NetplanConfig, inventory: seq<Model.AdapterInfo>,
                         interfaces: seq<Selectors.WifiInterface>)
  {
    && Plan.AllPermitted(capabilities, config)
    && Selectors.Protected(config, inventory, Consulted(config, interfaces))
  }

  /** The check before a live apply, over what the platform reports or fails to report. */
  method Preflight(capabilities: seq<Model.Capability>, config: Config.NetplanConfig,
                   inventory: Option<seq<Model.AdapterInfo>>,
                   interfaces: Result<seq<Selectors.WifiInterface>, Selectors.ErrorKind>)
    returns (r: Result<(), Selectors.ErrorKind>)
    ensures r.Success? <==>
      && inventory.Some? && (interfaces.Success? || (config.wifi == [] && config.wifiActions == []))
      && Admits(capabilities, config, inventory.value, if interfaces.Success? then interfaces.value else [])
    ensures !Plan.AllPermitted(capabilities, config) ==> r == Failure(Selectors.Unsupported)
    ensures Plan.AllPermitted(capabilities, config) && inventory.None? ==> r == Failure(Selectors.Internal)
    ensures Plan.AllPermitted(capabilities, config) && inventory.Some? && interfaces.Failure? && (config.wifi != [] || config.wifiActions != []) ==>
      r == Failure(interfaces.error)
  {
    r := Plan.RequirePlanCapabilities(capabilities, config);
    if r.Failure? {
      return;
    }
    if inventory.None? {
      return Failure(Selectors.Internal);
    }
    var consulted: seq<Selectors.WifiInterface> := [];
    if config.wifi != [] || config.wifiActions != [] {
      if interfaces.Failure? {
        return Failure(interfaces.error);
      }
      consulted := interfaces.value;
    }
    r := Selectors.ValidateRuntimeProtection(config, inventory.value, consulted);
  }

  /** Not reading the interface list is no weaker a check when no Wi-Fi is declared. */
  lemma ConsultedSuffices(config: Config.NetplanConfig, inventory: seq<Model.AdapterInfo>, interfaces: seq<Selectors.WifiInterface>)
    requires Selectors.Protected(config, inventory, Consulted(config, interfaces))
    ensures Selectors.Protected(config, inventory, interfaces)
  {
    if config.wifi == [] && config.wifiActions == [] {
      forall t | Selectors.Declares(config, t)
        ensures Selectors.TargetOf(config, inventory, interfaces, t) == Selectors.TargetOf(config, inventory, [], t)
      {
        assert t.AdapterTarget? || t.DriverTarget?;
      }
    }
  }

  /** The preflight that admitted the job's request looked at the machine its apply then ran on. */
  ghost predicate AdmittedOn(parse: Daemon.Parser, events: seq<Daemon.Event>, id: string, config: Config.NetplanConfig,
                             capabilities: seq<Model.Capability>, hw: Machine.Hardware)
  {
    forall i: nat :: Daemon.StartedBy(parse, events, i, id, config) ==> Admits(capabilities, config, hw.adapters, hw.wifi)
  }

  /** A document being applied is well formed and safe from the protected adapters of its machine. */
  lemma TaskAdmitted(parse: Daemon.Parser, events: seq<Daemon.Event>, id: string, capabilities: seq<Model.Capability>, hw: Machine.Hardware)
    requires Validates(parse) && Daemon.Possible(parse, events) && id in Daemon.After(parse, events).tasks
    requires AdmittedOn(parse, events, id, Daemon.After(parse, events).tasks[id], capabilities, hw)
    ensures var config := Daemon.After(parse, events).tasks[id];
      Validation.WellFormed(config) && RunInvariant.SharesDistinct(config) && Selectors.Protected(config, hw.adapters, hw.wifi)
  {
    var config := Daemon.After(parse, events).tasks[id];
    Daemon.TasksWereAskedFor(parse, events, id);
    var i: nat :| Daemon.StartedBy(parse, events, i, id, config);
    assert Validation.WellFormed(config);
    Validation.ReferencesResolve(config);
    ConsultedSuffices(config, hw.adapters, hw.wifi);
  }

  /** Checks that make `rolled_back` mean everything but IPv4 is back, and IPv4 too on static adapters. */
  ghost predicate RestoredFromSafeStart(w: Machine.World, config: Config.NetplanConfig) {
    var final := Transaction.Apply(w, config).0;
    && (RollbackTheorem.NoRestarts(config) && RollbackTheorem.SafeStart(config, w.core) ==> final.core == w.core)
    && (SafeStart.SwitchesNothing(config, w.hw.adapters, w.core.enabled) && RollbackTheorem.SafeStart(config, w.core) && SafeStart.StaticStart(config, w) ==>
          && |final.nets| == |w.nets|
          && forall a :: 0 <= a < |w.nets| ==> final.nets[a] == w.nets[a].(leased := final.nets[a].leased))
  }

  /**
   Whatever requests and completions the daemon has handled since, a job it lists as rolled back
   had the outcome the restoration theorem describes, and from a safe start the machine its apply
   ran on is as it was found.
   */
  lemma RolledBackJobRestored(parse: Daemon.Parser, events: seq<Daemon.Event>, k: nat, w: Machine.World,
                              capabilities: seq<Model.Capability>)
    requires Validates(parse) && Daemon.Possible(parse, events)
    requires k < |events| && events[k].Finished? && events[k].jobId in Daemon.After(parse, events[..k]).tasks
    requires var id := events[k].jobId;
      var config := Daemon.After(parse, events[..k]).tasks[id];
      && RollbackTheorem.Ready(w) && AdmittedOn(parse, events[..k], id, config, capabilities, w.hw)
      && events[k].outcome.Reported? && events[k].outcome.report == Transaction.Apply(w, config).1
    ensures var id := events[k].jobId;
      var config := Daemon.After(parse, events[..k]).tasks[id];
      var jobs := Daemon.After(parse, events).jobs;
      id in jobs && (jobs[id].state == RolledBack ==> RollbackTheorem.RolledBackOutcome(w, config) && RestoredFromSafeStart(w, config))
  {
    var id := events[k].jobId;
    ListedAsReported(parse, events, k);
    TaskAdmitted(parse, events[..k], id, capabilities, w.hw);
    SafeOutcome(w, Daemon.After(parse, events[..k]).tasks[id]);
  }

  lemma ListedAsReported(parse: Daemon.Parser, events: seq<Daemon.Event>, k: nat)
    requires Daemon.Possible(parse, events)
    requires k < |events| && events[k].Finished? && events[k].jobId in Daemon.After(parse, events[..k]).tasks
    requires events[k].outcome.Reported?
    ensures Daemon.Possible(parse, events[..k])
    ensures var jobs := Daemon.After(parse, events).jobs;
      events[k].jobId in jobs && (jobs[events[k].jobId].state == RolledBack ==> events[k].outcome.report.rolledBack)
  {
    Daemon.PossiblePrefix(parse, events, k);
    Daemon.EndedStateStays(parse, events, k, |events|);
    assert events[..|events|] == events;
  }

  lemma SafeOutcome(w: Machine.World, config: Config.NetplanConfig)
    requires RollbackTheorem.Ready(w) && RunInvariant.SharesDistinct(config) && Selectors.Protected(config, w.hw.adapters, w.hw.wifi)
    ensures Transaction.Apply(w, config).1.rolledBack ==>
      RollbackTheorem.RolledBackOutcome(w, config) && RestoredFromSafeStart(w, config)
  {
    RollbackTheorem.RolledBackRestores(w, config);
    if RollbackTheorem.SafeStart(config, w.core) {
      if RollbackTheorem.NoRestarts(config) {
        RollbackTheorem.SafeStartRestores(w, config);
      }
      if SafeStart.SwitchesNothing(config, w.hw.adapters, w.core.enabled) && SafeStart.StaticStart(config, w) {
        SafeStart.StaticMachineRestored(w, config);
      }
    }
  }

  /** The apply that ended at `k` ran on machine `w`, found ready, and reported what it did there. */
  ghost predicate RanOn(parse: Daemon.Parser, events: seq<Daemon.Event>, k: nat, w: Machine.World, capabilities: seq<Model.Capability>) {
    && k < |events| && events[k].Finished? && events[k].jobId in Daemon.After(parse, events[..k]).tasks
    && RollbackTheorem.Ready(w)
    && var config := Daemon.After(parse, events[..k]).tasks[events[k].jobId];
       AdmittedOn(parse, events[..k], events[k].jobId, config, capabilities, w.hw)
       && events[k].outcome.Reported? && events[k].outcome.report == Transaction.Apply(w, config).1
  }

  /** A job listed as succeeded has every declaration of its document in effect on its machine. */
  lemma SucceededJobInEffect(parse: Daemon.Parser, events: seq<Daemon.Event>, k: nat, w: Machine.World, capabilities: seq<Model.Capability>)
    requires Validates(parse) && Daemon.Possible(parse, events) && RanOn(parse, events, k, w, capabilities)
    ensures var id := events[k].jobId;
      var config := Daemon.After(parse, events[..k]).tasks[id];
      var jobs, core := Daemon.After(parse, events).jobs, Transaction.Apply(w, config).0.core;
      id in jobs && (jobs[id].state == Succeeded ==>
        forall phase: nat, i: nat :: Plan.IDENTITY <= phase < Plan.DRIVERS && phase != Plan.ADAPTERS && i < Plan.Count(config, phase) ==>
          InEffect.InEffect(config, w.hw, core, phase, i))
  {
    var id := events[k].jobId;
    var config := Daemon.After(parse, events[..k]).tasks[id];
    Daemon.EndedStateStays(parse, events, k, |events|);
    assert events[..|events|] == events;
    Daemon.PossiblePrefix(parse, events, k);
    TaskAdmitted(parse, events[..k], id, capabilities, w.hw);
    if Daemon.After(parse, events).jobs[id].state == Succeeded {
      Success.SuccessMeans(w, config);
    }
  }

  /** And however the apply of a job ended, it left the protected adapters of its machine alone. */
  lemma JobSparesGuards(parse: Daemon.Parser, events: seq<Daemon.Event>, k: nat, w: Machine.World, capabilities: seq<Model.Capability>, g: nat)
    requires Validates(parse) && Daemon.Possible(parse, events) && RanOn(parse, events, k, w, capabilities)
    requires Guarded.Guards(Daemon.After(parse, events[..k]).tasks[events[k].jobId], w.hw, g) && Guarded.GuidsDistinct(w.hw)
    ensures Guarded.Spared(w, Transaction.Apply(w, Daemon.After(parse, events[..k]).tasks[events[k].jobId]).0, g)
  {
    var id := events[k].jobId;
    Daemon.PossiblePrefix(parse, events, k);
    TaskAdmitted(parse, events[..k], id, capabilities, w.hw);
    Guarded.GuardedUntouched(w, Daemon.After(parse, events[..k]).tasks[id], g);
  }
}

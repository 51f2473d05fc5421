/**
 Restoration: whatever fails and whenever, undo actions that all succeed bring the machine back
 to where it was, except for the few things named by `DriftOf`.
 */
module Restoration {
  import opened Std
  import opened Text
  import opened Config
  import opened Selectors
  import opened Ipv4Recovery
  import opened Machine
  import opened Transaction
  import Plan

  // States compared up to what undo records cannot reproduce.

  datatype Drift = Drift(services: set<string>, remotes: set<string>, shares: set<string>)

  predicate Within(a: Drift, b: Drift) {
    a.services <= b.services && a.remotes <= b.remotes && a.shares <= b.shares
  }

  /** Equal apart from the services, remote connections and shares of the drift. */
  predicate Agree(a: Core, b: Core, d: Drift) {
    && a == b.(services := a.services, remotes := a.remotes, shares := a.shares)
    && a.services - d.services == b.services - d.services
    && a.remotes - d.remotes == b.remotes - d.remotes
    && a.shares - d.shares == b.shares - d.shares
  }

  lemma AgreeExactly(a: Core, b: Core)
    requires Agree(a, b, Drift({}, {}, {}))
    ensures a == b
  {
    assert a.services - {} == a.services && b.services - {} == b.services;
    assert a.remotes - {} == a.remotes && b.remotes - {} == b.remotes;
    assert a.shares - {} == a.shares && b.shares - {} == b.shares;
  }

  lemma AgreeThrough(a: Core, b: Core, c: Core, d: Drift)
    requires Agree(a, b, d) && Agree(b, c, d)
    ensures Agree(a, c, d)
  {
  }

  lemma AgreeWider(a: Core, b: Core, d: Drift, e: Drift)
    requires Agree(a, b, d) && Within(d, e)
    ensures Agree(a, b, e)
  {
    assert a.services - e.services == (a.services - d.services) - e.services && b.services - e.services == (b.services - d.services) - e.services;
    assert a.remotes - e.remotes == (a.remotes - d.remotes) - e.remotes && b.remotes - e.remotes == (b.remotes - d.remotes) - e.remotes;
    assert a.shares - e.shares == (a.shares - d.shares) - e.shares && b.shares - e.shares == (b.shares - d.shares) - e.shares;
  }

  lemma UpdateMinus<K, V>(m: map<K, V>, k: K, v: V, ks: set<K>)
    ensures m[k := v] - ks == if k in ks then m - ks else (m - ks)[k := v]
  {
  }

  lemma MinusMinus<K, V>(m: map<K, V>, a: set<K>, b: set<K>)
    ensures (m - a) - b == (m - b) - a
  {
  }

  lemma UndoServiceAgrees(a: Core, b: Core, u: Undo, d: Drift)
    requires Agree(a, b, d) && u.UndoService?
    ensures Agree(UndoCore(a, u), UndoCore(b, u), d)
  {
    UpdateMinus(a.services, u.service, Wanted(u.running), d.services);
    UpdateMinus(b.services, u.service, Wanted(u.running), d.services);
  }

  lemma UndoShareAgrees(a: Core, b: Core, u: Undo, d: Drift)
    requires Agree(a, b, d) && u.UndoShare?
    ensures Agree(UndoCore(a, u), UndoCore(b, u), d)
  {
    if u.state.Some? {
      UpdateMinus(a.shares, u.share, u.state.value, d.shares);
      UpdateMinus(b.shares, u.share, u.state.value, d.shares);
    } else {
      MinusMinus(a.shares, {u.share}, d.shares);
      MinusMinus(b.shares, {u.share}, d.shares);
    }
  }

  lemma UndoMappingAgrees(a: Core, b: Core, u: Undo, d: Drift)
    requires Agree(a, b, d) && u.UndoMapping?
    ensures Agree(UndoCore(a, u), UndoCore(b, u), d)
  {
    if u.target.Remote? {
      assert (a.remotes - {u.target.path}) - d.remotes == (a.remotes - d.remotes) - {u.target.path};
      assert (b.remotes - {u.target.path}) - d.remotes == (b.remotes - d.remotes) - {u.target.path};
    }
  }

  lemma UndoAdapterAgrees(a: Core, b: Core, u: Undo, d: Drift)
    requires Agree(a, b, d) && (u.UndoAdapterState? || u.UndoMac? || u.UndoIpv4?)
    ensures Agree(UndoCore(a, u), UndoCore(b, u), d)
  {
  }

  lemma UndoProfileAgrees(a: Core, b: Core, u: Undo, d: Drift)
    requires Agree(a, b, d) && u.UndoProfile?
    ensures Agree(UndoCore(a, u), UndoCore(b, u), d)
  {
  }

  lemma UndoConnectionAgrees(a: Core, b: Core, u: Undo, d: Drift)
    requires Agree(a, b, d) && u.UndoConnection?
    ensures Agree(UndoCore(a, u), UndoCore(b, u), d)
  {
  }

  lemma UndoPlainAgrees(a: Core, b: Core, u: Undo, d: Drift)
    requires Agree(a, b, d)
    requires u.UndoComputerName? || u.UndoWorkgroup? || u.UndoDnsSuffix? || u.UndoAccount? || u.UndoFirewall?
    ensures Agree(UndoCore(a, u), UndoCore(b, u), d)
  {
  }

  /** An undo writes constants, so it keeps two states in agreement. */
  lemma UndoAgrees(a: Core, b: Core, u: Undo, d: Drift)
    requires Agree(a, b, d)
    ensures Agree(UndoCore(a, u), UndoCore(b, u), d)
  {
    match u
    case UndoService(_, _) => UndoServiceAgrees(a, b, u, d);
    case UndoShare(_, _) => UndoShareAgrees(a, b, u, d);
    case UndoMapping(_) => UndoMappingAgrees(a, b, u, d);
    case UndoAdapterState(_, _) => UndoAdapterAgrees(a, b, u, d);
    case UndoMac(_, _, _) => UndoAdapterAgrees(a, b, u, d);
    case UndoIpv4(_) => UndoAdapterAgrees(a, b, u, d);
    case UndoProfile(_, _, _) => UndoProfileAgrees(a, b, u, d);
    case UndoConnection(_, _) => UndoConnectionAgrees(a, b, u, d);
    case _ => UndoPlainAgrees(a, b, u, d);
  }

  /** The state after undoing a whole log, last record first. */
  function Replay(core: Core, log: seq<Undo>): Core
    decreases |log|
  {
    if log == [] then core else Replay(UndoCore(core, log[|log| - 1]), log[..|log| - 1])
  }

  lemma {:induction false} ReplayAgrees(a: Core, b: Core, log: seq<Undo>, d: Drift)
    requires Agree(a, b, d)
    ensures Agree(Replay(a, log), Replay(b, log), d)
    decreases |log|
  {
    if log != [] {
      UndoAgrees(a, b, log[|log| - 1], d);
      ReplayAgrees(UndoCore(a, log[|log| - 1]), UndoCore(b, log[|log| - 1]), log[..|log| - 1], d);
    }
  }

  // What the log records.

  function Services(log: seq<Undo>): set<string> {
    set u | u in log && u.UndoService? :: u.service
  }

  function Shares(log: seq<Undo>): set<string> {
    set u | u in log && u.UndoShare? :: u.share
  }

  function Remotes(log: seq<Undo>): set<string> {
    set u | u in log && u.UndoMapping? && u.target.Remote? :: u.target.path
  }

  function Adapters(log: seq<Undo>): set<nat> {
    set u | u in log && u.UndoIpv4? :: u.restore.adapter
  }

  function DriftOf(origin: Core, w: World): Drift {
    Drift((set n | n in Services(w.rollback) && LookUp(origin.services, n) == Some(Transitional)),
          Remotes(w.rollback),
          w.unrepaired)
  }

  /** Undoing the log from here leads back to `origin`, up to the drift. */
  ghost predicate Undoable(origin: Core, w: World) {
    Agree(Replay(w.core, w.rollback), origin, DriftOf(origin, w))
  }

  /** What one record cannot reproduce, seen from the state before its change. */
  function StepDrift(core: Core, u: Undo): Drift {
    Drift(if u.UndoService? && LookUp(core.services, u.service) == Some(Transitional) then {u.service} else {},
          if u.UndoMapping? && u.target.Remote? then {u.target.path} else {},
          {})
  }

  lemma RecordedAfter(log: seq<Undo>, u: Undo)
    ensures Services(log + [u]) == Services(log) + if u.UndoService? then {u.service} else {}
    ensures Shares(log + [u]) == Shares(log) + if u.UndoShare? then {u.share} else {}
    ensures Remotes(log + [u]) == Remotes(log) + if u.UndoMapping? && u.target.Remote? then {u.target.path} else {}
    ensures Adapters(log + [u]) == Adapters(log) + if u.UndoIpv4? then {u.restore.adapter} else {}
  {
    var both := log + [u];
    assert forall x :: x in both <==> x in log || x == u;
    if u.UndoService? {
      assert u in both && u.service in Services(both);
    }
    if u.UndoShare? {
      assert u in both && u.share in Shares(both);
    }
    if u.UndoMapping? && u.target.Remote? {
      assert u in both && u.target.path in Remotes(both);
    }
    if u.UndoIpv4? {
      assert u in both && u.restore.adapter in Adapters(both);
    }
  }

  // Invariants of a run in which nothing has failed yet.

  /** A connected interface uses a profile it knows. */
  ghost predicate Known(core: Core) {
    forall g :: g in core.connections ==> (g, core.connections[g]) in core.profiles
  }

  /** A service is as it was at the start until it is recorded; then it is running or stopped. */
  ghost predicate ServicesTracked(origin: Core, w: World) {
    && (forall n :: n !in Services(w.rollback) ==> LookUp(w.core.services, n) == LookUp(origin.services, n))
    && (forall n :: n in Services(w.rollback) ==> LookUp(w.core.services, n) in {Some(RunningNow), Some(StoppedNow)})
  }

  ghost predicate SharesTracked(origin: Core, w: World) {
    forall n :: n !in Shares(w.rollback) ==> LookUp(w.core.shares, n) == LookUp(origin.shares, n)
  }

  /** The document declares the service, as running when its state was in transition. */
  ghost predicate ServiceDeclared(config: NetplanConfig, origin: Core, n: string) {
    exists s :: s in config.services && Fold(s.name) == n && (LookUp(origin.services, n) == Some(Transitional) ==> s.state == Running)
  }

  /** The records come from declarations of the document. */
  ghost predicate Sourced(config: NetplanConfig, origin: Core, log: seq<Undo>) {
    && (forall n :: n in Services(log) ==> ServiceDeclared(config, origin, n))
    && (forall p :: p in Remotes(log) ==> exists m :: m in config.mappings && m.local.None? && Fold(m.remote) == p)
  }

  ghost predicate Steady(config: NetplanConfig, origin: Core, w: World) {
    && Undoable(origin, w)
    && Known(w.core)
    && ServicesTracked(origin, w)
    && SharesTracked(origin, w)
    && Sourced(config, origin, w.rollback)
    && w.unrepaired == {}
  }

  /** What still holds where the run stopped. */
  ghost predicate UndoableStop(config: NetplanConfig, origin: Core, w: World) {
    && Undoable(origin, w)
    && Sourced(config, origin, w.rollback)
    && (forall n :: n in w.unrepaired ==>
          n !in Shares(w.rollback) && n in origin.shares && LookUp(w.core.shares, n) != LookUp(origin.shares, n)
          && exists s :: s in config.shares && Fold(s.name) == n)
  }

  ghost predicate Keeps(config: NetplanConfig, origin: Core, r: Run) {
    if r.Ok? then Steady(config, origin, r.w) else UndoableStop(config, origin, r.w)
  }

  lemma SteadyIsStopped(config: NetplanConfig, origin: Core, w: World)
    requires Steady(config, origin, w)
    ensures UndoableStop(config, origin, w)
  {
  }

  /** The drift of a new record is accounted for. */
  lemma StepDriftCovered(config: NetplanConfig, origin: Core, w: World, after: World, u: Undo)
    requires Steady(config, origin, w)
    requires after.rollback == w.rollback + [u] && after.unrepaired == {}
    ensures Within(StepDrift(w.core, u), DriftOf(origin, after))
    ensures Within(DriftOf(origin, w), DriftOf(origin, after))
  {
    RecordedAfter(w.rollback, u);
  }

  /** Appending a record that undoes the change made keeps the log undoable. */
  lemma PushUndoable(config: NetplanConfig, origin: Core, w: World, after: World, u: Undo)
    requires Steady(config, origin, w)
    requires after.rollback == w.rollback + [u] && after.unrepaired == {}
    requires Agree(UndoCore(after.core, u), w.core, StepDrift(w.core, u))
    ensures Undoable(origin, after)
  {
    var d := DriftOf(origin, after);
    StepDriftCovered(config, origin, w, after, u);
    AgreeWider(UndoCore(after.core, u), w.core, StepDrift(w.core, u), d);
    assert after.rollback[..|after.rollback| - 1] == w.rollback;
    ReplayAgrees(UndoCore(after.core, u), w.core, w.rollback, d);
    AgreeWider(Replay(w.core, w.rollback), origin, DriftOf(origin, w), d);
  }

  /** Nothing but faults, attempts and switches has happened. */
  ghost predicate Quiet(w: World, after: World) {
    after.core == w.core && after.rollback == w.rollback && after.unrepaired == w.unrepaired
  }

  lemma QuietKeeps(config: NetplanConfig, origin: Core, w: World, r: Run)
    requires Steady(config, origin, w) && Quiet(w, r.w)
    ensures Keeps(config, origin, r)
  {
  }

  /** One record has been appended and it undoes whatever has happened. */
  ghost predicate Logged(w: World, after: World, u: Undo) {
    && after.rollback == w.rollback + [u] && after.unrepaired == w.unrepaired
    && Agree(UndoCore(after.core, u), w.core, StepDrift(w.core, u))
  }

  /** Records whose declarations need no tracing. */
  ghost predicate Untraced(u: Undo) {
    !u.UndoService? && !u.UndoShare? && !(u.UndoMapping? && u.target.Remote?)
  }

  lemma LoggedKeeps(config: NetplanConfig, origin: Core, w: World, r: Run, u: Undo)
    requires Steady(config, origin, w) && Logged(w, r.w, u) && Untraced(u)
    requires r.Ok? && (u.UndoProfile? || u.UndoConnection?) ==> Known(r.w.core)
    ensures Keeps(config, origin, r)
  {
    PushUndoable(config, origin, w, r.w, u);
    RecordedAfter(w.rollback, u);
    AgreeExactly(UndoCore(r.w.core, u), w.core);
  }

  // Every declaration keeps the invariant.

  ghost predicate OfAdapter(u: Undo) {
    u.UndoAdapterState? || u.UndoMac? || u.UndoIpv4?
  }

  /** The adapters are untouched, and at most one record, not about an adapter, has been appended. */
  ghost predicate Sideways(w: World, after: World, share: Option<string>) {
    && after.hw == w.hw && after.nets == w.nets && after.inventory == w.inventory
    && after.core.enabled == w.core.enabled && after.core.macs == w.core.macs && after.switches == w.switches
    && (after.rollback == w.rollback
        || (|after.rollback| == |w.rollback| + 1 && after.rollback == w.rollback + [Last(after)]
            && !OfAdapter(Last(after)) && (Last(after).UndoShare? ==> share == Some(Last(after).share))))
  }

  function Last(w: World): Undo
    requires w.rollback != []
  {
    w.rollback[|w.rollback| - 1]
  }

  /** A step that did nothing to the machine, or one untraced change under its own record. */
  ghost predicate Plain(w: World, r: Run) {
    && Sideways(w, r.w, None)
    && (Quiet(w, r.w) || (r.w.rollback != [] && Logged(w, r.w, Last(r.w)) && Untraced(Last(r.w))
                          && !Last(r.w).UndoProfile? && !Last(r.w).UndoConnection?))
  }

  lemma PlainKeeps(config: NetplanConfig, origin: Core, w: World, r: Run)
    requires Steady(config, origin, w) && Plain(w, r)
    ensures Keeps(config, origin, r)
  {
    if Quiet(w, r.w) {
      QuietKeeps(config, origin, w, r);
    } else {
      LoggedKeeps(config, origin, w, r, Last(r.w));
    }
  }

  lemma ComputerNamePlain(w: World, name: string)
    ensures Plain(w, ApplyComputerName(w, name))
  {
  }

  lemma WorkgroupPlain(w: World, name: string)
    ensures Plain(w, ApplyWorkgroup(w, name))
  {
  }

  lemma DnsSuffixPlain(w: World, suffix: string)
    ensures Plain(w, ApplyDnsSuffix(w, suffix))
  {
  }

  lemma IdentityPlain(w: World, config: NetplanConfig, i: nat)
    ensures Plain(w, ApplyIdentity(w, config, i))
  {
    var field := Plan.FieldAt(i);
    if config.identity.Some? && Plan.FieldValue(config.identity.value, field).Some? {
      var value, w1 := Plan.FieldValue(config.identity.value, field).value, Attempt(w, Plan.SetIdentity(field));
      match field
      case ComputerNameField => ComputerNamePlain(w1, value);
      case WorkgroupField => WorkgroupPlain(w1, value);
      case DnsSuffixField => DnsSuffixPlain(w1, value);
    }
  }

  lemma AccountPlain(w: World, i: nat, account: SmbAccount)
    ensures Plain(w, ApplyAccount(w, i, account))
  {
    var name, r := Fold(account.username), ApplyAccount(w, i, account);
    if r.w.rollback == w.rollback {
      assert r.w.core == w.core;
    } else {
      assert r.w.core == w.core.(accounts := w.core.accounts + {name}) && Last(r.w) == UndoAccount(name);
      assert (w.core.accounts + {name}) - {name} == w.core.accounts;
      assert UndoCore(r.w.core, Last(r.w)) == w.core;
    }
  }

  lemma FirewallPlain(w: World, on: bool)
    ensures Plain(w, ApplyFirewall(w, on))
  {
    var w1 := Attempt(w, Plan.FirewallSwitch);
    if Healthy(w1) && Healthy(Tick(w1)) && Healthy(Tick(Tick(w1))) && !w.core.firewall.AllEqual(on) {
      var r := ApplyFirewall(w, on);
      assert r.w.rollback == w.rollback + [UndoFirewall(w.core.firewall)];
      assert r.w.core == w.core.(firewall := r.w.core.firewall);
      assert UndoCore(r.w.core, Last(r.w)) == w.core;
    }
  }

  /** Writing a profile and undoing it again, even when the write did nothing. */
  lemma ProfileUndone(before: Core, after: Core, interface: nat, name: string, content: ProfileContent)
    requires Known(before)
    requires after == before || after == before.(profiles := before.profiles[(interface, name) := content])
    ensures Known(after)
    ensures UndoCore(after, UndoProfile(interface, name, LookUp(before.profiles, (interface, name)))) == before
  {
    var key := (interface, name);
    if key in before.profiles {
      assert after.profiles[key := before.profiles[key]] == before.profiles;
    } else {
      assert after.profiles - {key} == before.profiles;
      assert LookUp(before.connections, interface) != Some(name);
    }
  }

  /** The profile record written first undoes whatever the profile call then does. */
  lemma ProfileShape(w: World, i: nat, profile: WifiProfile)
    requires Known(w.core)
    ensures var r := ApplyProfile(w, i, profile);
      && Sideways(w, r.w, None) && Known(r.w.core)
      && (Quiet(w, r.w) || (r.w.rollback != [] && Last(r.w).UndoProfile? && Logged(w, r.w, Last(r.w))))
  {
    var w1 := Attempt(w, Plan.WifiInstall(i));
    var resolved := ResolveWifi(w1.hw.adapters, w1.hw.wifi, profile.selector);
    if resolved.Success? && Healthy(w1) {
      var interface, name := w1.hw.wifi[resolved.value].guid, Fold(profile.ProfileName());
      var r := ApplyProfile(w, i, profile);
      assert Last(r.w) == UndoProfile(interface, name, LookUp(w.core.profiles, (interface, name)));
      ProfileUndone(w.core, r.w.core, interface, name, Written(profile));
    }
  }

  lemma ProfileKeeps(config: NetplanConfig, origin: Core, w: World, i: nat, profile: WifiProfile)
    requires Steady(config, origin, w)
    ensures Keeps(config, origin, ApplyProfile(w, i, profile))
  {
    var r := ApplyProfile(w, i, profile);
    ProfileShape(w, i, profile);
    if Quiet(w, r.w) {
      QuietKeeps(config, origin, w, r);
    } else {
      LoggedKeeps(config, origin, w, r, Last(r.w));
    }
  }

  lemma StoreBack<K, V>(m: map<K, V>, changed: map<K, V>, k: K)
    requires changed - {k} == m - {k}
    ensures Store(changed, k, LookUp(m, k)) == m
  {
    var s := Store(changed, k, LookUp(m, k));
    assert s - {k} == changed - {k};
    forall x
      ensures (x in s) == (x in m) && (x in m ==> s[x] == m[x])
    {
      if x != k {
        assert (x in s) == (x in s - {k}) && (x in m) == (x in m - {k});
        if x in m {
          assert (s - {k})[x] == (m - {k})[x];
        }
      }
    }
  }

  /** Connecting or disconnecting, even half done, changes one interface, and never to an unknown profile. */
  lemma ConnectionChange(w: World, interface: nat, name: string)
    requires Known(w.core)
    ensures var r := Machine.Connect(w, interface, name);
      r.w == Tick(w).(core := w.core.(connections := r.w.core.connections))
      && Known(r.w.core) && r.w.core.connections - {interface} == w.core.connections - {interface}
    ensures var r := Machine.Disconnect(w, interface);
      r.w == Tick(w).(core := w.core.(connections := r.w.core.connections))
      && Known(r.w.core) && r.w.core.connections - {interface} == w.core.connections - {interface}
  {
  }

  lemma ActionShape(w: World, i: nat, action: WifiAction)
    requires Known(w.core)
    ensures var r := ApplyAction(w, i, action);
      && Sideways(w, r.w, None) && Known(r.w.core)
      && (Quiet(w, r.w) || (r.w.rollback != [] && Last(r.w).UndoConnection? && Logged(w, r.w, Last(r.w))))
  {
    var w1 := Attempt(w, Plan.WifiRun(i, Plan.KindOf(action)));
    var resolved := ResolveWifi(w1.hw.adapters, w1.hw.wifi, ActionSelector(action));
    if resolved.Success? && !action.Scan? && Healthy(w1) {
      var interface := w1.hw.wifi[resolved.value].guid;
      var u := UndoConnection(interface, LookUp(w.core.connections, interface));
      var w3 := Push(Tick(w1), u);
      ConnectionChange(w3, interface, if action.Connect? then Fold(action.profile) else "");
      var r := ApplyAction(w, i, action);
      assert r.w.core == w.core.(connections := r.w.core.connections);
      StoreBack(w.core.connections, r.w.core.connections, interface);
      assert Last(r.w) == u;
      assert UndoCore(r.w.core, u) == w.core;
    }
  }

  lemma ActionKeeps(config: NetplanConfig, origin: Core, w: World, i: nat, action: WifiAction)
    requires Steady(config, origin, w)
    ensures Keeps(config, origin, ApplyAction(w, i, action))
  {
    var r := ApplyAction(w, i, action);
    ActionShape(w, i, action);
    if Quiet(w, r.w) {
      QuietKeeps(config, origin, w, r);
    } else {
      LoggedKeeps(config, origin, w, r, Last(r.w));
    }
  }

  lemma ServiceUndone(before: Core, after: Core, u: Undo)
    requires u.UndoService? && u.service in before.services
    requires u.running == (before.services[u.service] == RunningNow)
    requires after == before.(services := after.services) && after.services - {u.service} == before.services - {u.service}
    ensures Agree(UndoCore(after, u), before, StepDrift(before, u))
  {
    var name := u.service;
    UpdateMinus(after.services, name, Wanted(u.running), {name});
    if before.services[name] != Transitional {
      assert LookUp(before.services, name) == Some(Wanted(u.running));
      StoreBack(before.services, after.services, name);
    }
  }

  /** Whatever a switch does, it changes one service only, and success leaves it as wanted. */
  lemma SetServiceShape(w: World, name: string, running: bool)
    ensures var r := SetService(w, name, running);
      && r.w == w.(core := r.w.core, faults := r.w.faults)
      && r.w.core == w.core.(services := r.w.core.services)
      && r.w.core.services - {name} == w.core.services - {name}
      && (r.Ok? ==> LookUp(r.w.core.services, name) == Some(Wanted(running)))
  {
  }

  /** A service switch is recorded before it is made; success leaves the service running or stopped. */
  lemma ServiceShape(w: World, i: nat, service: Service)
    ensures var r, name := ApplyService(w, i, service), Fold(service.name);
      && Sideways(w, r.w, None)
      && (Quiet(w, r.w)
          || (r.w.rollback != [] && Last(r.w).UndoService? && Last(r.w).service == name && Logged(w, r.w, Last(r.w))
              && (LookUp(w.core.services, name) == Some(Transitional) ==> service.state == Running)
              && r.w.core == w.core.(services := r.w.core.services)
              && r.w.core.services - {name} == w.core.services - {name}
              && (r.Ok? ==> LookUp(r.w.core.services, name) in {Some(RunningNow), Some(StoppedNow)})))
  {
    var r, name := ApplyService(w, i, service), Fold(service.name);
    var w1 := Tick(Attempt(w, Plan.ServiceSwitch(i)));
    if Healthy(w) && name in w.core.services && (w.core.services[name] == RunningNow) != (service.state == Running) {
      var u := UndoService(name, w.core.services[name] == RunningNow);
      SetServiceShape(Push(w1, u), name, !u.running);
      assert r == SetService(Push(w1, u), name, !u.running);
      assert Last(r.w) == u;
      ServiceUndone(w.core, r.w.core, u);
    }
  }

  lemma LookUpMinus<V>(a: map<string, V>, b: map<string, V>, k: string)
    requires a - {k} == b - {k}
    ensures forall n :: n != k ==> LookUp(a, n) == LookUp(b, n)
  {
    forall n | n != k
      ensures LookUp(a, n) == LookUp(b, n)
    {
      assert LookUp(a - {k}, n) == LookUp(b - {k}, n);
    }
  }

  lemma ServiceKeeps(config: NetplanConfig, origin: Core, w: World, i: nat, service: Service)
    requires Steady(config, origin, w) && service in config.services
    ensures Keeps(config, origin, ApplyService(w, i, service))
  {
    var r, name := ApplyService(w, i, service), Fold(service.name);
    ServiceShape(w, i, service);
    if Quiet(w, r.w) {
      QuietKeeps(config, origin, w, r);
    } else {
      var u := Last(r.w);
      PushUndoable(config, origin, w, r.w, u);
      RecordedAfter(w.rollback, u);
      LookUpMinus(r.w.core.services, w.core.services, name);
    }
  }

  lemma AddMappingShape(w: World, config: NetplanConfig, mapping: SmbMapping)
    requires mapping.local.Some? ==> Fold(mapping.local.value) !in w.core.drives
    ensures var r := AddMapping(w, config, mapping);
      && Sideways(w, r.w, None)
      && (Quiet(w, r.w) || (r.w.rollback != [] && Last(r.w) == UndoMapping(TargetOfMapping(mapping)) && Logged(w, r.w, Last(r.w))
                            && r.w.core == Mapped(w.core, mapping)))
  {
    if mapping.local.Some? {
      var drive := Fold(mapping.local.value);
      assert w.core.drives[drive := mapping.remote] - {drive} == w.core.drives;
    } else {
      var path := Fold(mapping.remote);
      assert ((w.core.remotes + {path}) - {path}) - {path} == w.core.remotes - {path};
    }
  }

  lemma MappingShape(w: World, config: NetplanConfig, i: nat, mapping: SmbMapping)
    ensures var r := ApplyMapping(w, i, config, mapping);
      && Sideways(w, r.w, None)
      && (Quiet(w, r.w) || (r.w.rollback != [] && Last(r.w) == UndoMapping(TargetOfMapping(mapping)) && Logged(w, r.w, Last(r.w))
                            && r.w.core == Mapped(w.core, mapping)))
  {
    var w1 := Attempt(w, Plan.MappingApply(i));
    if mapping.local.None? {
      AddMappingShape(w1, config, mapping);
    } else if Healthy(w1) && Fold(mapping.local.value) !in w.core.drives {
      AddMappingShape(Tick(w1), config, mapping);
    }
  }

  lemma MappingKeeps(config: NetplanConfig, origin: Core, w: World, i: nat, mapping: SmbMapping)
    requires Steady(config, origin, w) && mapping in config.mappings
    ensures Keeps(config, origin, ApplyMapping(w, i, config, mapping))
  {
    var r := ApplyMapping(w, i, config, mapping);
    MappingShape(w, config, i, mapping);
    if Quiet(w, r.w) {
      QuietKeeps(config, origin, w, r);
    } else if mapping.local.Some? {
      LoggedKeeps(config, origin, w, r, Last(r.w));
    } else {
      PushUndoable(config, origin, w, r.w, Last(r.w));
      RecordedAfter(w.rollback, Last(r.w));
    }
  }

  /** A share step: nothing, a record that undoes it, or an update left behind without a record. */
  lemma WriteShareShape(w: World, name: string, state: ShareState)
    ensures var r, previous := WriteShare(w, name, LookUp(w.core.shares, name), state), LookUp(w.core.shares, name);
      && Sideways(w, r.w, Some(name))
      && r.w.core == w.core.(shares := r.w.core.shares)
      && r.w.core.shares - {name} == w.core.shares - {name}
      && (|| Quiet(w, r.w)
          || (r.w.rollback != [] && Last(r.w) == UndoShare(name, previous) && r.w.rollback == w.rollback + [Last(r.w)] && r.w.unrepaired == w.unrepaired)
          || (r.Err? && previous.Some? && r.w.rollback == w.rollback && r.w.unrepaired == w.unrepaired + {name}
              && LookUp(r.w.core.shares, name) != previous))
  {
    var r, previous := WriteShare(w, name, LookUp(w.core.shares, name), state), LookUp(w.core.shares, name);
    if Healthy(w) && previous.Some? {
      var secured := Read(Tick(w).(core := w.core.(shares := w.core.shares[name := state])));
      if secured.Err? {
        var restored := RestoreShare(secured.w, name, previous.value).w;
        assert restored.core.shares == w.core.shares[name := state] || restored.core.shares == w.core.shares[name := state][name := previous.value];
        if Healthy(secured.w) || state == previous.value {
          assert restored.core.shares[name] == previous.value;
          StoreBack(w.core.shares, restored.core.shares, name);
          assert Store(restored.core.shares, name, previous) == restored.core.shares;
        }
      }
    }
  }

  lemma ShareShape(w: World, i: nat, config: NetplanConfig, share: SmbShare)
    ensures var r, name := ApplyShare(w, i, config, share), Fold(share.name);
      var previous := LookUp(w.core.shares, name);
      && Sideways(w, r.w, Some(name))
      && r.w.core == w.core.(shares := r.w.core.shares)
      && r.w.core.shares - {name} == w.core.shares - {name}
      && (|| Quiet(w, r.w)
          || (r.w.rollback != [] && Last(r.w) == UndoShare(name, previous) && r.w.rollback == w.rollback + [Last(r.w)] && r.w.unrepaired == w.unrepaired)
          || (r.Err? && previous.Some? && r.w.rollback == w.rollback && r.w.unrepaired == w.unrepaired + {name}
              && LookUp(r.w.core.shares, name) != previous))
  {
    var w1 := Attempt(w, Plan.ShareApply(i));
    var security := ShareSecurity(config, share);
    if Healthy(w1) && security.Some? && Healthy(Tick(w1)) {
      WriteShareShape(Tick(Tick(w1)), Fold(share.name), ShareState(share.path, share.description, security.value, 0));
    }
  }

  lemma ShareLogged(config: NetplanConfig, origin: Core, w: World, r: Run, name: string)
    requires Steady(config, origin, w)
    requires r.w.core == w.core.(shares := r.w.core.shares) && r.w.core.shares - {name} == w.core.shares - {name}
    requires r.w.rollback == w.rollback + [UndoShare(name, LookUp(w.core.shares, name))] && r.w.unrepaired == {}
    ensures Keeps(config, origin, r)
  {
    var u := UndoShare(name, LookUp(w.core.shares, name));
    StoreBack(w.core.shares, r.w.core.shares, name);
    assert UndoCore(r.w.core, u) == w.core;
    PushUndoable(config, origin, w, r.w, u);
    RecordedAfter(w.rollback, u);
    LookUpMinus(r.w.core.shares, w.core.shares, name);
  }

  lemma ShareUnrepaired(config: NetplanConfig, origin: Core, w: World, after: World, name: string)
    requires Steady(config, origin, w)
    requires after.core == w.core.(shares := after.core.shares) && after.core.shares - {name} == w.core.shares - {name}
    requires after.rollback == w.rollback && after.unrepaired == {name}
    ensures Undoable(origin, after)
  {
    var d := DriftOf(origin, after);
    assert after.core.services - d.services == w.core.services - d.services;
    ReplayAgrees(after.core, w.core, w.rollback, d);
    AgreeWider(Replay(w.core, w.rollback), origin, DriftOf(origin, w), d);
    AgreeThrough(Replay(after.core, w.rollback), Replay(w.core, w.rollback), origin, d);
  }

  lemma ShareKeeps(config: NetplanConfig, origin: Core, w: World, i: nat, share: SmbShare)
    requires Steady(config, origin, w) && share in config.shares && Fold(share.name) !in Shares(w.rollback)
    ensures Keeps(config, origin, ApplyShare(w, i, config, share))
  {
    var r, name := ApplyShare(w, i, config, share), Fold(share.name);
    ShareShape(w, i, config, share);
    if Quiet(w, r.w) {
      QuietKeeps(config, origin, w, r);
    } else if r.w.rollback != w.rollback {
      ShareLogged(config, origin, w, r, name);
    } else {
      assert r.w.unrepaired == {name};
      ShareUnrepaired(config, origin, w, r.w, name);
      assert LookUp(w.core.shares, name) == LookUp(origin.shares, name);
    }
  }

  /**
   An existing share whose second call fails is written back at once: it is as it was if and only if the
   call that writes it back goes well or nothing was to change.
   */
  lemma ShareWrittenBackIff(w: World, name: string, state: ShareState)
    requires name in w.core.shares && |w.faults| >= 3 && !w.faults[0].Bad? && w.faults[1].Bad?
    ensures var r := WriteShare(w, name, Some(w.core.shares[name]), state);
      && r.Err? && r.w.rollback == w.rollback
      && (r.w.core == w.core <==> !w.faults[2].Bad? || state == w.core.shares[name])
      && (name in r.w.unrepaired <==> name in w.unrepaired || r.w.core != w.core)
  {
    var previous := w.core.shares[name];
    var w1 := Tick(w).(core := w.core.(shares := w.core.shares[name := state]));
    assert w1.faults[0] == w.faults[1] && Tick(w1).faults == w.faults[2..];
    assert w.core.shares[name := state][name := previous] == w.core.shares;
    assert state == previous ==> w.core.shares[name := state] == w.core.shares;
    assert w.core.shares[name := state][name] == state;
  }
}

/**
 Interface selectors: how one resolves to an adapter of the inventory, the runtime protection
 of management interfaces, and the static comparison made while validating a document.
 */
module Selectors {
  import opened Std
  import opened Text
  import opened Config
  import opened Model

  datatype ErrorKind = InvalidConfig | Unsupported | PermissionDenied | NotFound | Internal

  datatype WifiInterface = WifiInterface(guid: nat, ifIndex: u32)

  const BRACES: set<char> := {'{', '}'}

  function CanonicalGuid(guid: string): string {
    Fold(TrimMatches(guid, BRACES))
  }

  function CanonicalMac(mac: string): string {
    var compact := Filter(mac, {':', '-'});
    seq(|compact|, i requires 0 <= i < |compact| => UpperChar(compact[i]))
  }

  predicate OccursAt(s: string, part: string, i: int) {
    0 <= i <= |s| - |part| && s[i..i + |part|] == part
  }

  predicate ContainsText(s: string, part: string) {
    exists i :: 0 <= i <= |s| - |part| && OccursAt(s, part, i)
  }

  // Runtime resolution.

  predicate SelectorMatches(selector: InterfaceSelector, adapter: AdapterInfo) {
    && (selector.ifIndex.Some? ==> selector.ifIndex.value == adapter.ifIndex)
    && (selector.name.Some? ==> SameIgnoringCase(selector.name.value, adapter.name))
    && (selector.guid.Some? ==> adapter.guid.Some? && CanonicalGuid(selector.guid.value) == CanonicalGuid(adapter.guid.value))
    && (selector.mac.Some? ==> adapter.mac.Some? && CanonicalMac(selector.mac.value) == CanonicalMac(adapter.mac.value))
    && (selector.description.Some? ==>
          adapter.description.Some? && ContainsText(Fold(adapter.description.value), Fold(selector.description.value)))
  }

  /** The positions, from `start` on, of the adapters a selector matches. */
  function MatchesFrom(inventory: seq<AdapterInfo>, selector: InterfaceSelector, start: nat): (r: seq<nat>)
    requires start <= |inventory|
    ensures forall i :: i in r <==> start <= i < |inventory| && SelectorMatches(selector, inventory[i])
    ensures Distinct(r)
    decreases |inventory| - start
  {
    if start == |inventory| then []
    else (if SelectorMatches(selector, inventory[start]) then [start] else []) + MatchesFrom(inventory, selector, start + 1)
  }

  /** The adapter at position `i` is the one and only match. */
  predicate OnlyMatch(inventory: seq<AdapterInfo>, selector: InterfaceSelector, i: nat) {
    && i < |inventory|
    && SelectorMatches(selector, inventory[i])
    && forall j :: 0 <= j < |inventory| && SelectorMatches(selector, inventory[j]) ==> j == i
  }

  function ResolveAdapter(inventory: seq<AdapterInfo>, selector: InterfaceSelector): (r: Result<nat, ErrorKind>)
    ensures r.Success? ==> OnlyMatch(inventory, selector, r.value)
    ensures (exists i: nat :: OnlyMatch(inventory, selector, i)) ==> r.Success?
    ensures r == Failure(NotFound) <==> forall i :: 0 <= i < |inventory| ==> !SelectorMatches(selector, inventory[i])
    ensures r.Failure? ==> r.error in {NotFound, InvalidConfig}
  {
    var matches := MatchesFrom(inventory, selector, 0);
    if |matches| == 1 then
      assert forall j :: 0 <= j < |inventory| && SelectorMatches(selector, inventory[j]) ==> j in matches && j == matches[0];
      assert matches[0] in matches;
      Success(matches[0])
    else if matches == [] then
      assert forall i: nat :: i < |inventory| && SelectorMatches(selector, inventory[i]) ==> i in matches;
      Failure(NotFound)
    else
      assert matches[0] in matches && matches[1] in matches;
      Failure(InvalidConfig)
  }

  function ResolveWifi(inventory: seq<AdapterInfo>, interfaces: seq<WifiInterface>, selector: Option<InterfaceSelector>): (r: Result<nat, ErrorKind>)
    ensures r.Success? ==> r.value < |interfaces|
    ensures r.Failure? ==> r.error in {NotFound, InvalidConfig}
  {
    if selector.Some? then
      var adapter :- ResolveAdapter(inventory, selector.value);
      FindInterface(interfaces, inventory[adapter].ifIndex, 0)
    else if interfaces == [] then Failure(NotFound)
    else if |interfaces| > 1 then Failure(InvalidConfig)
    else Success(0)
  }

  function FindInterface(interfaces: seq<WifiInterface>, ifIndex: u32, start: nat): (r: Result<nat, ErrorKind>)
    requires start <= |interfaces|
    ensures r.Success? ==> start <= r.value < |interfaces| && interfaces[r.value].ifIndex == ifIndex
    ensures r.Success? ==> forall i :: start <= i < r.value ==> interfaces[i].ifIndex != ifIndex
    ensures r.Failure? <==> forall i :: start <= i < |interfaces| ==> interfaces[i].ifIndex != ifIndex
    ensures r.Failure? ==> r.error == InvalidConfig
    decreases |interfaces| - start
  {
    if start == |interfaces| then Failure(InvalidConfig)
    else if interfaces[start].ifIndex == ifIndex then Success(start)
    else FindInterface(interfaces, ifIndex, start + 1)
  }

  /**
   Which interface is chosen: without a selector the only one there is, otherwise the first on the
   one adapter the selector matches.
   */
  lemma WifiResolvedIff(inventory: seq<AdapterInfo>, interfaces: seq<WifiInterface>, selector: Option<InterfaceSelector>, k: nat)
    ensures ResolveWifi(inventory, interfaces, selector) == Success(k) <==>
      && k < |interfaces|
      && match selector
         case None => |interfaces| == 1
         case Some(s) => exists i: nat ::
           && OnlyMatch(inventory, s, i) && interfaces[k].ifIndex == inventory[i].ifIndex
           && forall j :: 0 <= j < k ==> interfaces[j].ifIndex != inventory[i].ifIndex
  {
    if selector.Some? {
      var adapter := ResolveAdapter(inventory, selector.value);
      if adapter.Success? {
        assert OnlyMatch(inventory, selector.value, adapter.value);
      }
    }
  }

  /** Nothing is found where no adapter matches or no interface is there; anything else is a fault of the document. */
  lemma WifiNotFoundIff(inventory: seq<AdapterInfo>, interfaces: seq<WifiInterface>, selector: Option<InterfaceSelector>)
    ensures ResolveWifi(inventory, interfaces, selector) == Failure(NotFound) <==>
      match selector
      case None => interfaces == []
      case Some(s) => forall i :: 0 <= i < |inventory| ==> !SelectorMatches(s, inventory[i])
  {
  }

  // Runtime protection.

  function ActionSelector(action: WifiAction): Option<InterfaceSelector> {
    action.selector
  }

  /** The interface index an adapter selector resolves to. */
  function IndexOf(inventory: seq<AdapterInfo>, selector: InterfaceSelector): Result<u32, ErrorKind> {
    var i :- ResolveAdapter(inventory, selector);
    Success(inventory[i].ifIndex)
  }

  function WifiIndexOf(inventory: seq<AdapterInfo>, interfaces: seq<WifiInterface>, selector: Option<InterfaceSelector>): Result<u32, ErrorKind> {
    var i :- ResolveWifi(inventory, interfaces, selector);
    Success(interfaces[i].ifIndex)
  }

  /** The index each operation of the document would touch, in the order they are resolved. */
  function TargetOf(config: NetplanConfig, inventory: seq<AdapterInfo>, interfaces: seq<WifiInterface>, t: Target): Result<u32, ErrorKind>
    requires Declares(config, t)
  {
    match t
    case AdapterTarget(i) => IndexOf(inventory, config.adapters[i].selector)
    case ProfileTarget(i) => WifiIndexOf(inventory, interfaces, config.wifi[i].selector)
    case ActionTarget(i) => WifiIndexOf(inventory, interfaces, ActionSelector(config.wifiActions[i]))
    case DriverTarget(i) => IndexOf(inventory, config.drivers[i].selector)
  }

  datatype Target = AdapterTarget(index: nat) | ProfileTarget(index: nat) | ActionTarget(index: nat) | DriverTarget(index: nat)

  predicate Declares(config: NetplanConfig, t: Target) {
    match t
    case AdapterTarget(i) => i < |config.adapters|
    case ProfileTarget(i) => i < |config.wifi|
    case ActionTarget(i) => i < |config.wifiActions|
    case DriverTarget(i) => i < |config.drivers| && config.drivers[i].RestartAdapter?
  }

  ghost predicate GuardsResolve(config: NetplanConfig, inventory: seq<AdapterInfo>) {
    forall p :: p in config.protectedInterfaces ==> IndexOf(inventory, p).Success?
  }

  ghost predicate EntriesDistinct(config: NetplanConfig, inventory: seq<AdapterInfo>) {
    forall i, j :: 0 <= i < j < |config.adapters| ==>
      IndexOf(inventory, config.adapters[i].selector) != IndexOf(inventory, config.adapters[j].selector)
  }

  ghost predicate TargetsResolve(config: NetplanConfig, inventory: seq<AdapterInfo>, interfaces: seq<WifiInterface>) {
    forall t: Target :: Declares(config, t) ==> TargetOf(config, inventory, interfaces, t).Success?
  }

  ghost predicate NoTargetGuarded(config: NetplanConfig, inventory: seq<AdapterInfo>, interfaces: seq<WifiInterface>) {
    forall t: Target, p :: Declares(config, t) && p in config.protectedInterfaces ==>
      TargetOf(config, inventory, interfaces, t) != IndexOf(inventory, p)
  }

  /** What the runtime check promises about every operation of the document. */
  ghost predicate Protected(config: NetplanConfig, inventory: seq<AdapterInfo>, interfaces: seq<WifiInterface>) {
    && GuardsResolve(config, inventory)
    && TargetsResolve(config, inventory, interfaces)
    && EntriesDistinct(config, inventory)
    && NoTargetGuarded(config, inventory, interfaces)
  }

  lemma Unresolved(config: NetplanConfig, inventory: seq<AdapterInfo>, interfaces: seq<WifiInterface>, t: Target)
    requires Declares(config, t) && TargetOf(config, inventory, interfaces, t).Failure?
    ensures !TargetsResolve(config, inventory, interfaces)
  {
  }

  lemma EntriesResolve(config: NetplanConfig, inventory: seq<AdapterInfo>, interfaces: seq<WifiInterface>)
    ensures TargetsResolve(config, inventory, interfaces) ==>
      forall i :: 0 <= i < |config.adapters| ==> IndexOf(inventory, config.adapters[i].selector).Success?
  {
    if TargetsResolve(config, inventory, interfaces) {
      forall i | 0 <= i < |config.adapters|
        ensures IndexOf(inventory, config.adapters[i].selector).Success?
      {
        assert TargetOf(config, inventory, interfaces, AdapterTarget(i)).Success?;
      }
    }
  }

  method GuardedIndexes(config: NetplanConfig, inventory: seq<AdapterInfo>) returns (r: Result<seq<u32>, ErrorKind>)
    ensures r.Success? <==> GuardsResolve(config, inventory)
    ensures r.Failure? ==> r.error in {NotFound, InvalidConfig}
    ensures r.Success? ==> forall x :: x in r.value <==> exists p :: p in config.protectedInterfaces && IndexOf(inventory, p) == Success(x)
  {
    var guarded: seq<u32> := [];
    for k := 0 to |config.protectedInterfaces|
      invariant |guarded| == k
      invariant forall i :: 0 <= i < k ==> IndexOf(inventory, config.protectedInterfaces[i]) == Success(guarded[i])
    {
      var index := IndexOf(inventory, config.protectedInterfaces[k]);
      if index.Failure? {
        return Failure(index.error);
      }
      guarded := guarded + [index.value];
    }
    forall x | x in guarded
      ensures exists p :: p in config.protectedInterfaces && IndexOf(inventory, p) == Success(x)
    {
      var i :| 0 <= i < |guarded| && guarded[i] == x;
      assert config.protectedInterfaces[i] in config.protectedInterfaces;
    }
    return Success(guarded);
  }

  method AdapterIndexes(config: NetplanConfig, inventory: seq<AdapterInfo>) returns (r: Result<seq<u32>, ErrorKind>)
    ensures r.Success? <==>
      && (forall i :: 0 <= i < |config.adapters| ==> IndexOf(inventory, config.adapters[i].selector).Success?)
      && EntriesDistinct(config, inventory)
    ensures r.Failure? ==> r.error in {NotFound, InvalidConfig}
    ensures r.Failure? && (forall i :: 0 <= i < |config.adapters| ==> IndexOf(inventory, config.adapters[i].selector).Success?) ==>
      r.error == InvalidConfig
    ensures r.Success? ==> |r.value| == |config.adapters|
    ensures r.Success? ==> forall i :: 0 <= i < |r.value| ==> IndexOf(inventory, config.adapters[i].selector) == Success(r.value[i])
  {
    var targets: seq<u32> := [];
    for k := 0 to |config.adapters|
      invariant |targets| == k && Distinct(targets)
      invariant forall i :: 0 <= i < k ==> IndexOf(inventory, config.adapters[i].selector) == Success(targets[i])
    {
      var index := IndexOf(inventory, config.adapters[k].selector);
      if index.Failure? {
        return Failure(index.error);
      }
      if index.value in targets {
        var i :| 0 <= i < |targets| && targets[i] == index.value;
        assert IndexOf(inventory, config.adapters[i].selector) == IndexOf(inventory, config.adapters[k].selector);
        return Failure(InvalidConfig);
      }
      targets := targets + [index.value];
    }
    return Success(targets);
  }

  method WifiIndexes(inventory: seq<AdapterInfo>, interfaces: seq<WifiInterface>, selectors: seq<Option<InterfaceSelector>>)
    returns (r: Result<seq<u32>, ErrorKind>)
    ensures r.Success? <==> forall i :: 0 <= i < |selectors| ==> WifiIndexOf(inventory, interfaces, selectors[i]).Success?
    ensures r.Failure? ==> r.error in {NotFound, InvalidConfig}
    ensures r.Success? ==> |r.value| == |selectors|
    ensures r.Success? ==> forall i :: 0 <= i < |r.value| ==> WifiIndexOf(inventory, interfaces, selectors[i]) == Success(r.value[i])
  {
    var targets: seq<u32> := [];
    for k := 0 to |selectors|
      invariant |targets| == k
      invariant forall i :: 0 <= i < k ==> WifiIndexOf(inventory, interfaces, selectors[i]) == Success(targets[i])
    {
      var index := WifiIndexOf(inventory, interfaces, selectors[k]);
      if index.Failure? {
        return Failure(index.error);
      }
      targets := targets + [index.value];
    }
    return Success(targets);
  }

  predicate RestartOf(config: NetplanConfig, inventory: seq<AdapterInfo>, i: nat, x: u32) {
    i < |config.drivers| && config.drivers[i].RestartAdapter? && IndexOf(inventory, config.drivers[i].selector) == Success(x)
  }

  method DriverIndexes(config: NetplanConfig, inventory: seq<AdapterInfo>) returns (r: Result<seq<u32>, ErrorKind>)
    ensures r.Success? <==> forall i :: 0 <= i < |config.drivers| && config.drivers[i].RestartAdapter? ==>
                              IndexOf(inventory, config.drivers[i].selector).Success?
    ensures r.Failure? ==> r.error in {NotFound, InvalidConfig}
    ensures r.Success? ==> forall x :: x in r.value <==> exists i: nat :: RestartOf(config, inventory, i, x)
  {
    var targets: seq<u32> := [];
    for k := 0 to |config.drivers|
      invariant forall i :: 0 <= i < k && config.drivers[i].RestartAdapter? ==> IndexOf(inventory, config.drivers[i].selector).Success?
      invariant forall x :: x in targets ==> exists i: nat :: i < k && RestartOf(config, inventory, i, x)
      invariant forall i: nat, x :: i < k && RestartOf(config, inventory, i, x) ==> x in targets
    {
      if config.drivers[k].RestartAdapter? {
        var index := IndexOf(inventory, config.drivers[k].selector);
        if index.Failure? {
          return Failure(index.error);
        }
        assert RestartOf(config, inventory, k, index.value);
        targets := targets + [index.value];
      }
    }
    return Success(targets);
  }

  predicate TouchedBy(config: NetplanConfig, inventory: seq<AdapterInfo>, interfaces: seq<WifiInterface>, t: Target, x: u32) {
    Declares(config, t) && TargetOf(config, inventory, interfaces, t) == Success(x)
  }

  method TargetIndexes(config: NetplanConfig, inventory: seq<AdapterInfo>, interfaces: seq<WifiInterface>)
    returns (r: Result<seq<u32>, ErrorKind>)
    ensures r.Success? <==> TargetsResolve(config, inventory, interfaces) && EntriesDistinct(config, inventory)
    ensures r.Failure? ==> r.error in {NotFound, InvalidConfig}
    ensures r.Failure? && TargetsResolve(config, inventory, interfaces) ==> r.error == InvalidConfig
    ensures r.Success? ==> forall x :: x in r.value <==> exists t :: TouchedBy(config, inventory, interfaces, t, x)
  {
    var adapters := AdapterIndexes(config, inventory);
    EntriesResolve(config, inventory, interfaces);
    if adapters.Failure? {
      if EntriesDistinct(config, inventory) {
        ghost var i :| 0 <= i < |config.adapters| && IndexOf(inventory, config.adapters[i].selector).Failure?;
        Unresolved(config, inventory, interfaces, AdapterTarget(i));
      }
      return Failure(adapters.error);
    }
    var profileSelectors := seq(|config.wifi|, i requires 0 <= i < |config.wifi| => config.wifi[i].selector);
    var profiles := WifiIndexes(inventory, interfaces, profileSelectors);
    if profiles.Failure? {
      ghost var i :| 0 <= i < |config.wifi| && WifiIndexOf(inventory, interfaces, profileSelectors[i]).Failure?;
      Unresolved(config, inventory, interfaces, ProfileTarget(i));
      return Failure(profiles.error);
    }
    var actionSelectors := seq(|config.wifiActions|, i requires 0 <= i < |config.wifiActions| => ActionSelector(config.wifiActions[i]));
    var actions := WifiIndexes(inventory, interfaces, actionSelectors);
    if actions.Failure? {
      ghost var i :| 0 <= i < |config.wifiActions| && WifiIndexOf(inventory, interfaces, actionSelectors[i]).Failure?;
      Unresolved(config, inventory, interfaces, ActionTarget(i));
      return Failure(actions.error);
    }
    var drivers := DriverIndexes(config, inventory);
    if drivers.Failure? {
      ghost var i :| 0 <= i < |config.drivers| && config.drivers[i].RestartAdapter? && IndexOf(inventory, config.drivers[i].selector).Failure?;
      Unresolved(config, inventory, interfaces, DriverTarget(i));
      return Failure(drivers.error);
    }
    TargetsComplete(config, inventory, interfaces, adapters.value, profiles.value, actions.value, drivers.value);
    return Success(adapters.value + profiles.value + actions.value + drivers.value);
  }

  /** The indexes of the guards and of the targets, as collected. */
  ghost predicate Gathered(config: NetplanConfig, inventory: seq<AdapterInfo>, interfaces: seq<WifiInterface>,
                           guarded: seq<u32>, targets: seq<u32>)
  {
    && (forall x :: x in guarded <==> exists p :: p in config.protectedInterfaces && IndexOf(inventory, p) == Success(x))
    && (forall x :: x in targets <==> exists t :: TouchedBy(config, inventory, interfaces, t, x))
  }

  lemma GuardTouched(config: NetplanConfig, inventory: seq<AdapterInfo>, interfaces: seq<WifiInterface>,
                     guarded: seq<u32>, targets: seq<u32>, x: u32)
    requires Gathered(config, inventory, interfaces, guarded, targets) && x in guarded && x in targets
    ensures !NoTargetGuarded(config, inventory, interfaces)
  {
    var p :| p in config.protectedInterfaces && IndexOf(inventory, p) == Success(x);
    var t :| TouchedBy(config, inventory, interfaces, t, x);
  }

  lemma NoneGuarded(config: NetplanConfig, inventory: seq<AdapterInfo>, interfaces: seq<WifiInterface>,
                    guarded: seq<u32>, targets: seq<u32>)
    requires Gathered(config, inventory, interfaces, guarded, targets) && TargetsResolve(config, inventory, interfaces)
    requires forall x :: x in targets ==> x !in guarded
    ensures NoTargetGuarded(config, inventory, interfaces)
  {
    forall t: Target, p | Declares(config, t) && p in config.protectedInterfaces
      ensures TargetOf(config, inventory, interfaces, t) != IndexOf(inventory, p)
    {
      var x := TargetOf(config, inventory, interfaces, t).value;
      assert TouchedBy(config, inventory, interfaces, t, x);
    }
  }

  /** Rejects a document whose operations resolve to nothing, to one adapter twice or to a protected adapter. */
  method ValidateRuntimeProtection(config: NetplanConfig, inventory: seq<AdapterInfo>, interfaces: seq<WifiInterface>)
    returns (r: Result<(), ErrorKind>)
    ensures r.Success? <==> Protected(config, inventory, interfaces)
    ensures r.Failure? ==> r.error in {NotFound, InvalidConfig}
    ensures r.Failure? && GuardsResolve(config, inventory) && TargetsResolve(config, inventory, interfaces) ==> r.error == InvalidConfig
  {
    var guarded := GuardedIndexes(config, inventory);
    if guarded.Failure? {
      return Failure(guarded.error);
    }
    var targets := TargetIndexes(config, inventory, interfaces);
    if targets.Failure? {
      return Failure(targets.error);
    }
    for k := 0 to |targets.value|
      invariant forall i :: 0 <= i < k ==> targets.value[i] !in guarded.value
    {
      var x := targets.value[k];
      if x in guarded.value {
        GuardTouched(config, inventory, interfaces, guarded.value, targets.value, x);
        return Failure(InvalidConfig);
      }
    }
    NoneGuarded(config, inventory, interfaces, guarded.value, targets.value);
    return Success(());
  }

  /** The indexes collected kind by kind, in the order of the declarations. */
  ghost predicate Collected(config: NetplanConfig, inventory: seq<AdapterInfo>, interfaces: seq<WifiInterface>,
                            adapters: seq<u32>, profiles: seq<u32>, actions: seq<u32>, drivers: seq<u32>)
  {
    && |adapters| == |config.adapters|
    && (forall i :: 0 <= i < |adapters| ==> IndexOf(inventory, config.adapters[i].selector) == Success(adapters[i]))
    && |profiles| == |config.wifi|
    && (forall i :: 0 <= i < |profiles| ==> WifiIndexOf(inventory, interfaces, config.wifi[i].selector) == Success(profiles[i]))
    && |actions| == |config.wifiActions|
    && (forall i :: 0 <= i < |actions| ==> WifiIndexOf(inventory, interfaces, ActionSelector(config.wifiActions[i])) == Success(actions[i]))
    && (forall i :: 0 <= i < |config.drivers| && config.drivers[i].RestartAdapter? ==> IndexOf(inventory, config.drivers[i].selector).Success?)
    && (forall x :: x in drivers <==> exists i: nat :: RestartOf(config, inventory, i, x))
  }

  lemma TargetCollected(config: NetplanConfig, inventory: seq<AdapterInfo>, interfaces: seq<WifiInterface>,
                        adapters: seq<u32>, profiles: seq<u32>, actions: seq<u32>, drivers: seq<u32>, t: Target)
    requires Collected(config, inventory, interfaces, adapters, profiles, actions, drivers) && Declares(config, t)
    ensures TargetOf(config, inventory, interfaces, t).Success?
    ensures TargetOf(config, inventory, interfaces, t).value in adapters + profiles + actions + drivers
  {
    if t.DriverTarget? {
      assert RestartOf(config, inventory, t.index, IndexOf(inventory, config.drivers[t.index].selector).value);
    }
  }

  lemma CollectedTouched(config: NetplanConfig, inventory: seq<AdapterInfo>, interfaces: seq<WifiInterface>,
                         adapters: seq<u32>, profiles: seq<u32>, actions: seq<u32>, drivers: seq<u32>, x: u32)
    requires Collected(config, inventory, interfaces, adapters, profiles, actions, drivers)
    requires x in adapters + profiles + actions + drivers
    ensures exists t :: TouchedBy(config, inventory, interfaces, t, x)
  {
    if x in adapters {
      var i :| 0 <= i < |adapters| && adapters[i] == x;
      assert TouchedBy(config, inventory, interfaces, AdapterTarget(i), x);
    } else if x in profiles {
      var i :| 0 <= i < |profiles| && profiles[i] == x;
      assert TouchedBy(config, inventory, interfaces, ProfileTarget(i), x);
    } else if x in actions {
      var i :| 0 <= i < |actions| && actions[i] == x;
      assert TouchedBy(config, inventory, interfaces, ActionTarget(i), x);
    } else {
      var i: nat :| RestartOf(config, inventory, i, x);
      assert TouchedBy(config, inventory, interfaces, DriverTarget(i), x);
    }
  }

  /** The collected indexes are exactly those the declared operations resolve to. */
  lemma TargetsComplete(config: NetplanConfig, inventory: seq<AdapterInfo>, interfaces: seq<WifiInterface>,
                        adapters: seq<u32>, profiles: seq<u32>, actions: seq<u32>, drivers: seq<u32>)
    requires Collected(config, inventory, interfaces, adapters, profiles, actions, drivers)
    ensures TargetsResolve(config, inventory, interfaces)
    ensures forall x :: x in adapters + profiles + actions + drivers <==> exists t :: TouchedBy(config, inventory, interfaces, t, x)
  {
    forall t: Target | Declares(config, t)
      ensures TargetOf(config, inventory, interfaces, t).Success?
        && TargetOf(config, inventory, interfaces, t).value in adapters + profiles + actions + drivers
    {
      TargetCollected(config, inventory, interfaces, adapters, profiles, actions, drivers, t);
    }
    forall x | x in adapters + profiles + actions + drivers
      ensures exists t :: TouchedBy(config, inventory, interfaces, t, x)
    {
      CollectedTouched(config, inventory, interfaces, adapters, profiles, actions, drivers, x);
    }
  }

  /** Position of the adapter an entry names, when the runtime check has passed. */
  lemma EntriesOnDistinctAdapters(config: NetplanConfig, inventory: seq<AdapterInfo>, interfaces: seq<WifiInterface>, i: nat, j: nat)
    requires Protected(config, inventory, interfaces) && i < j < |config.adapters|
    ensures var a, b := ResolveAdapter(inventory, config.adapters[i].selector), ResolveAdapter(inventory, config.adapters[j].selector);
      a.Success? && b.Success? && a.value != b.value
      && OnlyMatch(inventory, config.adapters[i].selector, a.value)
  {
    assert Declares(config, AdapterTarget(i)) && Declares(config, AdapterTarget(j));
    assert IndexOf(inventory, config.adapters[i].selector) != IndexOf(inventory, config.adapters[j].selector);
  }

  // The static comparison.

  predicate SharesNonDescription(a: InterfaceSelector, b: InterfaceSelector) {
    || (a.ifIndex.Some? && b.ifIndex.Some? && a.ifIndex.value == b.ifIndex.value)
    || (a.name.Some? && b.name.Some? && SameIgnoringCase(a.name.value, b.name.value))
    || (a.guid.Some? && b.guid.Some? && CanonicalGuid(a.guid.value) == CanonicalGuid(b.guid.value))
    || (a.mac.Some? && b.mac.Some? && CanonicalMac(a.mac.value) == CanonicalMac(b.mac.value))
  }

  predicate SharesStableMatcher(a: InterfaceSelector, b: InterfaceSelector) {
    SharesNonDescription(a, b)
    || (a.description.Some? && b.description.Some? && SameIgnoringCase(a.description.value, b.description.value))
  }

  /** Each identifying property singles out at most one adapter. */
  ghost predicate UniqueInventory(inventory: seq<AdapterInfo>) {
    forall i, j :: 0 <= i < j < |inventory| ==>
      var a, b := inventory[i], inventory[j];
      && a.ifIndex != b.ifIndex
      && !SameIgnoringCase(a.name, b.name)
      && (a.guid.Some? && b.guid.Some? ==> CanonicalGuid(a.guid.value) != CanonicalGuid(b.guid.value))
      && (a.mac.Some? && b.mac.Some? ==> CanonicalMac(a.mac.value) != CanonicalMac(b.mac.value))
  }

  /** Two selectors that share a matcher other than the description and resolve, resolve alike. */
  lemma SharedMatcherSameAdapter(inventory: seq<AdapterInfo>, a: InterfaceSelector, b: InterfaceSelector)
    requires UniqueInventory(inventory) && SharesNonDescription(a, b)
    requires ResolveAdapter(inventory, a).Success? && ResolveAdapter(inventory, b).Success?
    ensures ResolveAdapter(inventory, a) == ResolveAdapter(inventory, b)
  {
    var i, j := ResolveAdapter(inventory, a).value, ResolveAdapter(inventory, b).value;
    assert SelectorMatches(a, inventory[i]) && SelectorMatches(b, inventory[j]);
    if i < j {
      assert false;
    } else if j < i {
      assert false;
    }
  }

  /**
   A static rejection that is not only about descriptions never refuses a document the runtime
   check would accept: the runtime check refuses it too.
   */
  lemma StaticRejectionAgrees(config: NetplanConfig, inventory: seq<AdapterInfo>, interfaces: seq<WifiInterface>,
                              t: Target, selector: InterfaceSelector, guard: InterfaceSelector)
    requires UniqueInventory(inventory) && guard in config.protectedInterfaces && Declares(config, t)
    requires match t
      case AdapterTarget(i) => config.adapters[i].selector == selector
      case ProfileTarget(i) => config.wifi[i].selector == Some(selector)
      case ActionTarget(i) => ActionSelector(config.wifiActions[i]) == Some(selector)
      case DriverTarget(i) => config.drivers[i].selector == selector
    requires SharesNonDescription(guard, selector)
    ensures !Protected(config, inventory, interfaces)
  {
    if Protected(config, inventory, interfaces) {
      var target := TargetOf(config, inventory, interfaces, t);
      assert target.Success? && IndexOf(inventory, guard).Success? && target != IndexOf(inventory, guard);
      assert ResolveAdapter(inventory, selector).Success?;
      SharedMatcherSameAdapter(inventory, guard, selector);
      assert false;
    }
  }

  /** A description alone is not enough: here the static rule refuses what the runtime check accepts. */
  lemma DescriptionRejectionDiffers()
    ensures exists config: NetplanConfig, inventory: seq<AdapterInfo> ::
      && UniqueInventory(inventory)
      && |config.adapters| == 1 && |config.protectedInterfaces| == 1
      && SharesStableMatcher(config.protectedInterfaces[0], config.adapters[0].selector)
      && Protected(config, inventory, [])
  {
    var first := AdapterInfo(1, "a", Some("x"), None, None, "up", true, [], []);
    var second := AdapterInfo(2, "b", Some("x"), None, None, "up", true, [], []);
    var inventory := [first, second];
    var guard := InterfaceSelector(Some(1), None, None, None, Some("x"));
    var target := InterfaceSelector(Some(2), None, None, None, Some("x"));
    var config := EMPTY_CONFIG.(protectedInterfaces := [guard], adapters := [AdapterConfig(target, None, None, None)]);
    var x := Fold("x");
    assert OccursAt(x, x, 0);
    assert ContainsText(x, x);
    assert !SameIgnoringCase("a", "b") by {
      assert Fold("a")[0] == 'a' && Fold("b")[0] == 'b';
    }
    assert OnlyMatch(inventory, guard, 0) && OnlyMatch(inventory, target, 1);
    assert IndexOf(inventory, guard) == Success(1) && IndexOf(inventory, target) == Success(2);
    assert SharesStableMatcher(guard, target);
    assert forall t: Target :: Declares(config, t) ==> t == AdapterTarget(0);
    assert Protected(config, inventory, []);
  }
}

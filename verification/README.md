# netplan: verified models

netplan is a Windows network configurator: a daemon accepts a declarative document over a framed
protocol, validates it, plans it, and applies it as a transaction that is rolled back when a step
fails. This project models the parts of it whose correctness is hardest to see from the code and
proves what they promise, for every document, every machine and every point of failure.

Run `dafny verify dfyconfig.toml` to check everything.

## What is modelled

**The live-apply transaction** (`Machine`, `Transaction`, `LiveApply`). The machine is a state record:
identity, adapters with their switch, address override and IPv4 state, Wi-Fi profiles and connections,
services, SMB accounts, shares and mappings, firewall. Every call into Windows is a primitive that
succeeds or fails as a fault sequence says, so a statement over all fault sequences is a statement over
all points of failure. A failed call may leave arbitrary junk behind where the code writes its undo
record first (IPv4, Wi-Fi, services, firewall). `Transaction` defines the outcome of a run as a
function; `LiveApply.Session` is the imperative form, a class that changes the machine and its undo log
step by step and is proved against that function.

**Rollback** (`Restoration`, `AdapterUndo`, `DriverPhase`, `RunInvariant`, `Replaying`,
`RollbackTheorem`, `Settlement`, `ExactRollback`, `SafeStart`, `Switches`, `UndoOrder`, `RollbackGaps`,
`OverrideGaps`, `RunRecords`, `Aftermath`, `FaultlessRollback`). Wherever a run stops, its undo log leads
back to the start. `Aftermath` says what happens then, whatever fails on the way back, and
`FaultlessRollback` where that leads when nothing more fails. A job that reports
`rolled_back` has restored everything but IPv4 if and only if four things did not happen. `Settlement`
carries through every run where its entries leave their adapters, and `ExactRollback` concludes when the
IPv4 state of an adapter is exactly as it was, on the state before the run, the target and what the
network offers; the comparison the code makes is coarser than equality. `RollbackGaps` exhibits a run for
each of the four and one for the comparison, `OverrideGaps` two for restarts.

**Success** (`InEffect`, `Success`, `FaultFree`). What a run that reports success means for the machine:
every declaration is in effect at the end, with its exact exceptions. And exactly which documents succeed on
which machines when no call fails.

**Protection** (`Guarded`). No protected adapter, and no Wi-Fi interface on one, is touched by a run the
runtime check admits, on the way or on the way back.

**IPv4** (`Ipv4Recovery`, `Ipv4Restoration`, `Ipv4Interruption`, `Ipv4Dhcp`). The netsh command lists, a
model of what each command does, capture, repair, cleanup and the final comparison. From every
interruption point of a static run, and after a switch to DHCP: when the comparison passes, and when the
adapter is exactly as it was.

**Planner, preflight and conformance** (`Plan`, `PlanLength`, `Capabilities`, `Conformance`). The plan is
characterised without its loops and counted, its identifiers are distinct, a live run follows it, and what
it asks for is compared with what the two platforms report of themselves.

**Validation and selectors** (`Validation`, `DocumentRules`, `TextLaws`, `Selectors`). The validator decides a
declarative well-formedness predicate and reports the first part that is wrong; the rules for single values
and the text primitives under them are stated a second time, character by character; runtime protection,
resolution, and how the static rule compares with it.

**Daemon** (`Daemon`, `JobList`, `EndToEnd`). Requests and background completions over one job table in
any interleaving; listing independent of map order; from a job's recorded state to the machine.

**Command lines and text** (`Quoting`, `Tokenizer`, `Wrap`). Windows argument quoting against the
argument rules Microsoft publishes for `CommandLineToArgvW`, the interactive tokenizer, line wrapping.

**Protocol** (`Framing`, `Wire`, `Codec`, `WireLayout`, `Envelope`). Size-prefixed framing on a byte stream, tables as
maps from slot to value with default elision, all requests and responses, and where the schema puts them.

## Assumptions

- A call that fails before its undo record is written changed nothing; the exception, a failed update
  of an existing share, is modelled.
- One run at a time: the daemon does not serialise live jobs (`crates/netpland/src/main.rs:353-354`).
- A connected interface uses a profile Windows has stored; deleting that profile disconnects it.
- Switching an adapter off or on may leave it in any IPv4 state, except that the registry still says
  which of its servers are static. Nothing but netsh commands and switches changes IPv4.
- What a failed netsh command leaves of its adapter is arbitrary; a field of the machine says whether, instead,
  a failed command changes nothing, and where a statement needs that it says so.
- Switching an adapter leaves Wi-Fi connections as they are.
- Overwriting the profile of a connected interface keeps the connection.
- Stopping or starting a service has no effect but on that service.
- Names that Windows compares ignoring case are keys folded to lower case; Wi-Fi profile names are among them.
- Where protection is stated, no two Wi-Fi interfaces have one GUID.
- The job identifiers drawn by the daemon are fresh.

## Where the code differs from what it says

- `PlatformError.rolled_back` is documented as "every completed mutation was rolled back"
  (`crates/netpland/src/platform/mod.rs:82-83`), and the repository's README.md:149-150 speaks of state verification.
  The code verifies IPv4 only. It does not consult the flag of a share error
  (`RollbackGaps.ShareNotPutBack`), undoes a service that was between states to "stopped"
  (`RollbackGaps.ServiceInTransition`), cancels a deviceless connection that already existed
  (`RollbackGaps.ConnectionCancelled`) and keeps no record of driver-phase restarts
  (`RollbackGaps.AdapterLeftOn`). The exact condition is `RollbackTheorem.Faithful`.
- The IPv4 comparison passes although the adapter differs when servers came from DHCP: a target's IPv6
  DNS servers stay (`Ipv4Interruption.Ipv6ServersStay`, a whole run in `RollbackGaps.ServersStay`), and a
  target without IPv4 DNS servers leaves the adapter without any (`Ipv4Interruption.DhcpServersLost`).
  Leases and the gateways of DHCP adapters are not compared either. The exact condition is
  `Ipv4Interruption.RestoredExactlyIff`.
- An address override restarts its adapter when it is undone, after that adapter's IPv4 undo was compared;
  addresses are written to the active store only. What the comparison found then need not last
  (`OverrideGaps.ComparisonOutlived`, on one machine `OverrideGaps.AddressGone`); `Replaying.RollbackOutcome`
  says for which adapters it does.
- An override is made effective before the IPv4 step of its entry, and that step compares the target with the
  inventory taken before. An adapter that was on its target and lost it in the restart is left alone, and the
  run reports success (`OverrideGaps.TargetLost`, `OverrideGaps.TargetGone`). Without a switch, success means
  the target is there (`Success.TargetsSucceeded`).
- That comparison does not look at the DHCP flag: an adapter on DHCP whose manual settings are those of a static
  target stays on DHCP (`Ipv4Recovery.TakenAsConfiguredIff`, `Ipv4Recovery.TakenAsInstalledIff`).
- The validator accepts a forced driver installation without a hardware identifier, which no live run can
  carry out: it is refused only after everything else has been applied (`FaultFree.SucceedsIffStartable`,
  `DriverPhase.ForcedInstallNeedsId`), and because an installation is declared the undone run does not report
  `rolled_back` (`Aftermath.FailureHandled`).
- In the interactive shell an unquoted word that ends in a backslash takes the space after it and the next word
  along (`Tokenizer.DirectoryTakesWord`); plain words are split back exactly when none but the last does
  (`Tokenizer.SplitPlainIff`).
- A static target with no IPv4 DNS server, with an IPv6 server before an IPv4 one, or without WINS is
  never recognised as already applied (`Ipv4Recovery.StaticIdempotentIff`, `Ipv4Interruption.NeverRecognised`).
- Three adapters cannot pass the comparison once touched (`Ipv4Interruption.RecoveryFromEveryInterruption`):
  one on DHCP that also holds manual addresses, because the repair turns DHCP off
  (`Ipv4Interruption.DhcpWithManualIsNotRestored`), one whose static DNS list names an IPv6 server before
  an IPv4 one (`Ipv4Interruption.Ipv6FirstIsNotRestored`), and one whose registry calls an empty server list static. A switch to DHCP adds a
  static adapter without a manual address (`Ipv4Dhcp.SwitchComparedIff`).

## Model

| member | source | states |
|---|---|---|
| `RollbackTheorem.RolledBackRestores` | crates/netpland/src/platform/windows/apply.rs:42-84 | for every document the runtime check accepts, every machine and every fault sequence: a run that reports `rolled_back` wrote records and reached no installation; adapters neither recorded nor switched kept their IPv4 state; every IPv4 record was of the original state, passed the comparison unless a later undo switched its adapter, and led exactly where the recovery model says when no record switches it; and everything else equals the start if and only if the run was faithful (no share left as declared by an update that could not be taken back, no recorded service in transition, no recorded deviceless connection that existed, no adapter without a switch record last left on by a driver restart though it was off, or off though it was on) |
| `ExactRollback.RolledBackExactIff` | crates/netpland/src/platform/windows/apply.rs:42-84 | for a document that has no adapter switched, a job that failed after its adapter entries and reports `rolled_back` left the whole machine, IPv4 included, as it was if and only if the run was faithful and every declared IPv4 target was recoverable, a condition on the machine before the call and the document |
| `ExactRollback.RolledBackAnywhereExactIff` | crates/netpland/src/platform/windows/apply.rs:42-84 | the same wherever the job failed, for static targets when a failed command changes nothing: if and only if the run was faithful and every adapter comes back from the point its commands had reached |
| `ExactRollback.CompletedAdapterExactIff` | crates/netpland/src/platform/windows/apply.rs:42-84 | in every failed run reported as `rolled_back`, an adapter whose entry was carried out and that nothing switched is exactly as it was if and only if it was on its target already, or its addresses, DNS and WINS servers come back from the installed static target, or it comes back from DHCP; stated on the state before the run, the target and what the network offers, whatever failed commands elsewhere left behind |
| `ExactRollback.InterruptedAdapterExactIff` | crates/netpland/src/platform/windows/apply.rs:42-84 | wherever the run failed, when a failed command changes nothing: the adapter of a static entry is where some number of its commands lead, and for each such number it ends exactly as it was if and only if it has no record or what those commands touched comes back |
| `ExactRollback.ReversibleSettled` | crates/netpland/src/platform/windows/apply.rs:87-197 | wherever the reversible part ends or fails, every entry carried out has its adapter where its target says, installed or switched to DHCP, or as it was without a record when the target was there; all entries were carried out once drivers are reached |
| `Settlement.EntriesSettle` | crates/netpland/src/platform/windows/apply.rs:114-161 | the adapter phase carries this from entry to entry, and the other entries' adapters stay where they are |
| `Settlement.EntryOutcome` | crates/netpland/src/platform/windows/apply.rs:118-161 | where one entry leaves its adapter when it is carried out, and, when a failed command changes nothing, when it is cut off at any call |
| `Success.SuccessMeans` | crates/netpland/src/platform/windows/apply.rs:42-63 | a run that reports success has every declaration in effect: identity, profiles, the last action of each interface, accounts, shares with whom they are open to, mappings and firewall; each service as declared but one to be stopped that began in transition; each adapter overridden and on or off as declared, on if a driver operation restarted it |
| `Success.SharesOpened` | crates/netpland/src/platform/windows/smb.rs:463-474 | after a successful run of a well-formed document a share that lists accounts is granted to exactly the users of those accounts, in order, each found by its identifier, and one that lists none to everyone; read-only as declared |
| `Success.TargetsSucceeded` | crates/netpland/src/platform/windows/apply.rs:145-153 | and the IPv4 target of every adapter no driver operation switched: a static one installed unless the adapter was on it or is switched off at the end, one that was there kept unless the adapter is switched, a switch to DHCP complete |
| `InEffect.PhasesTakeEffect` | crates/netpland/src/platform/windows/apply.rs:87-197 | through all phases but the adapters', what a declaration put into effect stays until the end of the reversible part |
| `RollbackTheorem.SafeStartRestores` | crates/netpland/src/platform/windows/apply.rs:42-84 | checks a caller can make before the call make `rolled_back` mean everything but IPv4 is restored |
| `SafeStart.StaticMachineRestored` | crates/netpland/src/platform/windows/apply.rs:42-84 | with such a start, nothing to switch and static adapters, `rolled_back` means the whole machine is restored, whatever failed and whatever a failed command left behind; reported leases of a static adapter apart |
| `SafeStart.NothingSwitched` | crates/netpland/src/platform/windows/apply.rs:118-161 | a document whose entries find their adapters on or off as they ask, override none that would be on, and that restarts none never has an adapter switched, by no step and no undo |
| `RollbackTheorem.FailedExactIff` | crates/netpland/src/platform/windows/apply.rs:1457-1464 | undoing a failed run's log is exact, IPv4 apart, if and only if the run was faithful, driver operations included |
| `RollbackTheorem.FailureIsUndoable` | crates/netpland/src/platform/windows/apply.rs:87-197 | wherever a run fails, undoing its log last record first leads back to the start up to the named drift, and IPv4 changed only on adapters that were switched or have a record, made by their entry, of their original state |
| `Aftermath.FailureHandled` | crates/netpland/src/platform/windows/apply.rs:64-83 | in every failed run past the before-apply hooks, whatever was installed and however many undos fail: each record is executed in the world the later ones left, then the after-rollback hooks are started, all or up to the first that fails, and nothing else happens; the report is `rolled_back` if and only if there were records, no record and no hook failed, and the reversible part did not end with an installation declared |
| `Aftermath.Unwinds` | crates/netpland/src/platform/windows/apply.rs:1457-1464 | there is such a sequence of worlds for every log |
| `Aftermath.SucceedsIff` | crates/netpland/src/platform/windows/apply.rs:42-63 | a run reports success if and only if its before-apply hooks and everything up to the after-apply hooks went well |
| `Aftermath.RefusedBefore` | crates/netpland/src/platform/windows/apply.rs:44 | a run refused by a before-apply hook has changed nothing and reports neither |
| `FaultlessRollback.FaultlessAftermath` | crates/netpland/src/platform/windows/apply.rs:64-83 | a run that fails with no fault left ahead, whatever it had installed: every record is undone, each recorded adapter ends where its recovery leads and no other moves, every after-rollback hook is started, and the report is `rolled_back` if and only if there were records, the comparisons pass and nothing was installed |
| `FaultlessRollback.FailureRunnable` | crates/netpland/src/platform/windows/apply.rs:87-197 | wherever a run fails, every record of its log can be executed: the service, the profile and the adapter it needs are there |
| `FaultlessRollback.RollbackFaultless` | crates/netpland/src/platform/windows/apply.rs:1426-1464 | with no fault ahead only IPv4 records can count an error, and they do exactly when their comparison fails |
| `FaultFree.SucceedsIffStartable` | crates/netpland/src/platform/windows/apply.rs:42-63 | for a well-formed document the runtime check admits and calls that do not fail: the run reports success if and only if a declared workgroup finds no domain, adapters to be overridden or configured have a GUID, profiles to connect to are on their interface or installed there, declared services exist, no declared drive is in use for another share, and forced installations name a hardware identifier |
| `FaultFree.RefusedIsUndone` | crates/netpland/src/platform/windows/apply.rs:64-83 | such a run that does not succeed is undone record by record, and everything but IPv4 is as it was if and only if the run was faithful |
| `Guarded.GuardedUntouched` | crates/netpland/src/platform/windows.rs:326-374 | whatever the document declares and whatever fails: a run the runtime check admits leaves every protected adapter as it was, its switch, override and IPv4 state and the profiles and connections of the Wi-Fi interfaces on it, and switches it neither on the way nor on the way back |
| `RunRecords.ItemAdds` | crates/netpland/src/platform/windows/apply.rs:87-197 | every declaration adds records of its own kind only, about the adapter or interface its selector resolves to |
| `DriverPhase.LatePhasesSwitchOnly` | crates/netpland/src/platform/windows/apply.rs:380-426 | driver operations and after-apply hooks switch adapters and change nothing else, and write no record |
| `DriverPhase.LateSwitches` | crates/netpland/src/platform/windows/apply.rs:380-426 | where driver operations leave a switch is told by the calls of the last restart that got past switching off |
| `DriverPhase.InstallCalls` | crates/netpland/src/platform/windows/apply.rs:383-412 | an installation is one call, and a second one exactly when the policy is always, or if-required and Windows asks for a restart |
| `Replaying.ReplaySwitches` | crates/netpland/src/platform/windows/apply.rs:1426-1464 | a log decides the switches it speaks of and leaves the others alone |
| `Replaying.ReplayExactIff` | crates/netpland/src/platform/windows/apply.rs:1457-1464 | undoing the log of the reversible part is exact if and only if what it speaks of can be reproduced; both directions |
| `Replaying.RollbackOutcome` | crates/netpland/src/platform/windows/apply.rs:1457-1464 | a rollback without errors has the composed effect of its records in reverse; recorded adapters not switched later passed the comparison, and those not switched at all are where the recovery model says |
| `Replaying.SwitchesKeptWithoutDrivers` | crates/netpland/src/platform/windows/apply.rs:87-197 | until driver operations are reached every switch no record speaks of is as it was |
| `RunInvariant.PhasesKeep` | crates/netpland/src/platform/windows/apply.rs:87-197 | every phase keeps the run invariant, or stops where the log still undoes everything |
| `RunInvariant.ItemKeeps` | crates/netpland/src/platform/windows/apply.rs:87-197 | every single declaration keeps it, whatever its calls do |
| `RollbackGaps.ShareNotPutBack` | crates/netpland/src/platform/windows/smb.rs:189-210 | a run that reports `rolled_back` and leaves an existing share as declared |
| `RollbackGaps.ServiceInTransition` | crates/netpland/src/platform/windows/apply.rs:164-174 | a run that reports `rolled_back` and has stopped a service that was starting |
| `RollbackGaps.ConnectionCancelled` | crates/netpland/src/platform/windows/smb.rs:221-230 | a run that reports `rolled_back` and has cancelled a connection that existed |
| `RollbackGaps.AdapterLeftOn` | crates/netpland/src/platform/windows/apply.rs:416-422 | a run that reports `rolled_back` and leaves an adapter on that was off |
| `RollbackGaps.ServersStay` | crates/netpland/src/platform/windows/apply.rs:765-774 | a run in which only a missing service fails: it reports `rolled_back`, nothing else differs, and the adapter keeps the target's IPv6 DNS server |
| `OverrideGaps.ComparisonOutlived` | crates/netpland/src/platform/windows/apply.rs:1432-1448 | for every machine with one adapter that is on and manually configured, and every entry that overrides its address and declares another target: a run that reports `rolled_back`, whose comparison passed, and whose last restart leaves the adapter in whatever IPv4 state the machine chooses |
| `OverrideGaps.TargetLost` | crates/netpland/src/platform/windows/apply.rs:127-153 | a run that reports success although the restart of an override took the declared target away: the step compared it with the inventory taken before |
| `EndToEnd.RolledBackJobRestored` | crates/netpland/src/main.rs:353-374 | over every interleaving of requests and completions, a job listed as rolled back had the outcome of the restoration theorem on the machine its apply ran on; from a safe start without driver restarts everything but IPv4 is as it was found, and with nothing to switch and static adapters IPv4 is too |
| `EndToEnd.SucceededJobInEffect` | crates/netpland/src/main.rs:353-374 | over every interleaving, a job listed as succeeded had every declaration of its document in effect on the machine its apply ran on |
| `EndToEnd.JobSparesGuards` | crates/netpland/src/main.rs:353-374 | and the apply of a job, however it ended, left every protected adapter as it was |
| `EndToEnd.TaskAdmitted` | crates/netpland/src/main.rs:141-181 | a document being applied is well formed and resolves away from the protected adapters |
| `EndToEnd.Preflight` | crates/netpland/src/platform/windows.rs:284-295 | preflight passes exactly when every planned operation is permitted, the inventories can be read and runtime protection holds; a missing capability is reported as unsupported before anything else |
| `EndToEnd.ConsultedSuffices` | crates/netpland/src/platform/windows.rs:289-294 | not reading the Wi-Fi interfaces when no Wi-Fi is declared weakens nothing |
| `AdapterUndo.AdapterKeeps` | crates/netpland/src/platform/windows/apply.rs:114-161 | under runtime protection one adapter entry keeps the log undoable, and adapters no entry names stay untouched |
| `AdapterUndo.EntryIsFresh` | crates/netpland/src/platform/windows/apply.rs:114-119 | at its turn every entry finds its adapter as the one inventory says, the switch and the whole IPv4 state, and with no record of it |
| `AdapterUndo.EntryKeeps` | crates/netpland/src/platform/windows/apply.rs:118-161 | enable, address override, IPv4 and disable of one entry are undone by their records from every point of failure |
| `AdapterUndo.MacShape` | crates/netpland/src/platform/windows/apply.rs:127-144 | an override with its restart is undone by its record, even when the restart fails half way |
| `AdapterUndo.Ipv4Shape` | crates/netpland/src/platform/windows/apply.rs:145-153 | IPv4 work writes one record of what the inventory says the adapter had, or pops it and has changed nothing |
| `AdapterUndo.UndoAfterInterruption` | crates/netpland/src/platform/windows/apply.rs:1426-1454 | an IPv4 record executed after any interruption of a static run ends where the recovery model says; it succeeds, and it has the adapter exactly back, under the stated conditions and no others |
| `Switches.TurnedOnIff` | crates/netpland/src/platform/windows/apply.rs:118-161 | an adapter that is off and whose entries leave `enabled` unset is turned on in a run if and only if driver operations are reached and one restarts it past switching it off |
| `Switches.NeverTurnedOn` | crates/netpland/src/platform/windows/apply.rs:118-161 | so by no step and no undo, whatever fails, when no driver operation names it |
| `UndoOrder.OrderMatters` | crates/netpland/src/platform/windows/apply.rs:1432-1448 | in every failed run in which an adapter was both enabled and overridden, its records executed last to first leave it off, as it was; first to last they would leave it on |
| `Ipv4Interruption.RecoveryFromEveryInterruption` | crates/netpland/src/platform/windows/apply.rs:892-1035 | from every interruption point of a static run, and for every adapter state, a rollback whose commands succeed passes the final comparison if and only if an adapter on DHCP with manual addresses had not been touched, a touched static DNS list names IPv4 servers and names them first, and a touched static WINS list was not empty |
| `Ipv4Interruption.RestoredExactlyIff` | crates/netpland/src/platform/windows/apply.rs:892-965 | and the adapter is then exactly as it was if and only if addresses, DNS servers and WINS servers each come back, stated on captured state, target and what the network offers |
| `Ipv4Interruption.FullyStaticComesBack` | crates/netpland/src/platform/windows/apply.rs:892-965 | a fully static adapter comes back whole from every interruption point, whatever the network offers |
| `Ipv4Interruption.ComparisonComplete` | crates/netpland/src/platform/windows/apply.rs:994-1035 | for a static adapter with static servers the final comparison is equality, leases apart |
| `Ipv4Recovery.ComparedIff` | crates/netpland/src/platform/windows/apply.rs:994-1035 | what the comparison after a rollback looks at, in terms of the adapter before and the target |
| `Ipv4Recovery.ServersSum` | crates/netpland/src/platform/windows/apply.rs:736-756 | the servers of each kind are taken from a list in its order |
| `Ipv4Interruption.Ipv6ServersStay` | crates/netpland/src/platform/windows/apply.rs:765-774 | after a complete run the target's IPv6 DNS servers stay on an adapter whose servers came from DHCP, and the comparison passes |
| `Ipv4Interruption.DhcpServersLost` | crates/netpland/src/platform/windows/apply.rs:924-928 | a target without IPv4 DNS servers loses an adapter its DHCP servers: the rollback does not ask for them again, and the comparison passes |
| `Ipv4Interruption.DhcpWithManualIsNotRestored` | crates/netpland/src/platform/windows/apply.rs:905-915 | an adapter on DHCP with a manual address fails the comparison after one command: a concrete input |
| `Ipv4Interruption.Ipv6FirstIsNotRestored` | crates/netpland/src/platform/windows/apply.rs:736-756 | so does a static DNS list with an IPv6 server first: a concrete input |
| `Ipv4Interruption.NeverRecognised` | crates/netpland/src/platform/windows/apply.rs:608-621 | a static target without WINS servers is applied again although nothing changes: a concrete input |
| `Ipv4Interruption.RecoveredLeases` | crates/netpland/src/platform/windows/apply.rs:905-915 | an adapter that began on DHCP ends with exactly the leases on offer that are no target address |
| `Ipv4Interruption.CutRun` | crates/netpland/src/platform/windows/apply.rs:579-604 | what the first commands of a static run have written, for every number of them |
| `Ipv4Dhcp.SwitchRestoredIff` | crates/netpland/src/platform/windows/apply.rs:547-578 | undoing a complete switch to DHCP has the adapter exactly back if and only if it had manual addresses and was static without leases, or had none and was on DHCP, and the static servers it dropped can be written back in their order |
| `Ipv4Dhcp.SwitchComparedIff` | crates/netpland/src/platform/windows/apply.rs:994-1035 | and it passes the comparison if and only if that holds, leases apart |
| `Ipv4Recovery.StaticInstalled` | crates/netpland/src/platform/windows/apply.rs:579-604 | a complete static run leaves exactly the declared addresses, gateways, DNS and WINS servers, whatever was there before |
| `Ipv4Recovery.StaticIdempotentIff` | crates/netpland/src/platform/windows/apply.rs:608-621 | a second static run is recognised as a no-op exactly when DNS names an IPv4 server, lists IPv4 first, and WINS is not empty |
| `Ipv4Recovery.TakenAsConfiguredIff` | crates/netpland/src/platform/windows/apply.rs:608-635 | what the comparison before a static apply looks at: manual addresses, gateways and both kinds of static servers, and neither the DHCP flag nor leases |
| `Ipv4Recovery.TakenAsSwitchedIff` | crates/netpland/src/platform/windows/apply.rs:547-578 | a switch to DHCP is left out exactly when the adapter is on it, has no manual address, and no static server to give up |
| `Ipv4Recovery.TakenAsInstalledIff` | crates/netpland/src/platform/windows/apply.rs:608-621 | an adapter taken as configured is what the static run would install if and only if it is not on DHCP, has no lease, and the target names WINS servers and IPv4 DNS servers, those before any IPv6 one |
| `Ipv4Recovery.RunAddresses` | crates/netpland/src/platform/windows/apply.rs:967-992 | the address commands install exactly the listed addresses and gateways |
| `Ipv4Recovery.RunDns` | crates/netpland/src/platform/windows/apply.rs:736-756 | the DNS commands install the IPv4 servers before the IPv6 servers |
| `Ipv4Recovery.RunWins` | crates/netpland/src/platform/windows/apply.rs:796-822 | the WINS commands install the listed servers in order |
| `Ipv4Restoration.RestoredIsEnding` | crates/netpland/src/platform/windows/apply.rs:892-965 | from any state at all, the commands of a rollback end in a state given without running them |
| `Ipv4Restoration.CleanupEffect` | crates/netpland/src/platform/windows/apply.rs:936-964 | the cleanup removes the recorded targets and nothing else |
| `Ipv4Restoration.RepairAddressEffect` | crates/netpland/src/platform/windows/apply.rs:905-922 | the address repair restores a static adapter and returns a DHCP adapter to DHCP |
| `Ipv4Recovery.NewAddresses` | crates/netpland/src/platform/windows/apply.rs:877-885 | the recorded targets are the addresses the adapter did not have |
| `Ipv4Recovery.NewGateways` | crates/netpland/src/platform/windows/apply.rs:886-890 | the recorded gateways are those the adapter did not have |
| `Restoration.IdentityPlain` | crates/netpland/src/platform/windows/apply.rs:91-113 | an identity change is undone by its record |
| `Restoration.ProfileKeeps` | crates/netpland/src/platform/windows/apply.rs:207-219 | a profile record written first undoes the profile call even when that half happened |
| `Restoration.ActionKeeps` | crates/netpland/src/platform/windows/apply.rs:220-246 | repeated connects and disconnects on one interface undo in reverse to the first connection |
| `Restoration.ServiceKeeps` | crates/netpland/src/platform/windows/apply.rs:164-174 | a service record written first undoes the switch unless the service was in transition |
| `Restoration.ShareKeeps` | crates/netpland/src/platform/windows/smb.rs:147-215 | a share step is recorded, repaired at once, or named as unrepaired |
| `Restoration.ShareWrittenBackIff` | crates/netpland/src/platform/windows/smb.rs:189-210 | an existing share whose second call fails is as it was if and only if the call that writes it back goes well or nothing was to change, and only otherwise is it left unrepaired |
| `Restoration.MappingKeeps` | crates/netpland/src/platform/windows/smb.rs:217-268 | a mapping record undoes the mapping except for a deviceless connection that existed |
| `Restoration.AccountPlain` | crates/netpland/src/platform/windows/smb.rs:106-145 | an account is created under a record or left alone |
| `Restoration.FirewallPlain` | crates/netpland/src/platform/windows/apply.rs:188-195 | a firewall switch is undone by its record even when it failed half way |
| `Restoration.PushUndoable` | crates/netpland/src/platform/windows/apply.rs:1457-1464 | appending a record that undoes the latest change keeps the whole log undoable |
| `Restoration.UndoAgrees` | crates/netpland/src/platform/windows/apply.rs:1426-1454 | an undo writes captured values, so it keeps two states in agreement |
| `Machine.UndoOutcome` | crates/netpland/src/platform/windows/apply.rs:1426-1454 | a successful undo has exactly its described effect; an IPv4 undo was verified |
| `Machine.RestoreNetFrame` | crates/netpland/src/platform/windows/apply.rs:892-1035 | an IPv4 undo touches one adapter only and succeeds only if the comparison held |
| `Machine.RestoreNetOk` | crates/netpland/src/platform/windows/apply.rs:892-1035 | an IPv4 undo that succeeds ends exactly where the recovery model says |
| `Machine.RestoreNetWithoutFaults` | crates/netpland/src/platform/windows/apply.rs:892-1035 | without faults an IPv4 undo ends where the recovery model says |
| `Machine.RestartAdapter` | crates/netpland/src/platform/windows/apply.rs:526-542 | a restart ends enabled when it succeeds and touches one adapter only, whose IPv4 state it may change in any way that keeps its servers static or not |
| `Transaction.ReconfigureFrame` | crates/netpland/src/platform/windows/apply.rs:145-153 | afterwards there is one new record, or none and then nothing has changed |
| `Transaction.Ipv4StepFrame` | crates/netpland/src/platform/windows/apply.rs:145-153 | IPv4 work touches one adapter's IPv4 state and the log only |
| `Transaction.DhcpSwitchFrame` | crates/netpland/src/platform/windows/apply.rs:547-578 | switching to DHCP touches one adapter's IPv4 state only |
| `Transaction.FindAccount` | crates/netplan/src/config.rs:892-898 | the lookup finds an account with the identifier exactly when one is declared |
| `Transaction.RunPhasesSplit` | crates/netpland/src/platform/windows/apply.rs:42-63 | a run stops at its first failure, however its phases are grouped |
| `Transaction.RollbackAll` | crates/netpland/src/platform/windows/apply.rs:1457-1464 | a rollback keeps the hardware, the attempted operations and the list of unrepaired shares |
| `LiveApply.Session.Apply` | crates/netpland/src/platform/windows/apply.rs:42-84 | the executing transaction has the specified outcome; what it attempts follows the plan, and `rolled_back` means what the restoration theorem says |
| `LiveApply.Session.ApplyReversible` | crates/netpland/src/platform/windows/apply.rs:87-197 | the reversible part runs identity, adapters, Wi-Fi, services, SMB and firewall in that order and stops at the first failure |
| `LiveApply.Session.RollbackAll` | crates/netpland/src/platform/windows/apply.rs:1457-1464 | the loop executes every record last first, and counts the failures |
| `LiveApply.Session.RunNetsh` | crates/netpland/src/platform/windows/apply.rs:578-604 | the commands of a list are issued one after another; the loop stops at the first that fails and has the effects of those before it |
| `LiveApply.Session.ApplyWifi` | crates/netpland/src/platform/windows/apply.rs:199-248 | nothing is opened when nothing is declared; profiles before actions |
| `LiveApply.Session.ApplyAdapters` | crates/netpland/src/platform/windows/apply.rs:114-162 | one inventory serves all entries |
| `LiveApply.Session.RunHooks` | crates/netpland/src/platform/windows/apply.rs:250-255 | hooks of one stage in order, stopping at the first failure |
| `LiveApply.Session.ApplyDrivers` | crates/netpland/src/platform/windows/apply.rs:380-426 | driver operations in order, stopping at the first failure; each installation needs a restart of the machine or not |
| `Conformance.ApplyFollowsPlan` | crates/netpland/src/platform/windows/apply.rs:42-84 | a live run attempts a prefix of the plan without its after-rollback hooks, all of it on success; a failing before-apply hook ends it; any later failure is followed by the after-rollback hooks, all of them or those up to the first that fails |
| `Conformance.ItemTracks` | crates/netplan/src/plan.rs:41-247 | each declaration attempts exactly the operations planned for it, in order |
| `Plan.BuildPlan` | crates/netplan/src/plan.rs:41-247 | the loops build exactly the plan |
| `Plan.PushHooks` | crates/netplan/src/plan.rs:264-284 | the hooks of one stage in declaration order |
| `Plan.PushAdapter` | crates/netplan/src/plan.rs:61-101 | enable, address, IPv4, disable |
| `Plan.PlanCharacterised` | crates/netplan/src/plan.rs:41-247 | the plan lists exactly the declared operations, each once, by phase, declaration and position within an adapter entry |
| `Plan.OrderedListsAgree` | crates/netplan/src/plan.rs:41-247 | those two properties determine the plan |
| `PlanLength.PlanLength` | crates/netplan/src/plan.rs:41-247 | the length of the plan is the number of hooks, identity fields, adapter settings, Wi-Fi profiles and actions, services, local accounts, shares, mappings and driver operations, and one for the firewall |
| `Plan.PlanIdsDistinct` | crates/netplan/src/plan.rs:41-247 | no two operations of a plan have the same identifier |
| `Plan.SameIdSameSlot` | crates/netplan/src/plan.rs:41-284 | an identifier determines its declaration and kind |
| `Text.DecimalInjective` | crates/netplan/src/plan.rs:41-284 | printed indexes are equal only for equal indexes |
| `TextLaws.DecimalReads` | crates/netplan/src/plan.rs:41-284 | a printed index reads as that index, without a leading zero |
| `Plan.RequirePlanCapabilities` | crates/netpland/src/platform/mod.rs:131-160 | passes exactly when the first report of every declared operation's capability permits it; otherwise the refusal is "unsupported" |
| `Plan.CheckCapability` | crates/netpland/src/platform/mod.rs:136-158 | the first report of a capability decides, read-only reports permitting read-only operations |
| `Capabilities.WindowsAdmitsIff` | crates/netpland/src/platform/windows.rs:41-183 | on Windows a document passes the capability check if and only if netsh, pnputil, the forced-install backend, Wi-Fi and the SMB services are there as far as its declarations need them |
| `Capabilities.PortableAdmitsIff` | crates/netpland/src/platform/portable.rs:10-106 | elsewhere a document passes only when its plan is empty |
| `Capabilities.CapabilityReported` | crates/netplan/src/plan.rs:41-284 | every operation asks for a capability that is reported, and those of different kinds for different ones |
| `Capabilities.ReadOnlyAdmitsIff` | crates/netpland/src/platform/mod.rs:145-147 | were everything read-only, exactly plans of Wi-Fi scans would pass |
| `Validation.Validate` | crates/netplan/src/config.rs:448-771 | succeeds exactly for well-formed documents, and otherwise reports a problem of the first part that is wrong |
| `Validation.WellFormedIff` | crates/netplan/src/config.rs:448-771 | the checks, taken together, decide the declarative well-formedness predicate |
| `Validation.RunChecks` | crates/netplan/src/config.rs:448-771 | stops at the first failing check |
| `Validation.FirstProblemIsFirst` | crates/netplan/src/config.rs:448-771 | the problem reported is about the first part of the document that is wrong, in the stated order of parts, and of a kind that part can have |
| `Validation.AllSelectorsIff` | crates/netplan/src/config.rs:456-481 | the selectors checked are exactly those the document contains, wherever they stand |
| `DocumentRules.ComputerNameIff` | crates/netplan/src/config.rs:773-790 | one to fifteen letters, digits and inner hyphens, not only digits |
| `DocumentRules.DnsNameIff` | crates/netplan/src/config.rs:808-821 | labels of at most 63 such characters joined by dots, at most 255 in all |
| `DocumentRules.HostAddressIff` | crates/netplan/src/config.rs:838-846 | octet by octet: not unspecified, multicast or broadcast |
| `DocumentRules.ServerAddress6Iff` | crates/netplan/src/config.rs:852-856 | neither unspecified nor at or above ff00:: |
| `DocumentRules.AbsolutePathIff` | crates/netplan/src/config.rs:1039-1050 | a drive path or a path in one of the two device namespaces |
| `DocumentRules.UncShareIff` | crates/netplan/src/config.rs:1027-1037 | two or more backslashes, a server, a backslash, a share, and nothing or a backslash and anything |
| `Validation.ReferencesResolve` | crates/netpland/src/platform/windows/smb.rs:463-473 | for a well-formed document no account lookup of shares or mappings can miss at apply time, and share names are distinct |
| `Validation.FirstMatchIsOnlyMatch` | crates/netplan/src/config.rs:892-898 | with distinct identifiers the first matching account is the only one |
| `Validation.ShareDecided` | crates/netplan/src/config.rs:598-659 | the share checks with their prefix scans decide validity and distinctness from earlier shares |
| `Validation.MappingDecided` | crates/netplan/src/config.rs:660-700 | the mapping checks decide validity and the drive letter being free |
| `Validation.AccountDecided` | crates/netplan/src/config.rs:564-597 | the account checks decide validity and distinctness from earlier accounts |
| `Validation.WifiDecided` | crates/netplan/src/config.rs:495-540 | the profile checks decide validity, key rules included |
| `Validation.MacDecided` | crates/netplan/src/config.rs:1000-1015 | accepted are twelve hexadecimal digits of a locally administered unicast address |
| `Validation.Ipv4Decided` | crates/netplan/src/config.rs:823-862 | accepted are non-empty static settings of usable addresses |
| `Validation.ConflictsDecided` | crates/netplan/src/config.rs:713-722 | no service that shares or mappings need is stopped |
| `Validation.DriverDecided` | crates/netplan/src/config.rs:723-757 | the driver checks decide validity |
| `Selectors.ValidateRuntimeProtection` | crates/netpland/src/platform/windows.rs:326-374 | succeeds exactly when every guard and every target resolves, entries resolve to distinct adapters, and no target is guarded; where everything resolves, a refusal is a fault of the document |
| `Selectors.TargetIndexes` | crates/netpland/src/platform/windows.rs:337-363 | the collected indexes are those of all targets, or the failure has a cause |
| `Selectors.AdapterIndexes` | crates/netpland/src/platform/windows.rs:338-346 | adapter entries resolve to pairwise distinct indexes |
| `Selectors.EntriesOnDistinctAdapters` | crates/netpland/src/platform/windows.rs:338-346 | protected entries name different adapters, each the only match of its selector |
| `Selectors.ResolveAdapter` | crates/netpland/src/platform/windows.rs:408-427 | a selector resolves exactly when one adapter matches, and the error tells none from several |
| `DocumentRules.MatchesIff` | crates/netpland/src/platform/windows.rs:429-482 | a selector matches an adapter that agrees with everything it names: index, name but for case, GUID but for braces and case, address but for separators and case, and a description that contains its text but for case |
| `DocumentRules.SharesIff` | crates/netplan/src/config.rs:931-946 | two selectors are compared in the same way, descriptions as a whole |
| `TextLaws.SameMacIff` | crates/netplan/src/config.rs:948-966 | two ways to write a hardware address are one address exactly when their digits agree but for case |
| `TextLaws.BracesIgnored` | crates/netplan/src/config.rs:948-966 | braces around a GUID do not matter, nor does case |
| `TextLaws.SameIgnoringCaseIff` | crates/netplan/src/config.rs:892-898 | equal ignoring ASCII case means equal in length and letter by letter but for the case of ASCII letters |
| `Selectors.WifiNotFoundIff` | crates/netpland/src/platform/windows.rs:376-406 | nothing is found where no adapter matches or no interface is there; every other failure is a fault of the document |
| `Selectors.WifiResolvedIff` | crates/netpland/src/platform/windows.rs:376-403 | an interface is chosen if and only if it is the only one (no selector) or the first one on the single adapter the selector matches |
| `Selectors.SharedMatcherSameAdapter` | crates/netplan/src/config.rs:931-946 | in an inventory of unique adapters, selectors that share a matcher other than the description resolve alike |
| `Selectors.StaticRejectionAgrees` | crates/netplan/src/config.rs:916-929 | such a static rejection never refuses what the runtime check accepts |
| `Selectors.DescriptionRejectionDiffers` | crates/netplan/src/config.rs:941-945 | a rejection by description alone may: a concrete inventory |
| `Daemon.Server.Dispatch` | crates/netpland/src/main.rs:126-249 | each request has its step effect on the table and its answer, signed with the version and times of the server |
| `Daemon.Server.Configured` | crates/netpland/src/main.rs:141-193 | validate, plan, dry run and live apply, with their errors |
| `Daemon.EndedJobAnswered` | crates/netpland/src/main.rs:194-207 | whatever happened since, a client that asks for an ended job is told that state and that message |
| `Daemon.Server.Complete` | crates/netpland/src/main.rs:353-374 | a completion ends its job as the outcome says |
| `Daemon.JobsKept` | crates/netpland/src/main.rs:337-381 | over every run no job is removed, creation times stay, and terminal jobs never change |
| `Daemon.EndsOnce` | crates/netpland/src/main.rs:353-374 | each live job completes at most once |
| `Daemon.TasksWereAskedFor` | crates/netpland/src/main.rs:141-181 | whatever is being applied was requested, parsed, preflighted and not a dry run |
| `Daemon.EndsWereAskedFor` | crates/netpland/src/main.rs:337-374 | every completion belongs to an earlier request of its document |
| `Daemon.RolledBackIff` | crates/netpland/src/main.rs:356-364 | a job is listed as rolled back exactly when its own apply reported failure and a rollback |
| `Daemon.SucceededIff` | crates/netpland/src/main.rs:141-181 | a job is listed as succeeded exactly when it was a dry run or its own apply reported success |
| `Daemon.FailedIff` | crates/netpland/src/main.rs:356-369 | and as failed exactly when its own apply panicked or reported failure without a rollback |
| `Daemon.EveryJobHasItsStory` | crates/netpland/src/main.rs:126-381 | over every run each record of the table holds what the request that made it and the end of its apply put there: state, message and both times |
| `Daemon.AcceptedIsListed` | crates/netpland/src/main.rs:141-181 | every accepted request has its record, a dry run for good |
| `Daemon.KindsKept` | crates/netpland/src/main.rs:392-400 | errors of the platform keep their kind on the way to the client |
| `Daemon.EndedStateStays` | crates/netpland/src/main.rs:353-374 | a job is listed from its end on as succeeded if its apply reported success, as rolled back if it reported failure and a rollback, and as failed otherwise, with the message and time of that end |
| `Daemon.JobsCounted` | crates/netpland/src/main.rs:126-381 | the table holds one job per accepted apply; running ones are those started and not ended |
| `Daemon.AlwaysConsistent` | crates/netpland/src/main.rs:337-374 | exactly the running jobs have a background task |
| `Daemon.CountJobs` | crates/netpland/src/main.rs:278-307 | the counters are the sizes of the states, saturated |
| `Daemon.CountsAddUp` | crates/netpland/src/main.rs:278-307 | below saturation each counter is the number of jobs in its state, and the five sum to the number of jobs |
| `JobList.ListJobs` | crates/netpland/src/main.rs:309-335 | for every iteration order, a listing of the table |
| `JobList.ListingUnique` | crates/netpland/src/main.rs:309-335 | a table has one listing per question |
| `JobList.ListingIsTop` | crates/netpland/src/main.rs:309-335 | a listing holds the newest of the jobs in the asked state, at most as many as asked for, 100 when none are and never more than 1000, newest first and then by identifier, each with the state, message and times the table has; the total counts all of them |
| `JobList.RankingUnique` | crates/netpland/src/main.rs:322-327 | the order leaves no freedom |
| `JobList.TextOrder` | crates/netpland/src/main.rs:322-327 | identifiers are totally ordered |
| `JobList.TextBeforeIff` | crates/netpland/src/main.rs:322-327 | one identifier comes before another when, after their longest common beginning, it ends or goes on with the smaller character |
| `JobList.Insert` | crates/netpland/src/main.rs:322-327 | an element is put where it belongs |
| `Quoting.CommandLine` | crates/netplan/src/windows_elevation.rs:160-170 | the joined quoted arguments with a terminating NUL, or an error when an argument holds NUL |
| `Quoting.AppendQuotedArgument` | crates/netplan/src/windows_elevation.rs:172-210 | the loop with its slash counter writes the quoted form |
| `Quoting.ParseJoined` | crates/netplan/src/windows_elevation.rs:160-210 | parsing the command line of any arguments by the Windows rules gives the arguments back, under both readings of a doubled quotation mark |
| `Quoting.ScanQuoted` | crates/netplan/src/windows_elevation.rs:172-210 | one quoted argument is read back, and ends where it should |
| `Quoting.ScanEscaped` | crates/netplan/src/windows_elevation.rs:192-209 | backslash runs before marks, at the end and elsewhere are undone |
| `Quoting.BareIff` | crates/netplan/src/windows_elevation.rs:181-189 | an argument is written as it is exactly when it is not empty and has no space, tab or mark |
| `Quoting.EscapePlain` | crates/netplan/src/windows_elevation.rs:191-209 | without marks and backslashes quoting adds two marks and nothing else |
| `Tokenizer.SplitCommandLine` | crates/netplan-cli/src/interactive.rs:90-136 | the loop collects the specified words; it fails exactly when the automaton ends inside a quote; no word is empty |
| `Tokenizer.SplitRendered` | crates/netplan-cli/src/interactive.rs:90-136 | words in escaped double quotes, joined by spaces, are split back into the words |
| `Tokenizer.SplitSum` | crates/netplan-cli/src/interactive.rs:90-136 | text after a blank is split on its own unless a quote or a backslash is open |
| `Tokenizer.ReadEscaped` | crates/netplan-cli/src/interactive.rs:112-127 | escaped text inside double quotes is read back |
| `Tokenizer.SplitPlainIff` | crates/netplan-cli/src/interactive.rs:90-136 | words without blanks, marks and doubled backslashes, joined by spaces, are split back if and only if none but the last ends in a backslash |
| `Tokenizer.ReadPlain` | crates/netplan-cli/src/interactive.rs:112-127 | plain text outside quotes stands for itself, backslashes included |
| `Tokenizer.ReadSingleQuoted` | crates/netplan-cli/src/interactive.rs:104-111 | between single quotes everything stands for itself |
| `Tokenizer.BackslashMeans` | crates/netplan-cli/src/interactive.rs:112-124 | a backslash gives the next character alone before a backslash, a mark that would end the quotes and, outside quotes, any mark or blank; before anything else it stays |
| `Tokenizer.DirectoryTakesWord` | crates/netplan-cli/src/interactive.rs:112-124 | a plain word with a backslash at its end and the word after it are read as one word |
| `Wrap.WrapText` | crates/netplan-cli/src/output.rs:526-562 | every line is within the width, no text is lost, and "-" stands for blank lines only |
| `Wrap.FillLines` | crates/netplan-cli/src/output.rs:531-554 | the loop lays one source line out greedily |
| `Wrap.ChopWord` | crates/netplan-cli/src/output.rs:545-552 | an overlong word is cut into full pieces and a last open one |
| `Wrap.LayoutIsTheGreedyOne` | crates/netplan-cli/src/output.rs:526-562 | the layout is the only one that keeps order and width and breaks a line only when the next piece does not fit |
| `Wrap.WordsKept` | crates/netplan-cli/src/output.rs:526-562 | the words of the lines are the words of the source, those longer than the width in pieces |
| `Wrap.SourcesRead` | crates/netplan-cli/src/output.rs:527-529 | the source lines are the lines of the text |
| `Wrap.BlocksMeaning` | crates/netplan-cli/src/output.rs:526-562 | over all source lines: width bound, text preserved, and when nothing is left |
| `Framing.Stream.ReadFrame` | crates/netplan/src/protocol/mod.rs:619-636 | reads exactly one accepted frame or fails, with what is left on the stream |
| `Framing.Stream.WriteFrame` | crates/netplan/src/protocol/mod.rs:644-652 | writes accepted frames only |
| `Framing.ValidateFrameLength` | crates/netplan/src/protocol/mod.rs:683-696 | accepts exactly well-framed buffers |
| `Framing.ReadConcat` | crates/netplan/src/protocol/mod.rs:619-652 | frames written back to back are read one by one and leave the rest untouched |
| `Framing.ReadAllFrames` | crates/netplan/src/protocol/mod.rs:619-636 | everything read is an accepted frame, and nothing read is invented |
| `Framing.ReadTruncated` | crates/netplan/src/protocol/mod.rs:619-636 | a cut stream yields the whole frames before the cut |
| `Framing.NextIff` | crates/netplan/src/protocol/mod.rs:619-636 | a frame is read exactly when the stream starts with it |
| `Framing.LittleEndianRoundTrip` | crates/netplan/src/protocol/mod.rs:683-690 | the length prefix is read back |
| `Framing.FrameIff` | crates/netplan/src/protocol/mod.rs:683-696 | a frame has 5 to 16777220 bytes, the first four giving the number of the others, least byte first |
| `Framing.PrefixIff` | crates/netplan/src/protocol/mod.rs:683-690 | no other four bytes are the prefix of a length |
| `Envelope.RequestFrameRoundTrip` | crates/netplan/src/protocol/mod.rs:267-363 | a request frame decodes to the same identifier and request exactly when its body is within the bound, and never as a response |
| `Envelope.ResponseFrameRoundTrip` | crates/netplan/src/protocol/mod.rs:368-611 | a response frame decodes to the same identifier and response exactly when its body is within the bound, and never as a request |
| `Envelope.RequestRoundTrip` | crates/netplan/src/protocol/mod.rs:267-363 | every request survives the envelope with its identifier |
| `Envelope.ResponseRoundTrip` | crates/netplan/src/protocol/mod.rs:368-611 | every response survives the envelope with its identifier |
| `Envelope.ConversationRoundTrip` | crates/netplan/src/protocol/mod.rs:267-363 | requests written back to back are read and decoded in order, whatever follows |
| `Envelope.LiveOnlyWhenExplicit` | crates/netplan/src/protocol/ipc_generated.rs:2884-2973 | a live configuration request needs an explicit zero in the dry-run slot |
| `Envelope.EnvelopeRoundTrip` | crates/netplan/src/protocol/mod.rs:654-681 | identifier and payload survive the envelope table |
| `Envelope.OtherVersionRefused` | crates/netplan/src/protocol/mod.rs:654-681 | an envelope of another protocol version is refused |
| `WireLayout.RequestLayout` | schemas/ipc.fbs:1-280 | each request is written under its tag with its values where the schema puts them |
| `WireLayout.ResponseLayout` | schemas/ipc.fbs:1-280 | so is each response, enumerations by their numbers |
| `WireLayout.FieldAt` | crates/netplan/src/protocol/ipc_generated.rs:2884-2973 | the field at a position of a schema is written at its offset, and not at all when it is absent or its default |
| `WireLayout.InterfaceLayout` | schemas/ipc.fbs:182-200 | the fields of a Wi-Fi interface in the order of the schema |
| `WireLayout.NetworkLayout` | schemas/ipc.fbs:202-217 | and those of a Wi-Fi network |
| `Wire.UnpackPacked` | crates/netplan/src/protocol/ipc_generated.rs:2884-2973 | packing and unpacking give an object back, whichever scalars are defaults |
| `Wire.SlotWrittenIff` | crates/netplan/src/protocol/ipc_generated.rs:2884-2973 | a slot is written exactly when its value is neither absent nor the default |
| `Codec.RequestToWire` | crates/netplan/src/protocol/mod.rs:267-316 | a request's payload reads back as the request and as no response |
| `Codec.ResponseSurvives` | crates/netplan/src/protocol/mod.rs:368-611 | a response's payload reads back as the response and as no request |
| `Codec.InterfaceToWire` | crates/netplan/src/protocol/mod.rs:798-836 | the has/value pairs of a Wi-Fi interface are undone |
| `Codec.NetworkToWire` | crates/netplan/src/protocol/mod.rs:838-875 | the has/value pair of a Wi-Fi network is undone |
| `Codec.AdapterToWire` | crates/netplan/src/protocol/mod.rs:760-796 | adapters with their address lists survive |
| `Codec.OperationToWire` | crates/netplan/src/protocol/mod.rs:891-921 | planned operations survive |
| `Codec.SummaryToWire` | crates/netplan/src/protocol/mod.rs:944-962 | job summaries survive |
| `Codec.CodeToWire` | crates/netplan/src/protocol/mod.rs:964-985 | error codes survive, the wire's zero standing for none of them |

## Left out

- Hooks and driver installation: their effects are not reversible by design; hooks are calls without effect on the state, and a run that reaches an installation never reports `rolled_back`.
- RollbackTheorem.SafeStartRestores: a sufficient check, for a document without driver-phase adapter restarts; the exact condition, which no check before the call can decide, is that of `RollbackTheorem.RolledBackRestores`.
- ExactRollback.RolledBackExactIff: for documents that switch no adapter and runs that failed after the adapter entries; what a switch does to IPv4 is left open, so for switched adapters only the comparisons of `RollbackTheorem.RolledBackRestores` are claimed; for runs that failed at an entry see the next two.
- ExactRollback.RolledBackAnywhereExactIff: for static targets, and when a failed command changes nothing; what a failing command leaves is arbitrary otherwise, and `Ipv4Restoration.RestoredIsEnding` tells where the recovery leads from there.
- ExactRollback.InterruptedAdapterExactIff: under the same two conditions.
- Success.TargetsSucceeded: what a switch of the adapter after its IPv4 step leaves is arbitrary, so nothing is claimed then.
- Ipv4Interruption.RecoveryFromEveryInterruption: for static targets; a switch to DHCP that was cut off part way has the guarantees of `Machine.RestoreNetOk` and `Machine.RestoreNetFrame`, a complete one those of `Ipv4Dhcp`.
- Guarded.GuardedUntouched: what hooks and driver installations do of their own is not modelled.
- FaultFree.SucceedsIffStartable: for runs in which no call fails; which calls Windows refuses is the fault sequence of the other theorems.
- SafeStart.StaticMachineRestored: leaves open which leases Windows reports for a static adapter after a failed command.
- The straight-line handlers of `LiveApply.Session`, one per declaration and record, have no rows; each is proved equal to its outcome in `Transaction` or `Machine`.
- LiveApply.Session.RunNetsh: the nested loops that issue netsh commands are modelled as one loop over a command list built by functions.
- Selectors.ResolveAdapter: description and address matching fold ASCII letters only, where the code folds all of Unicode; validated addresses are hexadecimal.
- JobList.ListJobs: the library sort is modelled as insertion while collecting; no two jobs compare equal, so stability does not matter.
- Daemon.Server.Dispatch: locks, tasks, clocks and identifier generation are inputs of a step; panics of the background thread are an outcome.
- Plan.BuildPlan: summaries and targets of operations are presentation and are passed through as a parameter of the daemon's answers.
- Envelope.RequestFrameRoundTrip: the byte layout of tables and its verifier are a parameter that must read back what it writes.
- Envelope.ResponseFrameRoundTrip: the same parameter.
- Envelope.ConversationRoundTrip: the same parameter.
- Validation.Validate: error texts; problems are named instead.
- Win32, registry, WLAN and NetAPI handles, buffers and polling loops.
- YAML and JSON parsing, the C interface, JSON-RPC, service hosting, elevation prompts and the rest of the command-line client.
- The 88-column claim of the client's output: only the width bound of line wrapping is proved.

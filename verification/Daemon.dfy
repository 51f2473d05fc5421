/**
 The daemon: requests and background completions over one job table, in any interleaving. What the
 platform answers, the clock and the fresh identifiers are inputs of each step.
 */
module Daemon {
  import opened Std
  import opened Model
  import opened Protocol
  import opened JobList
  import Config
  import Plan
  import Selectors
  import Transaction

  datatype PlatformError = PlatformError(kind: Selectors.ErrorKind, message: string)

  /** How a live apply ended: it reported, or its thread panicked. */
  datatype Outcome = Reported(report: Transaction.Report, message: string) | Panicked(message: string)

  type Parser = (seq<u8>, ConfigFormat) -> Result<Config.NetplanConfig, string>

  /** The job table, and the live applies that have not ended yet. */
  datatype State = State(jobs: JobTable, tasks: map<string, Config.NetplanConfig>)

  datatype Event =
    | Asked(request: Request, jobId: string, now: u64, preflight: Option<PlatformError>)
    | Finished(jobId: string, outcome: Outcome, now: u64)

  const EMPTY := State(map[], map[])
  const DRY_RUN_MESSAGE := "dry-run completed; no system state was changed"
  const RUNNING_MESSAGE := "live apply is running"

  // One step.

  /** The event asks for the document `config` to be applied. */
  predicate AsksApply(parse: Parser, event: Event, config: Config.NetplanConfig) {
    event.Asked? && event.request.Configure? && event.request.action == Apply
    && parse(event.request.document, event.request.format) == Success(config)
  }

  predicate StartsLive(parse: Parser, event: Event, config: Config.NetplanConfig) {
    AsksApply(parse, event, config) && !event.request.dryRun && event.preflight.None?
  }

  /** The states the daemon gives to ended jobs. */
  function EndState(outcome: Outcome): JobState {
    if outcome.Panicked? then Failed
    else if outcome.report.ok then Succeeded
    else if outcome.report.rolledBack then RolledBack
    else Failed
  }

  function Step(parse: Parser, s: State, event: Event): State {
    match event
    case Asked(Configure(Apply, format, document, dryRun), jobId, now, preflight) =>
      var parsed := parse(document, format);
      if parsed.Failure? then s
      else if dryRun then s.(jobs := s.jobs[jobId := JobRecord(Succeeded, Some(DRY_RUN_MESSAGE), now, now)])
      else if preflight.Some? then s
      else State(s.jobs[jobId := JobRecord(Running, Some(RUNNING_MESSAGE), now, now)], s.tasks[jobId := parsed.value])
    case Asked(_, _, _, _) => s
    case Finished(jobId, outcome, now) =>
      State(
        if jobId in s.jobs then
          s.jobs[jobId := JobRecord(EndState(outcome), Some(outcome.message), s.jobs[jobId].createdAtUnixMs, now)]
        else s.jobs,
        s.tasks - {jobId})
  }

  /** Fresh identifiers are fresh, and only a running apply ends. */
  predicate Enabled(s: State, event: Event) {
    match event
    case Asked(_, jobId, _, _) => jobId !in s.jobs
    case Finished(jobId, _, _) => jobId in s.tasks
  }

  // Runs.

  function After(parse: Parser, events: seq<Event>): State {
    if events == [] then EMPTY
    else Step(parse, After(parse, events[..|events| - 1]), events[|events| - 1])
  }

  ghost predicate Possible(parse: Parser, events: seq<Event>) {
    forall k :: 0 <= k < |events| ==> Enabled(After(parse, events[..k]), events[k])
  }

  lemma PossiblePrefix(parse: Parser, events: seq<Event>, n: nat)
    requires Possible(parse, events) && n <= |events|
    ensures Possible(parse, events[..n])
  {
    forall k | 0 <= k < n ensures Enabled(After(parse, events[..n][..k]), events[..n][k]) {
      assert events[..n][..k] == events[..k];
    }
  }

  lemma AfterNext(parse: Parser, events: seq<Event>, k: nat)
    requires Possible(parse, events) && k < |events|
    ensures After(parse, events[..k + 1]) == Step(parse, After(parse, events[..k]), events[k])
    ensures Enabled(After(parse, events[..k]), events[k])
  {
    assert events[..k + 1][..k] == events[..k];
  }

  /** Exactly the running jobs have a task, and no job is ever queued. */
  ghost predicate Consistent(s: State) {
    && (forall id :: id in s.tasks <==> id in s.jobs && s.jobs[id].state == Running)
    && (forall id :: id in s.jobs ==> s.jobs[id].state != Queued)
  }

  lemma {:induction false} AlwaysConsistent(parse: Parser, events: seq<Event>)
    requires Possible(parse, events)
    ensures Consistent(After(parse, events))
    decreases |events|
  {
    if events != [] {
      var n := |events| - 1;
      PossiblePrefix(parse, events, n);
      AlwaysConsistent(parse, events[..n]);
      AfterNext(parse, events, n);
      assert events[..n + 1] == events;
    }
  }

  predicate Terminal(state: JobState) {
    state == Succeeded || state == Failed || state == RolledBack
  }

  /** What later tables keep of an earlier one: every job, its creation time, and terminal records whole. */
  ghost predicate Keeps(earlier: JobTable, later: JobTable) {
    forall id :: id in earlier ==>
      && id in later
      && later[id].createdAtUnixMs == earlier[id].createdAtUnixMs
      && (Terminal(earlier[id].state) ==> later[id] == earlier[id])
  }

  lemma StepKeeps(parse: Parser, s: State, event: Event)
    requires Consistent(s) && Enabled(s, event)
    ensures Keeps(s.jobs, Step(parse, s, event).jobs)
  {
  }

  lemma KeepsTransitive(a: JobTable, b: JobTable, c: JobTable)
    requires Keeps(a, b) && Keeps(b, c)
    ensures Keeps(a, c)
  {
  }

  lemma EventKeeps(parse: Parser, events: seq<Event>, k: nat)
    requires Possible(parse, events) && k < |events|
    ensures Keeps(After(parse, events[..k]).jobs, After(parse, events[..k + 1]).jobs)
  {
    PossiblePrefix(parse, events, k);
    AlwaysConsistent(parse, events[..k]);
    AfterNext(parse, events, k);
    StepKeeps(parse, After(parse, events[..k]), events[k]);
  }

  /** Jobs are never removed and a terminal job never changes. */
  lemma {:induction false} JobsKept(parse: Parser, events: seq<Event>, i: nat, j: nat)
    requires Possible(parse, events) && i <= j <= |events|
    ensures Keeps(After(parse, events[..i]).jobs, After(parse, events[..j]).jobs)
    decreases j
  {
    if i < j {
      JobsKept(parse, events, i, j - 1);
      EventKeeps(parse, events, j - 1);
      KeepsTransitive(After(parse, events[..i]).jobs, After(parse, events[..j - 1]).jobs, After(parse, events[..j]).jobs);
    }
  }

  /** A live job ends at most once. */
  lemma EndsOnce(parse: Parser, events: seq<Event>, i: nat, j: nat)
    requires Possible(parse, events) && i < j < |events|
    requires events[i].Finished? && events[j].Finished?
    ensures events[i].jobId != events[j].jobId
  {
    var id := events[i].jobId;
    PossiblePrefix(parse, events, i);
    AlwaysConsistent(parse, events[..i]);
    AfterNext(parse, events, i);
    JobsKept(parse, events, i + 1, j);
    PossiblePrefix(parse, events, j);
    AlwaysConsistent(parse, events[..j]);
    AfterNext(parse, events, j);
    assert Terminal(After(parse, events[..i + 1]).jobs[id].state);
  }

  /** The state a job is in after its apply ended so: a panic and a report of neither kind are failures. */
  predicate EndsAs(outcome: Outcome, state: JobState) {
    match state
    case Succeeded => outcome.Reported? && outcome.report.ok
    case RolledBack => outcome.Reported? && !outcome.report.ok && outcome.report.rolledBack
    case Failed => outcome.Panicked? || (!outcome.report.ok && !outcome.report.rolledBack)
    case Queued => false
    case Running => false
  }

  lemma EndStep(parse: Parser, s: State, event: Event)
    requires event.Finished? && event.jobId in s.jobs
    ensures var jobs := Step(parse, s, event).jobs;
      && event.jobId in jobs && EndsAs(event.outcome, jobs[event.jobId].state) && Terminal(jobs[event.jobId].state)
      && jobs[event.jobId].message == Some(event.outcome.message) && jobs[event.jobId].updatedAtUnixMs == event.now
  {
  }

  lemma EndRecorded(parse: Parser, events: seq<Event>, k: nat)
    requires Possible(parse, events) && k < |events| && events[k].Finished?
    ensures var id, jobs := events[k].jobId, After(parse, events[..k + 1]).jobs;
      && id in jobs && EndsAs(events[k].outcome, jobs[id].state) && Terminal(jobs[id].state)
      && jobs[id].message == Some(events[k].outcome.message) && jobs[id].updatedAtUnixMs == events[k].now
  {
    PossiblePrefix(parse, events, k);
    AlwaysConsistent(parse, events[..k]);
    AfterNext(parse, events, k);
    EndStep(parse, After(parse, events[..k]), events[k]);
  }

  lemma TerminalStays(earlier: JobTable, later: JobTable, id: string)
    requires Keeps(earlier, later) && id in earlier && Terminal(earlier[id].state)
    ensures id in later && later[id] == earlier[id]
  {
  }

  /** The state a job ended in is the state it is listed in from then on, with the message and time of its end. */
  lemma EndedStateStays(parse: Parser, events: seq<Event>, k: nat, n: nat)
    requires Possible(parse, events) && k < n <= |events| && events[k].Finished?
    ensures var id, jobs := events[k].jobId, After(parse, events[..n]).jobs;
      && id in jobs && EndsAs(events[k].outcome, jobs[id].state)
      && jobs[id].message == Some(events[k].outcome.message) && jobs[id].updatedAtUnixMs == events[k].now
  {
    EndRecorded(parse, events, k);
    JobsKept(parse, events, k + 1, n);
    TerminalStays(After(parse, events[..k + 1]).jobs, After(parse, events[..n]).jobs, events[k].jobId);
  }

  /** The event at `i` started the live apply of `config` under `id`. */
  ghost predicate StartedBy(parse: Parser, events: seq<Event>, i: nat, id: string, config: Config.NetplanConfig) {
    i < |events| && StartsLive(parse, events[i], config) && events[i].jobId == id
  }

  /**
   Nothing is applied that was not asked for: behind every task is an earlier request, not a dry
   run, whose document parsed to the task's configuration and passed the preflight.
   */
  lemma {:induction false} TasksWereAskedFor(parse: Parser, events: seq<Event>, id: string)
    requires Possible(parse, events) && id in After(parse, events).tasks
    ensures exists i: nat :: StartedBy(parse, events, i, id, After(parse, events).tasks[id])
    decreases |events|
  {
    var n := |events| - 1;
    PossiblePrefix(parse, events, n);
    AfterNext(parse, events, n);
    assert events[..n + 1] == events;
    var config := After(parse, events).tasks[id];
    if StartsLive(parse, events[n], config) && events[n].jobId == id {
      assert StartedBy(parse, events, n, id, config);
    } else {
      assert id in After(parse, events[..n]).tasks && After(parse, events[..n]).tasks[id] == config;
      TasksWereAskedFor(parse, events[..n], id);
      var i: nat :| StartedBy(parse, events[..n], i, id, config);
      assert StartedBy(parse, events, i, id, config);
    }
  }

  /** The apply that ends at `k` is one that an earlier request started. */
  lemma EndsWereAskedFor(parse: Parser, events: seq<Event>, k: nat)
    requires Possible(parse, events) && k < |events| && events[k].Finished?
    ensures var id := events[k].jobId;
      var s := After(parse, events[..k]);
      id in s.tasks && exists i: nat :: i < k && StartedBy(parse, events, i, id, s.tasks[id])
  {
    var id := events[k].jobId;
    PossiblePrefix(parse, events, k);
    TasksWereAskedFor(parse, events[..k], id);
    var config := After(parse, events[..k]).tasks[id];
    var i: nat :| StartedBy(parse, events[..k], i, id, config);
    assert StartedBy(parse, events, i, id, config);
  }

  // The whole story of a job.

  /** The event at `i` is the request that made the job. */
  ghost predicate Accepted(parse: Parser, events: seq<Event>, i: nat, id: string) {
    && i < |events| && events[i].Asked? && events[i].jobId == id
    && events[i].request.Configure? && events[i].request.action == Apply
    && parse(events[i].request.document, events[i].request.format).Success?
    && (events[i].request.dryRun || events[i].preflight.None?)
  }

  ghost predicate EndedAt(events: seq<Event>, k: nat, id: string) {
    k < |events| && events[k].Finished? && events[k].jobId == id
  }

  ghost predicate HasEnded(events: seq<Event>, id: string) {
    exists k: nat :: EndedAt(events, k, id)
  }

  /** What the table holds of a job whose apply ended in `outcome` at `now`. */
  ghost predicate EndRecord(outcome: Outcome, now: u64, record: JobRecord) {
    EndsAs(outcome, record.state) && record.message == Some(outcome.message) && record.updatedAtUnixMs == now
  }

  /** What the table holds of the job made by the request at `i`. */
  ghost predicate RecordOf(parse: Parser, events: seq<Event>, i: nat, id: string, record: JobRecord)
    requires Accepted(parse, events, i, id)
  {
    var made := events[i].now;
    && record.createdAtUnixMs == made
    && if events[i].request.dryRun then
         record.state == Succeeded && record.message == Some("dry-run completed; no system state was changed") && record.updatedAtUnixMs == made
       else if HasEnded(events, id) then
         exists k: nat :: EndedAt(events, k, id) && EndRecord(events[k].outcome, events[k].now, record)
       else
         record.state == Running && record.message == Some("live apply is running") && record.updatedAtUnixMs == made
  }

  ghost predicate Story(parse: Parser, events: seq<Event>, id: string, record: JobRecord) {
    exists i: nat :: Accepted(parse, events, i, id) && RecordOf(parse, events, i, id, record)
  }

  lemma EndedEarlier(events: seq<Event>, id: string)
    requires events != []
    ensures HasEnded(events, id) <==> HasEnded(events[..|events| - 1], id) || EndedAt(events, |events| - 1, id)
  {
    var n := |events| - 1;
    if HasEnded(events[..n], id) {
      var k: nat :| EndedAt(events[..n], k, id);
      assert EndedAt(events, k, id);
    }
    if HasEnded(events, id) && !EndedAt(events, n, id) {
      var k: nat :| EndedAt(events, k, id);
      assert EndedAt(events[..n], k, id);
    }
  }

  /** An event about another job, or about none, leaves the story as it is. */
  lemma StoryKept(parse: Parser, events: seq<Event>, id: string, record: JobRecord)
    requires events != [] && Story(parse, events[..|events| - 1], id, record) && !EndedAt(events, |events| - 1, id)
    ensures Story(parse, events, id, record)
  {
    var n := |events| - 1;
    var earlier := events[..n];
    var i: nat :| Accepted(parse, earlier, i, id) && RecordOf(parse, earlier, i, id, record);
    EndedEarlier(events, id);
    assert Accepted(parse, events, i, id);
    if !events[i].request.dryRun && HasEnded(earlier, id) {
      var k: nat :| EndedAt(earlier, k, id) && EndRecord(earlier[k].outcome, earlier[k].now, record);
      assert EndedAt(events, k, id) && EndRecord(events[k].outcome, events[k].now, record);
    }
    assert RecordOf(parse, events, i, id, record);
  }

  lemma StoryEnds(parse: Parser, events: seq<Event>, id: string, before: JobRecord, after: JobRecord)
    requires events != [] && Story(parse, events[..|events| - 1], id, before) && EndedAt(events, |events| - 1, id)
    requires before.state == Running && after.createdAtUnixMs == before.createdAtUnixMs
    requires EndRecord(events[|events| - 1].outcome, events[|events| - 1].now, after)
    ensures Story(parse, events, id, after)
  {
    var n := |events| - 1;
    var i: nat :| Accepted(parse, events[..n], i, id) && RecordOf(parse, events[..n], i, id, before);
    assert Accepted(parse, events, i, id) && EndedAt(events, n, id);
    assert RecordOf(parse, events, i, id, after);
  }

  /** What a request to apply puts into the table. */
  function FirstRecord(event: Event): JobRecord
    requires event.Asked? && event.request.Configure?
  {
    if event.request.dryRun then JobRecord(Succeeded, Some(DRY_RUN_MESSAGE), event.now, event.now)
    else JobRecord(Running, Some(RUNNING_MESSAGE), event.now, event.now)
  }

  lemma StoryBegins(parse: Parser, events: seq<Event>, id: string, record: JobRecord)
    requires events != [] && Accepted(parse, events, |events| - 1, id) && !HasEnded(events, id)
    requires record == FirstRecord(events[|events| - 1])
    ensures Story(parse, events, id, record)
  {
    assert RecordOf(parse, events, |events| - 1, id, record);
  }

  /** An apply that ended is in the table. */
  lemma EndedIsListed(parse: Parser, events: seq<Event>, id: string)
    requires Possible(parse, events) && HasEnded(events, id)
    ensures id in After(parse, events).jobs
  {
    var k: nat :| EndedAt(events, k, id);
    EndedStateStays(parse, events, k, |events|);
    assert events[..|events|] == events;
  }

  /** How one event changes one job. */
  lemma JobStep(parse: Parser, s: State, event: Event, id: string)
    requires Consistent(s) && Enabled(s, event)
    ensures var jobs := Step(parse, s, event).jobs;
      var made := Accepted(parse, [event], 0, id);
      && (id in jobs <==> id in s.jobs || made)
      && (made ==> id !in s.jobs && jobs[id] == FirstRecord(event))
      && (EndedAt([event], 0, id) ==>
            && id in s.jobs && s.jobs[id].state == Running
            && jobs[id].createdAtUnixMs == s.jobs[id].createdAtUnixMs && EndRecord(event.outcome, event.now, jobs[id]))
      && (!made && !EndedAt([event], 0, id) && id in s.jobs ==> jobs[id] == s.jobs[id])
  {
  }

  /** Every record of the table tells the story of the request that made it and of the end of its apply. */
  lemma {:induction false} EveryJobHasItsStory(parse: Parser, events: seq<Event>, id: string)
    requires Possible(parse, events) && id in After(parse, events).jobs
    ensures Story(parse, events, id, After(parse, events).jobs[id])
    decreases |events|
  {
    var n := |events| - 1;
    var s, event := After(parse, events[..n]), events[n];
    PossiblePrefix(parse, events, n);
    AlwaysConsistent(parse, events[..n]);
    AfterNext(parse, events, n);
    assert events[..n + 1] == events;
    JobStep(parse, s, event, id);
    assert Accepted(parse, events, n, id) <==> Accepted(parse, [event], 0, id);
    assert EndedAt(events, n, id) <==> EndedAt([event], 0, id);
    if Accepted(parse, events, n, id) {
      EndedEarlier(events, id);
      if HasEnded(events[..n], id) {
        EndedIsListed(parse, events[..n], id);
      }
      StoryBegins(parse, events, id, After(parse, events).jobs[id]);
    } else {
      EveryJobHasItsStory(parse, events[..n], id);
      if EndedAt(events, n, id) {
        StoryEnds(parse, events, id, s.jobs[id], After(parse, events).jobs[id]);
      } else {
        StoryKept(parse, events, id, s.jobs[id]);
      }
    }
  }

  lemma AcceptedRecord(parse: Parser, events: seq<Event>, i: nat, id: string)
    requires Possible(parse, events) && Accepted(parse, events, i, id)
    ensures var jobs := After(parse, events[..i + 1]).jobs; id in jobs && jobs[id] == FirstRecord(events[i])
  {
    PossiblePrefix(parse, events, i);
    AlwaysConsistent(parse, events[..i]);
    AfterNext(parse, events, i);
    assert Accepted(parse, [events[i]], 0, id);
    JobStep(parse, After(parse, events[..i]), events[i], id);
  }

  /** And every accepted request has its record, a dry run for good. */
  lemma AcceptedIsListed(parse: Parser, events: seq<Event>, i: nat, id: string)
    requires Possible(parse, events) && Accepted(parse, events, i, id)
    ensures var jobs := After(parse, events).jobs; id in jobs && (events[i].request.dryRun ==> jobs[id] == FirstRecord(events[i]))
  {
    AcceptedRecord(parse, events, i, id);
    JobsKept(parse, events, i + 1, |events|);
    assert events[..|events|] == events;
    assert Keeps(After(parse, events[..i + 1]).jobs, After(parse, events).jobs);
  }

  predicate Listed(jobs: JobTable, id: string, state: JobState) {
    id in jobs && jobs[id].state == state
  }

  lemma EndIsListed(parse: Parser, events: seq<Event>, k: nat, id: string, state: JobState)
    requires Possible(parse, events) && EndedAt(events, k, id) && EndsAs(events[k].outcome, state)
    ensures Listed(After(parse, events).jobs, id, state)
  {
    EndedStateStays(parse, events, k, |events|);
    assert events[..|events|] == events;
  }

  ghost predicate EndedIn(events: seq<Event>, id: string, state: JobState) {
    exists k: nat :: EndedAt(events, k, id) && EndsAs(events[k].outcome, state)
  }

  /** An ended job is listed in a state exactly when its own apply ended so. */
  lemma EndedIff(parse: Parser, events: seq<Event>, id: string, state: JobState)
    requires Possible(parse, events) && state in {Failed, RolledBack}
    ensures Listed(After(parse, events).jobs, id, state) <==> EndedIn(events, id, state)
  {
    if Listed(After(parse, events).jobs, id, state) {
      EveryJobHasItsStory(parse, events, id);
    }
    if EndedIn(events, id, state) {
      var k: nat :| EndedAt(events, k, id) && EndsAs(events[k].outcome, state);
      EndIsListed(parse, events, k, id, state);
    }
  }

  /** A job is listed as rolled back exactly when its own apply reported failure and a rollback. */
  lemma RolledBackIff(parse: Parser, events: seq<Event>, id: string)
    requires Possible(parse, events)
    ensures Listed(After(parse, events).jobs, id, RolledBack) <==>
      exists k: nat :: EndedAt(events, k, id) && events[k].outcome.Reported? && !events[k].outcome.report.ok && events[k].outcome.report.rolledBack
  {
    EndedIff(parse, events, id, RolledBack);
    assert forall k: nat :: EndedAt(events, k, id) ==>
      (EndsAs(events[k].outcome, RolledBack)
       <==> events[k].outcome.Reported? && !events[k].outcome.report.ok && events[k].outcome.report.rolledBack);
  }

  /** As failed exactly when its own apply panicked, or reported failure without a rollback. */
  lemma FailedIff(parse: Parser, events: seq<Event>, id: string)
    requires Possible(parse, events)
    ensures Listed(After(parse, events).jobs, id, Failed) <==>
      exists k: nat :: EndedAt(events, k, id)
        && (events[k].outcome.Reported? ==> !events[k].outcome.report.ok && !events[k].outcome.report.rolledBack)
  {
    EndedIff(parse, events, id, Failed);
    assert forall k: nat :: EndedAt(events, k, id) ==>
      (EndsAs(events[k].outcome, Failed)
       <==> (events[k].outcome.Reported? ==> !events[k].outcome.report.ok && !events[k].outcome.report.rolledBack));
  }

  ghost predicate DryRun(parse: Parser, events: seq<Event>, id: string) {
    exists i: nat :: Accepted(parse, events, i, id) && events[i].request.dryRun
  }

  ghost predicate EndedWell(events: seq<Event>, id: string) {
    exists k: nat :: EndedAt(events, k, id) && events[k].outcome.Reported? && events[k].outcome.report.ok
  }

  /** As succeeded exactly when it was a dry run or its own apply reported success. */
  lemma SucceededIff(parse: Parser, events: seq<Event>, id: string)
    requires Possible(parse, events)
    ensures Listed(After(parse, events).jobs, id, Succeeded) <==> DryRun(parse, events, id) || EndedWell(events, id)
  {
    if Listed(After(parse, events).jobs, id, Succeeded) {
      EveryJobHasItsStory(parse, events, id);
    }
    if DryRun(parse, events, id) {
      var i: nat :| Accepted(parse, events, i, id) && events[i].request.dryRun;
      AcceptedIsListed(parse, events, i, id);
    } else if EndedWell(events, id) {
      var k: nat :| EndedAt(events, k, id) && events[k].outcome.Reported? && events[k].outcome.report.ok;
      EndIsListed(parse, events, k, id, Succeeded);
    }
  }

  // Conservation.

  function Starts(parse: Parser, events: seq<Event>, live: bool): nat {
    if events == [] then 0
    else
      var last := events[|events| - 1];
      Starts(parse, events[..|events| - 1], live) +
        if last.Asked? && last.request.Configure? && last.request.action == Apply
           && parse(last.request.document, last.request.format).Success?
           && last.request.dryRun == !live && (live ==> last.preflight.None?)
        then 1 else 0
  }

  function Ends(events: seq<Event>): nat {
    if events == [] then 0
    else Ends(events[..|events| - 1]) + if events[|events| - 1].Finished? then 1 else 0
  }

  /** The table holds one job for each accepted apply; the running ones are those started and not ended. */
  lemma {:induction false} JobsCounted(parse: Parser, events: seq<Event>)
    requires Possible(parse, events)
    ensures |After(parse, events).jobs| == Starts(parse, events, true) + Starts(parse, events, false)
    ensures |After(parse, events).tasks| + Ends(events) == Starts(parse, events, true)
    decreases |events|
  {
    if events != [] {
      var n := |events| - 1;
      PossiblePrefix(parse, events, n);
      AlwaysConsistent(parse, events[..n]);
      AfterNext(parse, events, n);
      assert events[..n + 1] == events;
      JobsCounted(parse, events[..n]);
      StepSizes(parse, After(parse, events[..n]), events[n]);
    }
  }

  lemma StepSizes(parse: Parser, s: State, event: Event)
    requires Consistent(s) && Enabled(s, event)
    ensures var t := Step(parse, s, event);
      var asked := event.Asked? && event.request.Configure? && event.request.action == Apply
        && parse(event.request.document, event.request.format).Success?;
      && |t.jobs| == |s.jobs| + (if asked && (event.request.dryRun || event.preflight.None?) then 1 else 0)
      && |t.tasks| == |s.tasks| + (if asked && !event.request.dryRun && event.preflight.None? then 1 else 0)
           - (if event.Finished? then 1 else 0)
  {
    var t := Step(parse, s, event);
    if event.Finished? {
      assert t.jobs.Keys == s.jobs.Keys && |s.jobs| == |s.jobs.Keys| && |t.jobs| == |t.jobs.Keys|;
      assert t.tasks.Keys == s.tasks.Keys - {event.jobId};
      assert |s.tasks| == |s.tasks.Keys| && |t.tasks| == |t.tasks.Keys|;
    }
  }

  // The counters.

  function InState(jobs: JobTable, state: JobState): set<string> {
    set id | id in jobs && jobs[id].state == state
  }

  function Counts(jobs: JobTable): JobCounts {
    JobCounts(
      Saturated(|jobs|), Saturated(|InState(jobs, Queued)|), Saturated(|InState(jobs, Running)|),
      Saturated(|InState(jobs, Succeeded)|), Saturated(|InState(jobs, Failed)|), Saturated(|InState(jobs, RolledBack)|))
  }

  function Bumped(n: u32): u32 {
    if n == U32_MAX then n else n + 1
  }

  function Seen(jobs: JobTable, state: JobState, remaining: set<string>): u32 {
    Saturated(|InState(jobs, state) - remaining|)
  }

  lemma SeenNext(jobs: JobTable, state: JobState, remaining: set<string>, id: string)
    requires id in jobs && id in remaining
    ensures Seen(jobs, state, remaining - {id}) ==
      if jobs[id].state == state then Bumped(Seen(jobs, state, remaining)) else Seen(jobs, state, remaining)
  {
    var seen := InState(jobs, state) - remaining;
    if jobs[id].state == state {
      assert InState(jobs, state) - (remaining - {id}) == seen + {id};
    } else {
      assert InState(jobs, state) - (remaining - {id}) == seen;
    }
  }

  predicate Tallied(jobs: JobTable, remaining: set<string>, q: u32, r: u32, s: u32, f: u32, b: u32) {
    q == Seen(jobs, Queued, remaining) && r == Seen(jobs, Running, remaining) && s == Seen(jobs, Succeeded, remaining)
    && f == Seen(jobs, Failed, remaining) && b == Seen(jobs, RolledBack, remaining)
  }

  lemma TalliedNext(jobs: JobTable, remaining: set<string>, id: string, q: u32, r: u32, s: u32, f: u32, b: u32)
    requires Tallied(jobs, remaining, q, r, s, f, b) && id in jobs && id in remaining
    ensures var state := jobs[id].state;
      Tallied(jobs, remaining - {id},
              if state == Queued then Bumped(q) else q, if state == Running then Bumped(r) else r,
              if state == Succeeded then Bumped(s) else s, if state == Failed then Bumped(f) else f,
              if state == RolledBack then Bumped(b) else b)
  {
    SeenNext(jobs, Queued, remaining, id);
    SeenNext(jobs, Running, remaining, id);
    SeenNext(jobs, Succeeded, remaining, id);
    SeenNext(jobs, Failed, remaining, id);
    SeenNext(jobs, RolledBack, remaining, id);
  }

  lemma TalliedStart(jobs: JobTable)
    ensures Tallied(jobs, jobs.Keys, 0, 0, 0, 0, 0)
  {
    assert forall state :: InState(jobs, state) - jobs.Keys == {};
  }

  lemma TalliedAll(jobs: JobTable, q: u32, r: u32, s: u32, f: u32, b: u32)
    requires Tallied(jobs, {}, q, r, s, f, b)
    ensures JobCounts(Saturated(|jobs|), q, r, s, f, b) == Counts(jobs)
  {
    assert forall state :: InState(jobs, state) - {} == InState(jobs, state);
  }

  /** One saturating counter per state, over the table in any order. */
  method CountJobs(jobs: JobTable) returns (counts: JobCounts)
    ensures counts == Counts(jobs)
  {
    var queued, running, succeeded, failed, rolledBack := 0, 0, 0, 0, 0;
    var remaining := jobs.Keys;
    TalliedStart(jobs);
    while remaining != {}
      invariant remaining <= jobs.Keys && Tallied(jobs, remaining, queued, running, succeeded, failed, rolledBack)
      decreases |remaining|
    {
      var id :| id in remaining;
      TalliedNext(jobs, remaining, id, queued, running, succeeded, failed, rolledBack);
      match jobs[id].state {
        case Queued => queued := Bumped(queued);
        case Running => running := Bumped(running);
        case Succeeded => succeeded := Bumped(succeeded);
        case Failed => failed := Bumped(failed);
        case RolledBack => rolledBack := Bumped(rolledBack);
      }
      remaining := remaining - {id};
    }
    TalliedAll(jobs, queued, running, succeeded, failed, rolledBack);
    counts := JobCounts(Saturated(|jobs|), queued, running, succeeded, failed, rolledBack);
  }

  lemma PartsAddUp<T>(q: set<T>, r: set<T>, s: set<T>, f: set<T>, b: set<T>)
    requires q !! r !! s !! f !! b
    ensures |q + r + s + f + b| == |q| + |r| + |s| + |f| + |b|
  {
    assert |q + r| == |q| + |r|;
    assert |q + r + s| == |q + r| + |s|;
    assert |q + r + s + f| == |q + r + s| + |f|;
  }

  lemma StatesPartition(jobs: JobTable)
    ensures InState(jobs, Queued) !! InState(jobs, Running) !! InState(jobs, Succeeded) !! InState(jobs, Failed) !! InState(jobs, RolledBack)
    ensures InState(jobs, Queued) + InState(jobs, Running) + InState(jobs, Succeeded) + InState(jobs, Failed) + InState(jobs, RolledBack)
         == jobs.Keys
  {
    forall id | id in jobs
      ensures id in InState(jobs, Queued) + InState(jobs, Running) + InState(jobs, Succeeded) + InState(jobs, Failed) + InState(jobs, RolledBack)
    {
      assert id in InState(jobs, jobs[id].state);
    }
  }

  lemma StatesAddUp(jobs: JobTable)
    ensures |InState(jobs, Queued)| + |InState(jobs, Running)| + |InState(jobs, Succeeded)| + |InState(jobs, Failed)|
          + |InState(jobs, RolledBack)| == |jobs|
  {
    StatesPartition(jobs);
    PartsAddUp(InState(jobs, Queued), InState(jobs, Running), InState(jobs, Succeeded), InState(jobs, Failed), InState(jobs, RolledBack));
  }

  /** Below saturation each counter is the number of jobs in its state, and the five add up to the total. */
  lemma CountsAddUp(jobs: JobTable)
    requires |jobs| <= 0xFFFF_FFFF
    ensures var c := Counts(jobs);
      && c.queued == |set id | id in jobs && jobs[id].state == Queued| && c.running == |set id | id in jobs && jobs[id].state == Running|
      && c.succeeded == |set id | id in jobs && jobs[id].state == Succeeded| && c.failed == |set id | id in jobs && jobs[id].state == Failed|
      && c.rolledBack == |set id | id in jobs && jobs[id].state == RolledBack|
      && c.queued + c.running + c.succeeded + c.failed + c.rolledBack == c.total == |jobs|
  {
    StatesAddUp(jobs);
    assert InState(jobs, Queued) == set id | id in jobs && jobs[id].state == Queued;
    assert InState(jobs, Running) == set id | id in jobs && jobs[id].state == Running;
    assert InState(jobs, Succeeded) == set id | id in jobs && jobs[id].state == Succeeded;
    assert InState(jobs, Failed) == set id | id in jobs && jobs[id].state == Failed;
    assert InState(jobs, RolledBack) == set id | id in jobs && jobs[id].state == RolledBack;
  }

  // The daemon itself.

  /** What the platform says during one request. A scan whose thread failed counts as an internal error. */
  datatype View = View(
    capabilities: seq<Capability>,
    adapters: Result<seq<AdapterInfo>, PlatformError>,
    wifi: Option<u32> -> Result<seq<WifiInterfaceStatus>, PlatformError>,
    scan: (Option<u32>, bool, u32) -> Result<(bool, seq<WifiNetwork>), PlatformError>,
    preflight: Option<PlatformError>,
    describe: Plan.Operation -> (string, Option<string>),
    now: u64,
    uptimeMs: u64)

  function CodeOf(kind: Selectors.ErrorKind): ErrorCode {
    match kind
    case InvalidConfig => InvalidConfig
    case Unsupported => Unsupported
    case PermissionDenied => PermissionDenied
    case NotFound => NotFound
    case Internal => Internal
  }

  function Described(plan: seq<Plan.Operation>, view: View): seq<OperationInfo> {
    seq(|plan|, i requires 0 <= i < |plan| =>
      var (summary, target) := view.describe(plan[i]);
      OperationInfo(Plan.Id(plan[i]), Plan.CapabilityOf(plan[i]), summary, Plan.RiskOf(plan[i]), target))
  }

  /** What a client may conclude from the answer, `s` and `t` being the state before and after. */
  ghost predicate Answers(parse: Parser, s: State, t: State, request: Request, jobId: string, view: View, r: Response) {
    match request
    case Configure(action, format, document, dryRun) =>
      var parsed := parse(document, format);
      if action == Validate then r.Validation? && (r.valid <==> parsed.Success?) && (r.issues == [] <==> r.valid)
      else if parsed.Failure? then r.Error? && r.code == InvalidConfig
      else
        var operations := Described(Plan.PlanOf(parsed.value), view);
        if action == MakePlan then r == Planned(operations)
        else if !dryRun && view.preflight.Some? then r == Error(CodeOf(view.preflight.value.kind), view.preflight.value.message)
        else r == Applied(jobId, if dryRun then Succeeded else Running, operations) && jobId in t.jobs && t.jobs[jobId].state == r.state
    case QueryJob(id) =>
      if id in s.jobs then r == JobStatus(id, s.jobs[id].state, s.jobs[id].message) else r.Error? && r.code == NotFound
    case ListJobs(filter, limit) => r.Jobs? && IsListing(r.jobs, r.total, s.jobs, filter, limit)
    case QueryDaemon => r.DaemonStatus? && r.counts == Counts(s.jobs) && r.protocolVersion == PROTOCOL_VERSION
    case Ping => r.Pong? && r.protocolVersion == PROTOCOL_VERSION
    case QueryCapabilities => r == Capabilities(view.capabilities)
    case ListAdapters => if view.adapters.Success? then r == Adapters(view.adapters.value) else r.Error? && r.code == Internal
    case QueryNetwork =>
      if view.adapters.Failure? then r.Error? && r.code == Internal
      else r.NetworkStatus? && r.adapters == view.adapters.value
           && (view.wifi(None).Success? ==> r.interfaces == view.wifi(None).value && r.wifiError == None)
           && (view.wifi(None).Failure? ==> r.interfaces == [] && r.wifiError == Some(view.wifi(None).error.message))
    case QueryWifi(ifIndex) =>
      (view.wifi(ifIndex).Success? && r == WifiStatus(view.wifi(ifIndex).value))
      || (view.wifi(ifIndex).Failure? && r == Error(CodeOf(view.wifi(ifIndex).error.kind), view.wifi(ifIndex).error.message))
    case WifiScan(ifIndex, refresh, timeoutMs) =>
      if !(250 <= timeoutMs <= 15_000) then r.Error? && r.code == InvalidRequest
      else
        var scanned := view.scan(ifIndex, refresh, timeoutMs);
        (scanned.Success? && r == WifiNetworks(scanned.value.0, scanned.value.1))
        || (scanned.Failure? && r == Error(CodeOf(scanned.error.kind), scanned.error.message))
    case Shutdown => r == ShutdownAccepted
  }

  /** Whatever happened since, a client that asks for an ended job is told the state its apply ended in. */
  lemma EndedJobAnswered(parse: Parser, events: seq<Event>, k: nat, n: nat, view: View, r: Response)
    requires Possible(parse, events) && k < n <= |events| && events[k].Finished?
    requires var s := After(parse, events[..n]); Answers(parse, s, s, QueryJob(events[k].jobId), "", view, r)
    ensures r.JobStatus? && r.jobId == events[k].jobId && EndsAs(events[k].outcome, r.state) && r.message == Some(events[k].outcome.message)
  {
    EndedStateStays(parse, events, k, n);
  }

  /** Errors of the platform keep their kind on the way to the client. */
  lemma KindsKept()
    ensures CodeOf(Selectors.InvalidConfig) == InvalidConfig && CodeOf(Selectors.Unsupported) == Unsupported
    ensures CodeOf(Selectors.PermissionDenied) == PermissionDenied && CodeOf(Selectors.NotFound) == NotFound
    ensures CodeOf(Selectors.Internal) == Internal
  {
  }

  /** The server speaks of itself and of now. */
  predicate Signed(r: Response, version: string, startedAt: u64, view: View) {
    match r
    case Pong(v, _) => v == version
    case DaemonStatus(v, _, started, uptimeMs, _) => v == version && started == startedAt && uptimeMs == view.uptimeMs
    case NetworkStatus(captured, _, _, _) => captured == view.now
    case _ => true
  }

  class Server {
    const parse: Parser
    const version: string
    const startedAt: u64
    var jobs: JobTable
    var tasks: map<string, Config.NetplanConfig>

    ghost function Contents(): State
      reads this
    {
      State(jobs, tasks)
    }

    constructor (parse: Parser, version: string, now: u64)
      ensures Contents() == EMPTY && this.parse == parse && this.version == version && startedAt == now
    {
      this.parse, this.version, this.startedAt := parse, version, now;
      jobs, tasks := map[], map[];
    }

    method Dispatch(request: Request, jobId: string, view: View) returns (r: Response)
      requires jobId !in jobs
      modifies this
      ensures Contents() == Step(parse, old(Contents()), Asked(request, jobId, view.now, view.preflight))
      ensures Answers(parse, old(Contents()), Contents(), request, jobId, view, r) && Signed(r, version, startedAt, view)
    {
      match request {
        case Configure(action, format, document, dryRun) =>
          r := Configured(action, format, document, dryRun, jobId, view);
        case QueryJob(id) =>
          r := if id in jobs then JobStatus(id, jobs[id].state, jobs[id].message) else Error(NotFound, "job does not exist");
        case ListJobs(filter, limit) =>
          var listed, total := JobList.ListJobs(jobs, filter, limit);
          r := Jobs(listed, total);
        case QueryDaemon =>
          var counts := CountJobs(jobs);
          r := DaemonStatus(version, PROTOCOL_VERSION, startedAt, view.uptimeMs, counts);
        case _ =>
          r := Observed(request, view);
      }
    }

    method Configured(action: ConfigAction, format: ConfigFormat, document: seq<u8>, dryRun: bool, jobId: string, view: View)
      returns (r: Response)
      requires jobId !in jobs
      modifies this
      ensures Contents() == Step(parse, old(Contents()), Asked(Configure(action, format, document, dryRun), jobId, view.now, view.preflight))
      ensures Answers(parse, old(Contents()), Contents(), Configure(action, format, document, dryRun), jobId, view, r)
      ensures Signed(r, version, startedAt, view)
    {
      var parsed := parse(document, format);
      if parsed.Failure? {
        if action == Validate {
          return Validation(false, [ValidationIssue(None, parsed.error)]);
        }
        return Error(InvalidConfig, parsed.error);
      }
      if action == Validate {
        return Validation(true, []);
      }
      var plan := Plan.BuildPlan(parsed.value);
      if action == MakePlan {
        return Planned(Described(plan, view));
      }
      if dryRun {
        jobs := jobs[jobId := JobRecord(Succeeded, Some(DRY_RUN_MESSAGE), view.now, view.now)];
        return Applied(jobId, Succeeded, Described(plan, view));
      }
      if view.preflight.Some? {
        return Error(CodeOf(view.preflight.value.kind), view.preflight.value.message);
      }
      jobs := jobs[jobId := JobRecord(Running, Some(RUNNING_MESSAGE), view.now, view.now)];
      tasks := tasks[jobId := parsed.value];
      return Applied(jobId, Running, Described(plan, view));
    }

    /** Requests that only look at the platform. */
    method Observed(request: Request, view: View) returns (r: Response)
      requires !request.Configure? && !request.QueryJob? && !request.ListJobs? && !request.QueryDaemon?
      ensures Answers(parse, Contents(), Contents(), request, "", view, r) && Signed(r, version, startedAt, view)
    {
      match request
      case Ping => r := Pong(version, PROTOCOL_VERSION);
      case QueryCapabilities => r := Capabilities(view.capabilities);
      case ListAdapters =>
        r := if view.adapters.Success? then Adapters(view.adapters.value) else Error(Internal, view.adapters.error.message);
      case QueryNetwork =>
        if view.adapters.Failure? {
          return Error(Internal, view.adapters.error.message);
        }
        var wifi := view.wifi(None);
        r := if wifi.Success? then NetworkStatus(view.now, view.adapters.value, wifi.value, None)
             else NetworkStatus(view.now, view.adapters.value, [], Some(wifi.error.message));
      case QueryWifi(ifIndex) =>
        var wifi := view.wifi(ifIndex);
        r := if wifi.Success? then WifiStatus(wifi.value) else Error(CodeOf(wifi.error.kind), wifi.error.message);
      case WifiScan(ifIndex, refresh, timeoutMs) =>
        if !(250 <= timeoutMs <= 15_000) {
          return Error(InvalidRequest, "Wi-Fi scan timeout_ms must be between 250 and 15000");
        }
        var scanned := view.scan(ifIndex, refresh, timeoutMs);
        r := if scanned.Success? then WifiNetworks(scanned.value.0, scanned.value.1)
             else Error(CodeOf(scanned.error.kind), scanned.error.message);
      case Shutdown => r := ShutdownAccepted;
    }

    /** The background end of a live apply. */
    method Complete(jobId: string, outcome: Outcome, now: u64)
      requires jobId in tasks
      modifies this
      ensures Contents() == Step(parse, old(Contents()), Finished(jobId, outcome, now))
    {
      if jobId in jobs {
        var state := if outcome.Panicked? then Failed
                     else if outcome.report.ok then Succeeded
                     else if outcome.report.rolledBack then RolledBack
                     else Failed;
        jobs := jobs[jobId := JobRecord(state, Some(outcome.message), jobs[jobId].createdAtUnixMs, now)];
      }
      tasks := tasks - {jobId};
    }
  }
}

/** The requests and responses of the daemon protocol. */
module Protocol {
  import opened Std
  import opened Model
  import Plan

  const PROTOCOL_VERSION: u32 := 1

  datatype ConfigAction = Validate | MakePlan | Apply

  datatype ConfigFormat = Auto | Yaml | Json

  datatype Request =
    | Ping
    | QueryDaemon
    | QueryCapabilities
    | ListAdapters
    | Configure(action: ConfigAction, format: ConfigFormat, document: seq<u8>, dryRun: bool)
    | QueryJob(jobId: string)
    | ListJobs(filter: Option<JobState>, limit: u32)
    | QueryNetwork
    | QueryWifi(ifIndex: Option<u32>)
    | WifiScan(ifIndex: Option<u32>, refresh: bool, timeoutMs: u32)
    | Shutdown

  datatype ValidationIssue = ValidationIssue(path: Option<string>, message: string)

  datatype JobState = Queued | Running | Succeeded | Failed | RolledBack

  datatype JobSummary = JobSummary(
    jobId: string, state: JobState, message: Option<string>, createdAtUnixMs: u64, updatedAtUnixMs: u64)

  datatype ErrorCode = InvalidRequest | InvalidConfig | Unsupported | PermissionDenied | NotFound | Internal

  /** A planned operation as it is reported. */
  datatype OperationInfo = OperationInfo(
    id: string, capability: string, summary: string, risk: Plan.Risk, target: Option<string>)

  datatype Response =
    | Pong(daemonVersion: string, protocolVersion: u32)
    | DaemonStatus(
        daemonVersion: string, protocolVersion: u32, startedAtUnixMs: u64, uptimeMs: u64, counts: JobCounts)
    | Capabilities(capabilities: seq<Capability>)
    | Adapters(adapters: seq<AdapterInfo>)
    | Validation(valid: bool, issues: seq<ValidationIssue>)
    | Planned(operations: seq<OperationInfo>)
    | Applied(jobId: string, state: JobState, operations: seq<OperationInfo>)
    | JobStatus(jobId: string, state: JobState, message: Option<string>)
    | Jobs(jobs: seq<JobSummary>, total: u32)
    | NetworkStatus(
        capturedAtUnixMs: u64, adapters: seq<AdapterInfo>, interfaces: seq<WifiInterfaceStatus>, wifiError: Option<string>)
    | WifiStatus(interfaces: seq<WifiInterfaceStatus>)
    | WifiNetworks(refreshed: bool, networks: seq<WifiNetwork>)
    | ShutdownAccepted
    | Error(code: ErrorCode, diagnostic: string)

  datatype JobCounts = JobCounts(total: u32, queued: u32, running: u32, succeeded: u32, failed: u32, rolledBack: u32)

  /** A decoded payload with the identifier the client chose. */
  datatype Frame<T> = Frame(requestId: u64, payload: T)
}

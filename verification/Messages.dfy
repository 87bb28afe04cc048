/** The wire records the controller and the agents exchange. Enumerations travel as open
    32-bit integers, so a status is an `int` and the named values are constants. */
module Messages {
  newtype byte = x: int | 0 <= x < 0x100

  const MACHINE_UNSPECIFIED := 0
  const MACHINE_ONLINE := 1
  const MACHINE_OFFLINE := 3

  const PROFILE_UNSPECIFIED := 0
  const PROFILE_AVAILABLE := 1
  const PROFILE_LEASED := 2
  const PROFILE_LAUNCHING := 3
  const PROFILE_BROKEN := 4
  const PROFILE_QUARANTINED := 5

  const PLATFORM_UNSPECIFIED := 0

  const METRIC_GAUGE := 2

  datatype Machine = Machine(
    machineId: string, agentGrpcAddr: string, tailscaleHost: string, status: int,
    labels: map<string, string>, lastHeartbeat: int)

  datatype Account = Account(accountId: string, platform: int, handle: string, health: string)

  datatype Profile = Profile(
    profileId: string, machineId: string, status: int, cdpUrl: string,
    accounts: seq<Account>, labels: map<string, string>, lastSeen: int)

  datatype Binding = Binding(
    bindingId: string, profileId: string, machineId: string, platform: int, accountId: string,
    handle: string, accountHealth: string, profileStatus: int, agentGrpcAddr: string,
    cdpUrl: string, lastSeen: int)

  datatype Lease = Lease(
    leaseId: string, profileId: string, machineId: string, clientId: string, purpose: string,
    fencingToken: string, expiresAt: int)

  /** What a client presents to an agent: the part of a lease that the agent checks. */
  datatype LeaseContext = LeaseContext(
    leaseId: string, profileId: string, fencingToken: string, expiresAt: int)

  function ContextOf(lease: Lease): LeaseContext {
    LeaseContext(lease.leaseId, lease.profileId, lease.fencingToken, lease.expiresAt)
  }

  datatype Route = Route(
    machineId: string, agentGrpcAddr: string, profileId: string, leaseId: string, fencingToken: string)

  datatype MetricSample = MetricSample(
    name: string, kind: int, observedAt: int, machineId: string, profileId: string, platform: int,
    domain: string, action: string, statusClass: string, errorClass: string, value: real)

  datatype MetricPoint = MetricPoint(
    name: string, bucketStart: int, machineId: string, profileId: string, platform: int,
    domain: string, action: string, statusClass: string, errorClass: string, value: real)

  /** A message is UTF-8 bytes, because the size limit on it counts bytes. */
  datatype Event = Event(
    eventId: string, eventType: string, severity: int, observedAt: int, machineId: string,
    profileId: string, platform: int, message: seq<byte>, attributes: map<string, string>)

  /** `details` stands for the artifact fields that the controller only stores. */
  datatype Artifact = Artifact(artifactId: string, machineId: string, details: string)

  datatype Code =
    | InvalidArgument | NotFound | PermissionDenied | AlreadyExists | Internal | Unavailable
}

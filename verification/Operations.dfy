/** The controller's calls as transitions on its state. `now` is the clock reading a call
    uses; identifiers the generator draws and outcomes that depend on hash-map order travel
    in the request. */
module Operations {
  import opened Options
  import opened Messages
  import opened Registry
  import Telemetry

  datatype Request =
    | RegisterMachine(machine: Option<Machine>, profiles: seq<Profile>)
    | Heartbeat(machineId: string, status: int, profiles: seq<Profile>)
    | ListProfiles(platform: int, accountId: string, selector: map<string, string>, includeUnavailable: bool)
    | ListBindings(platform: int, accountId: string, machineId: string, profileId: string, includeUnavailable: bool)
    | Lookup(platform: int, accountId: string, selector: map<string, string>, includeUnavailable: bool)
    | Acquire(clientId: string, purpose: string, platform: int, accountId: string, selector: map<string, string>,
              ttl: int, leaseId: string, fencingToken: string, choice: string)
    | Renew(leaseId: string, fencingToken: string, ttl: int)
    | Release(leaseId: string, fencingToken: string)
    | Quarantine(profileId: string)
    | ReleaseQuarantine(profileId: string)
    | ListMachineLeases(machineId: string)
    | GetRoute(leaseId: string, fencingToken: string)
    | ReportTelemetry(reporter: string, samples: seq<MetricSample>, events: seq<Event>, evicted: set<MetricKey>)
    | ReportArtifacts(reporter: string, artifacts: seq<Artifact>)
    | SweepNow(offlineAfter: int)

  datatype Readiness = ReadyToAcquire | HeldByClient | NotReady

  /** Listings are sets: the source returns hash-map values in no particular order. */
  datatype Response =
    | Failed(code: Code)
    | Registered(machineId: string)
    | HeartbeatAccepted
    | Profiles(profiles: set<Profile>)
    | Bindings(bindings: set<Binding>)
    | Connection(binding: Binding, activeLeaseId: string, activeLeaseExpiresAt: int, available: bool,
                 readiness: Readiness)
    | Granted(lease: Lease, route: Route)
    | Renewed(lease: Lease)
    | Released
    | Quarantined(profile: Profile)
    | QuarantineReleased(profile: Profile)
    | MachineLeases(leases: set<Lease>)
    | Located(route: Route)
    | TelemetryAccepted(samples: nat, events: nat)
    | ArtifactsAccepted(count: nat)
    | Swept(revoked: set<Lease>)

  /** What the locked section decides: a finished response, or a lease whose machine must still
      be looked up in the network directory. */
  datatype Answer = Done(response: Response) | RouteTo(lease: Lease, granted: bool)

  /** Either nothing is written, or `state` is persisted and then installed. */
  datatype Outcome = Keep(answer: Answer) | Commit(state: State, answer: Answer)

  ghost predicate AnyExpired(s: State, now: int) {
    exists id :: id in s.leases && s.leases[id].expiresAt <= now
  }

  /** Reads write only when they found something to expire. */
  ghost function Settle(s: State, now: int, answer: Answer): Outcome {
    if AnyExpired(s, now) then Commit(Expire(s, now), answer) else Keep(answer)
  }

  function Refuse(code: Code): Outcome {
    Keep(Done(Failed(code)))
  }

  function Checkin(m: Machine, now: int): Machine {
    m.(lastHeartbeat := now, status := if m.status == MACHINE_UNSPECIFIED then MACHINE_ONLINE else m.status)
  }

  ghost function CommitUpserts(s: State, profiles: seq<Profile>, machineId: string, now: int,
                               response: Response): Outcome {
    match UpsertAll(s, profiles, machineId, now)
    case Err(code) => Refuse(code)
    case Ok(next) => Commit(next, Done(response))
  }

  ghost function HandleRegisterMachine(s: State, machine: Option<Machine>, profiles: seq<Profile>, now: int): Outcome {
    if machine.None? || machine.value.machineId == "" then Refuse(InvalidArgument)
    else
      var m := Checkin(machine.value, now);
      var x := Expire(s, now);
      CommitUpserts(x.(machines := x.machines[m.machineId := m]), profiles, m.machineId, now, Registered(m.machineId))
  }

  ghost function HandleHeartbeat(s: State, machineId: string, status: int, profiles: seq<Profile>, now: int): Outcome {
    if machineId == "" then Refuse(InvalidArgument)
    else
      var x := Expire(s, now);
      if machineId !in x.machines then Refuse(NotFound)
      else
        var m := x.machines[machineId].(status := status, lastHeartbeat := now);
        CommitUpserts(x.(machines := x.machines[machineId := m]), profiles, machineId, now, HeartbeatAccepted)
  }

  ghost function MatchingProfiles(s: State, platform: int, accountId: string, selector: map<string, string>,
                                  includeUnavailable: bool): set<Profile> {
    set id | id in s.profiles && ProfileMatches(s.profiles[id], platform, accountId, selector, includeUnavailable) ::
        s.profiles[id]
  }

  predicate BindingMatches(b: Binding, platform: int, accountId: string, machineId: string, profileId: string,
                           includeUnavailable: bool) {
    && (includeUnavailable || b.profileStatus == PROFILE_AVAILABLE)
    && (platform == PLATFORM_UNSPECIFIED || b.platform == platform)
    && (accountId == "" || b.accountId == accountId)
    && (machineId == "" || b.machineId == machineId)
    && (profileId == "" || b.profileId == profileId)
  }

  ghost function MatchingBindings(s: State, platform: int, accountId: string, machineId: string, profileId: string,
                                  includeUnavailable: bool): set<Binding> {
    set k | k in s.bindings && LiveBinding(s, s.bindings[k]).Some?
            && BindingMatches(LiveBinding(s, s.bindings[k]).value, platform, accountId, machineId, profileId,
                              includeUnavailable)
      :: LiveBinding(s, s.bindings[k]).value
  }

  ghost function Describe(s: State, b: Binding): Response {
    var active := ActiveLease(s, b.profileId);
    var available := b.profileStatus == PROFILE_AVAILABLE;
    Connection(b,
               if active.Some? then active.value.leaseId else "",
               if active.Some? then active.value.expiresAt else 0,
               available,
               if available then ReadyToAcquire else if active.Some? then HeldByClient else NotReady)
  }

  ghost function HandleLookup(s: State, platform: int, accountId: string, selector: map<string, string>,
                              includeUnavailable: bool, now: int): Outcome {
    if KeyOf(platform, accountId).None? then Refuse(InvalidArgument)
    else
      var x := Expire(s, now);
      match SelectForLookup(x, platform, accountId, selector, includeUnavailable)
      case None => Settle(s, now, Done(Failed(NotFound)))
      case Some(b) => Settle(s, now, Done(Describe(x, b)))
  }

  ghost function HandleAcquire(s: State, r: Request, now: int): Outcome
    requires r.Acquire?
  {
    if r.clientId == "" then Refuse(InvalidArgument)
    else
      var x := Expire(s, now);
      match SelectForAcquire(x, r.platform, r.accountId, r.selector, r.choice)
      case None => Refuse(NotFound)
      case Some(id) => Commit(Grant(x, id, NewLease(x, id, r, now)), RouteTo(NewLease(x, id, r, now), true))
  }

  function NewLease(s: State, profileId: string, r: Request, now: int): Lease
    requires r.Acquire? && profileId in s.profiles
  {
    var p := s.profiles[profileId];
    Lease(r.leaseId, p.profileId, p.machineId, r.clientId, r.purpose, r.fencingToken, Deadline(now, r.ttl))
  }

  function Grant(s: State, profileId: string, lease: Lease): State
    requires profileId in s.profiles
  {
    s.(leases := s.leases[lease.leaseId := lease],
       profiles := s.profiles[profileId := s.profiles[profileId].(status := PROFILE_LEASED)])
  }

  ghost function HandleRenew(s: State, leaseId: string, fencingToken: string, ttl: int, now: int): Outcome {
    var x := Expire(s, now);
    if leaseId !in x.leases then Refuse(NotFound)
    else if x.leases[leaseId].fencingToken != fencingToken then Refuse(PermissionDenied)
    else
      var lease := x.leases[leaseId].(expiresAt := Deadline(now, ttl));
      Commit(x.(leases := x.leases[leaseId := lease]), Done(Renewed(lease)))
  }

  function SetStatus(s: State, profileId: string, status: int): State {
    if profileId in s.profiles
    then s.(profiles := s.profiles[profileId := s.profiles[profileId].(status := status)]) else s
  }

  ghost function HandleRelease(s: State, leaseId: string, fencingToken: string, now: int): Outcome {
    var x := Expire(s, now);
    if leaseId !in x.leases then Refuse(NotFound)
    else if x.leases[leaseId].fencingToken != fencingToken then Refuse(PermissionDenied)
    else
      Commit(SetStatus(x.(leases := x.leases - {leaseId}), x.leases[leaseId].profileId, PROFILE_AVAILABLE),
             Done(Released))
  }

  /** Quarantines a profile and takes its leases away. */
  function EvictAll(s: State, profileId: string): State {
    SetStatus(s, profileId, PROFILE_QUARANTINED).(
      leases := map id | id in s.leases && s.leases[id].profileId != profileId :: s.leases[id])
  }

  ghost function HandleQuarantine(s: State, profileId: string, now: int): Outcome {
    if profileId == "" then Refuse(InvalidArgument)
    else
      var x := Expire(s, now);
      if profileId !in x.profiles then Refuse(NotFound)
      else
        var y := EvictAll(x, profileId);
        Commit(y, Done(Quarantined(y.profiles[profileId])))
  }

  ghost function HandleReleaseQuarantine(s: State, profileId: string): Outcome {
    if profileId == "" then Refuse(InvalidArgument)
    else if profileId !in s.profiles then Refuse(NotFound)
    else
      var y := if s.profiles[profileId].status == PROFILE_QUARANTINED then SetStatus(s, profileId, PROFILE_AVAILABLE)
          else s;
      Commit(y, Done(QuarantineReleased(y.profiles[profileId])))
  }

  ghost function LiveLeases(s: State, machineId: string, now: int): set<Lease> {
    set id | id in s.leases && s.leases[id].machineId == machineId && s.leases[id].expiresAt > now :: s.leases[id]
  }

  ghost function HandleListMachineLeases(s: State, machineId: string, now: int): Outcome {
    if machineId == "" then Refuse(InvalidArgument) else Keep(Done(MachineLeases(LiveLeases(s, machineId, now))))
  }

  /** A refused lookup of a route does not write the expiry it saw. */
  ghost function HandleGetRoute(s: State, leaseId: string, fencingToken: string, now: int): Outcome {
    var x := Expire(s, now);
    if leaseId !in x.leases then Refuse(NotFound)
    else if x.leases[leaseId].fencingToken != fencingToken then Refuse(PermissionDenied)
    else Settle(s, now, RouteTo(x.leases[leaseId], false))
  }

  ghost function HandleReportTelemetry(s: State, reporter: string, samples: seq<MetricSample>, events: seq<Event>,
                                       evicted: set<MetricKey>): Outcome {
    if reporter == "" then Refuse(InvalidArgument)
    else Commit(Telemetry.Report(s, reporter, samples, events, evicted),
                Done(TelemetryAccepted(|Telemetry.Accepted(samples, reporter)|, |events|)))
  }

  function StoreArtifacts(artifacts: map<string, Artifact>, reported: seq<Artifact>,
                          reporter: string): map<string, Artifact> {
    if reported == [] then artifacts
    else
      var before := StoreArtifacts(artifacts, reported[..|reported| - 1], reporter);
      var a := reported[|reported| - 1];
      if a.artifactId == "" then before
      else before[a.artifactId := a.(machineId := if a.machineId == "" then reporter else a.machineId)]
  }

  function CountArtifacts(reported: seq<Artifact>): nat {
    if reported == [] then 0
    else CountArtifacts(reported[..|reported| - 1]) + if reported[|reported| - 1].artifactId == "" then 0 else 1
  }

  ghost function HandleReportArtifacts(s: State, reporter: string, artifacts: seq<Artifact>): Outcome {
    if reporter == "" then Refuse(InvalidArgument)
    else Commit(s.(artifacts := StoreArtifacts(s.artifacts, artifacts, reporter)),
                Done(ArtifactsAccepted(CountArtifacts(artifacts))))
  }

  ghost function RevokedBy(s: State, now: int, offlineAfter: int): set<Lease> {
    var marked := s.(machines := MarkOffline(s.machines, now, offlineAfter));
    set id | id in DoomedIds(marked, now) && id in s.leases :: s.leases[id]
  }

  ghost function Handle(s: State, r: Request, now: int): Outcome {
    match r
    case RegisterMachine(machine, profiles) => HandleRegisterMachine(s, machine, profiles, now)
    case Heartbeat(machineId, status, profiles) => HandleHeartbeat(s, machineId, status, profiles, now)
    case ListProfiles(platform, accountId, selector, all) =>
      Settle(s, now, Done(Profiles(MatchingProfiles(Expire(s, now), platform, accountId, selector, all))))
    case ListBindings(platform, accountId, machineId, profileId, all) =>
      Settle(s, now, Done(Bindings(MatchingBindings(Expire(s, now), platform, accountId, machineId, profileId, all))))
    case Lookup(platform, accountId, selector, all) => HandleLookup(s, platform, accountId, selector, all, now)
    case Acquire(_, _, _, _, _, _, _, _, _) => HandleAcquire(s, r, now)
    case Renew(leaseId, fencingToken, ttl) => HandleRenew(s, leaseId, fencingToken, ttl, now)
    case Release(leaseId, fencingToken) => HandleRelease(s, leaseId, fencingToken, now)
    case Quarantine(profileId) => HandleQuarantine(s, profileId, now)
    case ReleaseQuarantine(profileId) => HandleReleaseQuarantine(s, profileId)
    case ListMachineLeases(machineId) => HandleListMachineLeases(s, machineId, now)
    case GetRoute(leaseId, fencingToken) => HandleGetRoute(s, leaseId, fencingToken, now)
    case ReportTelemetry(reporter, samples, events, evicted) => HandleReportTelemetry(s, reporter, samples, events,
            evicted)
    case ReportArtifacts(reporter, artifacts) => HandleReportArtifacts(s, reporter, artifacts)
    case SweepNow(offlineAfter) =>
      Commit(Sweep(s, now, offlineAfter), Done(Swept(RevokedBy(s, now, offlineAfter))))
  }

  /** The hash-map outcomes a request carries are ones the code could produce in this state. */
  ghost predicate LegalRequest(s: State, r: Request, now: int) {
    && (r.Acquire? ==> LegalChoice(Expire(s, now), r.platform, r.accountId, r.selector, r.choice))
    && (r.ReportTelemetry? ==> Telemetry.LegalReport(s, r.reporter, r.samples, r.evicted))
  }

  /** The state after a call, given whether the write (if there is one) went through. */
  ghost function After(s: State, o: Outcome, persisted: bool): State {
    if o.Commit? && persisted then o.state else s
  }

  lemma ReportIsHandled(s: State, r: Request, now: int)
    requires r.ReportTelemetry?
    ensures Handle(s, r, now) == HandleReportTelemetry(s, r.reporter, r.samples, r.events, r.evicted)
  {
  }
}

/** Every write of the controller is a short sequence of primitive edits. Properties of whole
    runs are proved once per edit and lifted to calls here. */
module Edits {
  import opened Messages
  import opened Registry
  import opened Operations

  datatype Edit =
    | ReclaimSome(ids: set<string>)
    | PutMachine(machine: Machine)
    | MarkStale(now: int, offlineAfter: int)
    | PutProfile(profile: Profile, reporter: string, now: int)
    | GrantLease(profileId: string, lease: Lease)
    | Extend(leaseId: string, expiresAt: int)
    | Drop(leaseId: string)
    | Evict(profileId: string)
    | Unquarantine(profileId: string)
    | Restock(metrics: map<MetricKey, MetricPoint>, events: seq<Event>, artifacts: map<string, Artifact>)

  ghost predicate Enabled(s: State, e: Edit) {
    match e
    case PutProfile(p, reporter, now) => reporter in s.machines && Upsert(s, p, reporter, now).Ok?
    case GrantLease(id, lease) =>
      && id in s.profiles && !HasLease(s, id) && s.profiles[id].status == PROFILE_AVAILABLE
      && lease.profileId == s.profiles[id].profileId && lease.machineId == s.profiles[id].machineId
    case Extend(id, _) => id in s.leases
    case Drop(id) => id in s.leases
    case Evict(id) => id in s.profiles
    case Unquarantine(id) => id in s.profiles && s.profiles[id].status == PROFILE_QUARANTINED
    case _ => true
  }

  ghost function Apply(s: State, e: Edit): State
    requires Enabled(s, e)
  {
    match e
    case ReclaimSome(ids) => Reclaim(s, ids)
    case PutMachine(m) => s.(machines := s.machines[m.machineId := m])
    case MarkStale(now, offlineAfter) => s.(machines := MarkOffline(s.machines, now, offlineAfter))
    case PutProfile(p, reporter, now) => Upsert(s, p, reporter, now).value
    case GrantLease(id, lease) => Grant(s, id, lease)
    case Extend(id, expiresAt) => s.(leases := s.leases[id := s.leases[id].(expiresAt := expiresAt)])
    case Drop(id) => SetStatus(s.(leases := s.leases - {id}), s.leases[id].profileId, PROFILE_AVAILABLE)
    case Evict(id) => EvictAll(s, id)
    case Unquarantine(id) => SetStatus(s, id, PROFILE_AVAILABLE)
    case Restock(metrics, events, artifacts) => s.(metrics := metrics, events := events, artifacts := artifacts)
  }

  ghost predicate Reaches(s: State, edits: seq<Edit>, t: State)
    decreases |edits|
  {
    if edits == [] then s == t
    else Enabled(s, edits[0]) && Reaches(Apply(s, edits[0]), edits[1..], t)
  }

  function PutProfiles(profiles: seq<Profile>, reporter: string, now: int): seq<Edit> {
    seq(|profiles|, i requires 0 <= i < |profiles| => PutProfile(profiles[i], reporter, now))
  }

  /** The edits behind a call that commits. */
  ghost function EditsOf(s: State, r: Request, now: int): seq<Edit>
    requires Handle(s, r, now).Commit?
  {
    var x := Expire(s, now);
    var expiry := [ReclaimSome(ExpiredIds(s, now))];
    match r
    case RegisterMachine(machine, profiles) =>
      expiry + [PutMachine(Checkin(machine.value, now))] + PutProfiles(profiles, machine.value.machineId, now)
    case Heartbeat(machineId, status, profiles) =>
      expiry + [PutMachine(x.machines[machineId].(status := status, lastHeartbeat := now))]
          + PutProfiles(profiles, machineId, now)
    case Acquire(_, _, _, _, _, _, _, _, _) =>
      var id := SelectForAcquire(x, r.platform, r.accountId, r.selector, r.choice).value;
      expiry + [GrantLease(id, NewLease(x, id, r, now))]
    case Renew(leaseId, _, ttl) => expiry + [Extend(leaseId, Deadline(now, ttl))]
    case Release(leaseId, _) => expiry + [Drop(leaseId)]
    case Quarantine(profileId) => expiry + [Evict(profileId)]
    case ReleaseQuarantine(profileId) =>
      if s.profiles[profileId].status == PROFILE_QUARANTINED then [Unquarantine(profileId)] else []
    case ReportTelemetry(_, _, _, _) =>
      var t := Handle(s, r, now).state; [Restock(t.metrics, t.events, t.artifacts)]
    case ReportArtifacts(_, _) =>
      var t := Handle(s, r, now).state; [Restock(t.metrics, t.events, t.artifacts)]
    case SweepNow(offlineAfter) =>
      var marked := s.(machines := MarkOffline(s.machines, now, offlineAfter));
      [MarkStale(now, offlineAfter), ReclaimSome(DoomedIds(marked, now))]
    case _ => expiry
  }

  lemma {:induction false} UpsertsReach(s: State, profiles: seq<Profile>, reporter: string, now: int)
    requires reporter in s.machines && UpsertAll(s, profiles, reporter, now).Ok?
    ensures Reaches(s, PutProfiles(profiles, reporter, now), UpsertAll(s, profiles, reporter, now).value)
    decreases |profiles|
  {
    if profiles != [] {
      var next := Upsert(s, profiles[0], reporter, now).value;
      UpsertsReach(next, profiles[1..], reporter, now);
      assert PutProfiles(profiles, reporter, now)[1..] == PutProfiles(profiles[1..], reporter, now);
    }
  }

  lemma ReachesAfterTwo(s: State, a: Edit, b: Edit, rest: seq<Edit>, t: State)
    requires Enabled(s, a) && Enabled(Apply(s, a), b) && Reaches(Apply(Apply(s, a), b), rest, t)
    ensures Reaches(s, [a] + [b] + rest, t)
  {
    assert ([a] + [b] + rest)[1..] == [b] + rest;
    assert ([b] + rest)[1..] == rest;
  }

  lemma ReachesTwo(s: State, a: Edit, b: Edit)
    requires Enabled(s, a) && Enabled(Apply(s, a), b)
    ensures Reaches(s, [a] + [b], Apply(Apply(s, a), b))
  {
    ReachesAfterTwo(s, a, b, [], Apply(Apply(s, a), b));
    assert [a] + [b] + [] == [a] + [b];
  }

  lemma CheckinReaches(s: State, m: Machine, profiles: seq<Profile>, now: int, response: Response)
    requires var x := Expire(s, now);
             CommitUpserts(x.(machines := x.machines[m.machineId := m]), profiles, m.machineId, now, response).Commit?
    ensures var x := Expire(s, now);
            Reaches(s, [ReclaimSome(ExpiredIds(s, now))] + [PutMachine(m)] + PutProfiles(profiles, m.machineId, now),
                    CommitUpserts(x.(machines := x.machines[m.machineId := m]), profiles, m.machineId, now,
                                  response).state)
  {
    var x := Expire(s, now);
    var y := x.(machines := x.machines[m.machineId := m]);
    UpsertsReach(y, profiles, m.machineId, now);
    ReachesAfterTwo(s, ReclaimSome(ExpiredIds(s, now)), PutMachine(m), PutProfiles(profiles, m.machineId, now),
                    UpsertAll(y, profiles, m.machineId, now).value);
  }

  lemma RegistrationIsEdits(s: State, r: Request, now: int)
    requires r.RegisterMachine? || r.Heartbeat?
    requires KeysMatch(s) && Handle(s, r, now).Commit?
    ensures Reaches(s, EditsOf(s, r, now), Handle(s, r, now).state)
  {
    match r
    case RegisterMachine(machine, profiles) =>
      CheckinReaches(s, Checkin(machine.value, now), profiles, now, Registered(machine.value.machineId));
    case Heartbeat(machineId, status, profiles) =>
      CheckinReaches(s, Expire(s, now).machines[machineId].(status := status, lastHeartbeat := now), profiles, now,
                     HeartbeatAccepted);
  }

  lemma LeaseCallIsEdits(s: State, r: Request, now: int)
    requires r.Acquire? || r.Renew? || r.Release? || r.Quarantine?
    requires Handle(s, r, now).Commit?
    ensures Reaches(s, EditsOf(s, r, now), Handle(s, r, now).state)
  {
    ReachesTwo(s, EditsOf(s, r, now)[0], EditsOf(s, r, now)[1]);
  }

  /** A call that commits is its edits, each of them enabled where it happens. */
  lemma CallIsEdits(s: State, r: Request, now: int)
    requires KeysMatch(s) && Handle(s, r, now).Commit?
    ensures Reaches(s, EditsOf(s, r, now), Handle(s, r, now).state)
  {
    if r.RegisterMachine? || r.Heartbeat? {
      RegistrationIsEdits(s, r, now);
    } else if r.Acquire? || r.Renew? || r.Release? || r.Quarantine? {
      LeaseCallIsEdits(s, r, now);
    } else if r.SweepNow? {
      ReachesTwo(s, EditsOf(s, r, now)[0], EditsOf(s, r, now)[1]);
    }
  }

  /** Whatever every allowed edit keeps, every call made of allowed edits keeps. */
  lemma {:induction false} EditsKeep(keeps: State -> bool, allowed: Edit -> bool, s: State, edits: seq<Edit>, t: State)
    requires keeps(s) && Reaches(s, edits, t)
    requires forall i :: 0 <= i < |edits| ==> allowed(edits[i])
    requires forall x, e :: keeps(x) && allowed(e) && Enabled(x, e) ==> keeps(Apply(x, e))
    ensures keeps(t)
    decreases |edits|
  {
    if edits != [] {
      EditsKeep(keeps, allowed, Apply(s, edits[0]), edits[1..], t);
    }
  }
}

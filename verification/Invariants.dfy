/** Every call, and every run of calls, keeps the controller's invariant. No assumption is made
    on clock readings, on hash-map order, on which writes fail, or on freshness of lease ids. */
module Invariants {
  import opened Options
  import opened Messages
  import opened Registry
  import opened Operations
  import opened Edits
  import Telemetry

  /** `b` differs from `a` in statuses only. */
  ghost predicate OnlyStatuses(a: map<string, Profile>, b: map<string, Profile>) {
    && a.Keys == b.Keys
    && forall id :: id in a ==> b[id] == a[id].(status := b[id].status)
  }

  ghost predicate SoundLeases(s: State) {
    && Exclusive(s) && LeasedStatus(s)
    && forall id :: id in s.leases ==> s.leases[id].leaseId == id && s.leases[id].machineId in s.machines
  }

  lemma SameAccountsKeepIndex(s: State, t: State)
    requires Indexed(s) && OnlyStatuses(s.profiles, t.profiles) && t.bindings == s.bindings
    ensures Indexed(t)
  {
    forall k, id | IsKey(k) && id in t.profiles
      ensures HasAccount(t.profiles[id], k) <==> k in t.bindings && t.bindings[k].profileId == id
    {
      assert HasAccount(t.profiles[id], k) == HasAccount(s.profiles[id], k);
    }
  }

  /** Calls that touch leases and statuses only need to account for the leases. */
  lemma LeaseEditKeepsCore(s: State, t: State)
    requires KeysMatch(s) && Housed(s) && Indexed(s) && SoundLeases(t) && OnlyStatuses(s.profiles, t.profiles)
    requires t.machines == s.machines && t.bindings == s.bindings
    ensures Core(t)
  {
    SameAccountsKeepIndex(s, t);
  }

  lemma AccountKeysAreAccounts(p: Profile, k: AccountKey)
    ensures k in AccountKeys(p) <==> IsKey(k) && HasAccount(p, k)
  {
    if IsKey(k) && HasAccount(p, k) {
      var a :| a in p.accounts && IsFor(a, k);
      assert AccountKey(a.platform, a.accountId) == k;
    }
  }

  lemma {:induction false} LastAccountIsFor(accounts: seq<Account>, k: AccountKey)
    requires exists a :: a in accounts && IsFor(a, k)
    ensures IsFor(LastAccount(accounts, k), k)
  {
    if !IsFor(accounts[|accounts| - 1], k) {
      LastAccountIsFor(accounts[..|accounts| - 1], k);
    }
  }

  lemma StoredKeepsIndex(s: State, p: Profile)
    requires Indexed(s) && !Conflicts(s, p)
    ensures Indexed(Stored(s, p))
  {
    var t := Stored(s, p);
    forall k | k in t.bindings
      ensures IsKey(k) && t.bindings[k].platform == k.platform && t.bindings[k].accountId == k.accountId
      ensures t.bindings[k].profileId in t.profiles
    {
      AccountKeysAreAccounts(p, k);
      if k in AccountKeys(p) {
        LastAccountIsFor(p.accounts, k);
      }
    }
    forall k, id | IsKey(k) && id in t.profiles
      ensures HasAccount(t.profiles[id], k) <==> k in t.bindings && t.bindings[k].profileId == id
    {
      AccountKeysAreAccounts(p, k);
      if k in s.bindings && s.bindings[k].profileId in s.profiles {
        assert HasAccount(s.profiles[s.bindings[k].profileId], k);
      }
      if id != p.profileId {
        assert t.profiles[id] == s.profiles[id];
        assert HasAccount(s.profiles[id], k) <==> k in s.bindings && s.bindings[k].profileId == id;
      }
    }
  }

  /** The stored status of a leased profile stays Leased, because its status was Leased before. */
  lemma ReportKeepsLeasedStatus(s: State, p: Profile, machineId: string, now: int)
    requires LeasedStatus(s)
    ensures LeasedStatus(Stored(s, Reported(s, p, machineId, now)))
  {
  }

  lemma UpsertKeepsCore(s: State, p: Profile, machineId: string, now: int)
    requires Core(s) && machineId in s.machines && Upsert(s, p, machineId, now).Ok?
    ensures Core(Upsert(s, p, machineId, now).value)
  {
    ReportKeepsLeasedStatus(s, p, machineId, now);
    StoredKeepsIndex(s, Reported(s, p, machineId, now));
  }

  /** Upserts edit profiles and bindings only. */
  lemma {:induction false} UpsertAllFrame(s: State, profiles: seq<Profile>, machineId: string, now: int)
    requires UpsertAll(s, profiles, machineId, now).Ok?
    ensures var t := UpsertAll(s, profiles, machineId, now).value;
            t == s.(profiles := t.profiles, bindings := t.bindings) && s.profiles.Keys <= t.profiles.Keys
    decreases |profiles|
  {
    if profiles != [] {
      UpsertAllFrame(Upsert(s, profiles[0], machineId, now).value, profiles[1..], machineId, now);
    }
  }

  lemma MachineEditKeepsCore(s: State, machines: map<string, Machine>)
    requires Core(s) && s.machines.Keys <= machines.Keys
    requires forall id :: id in machines ==> machines[id].machineId == id
    ensures Core(s.(machines := machines))
  {
    SameAccountsKeepIndex(s, s.(machines := machines));
  }

  lemma ReclaimKeepsCore(s: State, ids: set<string>)
    requires Core(s)
    ensures Core(Reclaim(s, ids))
  {
    LeaseEditKeepsCore(s, Reclaim(s, ids));
  }

  lemma FreeStatusKeepsLeases(s: State, id: string, status: int)
    requires SoundLeases(s) && (!HasLease(s, id) || status == PROFILE_LEASED)
    ensures SoundLeases(SetStatus(s, id, status)) == true
  {
  }

  lemma QuarantinedIsFree(s: State, id: string)
    requires LeasedStatus(s) && id in s.profiles && s.profiles[id].status != PROFILE_LEASED
    ensures !HasLease(s, id)
  {
  }

  /** At most one lease per profile: a grant needs a profile without one. */
  lemma GrantKeepsLeases(s: State, id: string, lease: Lease)
    requires SoundLeases(s) && id in s.profiles && !HasLease(s, id) && lease.profileId == id
             && lease.machineId in s.machines
    ensures SoundLeases(Grant(s, id, lease)) == true
  {
  }

  lemma GrantKeepsCore(s: State, id: string, lease: Lease)
    requires Core(s) && Enabled(s, GrantLease(id, lease))
    ensures Core(Grant(s, id, lease)) == true
  {
    GrantKeepsLeases(s, id, lease);
    LeaseEditKeepsCore(s, Grant(s, id, lease));
  }

  lemma ExtendKeepsCore(s: State, id: string, expiresAt: int)
    requires Core(s) && id in s.leases
    ensures Core(Apply(s, Extend(id, expiresAt))) == true
  {
    LeaseEditKeepsCore(s, Apply(s, Extend(id, expiresAt)));
  }

  /** Setting a released profile Available is right because nothing else holds it. */
  lemma DropKeepsCore(s: State, id: string)
    requires Core(s) && id in s.leases
    ensures Core(Apply(s, Drop(id))) == true
  {
    LeaseEditKeepsCore(s, Apply(s, Drop(id)));
  }

  lemma EvictKeepsCore(s: State, id: string)
    requires Core(s) && id in s.profiles
    ensures Core(EvictAll(s, id)) == true
  {
    LeaseEditKeepsCore(s, EvictAll(s, id));
  }

  lemma UnquarantineKeepsCore(s: State, id: string)
    requires Core(s) && Enabled(s, Unquarantine(id))
    ensures Core(SetStatus(s, id, PROFILE_AVAILABLE)) == true
  {
    QuarantinedIsFree(s, id);
    FreeStatusKeepsLeases(s, id, PROFILE_AVAILABLE);
    LeaseEditKeepsCore(s, SetStatus(s, id, PROFILE_AVAILABLE));
  }

  lemma RestockKeepsCore(s: State, e: Edit)
    requires Core(s) && e.Restock?
    ensures Core(Apply(s, e)) == true
  {
    LeaseEditKeepsCore(s, Apply(s, e));
  }

  /** The comparison with `true` keeps the verifier from reproving `Core` conjunct by conjunct. */
  lemma EditKeepsCore(s: State, e: Edit)
    requires Core(s) && Enabled(s, e)
    ensures Core(Apply(s, e)) == true
  {
    match e
    case ReclaimSome(ids) => ReclaimKeepsCore(s, ids);
    case PutMachine(m) => MachineEditKeepsCore(s, s.machines[m.machineId := m]);
    case MarkStale(now, offlineAfter) => MachineEditKeepsCore(s, MarkOffline(s.machines, now, offlineAfter));
    case PutProfile(p, reporter, now) => UpsertKeepsCore(s, p, reporter, now);
    case GrantLease(id, lease) => GrantKeepsCore(s, id, lease);
    case Extend(id, expiresAt) => ExtendKeepsCore(s, id, expiresAt);
    case Drop(id) => DropKeepsCore(s, id);
    case Evict(id) => EvictKeepsCore(s, id);
    case Unquarantine(id) => UnquarantineKeepsCore(s, id);
    case Restock(_, _, _) => RestockKeepsCore(s, e);
  }

  /** Leases, profiles, machines and bindings stay sound under every call, whatever the clock says. */
  lemma CallKeepsCore(s: State, r: Request, now: int)
    requires Core(s) && Handle(s, r, now).Commit?
    ensures Core(Handle(s, r, now).state)
  {
    CallIsEdits(s, r, now);
    forall x, e | Core(x) && Enabled(x, e)
      ensures Core(Apply(x, e)) == true
    {
      EditKeepsCore(x, e);
    }
    EditsKeep(x => Core(x), e => true, s, EditsOf(s, r, now), Handle(s, r, now).state);
  }

  lemma {:induction false} StoreArtifactsKeepsKeys(artifacts: map<string, Artifact>, reported: seq<Artifact>,
                                                   reporter: string)
    requires forall id :: id in artifacts ==> artifacts[id].artifactId == id
    ensures forall id :: id in StoreArtifacts(artifacts, reported, reporter) ==>
              StoreArtifacts(artifacts, reported, reporter)[id].artifactId == id
  {
    if reported != [] {
      StoreArtifactsKeepsKeys(artifacts, reported[..|reported| - 1], reporter);
    }
  }

  lemma ReportKeepsStock(s: State, reporter: string, samples: seq<MetricSample>, events: seq<Event>,
                         evicted: set<MetricKey>)
    requires Stocked(s) && Telemetry.LegalReport(s, reporter, samples, evicted)
    ensures Stocked(Telemetry.Report(s, reporter, samples, events, evicted))
  {
    Telemetry.RecordAllKeepsKeys(s.metrics, Telemetry.Accepted(samples, reporter));
    Telemetry.EvictionSize(Telemetry.RecordAll(s.metrics, Telemetry.Accepted(samples, reporter)), evicted);
  }

  lemma OnlyReportsHaveRestock(s: State, r: Request, now: int)
    requires Handle(s, r, now).Commit? && !r.ReportTelemetry? && !r.ReportArtifacts?
    ensures forall i :: 0 <= i < |EditsOf(s, r, now)| ==> !EditsOf(s, r, now)[i].Restock?
  {
  }

  ghost predicate SameStock(s: State, t: State) {
    t.metrics == s.metrics && t.events == s.events && t.artifacts == s.artifacts
  }

  /** Calls other than reports leave telemetry and artifacts alone. */
  lemma OnlyReportsRestock(s: State, r: Request, now: int)
    requires KeysMatch(s) && Handle(s, r, now).Commit? && !r.ReportTelemetry? && !r.ReportArtifacts?
    ensures SameStock(s, Handle(s, r, now).state) == true
  {
    CallIsEdits(s, r, now);
    OnlyReportsHaveRestock(s, r, now);
    forall x: State, e: Edit | SameStock(s, x) && !e.Restock? && Enabled(x, e)
      ensures SameStock(s, Apply(x, e))
    {
    }
    EditsKeep((x: State) => SameStock(s, x), (e: Edit) => !e.Restock?, s, EditsOf(s, r, now), Handle(s, r, now).state);
  }

  lemma TelemetryCallKeepsStock(s: State, r: Request, now: int)
    requires Stocked(s) && r.ReportTelemetry? && LegalRequest(s, r, now) && Handle(s, r, now).Commit?
    ensures Stocked(Handle(s, r, now).state) == true
  {
    ReportIsHandled(s, r, now);
    ReportKeepsStock(s, r.reporter, r.samples, r.events, r.evicted);
  }

  lemma ArtifactCallKeepsStock(s: State, r: Request, now: int)
    requires Stocked(s) && r.ReportArtifacts? && Handle(s, r, now).Commit?
    ensures Stocked(Handle(s, r, now).state) == true
  {
    StoreArtifactsKeepsKeys(s.artifacts, r.artifacts, r.reporter);
    SameTelemetryIsStocked(s, Handle(s, r, now).state);
  }

  lemma SameTelemetryIsStocked(s: State, t: State)
    requires Stocked(s) && t.metrics == s.metrics && t.events == s.events
    requires forall id :: id in t.artifacts ==> t.artifacts[id].artifactId == id
    ensures Stocked(t) == true
  {
  }

  lemma SameStockIsStocked(s: State, t: State)
    requires Stocked(s) && SameStock(s, t)
    ensures Stocked(t) == true
  {
  }

  lemma CallKeepsStock(s: State, r: Request, now: int)
    requires Inv(s) && LegalRequest(s, r, now) && Handle(s, r, now).Commit?
    ensures Stocked(Handle(s, r, now).state) == true
  {
    if r.ReportTelemetry? {
      TelemetryCallKeepsStock(s, r, now);
    } else if r.ReportArtifacts? {
      ArtifactCallKeepsStock(s, r, now);
    } else {
      OnlyReportsRestock(s, r, now);
      SameStockIsStocked(s, Handle(s, r, now).state);
    }
  }

  /** The whole invariant survives every call, whether or not its write goes through. */
  lemma CallKeepsInv(s: State, r: Request, now: int, persisted: bool)
    requires Inv(s) && LegalRequest(s, r, now)
    ensures Inv(After(s, Handle(s, r, now), persisted))
  {
    if Handle(s, r, now).Commit? {
      CallKeepsCore(s, r, now);
      CallKeepsStock(s, r, now);
    }
  }

  // ---------- the binding index ----------

  /** Selecting an exact account through the index is the same as scanning all profiles for the
      account, and the scan has at most one answer. */
  lemma IndexAgreesWithScan(s: State, platform: int, accountId: string, selector: map<string, string>, choice: string,
                            id: string)
    requires Inv(s) && KeyOf(platform, accountId).Some?
    ensures SelectForAcquire(s, platform, accountId, selector, choice) == Some(id) <==>
              Grantable(s, id, platform, accountId, selector)
                  && HasAccount(s.profiles[id], AccountKey(platform, accountId))
    ensures forall a, b ::
              (a in s.profiles && HasAccount(s.profiles[a], AccountKey(platform, accountId)))
              && (b in s.profiles && HasAccount(s.profiles[b], AccountKey(platform, accountId)))
              ==> a == b
  {
    var k := AccountKey(platform, accountId);
    assert forall p :: p in s.profiles ==> (HasAccount(s.profiles[p], k) <==>
                                            k in s.bindings && s.bindings[k].profileId == p);
  }

  // ---------- sweeping ----------

  /** A sweep loses no lease: what was held is either still held or returned as revoked. */
  lemma SweepPartitionsLeases(s: State, now: int, offlineAfter: int)
    requires KeysMatch(s)
    ensures var t := Sweep(s, now, offlineAfter);
            var revoked := RevokedBy(s, now, offlineAfter);
            && (forall id :: id in s.leases ==> (id in t.leases) != (s.leases[id] in revoked))
            && (forall id :: id in t.leases ==> id in s.leases && t.leases[id] == s.leases[id])
            && (forall l :: l in revoked ==> l.leaseId in s.leases && s.leases[l.leaseId] == l)
  {
  }

  /** What a sweep leaves can serve: no lease is past its deadline or on an Offline machine. */
  lemma SweepLeavesServable(s: State, now: int, offlineAfter: int)
    requires KeysMatch(s) && Housed(s)
    ensures var t := Sweep(s, now, offlineAfter);
            forall id :: id in t.leases ==>
              t.leases[id].expiresAt > now && t.machines[t.leases[id].machineId].status != MACHINE_OFFLINE
  {
    var marked := s.(machines := MarkOffline(s.machines, now, offlineAfter));
    forall id | id in Sweep(s, now, offlineAfter).leases
      ensures Sweep(s, now, offlineAfter).machines[s.leases[id].machineId].status != MACHINE_OFFLINE
    {
      assert !OnOffline(marked.machines, s.leases[id].machineId);
      assert marked.machines[s.leases[id].machineId].machineId == s.leases[id].machineId;
    }
  }

  /** A profile's status changes only if its lease was revoked, and then it becomes Available. */
  lemma SweepFreesOnlyRevoked(s: State, now: int, offlineAfter: int, id: string)
    requires id in s.profiles
    ensures var t := Sweep(s, now, offlineAfter);
            && id in t.profiles
            && (t.profiles[id] != s.profiles[id] ==>
                  && t.profiles[id] == s.profiles[id].(status := PROFILE_AVAILABLE)
                  && exists l :: l in RevokedBy(s, now, offlineAfter) && l.profileId == id)
  {
    var marked := s.(machines := MarkOffline(s.machines, now, offlineAfter));
    if Sweep(s, now, offlineAfter).profiles[id] != s.profiles[id] {
      var lease :| lease in DoomedIds(marked, now) && lease in marked.leases && marked.leases[lease].profileId == id;
      assert s.leases[lease] in RevokedBy(s, now, offlineAfter);
    }
  }

  lemma ReclaimNothing(s: State)
    ensures Reclaim(s, {}) == s
  {
    assert Reclaim(s, {}).leases == s.leases;
    assert Reclaim(s, {}).profiles == s.profiles;
  }

  /** Sweeping again at the same instant changes nothing and revokes nothing. */
  lemma SweepIsIdempotent(s: State, now: int, offlineAfter: int)
    ensures Sweep(Sweep(s, now, offlineAfter), now, offlineAfter) == Sweep(s, now, offlineAfter)
    ensures RevokedBy(Sweep(s, now, offlineAfter), now, offlineAfter) == {}
  {
    var t := Sweep(s, now, offlineAfter);
    assert MarkOffline(t.machines, now, offlineAfter) == t.machines;
    assert t.(machines := t.machines) == t;
    assert DoomedIds(t, now) == {};
    ReclaimNothing(t);
  }

  /** With no machine Offline, a sweep does to leases and profiles what lazy expiry does. */
  lemma SweepWithoutOfflineIsExpiry(s: State, now: int, offlineAfter: int)
    requires forall id :: id in s.machines ==> MarkOffline(s.machines, now, offlineAfter)[id].status != MACHINE_OFFLINE
    ensures Sweep(s, now, offlineAfter) == Expire(s, now).(machines := MarkOffline(s.machines, now, offlineAfter))
  {
    var marked := s.(machines := MarkOffline(s.machines, now, offlineAfter));
    assert DoomedIds(marked, now) == ExpiredIds(s, now);
    assert forall id :: Frees(marked, ExpiredIds(s, now), id) == Frees(s, ExpiredIds(s, now), id);
  }
}

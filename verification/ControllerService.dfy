/** The controller as it runs: each call copies the state, edits the copy, persists it, and only
    then installs it. Every method is proved equal to the transition that the other modules
    reason about, so all their theorems hold of it. */
module ControllerService {
  import opened Options
  import opened Messages
  import opened Registry
  import opened Operations
  import opened Persistence
  import opened Network
  import opened ControllerSystem
  import Invariants
  import LazyExpiry
  import Telemetry

  // ---------- editing a copy of the state ----------

  ghost function Freed(profiles: map<string, Profile>, ids: set<string>): map<string, Profile> {
    map id | id in profiles ::
      if profiles[id].status == PROFILE_LEASED && id in ids then profiles[id].(status := PROFILE_AVAILABLE)
          else profiles[id]
  }

  lemma FreedOneMore(profiles: map<string, Profile>, ids: set<string>, id: string)
    requires id in profiles
    ensures Freed(profiles, ids + {id}) ==
            if Freed(profiles, ids)[id].status == PROFILE_LEASED
            then Freed(profiles, ids)[id := profiles[id].(status := PROFILE_AVAILABLE)] else Freed(profiles, ids)
  {
  }

  lemma FreedIsExpired(s: State, now: int)
    ensures Expire(s, now).profiles ==
            Freed(s.profiles, set id | id in s.leases && s.leases[id].expiresAt <= now :: s.leases[id].profileId)
  {
    var ids := set id | id in s.leases && s.leases[id].expiresAt <= now :: s.leases[id].profileId;
    assert forall p :: p in ids <==> Frees(s, ExpiredIds(s, now), p);
  }

  method FreeProfiles(profiles: map<string, Profile>, ids: set<string>) returns (freed: map<string, Profile>)
    ensures freed == Freed(profiles, ids)
  {
    freed := profiles;
    var done: set<string> := {};
    while done != ids
      invariant done <= ids && freed == Freed(profiles, done)
      decreases |ids - done|
    {
      var id :| id in ids - done;
      if id in freed {
        FreedOneMore(profiles, done, id);
        if freed[id].status == PROFILE_LEASED {
          freed := freed[id := freed[id].(status := PROFILE_AVAILABLE)];
        }
      } else {
        assert Freed(profiles, done + {id}) == Freed(profiles, done);
      }
      assert ids - (done + {id}) == ids - done - {id};
      done := done + {id};
    }
  }

  lemma ExpiredProfilesExist(s: State, now: int, ids: set<string>)
    requires ids == set id | id in s.leases && s.leases[id].expiresAt <= now :: s.leases[id].profileId
    ensures (ids != {}) == AnyExpired(s, now)
  {
    if AnyExpired(s, now) {
      var id :| id in s.leases && s.leases[id].expiresAt <= now;
      assert s.leases[id].profileId in ids;
    }
  }

  method MarkExpiredLeases(s: State, now: int) returns (x: State, changed: bool)
    ensures x == Expire(s, now) && changed == AnyExpired(s, now)
  {
    var expiredProfileIds := set id | id in s.leases && s.leases[id].expiresAt <= now :: s.leases[id].profileId;
    changed := expiredProfileIds != {};
    ExpiredProfilesExist(s, now, expiredProfileIds);
    x := s.(leases := map id | id in s.leases && s.leases[id].expiresAt > now :: s.leases[id]);
    var profiles := FreeProfiles(s.profiles, expiredProfileIds);
    x := x.(profiles := profiles);
    FreedIsExpired(s, now);
    assert x.leases == Expire(s, now).leases;
  }

  method MarkStaleMachines(s: State, now: int, offlineAfter: int) returns (x: State)
    ensures x == s.(machines := MarkOffline(s.machines, now, offlineAfter))
  {
    x := s;
    var rest := s.machines.Keys;
    while rest != {}
      invariant rest <= s.machines.Keys
      invariant x == s.(machines := x.machines) && x.machines.Keys == s.machines.Keys
      invariant forall id :: id in s.machines ==>
                  x.machines[id] == if id in rest then s.machines[id]
                      else MarkOffline(s.machines, now, offlineAfter)[id]
      decreases |rest|
    {
      var id :| id in rest;
      var machine := x.machines[id];
      if machine.status == MACHINE_ONLINE && machine.lastHeartbeat > 0 && now - machine.lastHeartbeat > offlineAfter {
        x := x.(machines := x.machines[id := machine.(status := MACHINE_OFFLINE)]);
      }
      rest := rest - {id};
    }
    assert x.machines == MarkOffline(s.machines, now, offlineAfter);
  }

  /** Taking back one more lease, the way a sweep does it. */
  function TakeBack(s: State, lease: Lease): State {
    var t := s.(leases := s.leases - {lease.leaseId});
    if lease.profileId in t.profiles && t.profiles[lease.profileId].status == PROFILE_LEASED
    then t.(profiles := t.profiles[lease.profileId := t.profiles[lease.profileId].(status := PROFILE_AVAILABLE)])
    else t
  }

  lemma TakeBackIsReclaim(s: State, id: string)
    requires id in s.leases && s.leases[id].leaseId == id
    ensures TakeBack(s, s.leases[id]) == Reclaim(s, {id})
  {
    assert forall p :: Frees(s, {id}, p) <==> p == s.leases[id].profileId;
    assert TakeBack(s, s.leases[id]).leases == Reclaim(s, {id}).leases;
    assert TakeBack(s, s.leases[id]).profiles == Reclaim(s, {id}).profiles;
  }

  method ReclaimAll(s: State, ids: set<string>) returns (x: State)
    requires ids <= s.leases.Keys && forall id :: id in s.leases ==> s.leases[id].leaseId == id
    ensures x == Reclaim(s, ids)
  {
    x := s;
    var rest := ids;
    Invariants.ReclaimNothing(s);
    assert ids - ids == {};
    while rest != {}
      invariant rest <= ids && x == Reclaim(s, ids - rest)
      decreases |rest|
    {
      var id :| id in rest;
      TakeBackIsReclaim(x, id);
      LazyExpiry.ReclaimComposes(s, ids - rest, {id});
      assert ids - rest + {id} == ids - (rest - {id});
      x := TakeBack(x, s.leases[id]);
      rest := rest - {id};
    }
    assert ids - {} == ids;
  }

  ghost predicate ConflictsUpTo(s: State, p: Profile, n: nat)
    requires n <= |p.accounts|
  {
    exists i :: 0 <= i < n && ConflictsAt(s, p, i)
  }

  predicate ConflictsAt(s: State, p: Profile, i: nat)
    requires i < |p.accounts|
  {
    var k := AccountKey(p.accounts[i].platform, p.accounts[i].accountId);
    IsKey(k) && k in s.bindings && s.bindings[k].profileId != p.profileId
  }

  lemma ConflictsIsSome(s: State, p: Profile)
    ensures Conflicts(s, p) <==> ConflictsUpTo(s, p, |p.accounts|)
  {
    if Conflicts(s, p) {
      var k :| k in AccountKeys(p) && k in s.bindings && s.bindings[k].profileId != p.profileId;
      var i :| 0 <= i < |p.accounts| && AccountKey(p.accounts[i].platform, p.accounts[i].accountId) == k;
      assert ConflictsAt(s, p, i);
    }
    if ConflictsUpTo(s, p, |p.accounts|) {
      var i :| 0 <= i < |p.accounts| && ConflictsAt(s, p, i);
      assert AccountKey(p.accounts[i].platform, p.accounts[i].accountId) in AccountKeys(p);
    }
  }

  method FindConflict(s: State, p: Profile) returns (conflict: bool)
    ensures conflict == Conflicts(s, p)
  {
    for i := 0 to |p.accounts|
      invariant !ConflictsUpTo(s, p, i)
    {
      if ConflictsAt(s, p, i) {
        ConflictsIsSome(s, p);
        return true;
      }
    }
    ConflictsIsSome(s, p);
    return false;
  }

  lemma AccountKeysOneMore(before: Profile, after: Profile, a: Account)
    requires after.accounts == before.accounts + [a]
    ensures var k := AccountKey(a.platform, a.accountId);
            AccountKeys(after) == AccountKeys(before) + if IsKey(k) then {k} else {}
  {
  }

  lemma LastAccountOneMore(accounts: seq<Account>, a: Account, k: AccountKey)
    requires exists b :: b in accounts + [a] && IsFor(b, k)
    ensures IsFor(a, k) ==> LastAccount(accounts + [a], k) == a
    ensures !IsFor(a, k) ==>
              (exists b :: b in accounts && IsFor(b, k)) && LastAccount(accounts + [a], k) == LastAccount(accounts, k)
  {
    assert (accounts + [a])[..|accounts|] == accounts;
  }

  lemma ReindexedEntry(s: State, p: Profile, k: AccountKey)
    ensures k in Reindexed(s, p) <==> k in AccountKeys(p) || (k in s.bindings && s.bindings[k].profileId != p.profileId)
    ensures k in AccountKeys(p) ==>
              (exists a :: a in p.accounts && IsFor(a, k))
                  && Reindexed(s, p)[k] == NewBinding(s, p, LastAccount(p.accounts, k))
    ensures k in Reindexed(s, p) && k !in AccountKeys(p) ==> Reindexed(s, p)[k] == s.bindings[k]
  {
    Invariants.AccountKeysAreAccounts(p, k);
  }

  /** How one more account changes the entry at `j`. */
  lemma EntryOneMore(s: State, before: Profile, after: Profile, a: Account, j: AccountKey)
    requires after == before.(accounts := before.accounts + [a])
    ensures if IsKey(j) && IsFor(a, j) then j in Reindexed(s, after)
            && Reindexed(s, after)[j] == NewBinding(s, before, a)
            else (j in Reindexed(s, after) <==> j in Reindexed(s, before))
                 && (j in Reindexed(s, after) ==> Reindexed(s, after)[j] == Reindexed(s, before)[j])
  {
    AccountKeysOneMore(before, after, a);
    ReindexedEntry(s, before, j);
    ReindexedEntry(s, after, j);
    if j in AccountKeys(after) {
      LastAccountOneMore(before.accounts, a, j);
    }
  }

  lemma SameEntries(a: map<AccountKey, Binding>, b: map<AccountKey, Binding>)
    requires forall k :: (k in a <==> k in b) && (k in a ==> a[k] == b[k])
    ensures a == b
  {
  }

  lemma ReindexedOneMore(s: State, before: Profile, after: Profile, a: Account)
    requires after == before.(accounts := before.accounts + [a])
    ensures var k := AccountKey(a.platform, a.accountId);
            Reindexed(s, after) == if IsKey(k) then Reindexed(s, before)[k := NewBinding(s, before, a)]
                else Reindexed(s, before)
  {
    var k := AccountKey(a.platform, a.accountId);
    var left := Reindexed(s, after);
    var right := if IsKey(k) then Reindexed(s, before)[k := NewBinding(s, before, a)] else Reindexed(s, before);
    forall j
      ensures (j in left <==> j in right) && (j in left ==> left[j] == right[j])
    {
      EntryOneMore(s, before, after, a, j);
    }
    SameEntries(left, right);
  }

  method UpsertProfileAndBindings(s: State, p: Profile, machineId: string, now: int) returns (r: Result<State, Code>)
    ensures r == Upsert(s, p, machineId, now)
  {
    if p.profileId == "" {
      return Err(InvalidArgument);
    }
    var profile := p;
    if profile.machineId == "" {
      profile := profile.(machineId := machineId);
    }
    if profile.machineId != machineId {
      return Err(InvalidArgument);
    }
    if profile.status == PROFILE_UNSPECIFIED {
      profile := profile.(status := PROFILE_AVAILABLE);
    }
    if profile.profileId in s.profiles && OperatorOwned(s.profiles[profile.profileId].status) {
      profile := profile.(status := s.profiles[profile.profileId].status);
    } else if HasLease(s, profile.profileId) {
      profile := profile.(status := PROFILE_LEASED);
    }
    if profile.lastSeen == 0 {
      profile := profile.(lastSeen := now);
    }
    assert profile == Reported(s, p, machineId, now);
    var conflict := FindConflict(s, profile);
    if conflict {
      return Err(AlreadyExists);
    }
    var bindings := RebuildIndex(s, profile);
    return Ok(s.(bindings := bindings, profiles := s.profiles[profile.profileId := profile]));
  }

  method RebuildIndex(s: State, p: Profile) returns (bindings: map<AccountKey, Binding>)
    ensures bindings == Reindexed(s, p)
  {
    bindings := map k | k in s.bindings && s.bindings[k].profileId != p.profileId :: s.bindings[k];
    assert bindings == Reindexed(s, p.(accounts := p.accounts[..0]));
    for i := 0 to |p.accounts|
      invariant bindings == Reindexed(s, p.(accounts := p.accounts[..i]))
    {
      var a := p.accounts[i];
      assert p.accounts[..i + 1] == p.accounts[..i] + [a];
      ReindexedOneMore(s, p.(accounts := p.accounts[..i]), p.(accounts := p.accounts[..i + 1]), a);
      if IsKey(AccountKey(a.platform, a.accountId)) {
        bindings := bindings[AccountKey(a.platform, a.accountId) := NewBinding(s, p, a)];
      }
    }
    assert p.accounts[..|p.accounts|] == p.accounts;
  }

  method UpsertProfiles(s: State, profiles: seq<Profile>, machineId: string, now: int) returns (r: Result<State, Code>)
    ensures r == UpsertAll(s, profiles, machineId, now)
  {
    var next := s;
    for i := 0 to |profiles|
      invariant UpsertAll(s, profiles, machineId, now) == UpsertAll(next, profiles[i..], machineId, now)
    {
      var one := UpsertProfileAndBindings(next, profiles[i], machineId, now);
      assert profiles[i..][1..] == profiles[i + 1..];
      match one {
        case Err(code) => return Err(code);
        case Ok(value) => next := value;
      }
    }
    return Ok(next);
  }

  /** The first grantable profile the hash map's iteration meets, or the indexed one. */
  method SelectProfileForAcquire(s: State, platform: int, accountId: string, selector: map<string, string>)
    returns (chosen: Option<string>, choice: string)
    ensures chosen == SelectForAcquire(s, platform, accountId, selector, choice)
    ensures LegalChoice(s, platform, accountId, selector, choice)
    ensures chosen.Some? ==> chosen.value in s.profiles
  {
    chosen, choice := None, "";
    match KeyOf(platform, accountId) {
      case Some(k) =>
        if k in s.bindings {
          var id := s.bindings[k].profileId;
          if id in s.profiles && !HasLease(s, id)
              && ProfileMatches(s.profiles[id], platform, accountId, selector, false) {
            chosen := Some(id);
          }
        }
      case None =>
        var rest := s.profiles.Keys;
        while rest != {}
          invariant rest <= s.profiles.Keys
          invariant forall id :: id in s.profiles && id !in rest ==> !Grantable(s, id, platform, accountId, selector)
          decreases |rest|
        {
          var id :| id in rest;
          if !HasLease(s, id) && ProfileMatches(s.profiles[id], platform, accountId, selector, false) {
            return Some(id), id;
          }
          rest := rest - {id};
        }
    }
  }

  method ActiveLeaseForProfile(s: State, profileId: string) returns (r: Option<Lease>)
    requires Exclusive(s)
    ensures r == ActiveLease(s, profileId)
  {
    var rest := s.leases.Keys;
    while rest != {}
      invariant rest <= s.leases.Keys
      invariant forall id :: id in s.leases && id !in rest ==> s.leases[id].profileId != profileId
      decreases |rest|
    {
      var id :| id in rest;
      if s.leases[id].profileId == profileId {
        return Some(s.leases[id]);
      }
      rest := rest - {id};
    }
    return None;
  }

  method RecordSamples(metrics: map<MetricKey, MetricPoint>, samples: seq<MetricSample>, reporter: string)
    returns (recorded: map<MetricKey, MetricPoint>, accepted: nat)
    ensures recorded == Telemetry.RecordAll(metrics, Telemetry.Accepted(samples, reporter))
    ensures accepted == |Telemetry.Accepted(samples, reporter)|
  {
    recorded, accepted := metrics, 0;
    for i := 0 to |samples|
      invariant recorded == Telemetry.RecordAll(metrics, Telemetry.Accepted(samples[..i], reporter))
      invariant accepted == |Telemetry.Accepted(samples[..i], reporter)|
    {
      assert samples[..i + 1][..i] == samples[..i];
      if samples[i].name != "" {
        var c := Telemetry.Count(samples[i], reporter);
        var before := Telemetry.Accepted(samples[..i], reporter);
        assert (before + [c])[..|before + [c]| - 1] == before;
        recorded := Telemetry.Record(recorded, c);
        accepted := accepted + 1;
      }
    }
    assert samples[..|samples|] == samples;
  }

  method RecordArtifacts(artifacts: map<string, Artifact>, reported: seq<Artifact>, reporter: string)
    returns (stored: map<string, Artifact>, accepted: nat)
    ensures stored == StoreArtifacts(artifacts, reported, reporter) && accepted == CountArtifacts(reported)
  {
    stored, accepted := artifacts, 0;
    for i := 0 to |reported|
      invariant stored == StoreArtifacts(artifacts, reported[..i], reporter)
                && accepted == CountArtifacts(reported[..i])
    {
      assert reported[..i + 1][..i] == reported[..i];
      var a := reported[i];
      if a.artifactId != "" {
        stored := stored[a.artifactId := a.(machineId := if a.machineId == "" then reporter else a.machineId)];
        accepted := accepted + 1;
      }
    }
    assert reported[..|reported|] == reported;
  }

  /** What `Execute` makes of a call that commits and republishes nothing. */
  lemma CommitExecutes(sys: System, r: Request, now: int, ioOk: bool, next: State, answer: Answer)
    requires Handle(sys.state, r, now) == Commit(next, answer) && !r.RegisterMachine? && !r.Heartbeat?
    ensures Execute(sys, r, now, ioOk) ==
            if CanWrite(sys.store, next, ioOk)
            then (System(next, Persisted(sys.store, next, ioOk), sys.directory), Resolve(answer, sys.directory))
            else (sys, WriteFailed(r))
  {
  }

  lemma ReportCommits(s: State, reporter: string, samples: seq<MetricSample>, events: seq<Event>,
                      evicted: set<MetricKey>, now: int)
    requires reporter != ""
    ensures Handle(s, Request.ReportTelemetry(reporter, samples, events, evicted), now) ==
            Commit(Telemetry.Report(s, reporter, samples, events, evicted),
                   Done(TelemetryAccepted(|Telemetry.Accepted(samples, reporter)|, |events|)))
  {
    ReportIsHandled(s, Request.ReportTelemetry(reporter, samples, events, evicted), now);
  }

  lemma SettleExecutes(sys: System, r: Request, now: int, ioOk: bool, answer: Answer)
    requires Handle(sys.state, r, now) == Settle(sys.state, now, answer) && !r.RegisterMachine? && !r.Heartbeat?
             && !r.SweepNow?
    ensures Execute(sys, r, now, ioOk) ==
            if !AnyExpired(sys.state, now) then (sys, Resolve(answer, sys.directory))
            else if CanWrite(sys.store, Expire(sys.state, now), ioOk)
            then (System(Expire(sys.state, now), Persisted(sys.store, Expire(sys.state, now), ioOk), sys.directory),
                  Resolve(answer, sys.directory))
            else (sys, Failed(Internal))
  {
  }

  ghost predicate MachinesMatch(machines: map<string, Machine>) {
    forall id :: id in machines ==> machines[id].machineId == id
  }

  lemma AbsorbKeepsMatch(s: State, p: Payload)
    requires MachinesMatch(s.machines)
    ensures MachinesMatch(Absorb(s, p).machines) == true
  {
    if p.MachineRow? {
      assert Absorb(s, p).machines == s.machines[p.machine.machineId := p.machine];
    } else {
      assert Absorb(s, p).machines == s.machines;
    }
  }

  /** Whatever a store holds, loading files each machine under its own id. */
  lemma {:induction false} LoadedMachinesMatch(table: Table, order: seq<RowId>)
    requires forall row :: row in order ==> row in table
    ensures MachinesMatch(Loaded(table, order).machines) == true
  {
    if order != [] {
      LoadedMachinesMatch(table, order[..|order| - 1]);
      AbsorbKeepsMatch(Loaded(table, order[..|order| - 1]), table[order[|order| - 1]]);
    }
  }

  // ---------- the service ----------

  /** Each method's contract is the pair of the new system and the response that `Execute` gives.
      `CallKeepsValid` and `RestartIsValid` turn that into the invariant. The preconditions below
      are the parts of it that a method's own code relies on. */
  class ControllerService {
    var state: State
    var store: Option<Table>
    const network: StaticNetworkDirectory

    ghost function Sys(): System
      reads this, network
    {
      System(state, store, network.endpoints)
    }

    ghost predicate Valid()
      reads this, network
    {
      SystemInv(Sys())
    }

    /** Whatever a method does by its contract keeps the object valid. */
    twostate lemma CallKeepsValid(r: Request, now: int, ioOk: bool, response: Response)
      requires old(Valid()) && LegalRequest(old(state), r, now)
      requires (Sys(), response) == Execute(old(Sys()), r, now, ioOk)
      ensures Valid()
    {
      CallKeepsSystemInv(old(Sys()), r, now, ioOk);
    }

    /** An object opened on the store of a valid one, as `WithStore` leaves it, is valid. */
    lemma RestartIsValid(was: System, order: seq<RowId>)
      requires SystemInv(was) && was.store.Some? && Enumerates(order, was.store.value) && Sys() == Restart(was, order)
      ensures Valid()
    {
      RestartRestores(was, order);
    }

    /** A controller without a store. */
    constructor ()
      ensures Valid() && Sys() == FRESH_IN_MEMORY && fresh(network)
    {
      state, store := EMPTY, None;
      network := new StaticNetworkDirectory();
      new;
      FreshIsSound();
    }

    /** A controller opened on a store: it loads the rows and publishes the machines. */
    constructor WithStore(table: Table, order: seq<RowId>, ghost was: System)
      requires was.store == Some(table) && Enumerates(order, table) == true
      ensures Sys() == Restart(was, order) && fresh(network)
    {
      var loaded := LoadAll(table, order);
      LoadedMachinesMatch(table, order);
      state, store := loaded, Some(table);
      network := new StaticNetworkDirectory();
      new;
      PublishAll(network, loaded.machines);
    }

    static method PublishAll(network: StaticNetworkDirectory, machines: map<string, Machine>)
      requires network.endpoints == map[] && MachinesMatch(machines)
      modifies network
      ensures network.endpoints == Project(machines)
    {
      var rest := machines.Keys;
      while rest != {}
        invariant rest <= machines.Keys
        invariant network.endpoints == map id | id in machines && id !in rest :: EndpointOf(machines[id])
        decreases |rest|
      {
        var id :| id in rest;
        network.UpsertMachine(machines[id]);
        rest := rest - {id};
      }
    }

    method PersistState(next: State, ioOk: bool) returns (ok: bool)
      modifies this`store
      ensures ok == CanWrite(old(store), next, ioOk) && store == Persisted(old(store), next, ioOk)
    {
      if store.None? {
        return true;
      }
      if !ioOk {
        return false;
      }
      var table := WriteAll(next);
      if table.None? {
        return false;
      }
      store := table;
      return true;
    }

    method RegisterMachine(machine: Option<Machine>, profiles: seq<Profile>, now: int, ioOk: bool)
        returns (response: Response)
      modifies this, network
      ensures (Sys(), response) == Execute(old(Sys()), Request.RegisterMachine(machine, profiles), now, ioOk)
    {
      if machine.None? || machine.value.machineId == "" {
        return Failed(InvalidArgument);
      }
      var m := machine.value.(lastHeartbeat := now);
      if m.status == MACHINE_UNSPECIFIED {
        m := m.(status := MACHINE_ONLINE);
      }
      var next, _ := MarkExpiredLeases(state, now);
      CommitCheckin(next, m, profiles, now, Registered(m.machineId));
      next := next.(machines := next.machines[m.machineId := m]);
      var upserted := UpsertProfiles(next, profiles, m.machineId, now);
      if upserted.Err? {
        return Failed(upserted.error);
      }
      var ok := PersistState(upserted.value, ioOk);
      if !ok {
        return Failed(Internal);
      }
      state := upserted.value;
      network.UpsertMachine(m);
      return Registered(m.machineId);
    }

    method Heartbeat(machineId: string, status: int, profiles: seq<Profile>, now: int, ioOk: bool)
        returns (response: Response)
      modifies this, network
      requires MachinesMatch(state.machines)
      ensures (Sys(), response) == Execute(old(Sys()), Request.Heartbeat(machineId, status, profiles), now, ioOk)
    {
      if machineId == "" {
        return Failed(InvalidArgument);
      }
      var next, _ := MarkExpiredLeases(state, now);
      if machineId !in next.machines {
        return Failed(NotFound);
      }
      var m := next.machines[machineId].(status := status, lastHeartbeat := now);
      assert m.machineId == machineId;
      CommitCheckin(next, m, profiles, now, HeartbeatAccepted);
      next := next.(machines := next.machines[machineId := m]);
      var upserted := UpsertProfiles(next, profiles, machineId, now);
      if upserted.Err? {
        return Failed(upserted.error);
      }
      var ok := PersistState(upserted.value, ioOk);
      if !ok {
        return Failed(Internal);
      }
      state := upserted.value;
      network.UpsertMachine(m);
      return HeartbeatAccepted;
    }

    /** What a check-in stores for its machine is what it published. */
    static lemma CommitCheckin(x: State, m: Machine, profiles: seq<Profile>, now: int, response: Response)
      ensures var o := CommitUpserts(x.(machines := x.machines[m.machineId := m]), profiles, m.machineId, now,
                                     response);
              o.Commit? ==> m.machineId in o.state.machines && o.state.machines[m.machineId] == m
    {
      if CommitUpserts(x.(machines := x.machines[m.machineId := m]), profiles, m.machineId, now, response).Commit? {
        CheckinPutsMachine(x, m, profiles, now, response);
      }
    }

    /** Expires leases before a read; a read that found some to expire has to write. */
    method SettleState(now: int, ioOk: bool) returns (x: State, ok: bool)
      modifies this`state, this`store
      ensures x == Expire(old(state), now)
      ensures ok == (AnyExpired(old(state), now) ==> CanWrite(old(store), x, ioOk))
      ensures ok ==> state == x
      ensures !ok || !AnyExpired(old(state), now) ==> state == old(state)
      ensures store == if AnyExpired(old(state), now) then Persisted(old(store), x, ioOk) else old(store)
    {
      var expired;
      x, expired := MarkExpiredLeases(state, now);
      ok := true;
      if expired {
        ok := PersistState(x, ioOk);
        if ok {
          state := x;
        }
      } else {
        LazyExpiry.NothingToExpire(state, now);
      }
    }

    method ListProfiles(platform: int, accountId: string, selector: map<string, string>,
                        includeUnavailable: bool, now: int, ioOk: bool) returns (response: Response)
      modifies this
      ensures (Sys(), response) ==
              Execute(old(Sys()), Request.ListProfiles(platform, accountId, selector, includeUnavailable), now, ioOk)
    {
      SettleExecutes(Sys(), Request.ListProfiles(platform, accountId, selector, includeUnavailable), now, ioOk,
                     Done(Profiles(MatchingProfiles(Expire(state, now), platform, accountId, selector,
                                                    includeUnavailable))));
      var x, ok := SettleState(now, ioOk);
      if !ok {
        return Failed(Internal);
      }
      var profiles := set id | id in x.profiles
                               && ProfileMatches(x.profiles[id], platform, accountId, selector, includeUnavailable) ::
                                  x.profiles[id];
      assert profiles == MatchingProfiles(x, platform, accountId, selector, includeUnavailable);
      return Profiles(profiles);
    }

    method ListBrowserAccountBindings(platform: int, accountId: string, machineId: string, profileId: string,
                                      includeUnavailable: bool, now: int, ioOk: bool) returns (response: Response)
      modifies this
      ensures (Sys(), response) ==
              Execute(old(Sys()), Request.ListBindings(platform, accountId, machineId, profileId, includeUnavailable),
                      now, ioOk)
    {
      SettleExecutes(Sys(), Request.ListBindings(platform, accountId, machineId, profileId, includeUnavailable), now,
                     ioOk,
                     Done(Bindings(MatchingBindings(Expire(state, now), platform, accountId, machineId, profileId,
                                                    includeUnavailable))));
      var x, ok := SettleState(now, ioOk);
      if !ok {
        return Failed(Internal);
      }
      var bindings := set k | k in x.bindings && LiveBinding(x, x.bindings[k]).Some?
                              && BindingMatches(LiveBinding(x, x.bindings[k]).value, platform, accountId, machineId,
                                                profileId, includeUnavailable)
                        :: LiveBinding(x, x.bindings[k]).value;
      assert bindings == MatchingBindings(x, platform, accountId, machineId, profileId, includeUnavailable);
      return Bindings(bindings);
    }

    static lemma ExpiryKeepsExclusive(s: State, now: int)
      requires Exclusive(s)
      ensures Exclusive(Expire(s, now))
    {
    }

    static ghost function LookupAnswer(x: State, platform: int, accountId: string, selector: map<string, string>,
                                       includeUnavailable: bool): Answer {
      match SelectForLookup(x, platform, accountId, selector, includeUnavailable)
      case None => Done(Failed(NotFound))
      case Some(b) => Done(Describe(x, b))
    }

    method LookupBrowserConnection(platform: int, accountId: string, selector: map<string, string>,
                                   includeUnavailable: bool, now: int, ioOk: bool) returns (response: Response)
      modifies this
      requires Exclusive(state)
      ensures (Sys(), response) ==
              Execute(old(Sys()), Request.Lookup(platform, accountId, selector, includeUnavailable), now, ioOk)
    {
      if KeyOf(platform, accountId).None? {
        return Failed(InvalidArgument);
      }
      ExpiryKeepsExclusive(state, now);
      SettleExecutes(Sys(), Request.Lookup(platform, accountId, selector, includeUnavailable), now, ioOk,
                     LookupAnswer(Expire(state, now), platform, accountId, selector, includeUnavailable));
      var x, ok := SettleState(now, ioOk);
      if !ok {
        return Failed(Internal);
      }
      var binding := SelectForLookup(x, platform, accountId, selector, includeUnavailable);
      if binding.None? {
        return Failed(NotFound);
      }
      var active := ActiveLeaseForProfile(x, binding.value.profileId);
      var available := binding.value.profileStatus == PROFILE_AVAILABLE;
      return Connection(binding.value,
                        if active.Some? then active.value.leaseId else "",
                        if active.Some? then active.value.expiresAt else 0,
                        available,
                        if available then ReadyToAcquire else if active.Some? then HeldByClient else NotReady);
    }

    /** `choice` is the profile the scan ended on, which hash-map order decides. */
    method AcquireBrowser(clientId: string, purpose: string, platform: int, accountId: string,
                          selector: map<string, string>, ttl: int,
                          leaseId: string, fencingToken: string, now: int, ioOk: bool)
      returns (response: Response, choice: string)
      modifies this
      ensures clientId != "" ==>
                LegalRequest(old(state), Request.Acquire(clientId, purpose, platform, accountId, selector, ttl,
                                                         leaseId, fencingToken, choice), now)
      ensures (Sys(), response) ==
              Execute(old(Sys()), Request.Acquire(clientId, purpose, platform, accountId, selector, ttl, leaseId,
                                                  fencingToken, choice), now, ioOk)
    {
      if clientId == "" {
        return Failed(InvalidArgument), "";
      }
      var next, _ := MarkExpiredLeases(state, now);
      var chosen;
      chosen, choice := SelectProfileForAcquire(next, platform, accountId, selector);
      if chosen.None? {
        response := Failed(NotFound);
        return;
      }
      var profile := next.profiles[chosen.value];
      var lease := Lease(leaseId, profile.profileId, profile.machineId, clientId, purpose, fencingToken,
                         now + ResolveTtl(ttl) * 1000);
      next := next.(leases := next.leases[leaseId := lease],
                    profiles := next.profiles[chosen.value := profile.(status := PROFILE_LEASED)]);
      CommitExecutes(Sys(), Request.Acquire(clientId, purpose, platform, accountId, selector, ttl, leaseId,
                                            fencingToken, choice),
                     now, ioOk, next, RouteTo(lease, true));
      var ok := PersistState(next, ioOk);
      if !ok {
        response := Failed(Internal);
        return;
      }
      state := next;
      var endpoint := network.EndpointForMachine(lease.machineId);
      response := if endpoint.None? then Failed(Unavailable)
                  else Granted(lease, Route(endpoint.value.machineId, endpoint.value.agentGrpcAddr, lease.profileId,
                                            leaseId, fencingToken));
    }

    method RenewLease(leaseId: string, fencingToken: string, ttl: int, now: int, ioOk: bool)
        returns (response: Response)
      modifies this
      ensures (Sys(), response) == Execute(old(Sys()), Request.Renew(leaseId, fencingToken, ttl), now, ioOk)
    {
      var next, _ := MarkExpiredLeases(state, now);
      if leaseId !in next.leases {
        return Failed(NotFound);
      }
      if next.leases[leaseId].fencingToken != fencingToken {
        return Failed(PermissionDenied);
      }
      var lease := next.leases[leaseId].(expiresAt := now + ResolveTtl(ttl) * 1000);
      next := next.(leases := next.leases[leaseId := lease]);
      CommitExecutes(Sys(), Request.Renew(leaseId, fencingToken, ttl), now, ioOk, next, Done(Renewed(lease)));
      var ok := PersistState(next, ioOk);
      if !ok {
        return Failed(Internal);
      }
      state := next;
      return Renewed(lease);
    }

    method ReleaseLease(leaseId: string, fencingToken: string, now: int, ioOk: bool) returns (response: Response)
      modifies this
      ensures (Sys(), response) == Execute(old(Sys()), Request.Release(leaseId, fencingToken), now, ioOk)
    {
      var next, _ := MarkExpiredLeases(state, now);
      if leaseId !in next.leases {
        return Failed(NotFound);
      }
      if next.leases[leaseId].fencingToken != fencingToken {
        return Failed(PermissionDenied);
      }
      var profileId := next.leases[leaseId].profileId;
      next := next.(leases := next.leases - {leaseId});
      if profileId in next.profiles {
        next := next.(profiles := next.profiles[profileId := next.profiles[profileId].(status := PROFILE_AVAILABLE)]);
      }
      var ok := PersistState(next, ioOk);
      if !ok {
        return Failed(Internal);
      }
      state := next;
      return Released;
    }

    method QuarantineProfile(profileId: string, now: int, ioOk: bool) returns (response: Response)
      modifies this
      ensures (Sys(), response) == Execute(old(Sys()), Request.Quarantine(profileId), now, ioOk)
    {
      if profileId == "" {
        return Failed(InvalidArgument);
      }
      var next, _ := MarkExpiredLeases(state, now);
      if profileId !in next.profiles {
        return Failed(NotFound);
      }
      var profile := next.profiles[profileId].(status := PROFILE_QUARANTINED);
      next := next.(profiles := next.profiles[profileId := profile]);
      next := next.(leases := map id | id in next.leases && next.leases[id].profileId != profileId :: next.leases[id]);
      var ok := PersistState(next, ioOk);
      if !ok {
        return Failed(Internal);
      }
      state := next;
      return Quarantined(profile);
    }

    method ReleaseQuarantine(profileId: string, now: int, ioOk: bool) returns (response: Response)
      modifies this
      ensures (Sys(), response) == Execute(old(Sys()), Request.ReleaseQuarantine(profileId), now, ioOk)
    {
      if profileId == "" {
        return Failed(InvalidArgument);
      }
      if profileId !in state.profiles {
        return Failed(NotFound);
      }
      var next := state;
      if next.profiles[profileId].status == PROFILE_QUARANTINED {
        next := next.(profiles := next.profiles[profileId := next.profiles[profileId].(status := PROFILE_AVAILABLE)]);
      }
      var ok := PersistState(next, ioOk);
      if !ok {
        return Failed(Internal);
      }
      state := next;
      return QuarantineReleased(next.profiles[profileId]);
    }

    method ListMachineLeases(machineId: string, now: int) returns (response: Response)
      ensures (Sys(), response) == Execute(Sys(), Request.ListMachineLeases(machineId), now, true)
    {
      if machineId == "" {
        return Failed(InvalidArgument);
      }
      return MachineLeases(set id | id in state.leases && state.leases[id].machineId == machineId
                           && state.leases[id].expiresAt > now
                             :: state.leases[id]);
    }

    method GetRoute(leaseId: string, fencingToken: string, now: int, ioOk: bool) returns (response: Response)
      modifies this
      ensures (Sys(), response) == Execute(old(Sys()), Request.GetRoute(leaseId, fencingToken), now, ioOk)
    {
      var next, expired := MarkExpiredLeases(state, now);
      if leaseId !in next.leases {
        return Failed(NotFound);
      }
      var lease := next.leases[leaseId];
      if lease.fencingToken != fencingToken {
        return Failed(PermissionDenied);
      }
      if expired {
        var ok := PersistState(next, ioOk);
        if !ok {
          return Failed(Internal);
        }
        state := next;
      }
      var endpoint := network.EndpointForMachine(lease.machineId);
      return if endpoint.None? then Failed(Unavailable)
             else Located(Route(endpoint.value.machineId, endpoint.value.agentGrpcAddr, lease.profileId,
                                lease.leaseId, lease.fencingToken));
    }

    /** `evicted` is what the cap on buckets removed; ties are broken by hash-map order. */
    method ReportTelemetry(reporter: string, samples: seq<MetricSample>, events: seq<Event>, now: int, ioOk: bool)
      returns (response: Response, evicted: set<MetricKey>)
      modifies this
      ensures reporter != "" ==>
              LegalRequest(old(state), Request.ReportTelemetry(reporter, samples, events, evicted), now)
      ensures (Sys(), response) == Execute(old(Sys()), Request.ReportTelemetry(reporter, samples, events, evicted),
                                           now, ioOk)
    {
      if reporter == "" {
        return Failed(InvalidArgument), {};
      }
      var recorded, accepted := RecordSamples(state.metrics, samples, reporter);
      var kept;
      kept, evicted := Telemetry.EvictOldest(recorded);
      var log := state.events + Telemetry.RedactAll(events);
      if |log| > MAX_STORED_EVENTS {
        log := log[|log| - MAX_STORED_EVENTS..];
      }
      var next := state.(metrics := kept, events := log);
      ReportCommits(state, reporter, samples, events, evicted, now);
      assert next == Telemetry.Report(state, reporter, samples, events, evicted);
      CommitExecutes(Sys(), Request.ReportTelemetry(reporter, samples, events, evicted), now, ioOk, next,
                     Done(TelemetryAccepted(accepted, |events|)));
      var ok := PersistState(next, ioOk);
      if !ok {
        response := Failed(Internal);
        return;
      }
      state := next;
      response := TelemetryAccepted(accepted, |events|);
    }

    method ReportArtifacts(reporter: string, artifacts: seq<Artifact>, now: int, ioOk: bool)
        returns (response: Response)
      modifies this
      ensures (Sys(), response) == Execute(old(Sys()), Request.ReportArtifacts(reporter, artifacts), now, ioOk)
    {
      if reporter == "" {
        return Failed(InvalidArgument);
      }
      var stored, accepted := RecordArtifacts(state.artifacts, artifacts, reporter);
      var next := state.(artifacts := stored);
      var ok := PersistState(next, ioOk);
      if !ok {
        return Failed(Internal);
      }
      state := next;
      return ArtifactsAccepted(accepted);
    }

    method SweepAt(now: int, offlineAfter: int, ioOk: bool) returns (response: Response)
      modifies this
      requires forall id :: id in state.leases ==> state.leases[id].leaseId == id
      ensures (Sys(), response) == Execute(old(Sys()), SweepNow(offlineAfter), now, ioOk)
    {
      var marked := MarkStaleMachines(state, now, offlineAfter);
      var offline := set id | id in marked.machines && marked.machines[id].status == MACHINE_OFFLINE ::
          marked.machines[id].machineId;
      var doomed := set id | id in marked.leases
          && (marked.leases[id].expiresAt <= now || marked.leases[id].machineId in offline);
      assert doomed == DoomedIds(marked, now) by {
        assert forall m :: m in offline <==> OnOffline(marked.machines, m);
      }
      var revoked := set id | id in doomed :: marked.leases[id];
      assert revoked == RevokedBy(state, now, offlineAfter);
      var next := ReclaimAll(marked, doomed);
      var ok := PersistState(next, ioOk);
      if !ok {
        return Swept({});
      }
      state := next;
      return Swept(revoked);
    }
  }
}

/** What the lease calls do to a state, field by field. */
module LeaseLaws {
  import opened Options
  import opened Messages
  import opened Registry
  import opened Operations
  import opened ControllerSystem
  import Network
  import Persistence

  /** The lease is held and its deadline lies ahead. */
  predicate Live(s: State, id: string, now: int) {
    id in s.leases && now < s.leases[id].expiresAt
  }

  /** Apart from the touched ones, exactly the live leases are left, as they were. */
  ghost predicate LeasesKept(s: State, t: State, now: int, touched: set<string>) {
    forall id :: id !in touched ==>
      && (id in t.leases <==> Live(s, id, now))
      && (id in t.leases ==> t.leases[id] == s.leases[id])
  }

  /** The profile says Leased, and a lease of it has run out. */
  ghost predicate RanOut(s: State, id: string, now: int) {
    && id in s.profiles && s.profiles[id].status == PROFILE_LEASED
    && exists l :: l in s.leases && s.leases[l].profileId == id && s.leases[l].expiresAt <= now
  }

  /** The profile as it is once expiry has caught up. */
  ghost function Caught(s: State, id: string, now: int): Profile
    requires id in s.profiles
  {
    if RanOut(s, id, now) then s.profiles[id].(status := PROFILE_AVAILABLE) else s.profiles[id]
  }

  ghost predicate ProfilesKept(s: State, t: State, now: int, touched: set<string>) {
    && t.profiles.Keys == s.profiles.Keys
    && forall id :: id in s.profiles && id !in touched ==> t.profiles[id] == Caught(s, id, now)
  }

  predicate RestKept(s: State, t: State) {
    t == s.(leases := t.leases, profiles := t.profiles)
  }

  /** Nothing happens but expiry, and what is named as touched. */
  ghost predicate Kept(s: State, t: State, now: int, leases: set<string>, profiles: set<string>) {
    LeasesKept(s, t, now, leases) && ProfilesKept(s, t, now, profiles) && RestKept(s, t)
  }

  lemma ExpiryLaw(s: State, now: int)
    ensures Kept(s, Expire(s, now), now, {}, {}) == true
  {
  }

  /** Seconds granted: 300 unless a positive number is asked for, and at most a day. */
  function Seconds(ttl: int): int {
    if ttl <= 0 then 300 else if ttl > 86_400 then 86_400 else ttl
  }

  lemma DeadlineLaw(now: int, ttl: int)
    ensures Deadline(now, ttl) == now + Seconds(ttl) * 1000
  {
  }

  lemma Dispatched(s: State, r: Request, now: int)
    ensures r.Renew? ==> Handle(s, r, now) == HandleRenew(s, r.leaseId, r.fencingToken, r.ttl, now)
    ensures r.Release? ==> Handle(s, r, now) == HandleRelease(s, r.leaseId, r.fencingToken, now)
    ensures r.GetRoute? ==> Handle(s, r, now) == HandleGetRoute(s, r.leaseId, r.fencingToken, now)
    ensures r.Quarantine? ==> Handle(s, r, now) == HandleQuarantine(s, r.profileId, now)
    ensures r.ReleaseQuarantine? ==> Handle(s, r, now) == HandleReleaseQuarantine(s, r.profileId)
    ensures r.ListMachineLeases? ==> Handle(s, r, now) == HandleListMachineLeases(s, r.machineId, now)
  {
  }

  // ---------- fenced calls ----------

  /** Renewals, releases and routes: only a live lease is found, and only its token opens it. */
  ghost predicate Fenced(s: State, o: Outcome, id: string, token: string, now: int) {
    && (!Live(s, id, now) ==> o == Keep(Done(Failed(NotFound))))
    && (Live(s, id, now) && s.leases[id].fencingToken != token ==> o == Keep(Done(Failed(PermissionDenied))))
  }

  lemma RenewLaw(s: State, id: string, token: string, ttl: int, now: int)
    ensures Fenced(s, HandleRenew(s, id, token, ttl, now), id, token, now)
    ensures Live(s, id, now) && s.leases[id].fencingToken == token ==>
              var o := HandleRenew(s, id, token, ttl, now);
              var lease := s.leases[id].(expiresAt := now + Seconds(ttl) * 1000);
              && o.Commit? && o.answer == Done(Renewed(lease))
              && id in o.state.leases && o.state.leases[id] == lease && Kept(s, o.state, now, {id}, {}) == true
  {
    ExpiryLaw(s, now);
    DeadlineLaw(now, ttl);
  }

  ghost predicate ReleasedIn(s: State, t: State, id: string, now: int)
    requires id in s.leases
  {
    var profileId := s.leases[id].profileId;
    && id !in t.leases
    && Kept(s, t, now, {id}, {profileId})
    && (profileId in s.profiles ==> t.profiles[profileId] == s.profiles[profileId].(status := PROFILE_AVAILABLE))
  }

  /** What is left when a lease is taken out and its profile made available. */
  ghost predicate TakenOut(x: State, t: State, id: string)
    requires id in x.leases
  {
    var profileId := x.leases[id].profileId;
    && RestKept(x, t) && t.profiles.Keys == x.profiles.Keys && t.leases == x.leases - {id}
    && (forall other :: other in x.profiles && other != profileId ==> t.profiles[other] == x.profiles[other])
    && (profileId in x.profiles ==> t.profiles[profileId] == x.profiles[profileId].(status := PROFILE_AVAILABLE))
  }

  lemma ReleaseTakesOut(x: State, id: string)
    requires id in x.leases
    ensures TakenOut(x, SetStatus(x.(leases := x.leases - {id}), x.leases[id].profileId, PROFILE_AVAILABLE), id) == true
  {
  }

  lemma ReleasingTouches(s: State, x: State, t: State, id: string, now: int)
    requires Kept(s, x, now, {}, {}) && id in x.leases && id in s.leases && TakenOut(x, t, id)
    ensures ReleasedIn(s, t, id, now) == true
  {
    TouchingKeeps(s, x, t, now, {id}, {s.leases[id].profileId});
  }

  lemma ReleaseLaw(s: State, id: string, token: string, now: int)
    ensures Fenced(s, HandleRelease(s, id, token, now), id, token, now)
    ensures Live(s, id, now) && s.leases[id].fencingToken == token ==>
              var o := HandleRelease(s, id, token, now);
              o.Commit? && o.answer == Done(Released) && ReleasedIn(s, o.state, id, now) == true
  {
    ExpiryLaw(s, now);
    if Live(s, id, now) {
      var x := Expire(s, now);
      ReleaseTakesOut(x, id);
      ReleasingTouches(s, x, SetStatus(x.(leases := x.leases - {id}), x.leases[id].profileId, PROFILE_AVAILABLE), id,
                       now);
    }
  }

  lemma RouteLaw(s: State, id: string, token: string, now: int)
    ensures Fenced(s, HandleGetRoute(s, id, token, now), id, token, now)
    ensures Live(s, id, now) && s.leases[id].fencingToken == token ==>
              var o := HandleGetRoute(s, id, token, now);
              && o.answer == RouteTo(s.leases[id], false)
              && (o.Commit? <==> exists l :: l in s.leases && s.leases[l].expiresAt <= now)
              && (o.Commit? ==> Kept(s, o.state, now, {}, {}) == true)
  {
    ExpiryLaw(s, now);
  }

  /** A refused call changes nothing: not the state, not the store, not the directory. */
  lemma RefusedCall(sys: System, r: Request, now: int, ioOk: bool, code: Code)
    requires Handle(sys.state, r, now) == Keep(Done(Failed(code)))
    ensures Execute(sys, r, now, ioOk) == (sys, Failed(code))
  {
  }

  /** A write that cannot be made fails the call, except that a sweep just reports nothing; and again
      nothing changes. */
  lemma UnwrittenCall(sys: System, r: Request, now: int, ioOk: bool)
    requires Handle(sys.state, r, now).Commit?
    requires sys.store.Some? && (!ioOk || !Persistence.Distinct(Handle(sys.state, r, now).state))
    ensures Execute(sys, r, now, ioOk) == (sys, if r.SweepNow? then Swept({}) else Failed(Internal))
  {
  }

  /** A write that can be made makes the new state the current one. */
  lemma WrittenCall(sys: System, r: Request, now: int)
    requires Handle(sys.state, r, now).Commit?
    requires sys.store.Some? ==> Persistence.Distinct(Handle(sys.state, r, now).state)
    ensures Execute(sys, r, now, true).0.state == Handle(sys.state, r, now).state
    ensures Handle(sys.state, r, now).answer.Done? ==>
              Execute(sys, r, now, true).1 == Handle(sys.state, r, now).answer.response
  {
  }

  /** Without the live lease's own token a renewal, a release and a route are refused, whatever the
      database does, and nothing changes. */
  lemma GuessedTokensAreRefused(sys: System, r: Request, now: int, ioOk: bool)
    requires r.Renew? || r.Release? || r.GetRoute?
    ensures !Live(sys.state, r.leaseId, now) ==> Execute(sys, r, now, ioOk) == (sys, Failed(NotFound))
    ensures Live(sys.state, r.leaseId, now) && sys.state.leases[r.leaseId].fencingToken != r.fencingToken ==>
              Execute(sys, r, now, ioOk) == (sys, Failed(PermissionDenied))
  {
    var s := sys.state;
    Dispatched(s, r, now);
    match r
    case Renew(id, token, ttl) => RenewLaw(s, id, token, ttl, now);
    case Release(id, token) => ReleaseLaw(s, id, token, now);
    case GetRoute(id, token) => RouteLaw(s, id, token, now);
  }

  lemma RouteResolves(sys: System, lease: Lease)
    requires Housed(sys.state) && KeysMatch(sys.state) && sys.directory == Network.Project(sys.state.machines)
    requires lease.leaseId in sys.state.leases && sys.state.leases[lease.leaseId] == lease
    ensures lease.machineId in sys.state.machines
    ensures Resolve(RouteTo(lease, false), sys.directory) ==
            Located(Route(lease.machineId, sys.state.machines[lease.machineId].agentGrpcAddr,
                          lease.profileId, lease.leaseId, lease.fencingToken))
  {
    assert lease.machineId in sys.state.machines;
  }

  lemma RouteAnswered(sys: System, r: Request, now: int, ioOk: bool)
    requires r.GetRoute?
    ensures var o := Handle(sys.state, r, now);
            var response := Execute(sys, r, now, ioOk).1;
            response == Resolve(o.answer, sys.directory) || (o.Commit? && response == Failed(Internal))
  {
  }

  /** The lease's machine at the address it registered, unless an expiry could not be written. */
  ghost predicate RightRoute(s: State, lease: Lease, now: int, response: Response) {
    && lease.machineId in s.machines
    && (response == Located(Route(lease.machineId, s.machines[lease.machineId].agentGrpcAddr,
                                  lease.profileId, lease.leaseId, lease.fencingToken))
        || (response == Failed(Internal) && exists l :: l in s.leases && s.leases[l].expiresAt <= now))
  }

  lemma RouteLeadsToMachine(sys: System, id: string, token: string, now: int, ioOk: bool)
    requires SystemInv(sys) && Live(sys.state, id, now) && sys.state.leases[id].fencingToken == token
    ensures RightRoute(sys.state, sys.state.leases[id], now, Execute(sys, GetRoute(id, token), now, ioOk).1) == true
  {
    Dispatched(sys.state, GetRoute(id, token), now);
    RouteLaw(sys.state, id, token, now);
    RouteAnswered(sys, GetRoute(id, token), now, ioOk);
    RouteResolves(sys, sys.state.leases[id]);
  }

  // ---------- acquiring ----------

  /** No live lease on the profile, and it is available or will be once expiry has caught up. */
  ghost predicate FreeToTake(s: State, id: string, now: int) {
    && id in s.profiles && Caught(s, id, now).status == PROFILE_AVAILABLE
    && forall l :: l in s.leases && s.leases[l].profileId == id ==> s.leases[l].expiresAt <= now
  }

  /** The profile carries every label asked for, and the accounts asked for: one account with both
      platform and id if both are given. */
  predicate Suits(p: Profile, platform: int, accountId: string, selector: map<string, string>) {
    && (forall key :: key in selector ==> key in p.labels && p.labels[key] == selector[key])
    && (platform != PLATFORM_UNSPECIFIED ==> exists a :: a in p.accounts && a.platform == platform)
    && (accountId != "" ==> exists a :: a in p.accounts && a.accountId == accountId)
    && (platform != PLATFORM_UNSPECIFIED && accountId != "" ==>
          exists a :: a in p.accounts && a.platform == platform && a.accountId == accountId)
  }

  ghost predicate CanTake(s: State, id: string, r: Request, now: int)
    requires r.Acquire?
  {
    FreeToTake(s, id, now) && Suits(s.profiles[id], r.platform, r.accountId, r.selector)
  }

  lemma HeldAfterExpiry(s: State, id: string, now: int)
    ensures HasLease(Expire(s, now), id) <==>
            exists l :: l in s.leases && s.leases[l].profileId == id && now < s.leases[l].expiresAt
    ensures id in s.profiles ==> id in Expire(s, now).profiles && Expire(s, now).profiles[id] == Caught(s, id, now)
  {
    ExpiryLaw(s, now);
    var x := Expire(s, now);
    if l :| l in s.leases && s.leases[l].profileId == id && now < s.leases[l].expiresAt {
      assert l in x.leases && x.leases[l].profileId == id;
    }
  }

  lemma GrantableIsFree(s: State, id: string, r: Request, now: int)
    requires r.Acquire?
    ensures var x := Expire(s, now);
            Grantable(x, id, r.platform, r.accountId, r.selector) <==>
              && FreeToTake(s, id, now)
              && (forall key :: key in r.selector ==>
                  key in s.profiles[id].labels && s.profiles[id].labels[key] == r.selector[key])
              && (r.platform != PLATFORM_UNSPECIFIED ==>
                  exists a :: a in s.profiles[id].accounts && a.platform == r.platform)
              && (r.accountId != "" ==> exists a :: a in s.profiles[id].accounts && a.accountId == r.accountId)
  {
    HeldAfterExpiry(s, id, now);
  }

  /** Which profile is taken, if any: one that can be, and one whenever there is one. */
  lemma SelectionLaw(s: State, r: Request, now: int)
    requires Core(s) && r.Acquire? && LegalRequest(s, r, now)
    ensures var chosen := SelectForAcquire(Expire(s, now), r.platform, r.accountId, r.selector, r.choice);
            && (chosen.Some? ==> CanTake(s, chosen.value, r, now))
            && (chosen.None? ==> forall id :: !CanTake(s, id, r, now))
  {
    if r.platform != PLATFORM_UNSPECIFIED && r.accountId != "" {
      ExactSelectionLaw(s, r, now);
    } else {
      LooseSelectionLaw(s, r, now);
    }
  }

  lemma GrantableCanBeTaken(s: State, id: string, r: Request, now: int)
    requires r.Acquire? && (r.platform == PLATFORM_UNSPECIFIED || r.accountId == "")
    ensures Grantable(Expire(s, now), id, r.platform, r.accountId, r.selector) <==> CanTake(s, id, r, now)
  {
    GrantableIsFree(s, id, r, now);
  }

  lemma LooseSelectionLaw(s: State, r: Request, now: int)
    requires r.Acquire? && LegalRequest(s, r, now) && (r.platform == PLATFORM_UNSPECIFIED || r.accountId == "")
    ensures var chosen := SelectForAcquire(Expire(s, now), r.platform, r.accountId, r.selector, r.choice);
            && (chosen.Some? ==> CanTake(s, chosen.value, r, now))
            && (chosen.None? ==> forall id :: !CanTake(s, id, r, now))
  {
    forall id
      ensures Grantable(Expire(s, now), id, r.platform, r.accountId, r.selector) <==> CanTake(s, id, r, now)
    {
      GrantableCanBeTaken(s, id, r, now);
    }
  }

  lemma ExactSelectionLaw(s: State, r: Request, now: int)
    requires Core(s) && r.Acquire? && r.platform != PLATFORM_UNSPECIFIED && r.accountId != ""
    ensures var chosen := SelectForAcquire(Expire(s, now), r.platform, r.accountId, r.selector, r.choice);
            && (chosen.Some? ==> CanTake(s, chosen.value, r, now))
            && (chosen.None? ==> forall id :: !CanTake(s, id, r, now))
  {
    var k := AccountKey(r.platform, r.accountId);
    assert Expire(s, now).bindings == s.bindings;
    forall id | id in s.profiles
      ensures (exists a :: a in s.profiles[id].accounts && a.platform == r.platform && a.accountId == r.accountId) <==>
                k in s.bindings && s.bindings[k].profileId == id
    {
      assert HasAccount(s.profiles[id], k) <==> k in s.bindings && s.bindings[k].profileId == id;
    }
    forall id
      ensures CanTake(s, id, r, now) ==>
                k in s.bindings && s.bindings[k].profileId == id
                    && Grantable(Expire(s, now), id, r.platform, r.accountId, r.selector)
    {
      GrantableIsFree(s, id, r, now);
    }
    if k in s.bindings {
      GrantableIsFree(s, s.bindings[k].profileId, r, now);
    }
  }

  /** An acquire takes a free profile that suits the request, if there is one at all, and the lease
      is for exactly that profile on its machine, as asked. */
  lemma AcquireLaw(s: State, r: Request, now: int)
    requires Core(s) && r.Acquire? && LegalRequest(s, r, now)
    ensures var o := HandleAcquire(s, r, now);
            && (r.clientId == "" ==> o == Keep(Done(Failed(InvalidArgument))))
            && (r.clientId != "" && (forall id :: !CanTake(s, id, r, now)) ==> o == Keep(Done(Failed(NotFound))))
            && (r.clientId != "" && (exists id :: CanTake(s, id, r, now)) ==> Taken(s, r, now, o) == true)
  {
    SelectionLaw(s, r, now);
    var chosen := SelectForAcquire(Expire(s, now), r.platform, r.accountId, r.selector, r.choice);
    if r.clientId != "" && chosen.Some? {
      GrantLaw(s, r, now, chosen.value);
    }
  }

  ghost predicate Taken(s: State, r: Request, now: int, o: Outcome)
    requires r.Acquire?
  {
    && o.Commit? && o.answer.RouteTo? && o.answer.granted
    && var lease := o.answer.lease;
       && CanTake(s, lease.profileId, r, now)
       && lease == Lease(r.leaseId, lease.profileId, s.profiles[lease.profileId].machineId, r.clientId, r.purpose,
                         r.fencingToken, now + Seconds(r.ttl) * 1000)
       && r.leaseId in o.state.leases && o.state.leases[r.leaseId] == lease
       && Kept(s, o.state, now, {r.leaseId}, {lease.profileId})
       && o.state.profiles[lease.profileId] == s.profiles[lease.profileId].(status := PROFILE_LEASED)
  }

  /** Changing one lease and one profile on top of expiry. */
  lemma TouchingKeeps(s: State, x: State, t: State, now: int, leases: set<string>, profiles: set<string>)
    requires Kept(s, x, now, {}, {}) && RestKept(x, t) && t.profiles.Keys == x.profiles.Keys
    requires forall id :: id !in leases ==>
               (id in t.leases <==> id in x.leases) && (id in t.leases ==> t.leases[id] == x.leases[id])
    requires forall id :: id in t.profiles && id !in profiles ==> t.profiles[id] == x.profiles[id]
    ensures Kept(s, t, now, leases, profiles) == true
  {
  }

  lemma GrantingTouches(s: State, x: State, now: int, id: string, lease: Lease)
    requires Kept(s, x, now, {}, {}) && id in x.profiles
    ensures Kept(s, Grant(x, id, lease), now, {lease.leaseId}, {id}) == true
    ensures var t := Grant(x, id, lease);
            && lease.leaseId in t.leases && t.leases[lease.leaseId] == lease
            && t.profiles[id] == x.profiles[id].(status := PROFILE_LEASED)
  {
    TouchingKeeps(s, x, Grant(x, id, lease), now, {lease.leaseId}, {id});
  }

  lemma NewLeaseLaw(s: State, r: Request, now: int, id: string)
    requires KeysMatch(s) && r.Acquire? && id in s.profiles
    ensures id in Expire(s, now).profiles
    ensures NewLease(Expire(s, now), id, r, now) ==
            Lease(r.leaseId, id, s.profiles[id].machineId, r.clientId, r.purpose, r.fencingToken,
                  now + Seconds(r.ttl) * 1000)
  {
    HeldAfterExpiry(s, id, now);
    DeadlineLaw(now, r.ttl);
  }

  lemma GrantLaw(s: State, r: Request, now: int, id: string)
    requires KeysMatch(s) && r.Acquire? && r.clientId != "" && CanTake(s, id, r, now)
    requires SelectForAcquire(Expire(s, now), r.platform, r.accountId, r.selector, r.choice) == Some(id)
    ensures Taken(s, r, now, HandleAcquire(s, r, now)) == true
  {
    var x := Expire(s, now);
    ExpiryLaw(s, now);
    NewLeaseLaw(s, r, now, id);
    HeldAfterExpiry(s, id, now);
    GrantingTouches(s, x, now, id, NewLease(x, id, r, now));
  }

  // ---------- quarantine and listing ----------

  lemma QuarantineLaw(s: State, profileId: string, now: int)
    ensures var o := HandleQuarantine(s, profileId, now);
            && (profileId == "" ==> o == Keep(Done(Failed(InvalidArgument))))
            && (profileId != "" && profileId !in s.profiles ==> o == Keep(Done(Failed(NotFound))))
            && (profileId != "" && profileId in s.profiles ==>
                  var p := s.profiles[profileId].(status := PROFILE_QUARANTINED);
                  && o.Commit? && o.answer == Done(Quarantined(p))
                  && profileId in o.state.profiles && o.state.profiles[profileId] == p
                  && ProfilesKept(s, o.state, now, {profileId}) && RestKept(s, o.state)
                  && (forall id :: id in o.state.leases <==> Live(s, id, now) && s.leases[id].profileId != profileId)
                  && (forall id :: id in o.state.leases ==> o.state.leases[id] == s.leases[id]))
  {
    ExpiryLaw(s, now);
  }

  /** Only a quarantined profile is changed, and no lease expires on the way. */
  lemma ReleaseQuarantineLaw(s: State, profileId: string)
    ensures var o := HandleReleaseQuarantine(s, profileId);
            && (profileId == "" ==> o == Keep(Done(Failed(InvalidArgument))))
            && (profileId != "" && profileId !in s.profiles ==> o == Keep(Done(Failed(NotFound))))
            && (profileId != "" && profileId in s.profiles ==>
                  var p := s.profiles[profileId];
                  var q := if p.status == PROFILE_QUARANTINED then p.(status := PROFILE_AVAILABLE) else p;
                  o == Commit(s.(profiles := s.profiles[profileId := q]), Done(QuarantineReleased(q))))
  {
    if profileId in s.profiles {
      assert s.profiles[profileId := s.profiles[profileId]] == s.profiles;
    }
  }

  /** The list an agent syncs from: exactly the live leases of the machine, and nothing is written. */
  lemma ListLeasesLaw(s: State, machineId: string, now: int)
    requires KeysMatch(s)
    ensures var o := HandleListMachineLeases(s, machineId, now);
            && o.Keep? && o.answer.Done?
            && (machineId == "" ==> o.answer.response == Failed(InvalidArgument))
            && (machineId != "" ==>
                  && o.answer.response.MachineLeases?
                  && forall l :: l in o.answer.response.leases <==>
                       Live(s, l.leaseId, now) && s.leases[l.leaseId] == l && l.machineId == machineId)
  {
  }
}

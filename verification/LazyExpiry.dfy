/** Expiring leases only inside calls cannot be told apart from expiring them at every instant. */
module LazyExpiry {
  import opened Options
  import opened Messages
  import opened Registry
  import opened Operations

  lemma ReclaimComposes(s: State, a: set<string>, b: set<string>)
    ensures Reclaim(Reclaim(s, a), b) == Reclaim(s, a + b)
  {
    var t, u := Reclaim(Reclaim(s, a), b), Reclaim(s, a + b);
    assert t.leases == u.leases;
    assert t.profiles == u.profiles by {
      forall id | id in s.profiles
        ensures t.profiles[id] == u.profiles[id]
      {
        FreesSplits(s, a, b, id);
      }
    }
  }

  lemma FreesSplits(s: State, a: set<string>, b: set<string>, id: string)
    ensures Frees(s, a + b, id) <==> Frees(s, a, id) || Frees(Reclaim(s, a), b, id)
  {
  }

  lemma ExpireComposes(s: State, t: int, now: int)
    requires t <= now
    ensures Expire(Expire(s, t), now) == Expire(s, now)
  {
    ReclaimComposes(s, ExpiredIds(s, t), ExpiredIds(Expire(s, t), now));
    assert ExpiredIds(s, t) + ExpiredIds(Expire(s, t), now) == ExpiredIds(s, now);
  }

  lemma NothingToExpire(s: State, now: int)
    requires !AnyExpired(s, now)
    ensures Expire(s, now) == s
  {
    assert ExpiredIds(s, now) == {};
    assert Expire(s, now).leases == s.leases;
    assert Expire(s, now).profiles == s.profiles;
  }

  lemma ExpiredIsSettled(s: State, now: int)
    ensures !AnyExpired(Expire(s, now), now) && Expire(Expire(s, now), now) == Expire(s, now)
  {
    NothingToExpire(Expire(s, now), now);
  }

  // ---------- what a caller can observe ----------

  /** The answer as compared below. Two details are set aside: the status inside the profile that
      release_quarantine returns, since that call does not expire first, and which leases a sweep
      reports, since eager expiry has taken the expired ones already. */
  function Observable(answer: Answer): Answer {
    match answer
    case Done(QuarantineReleased(p)) => Done(QuarantineReleased(p.(status := PROFILE_UNSPECIFIED)))
    case Done(Swept(_)) => Done(Swept({}))
    case _ => answer
  }

  /** One call made lazily on `s` and eagerly on its expired form agree: same answer, and the
      same state once expiry has caught up. */
  ghost predicate Agree(s: State, r: Request, now: int) {
    var x := Expire(s, now);
    && Observable(Handle(s, r, now).answer) == Observable(Handle(x, r, now).answer)
    && Expire(After(s, Handle(s, r, now), true), now) == After(x, Handle(x, r, now), true)
  }

  lemma {:induction false} UpsertsKeepLeases(s: State, profiles: seq<Profile>, machineId: string, now: int)
    requires UpsertAll(s, profiles, machineId, now).Ok?
    ensures UpsertAll(s, profiles, machineId, now).value.leases == s.leases
    decreases |profiles|
  {
    if profiles != [] {
      UpsertsKeepLeases(Upsert(s, profiles[0], machineId, now).value, profiles[1..], machineId, now);
    }
  }

  lemma CheckinsAgree(s: State, r: Request, now: int)
    requires r.RegisterMachine? || r.Heartbeat?
    ensures Agree(s, r, now)
  {
    ExpiredIsSettled(s, now);
    var x := Expire(s, now);
    if Handle(s, r, now).Commit? {
      match r {
        case RegisterMachine(machine, profiles) =>
          var m := Checkin(machine.value, now);
          UpsertsKeepLeases(x.(machines := x.machines[m.machineId := m]), profiles, m.machineId, now);
        case Heartbeat(machineId, status, profiles) =>
          UpsertsKeepLeases(x.(machines := x.machines[machineId :=
                                                      x.machines[machineId].(status := status, lastHeartbeat := now)]),
                            profiles, machineId, now);
      }
      NothingToExpire(Handle(s, r, now).state, now);
    }
  }

  lemma LeaseCallsAgree(s: State, r: Request, now: int)
    requires r.Acquire? || r.Renew? || r.Release? || r.Quarantine?
    ensures Agree(s, r, now)
  {
    ExpiredIsSettled(s, now);
    if Handle(s, r, now).Commit? {
      NothingToExpire(Handle(s, r, now).state, now);
    }
  }

  lemma LiveLeasesAreUnexpired(s: State, machineId: string, now: int)
    ensures LiveLeases(s, machineId, now) == LiveLeases(Expire(s, now), machineId, now)
  {
    var x := Expire(s, now);
    assert forall id :: id in x.leases <==> id in s.leases && s.leases[id].expiresAt > now;
    forall l | l in LiveLeases(s, machineId, now)
      ensures l in LiveLeases(x, machineId, now)
    {
      var id :| id in s.leases && s.leases[id].machineId == machineId && s.leases[id].expiresAt > now
          && s.leases[id] == l;
      assert id in x.leases && x.leases[id] == l;
    }
    forall l | l in LiveLeases(x, machineId, now)
      ensures l in LiveLeases(s, machineId, now)
    {
      var id :| id in x.leases && x.leases[id].machineId == machineId && x.leases[id].expiresAt > now
          && x.leases[id] == l;
      assert s.leases[id] == l;
    }
  }

  lemma ReadsAgree(s: State, r: Request, now: int)
    requires r.ListProfiles? || r.ListBindings? || r.Lookup? || r.GetRoute? || r.ListMachineLeases?
    ensures Agree(s, r, now)
  {
    ExpiredIsSettled(s, now);
    if AnyExpired(s, now) {
      NothingToExpire(Expire(s, now), now);
    } else {
      NothingToExpire(s, now);
    }
    if r.ListMachineLeases? {
      LiveLeasesAreUnexpired(s, r.machineId, now);
    }
  }

  lemma UnquarantineCommutes(s: State, ids: set<string>, id: string)
    requires id in s.profiles && s.profiles[id].status == PROFILE_QUARANTINED
    ensures Reclaim(SetStatus(s, id, PROFILE_AVAILABLE), ids) == SetStatus(Reclaim(s, ids), id, PROFILE_AVAILABLE)
  {
    var t := SetStatus(s, id, PROFILE_AVAILABLE);
    assert forall p :: Frees(t, ids, p) == Frees(s, ids, p);
    assert Reclaim(t, ids).leases == Reclaim(s, ids).leases;
    assert Reclaim(t, ids).profiles == SetStatus(Reclaim(s, ids), id, PROFILE_AVAILABLE).profiles;
  }

  lemma UnquarantineAgrees(s: State, id: string, now: int)
    requires id in s.profiles && s.profiles[id].status == PROFILE_QUARANTINED
    ensures id in Expire(s, now).profiles && Expire(s, now).profiles[id] == s.profiles[id]
    ensures Expire(SetStatus(s, id, PROFILE_AVAILABLE), now) == SetStatus(Expire(s, now), id, PROFILE_AVAILABLE)
  {
    assert ExpiredIds(SetStatus(s, id, PROFILE_AVAILABLE), now) == ExpiredIds(s, now);
    UnquarantineCommutes(s, ExpiredIds(s, now), id);
  }

  lemma ReleaseQuarantineAgrees(s: State, r: Request, now: int)
    requires r.ReleaseQuarantine?
    ensures Agree(s, r, now) == true
  {
    ExpiredIsSettled(s, now);
    if r.profileId in s.profiles && s.profiles[r.profileId].status == PROFILE_QUARANTINED {
      UnquarantineAgrees(s, r.profileId, now);
    }
  }

  /** Reclaiming looks at leases and profiles only. */
  lemma ReclaimIgnoresTheRest(s: State, t: State, ids: set<string>)
    requires t.leases == s.leases && t.profiles == s.profiles
    ensures Reclaim(t, ids) == t.(leases := Reclaim(s, ids).leases, profiles := Reclaim(s, ids).profiles)
  {
    assert forall p :: Frees(t, ids, p) == Frees(s, ids, p);
  }

  lemma ReportsAgree(s: State, r: Request, now: int)
    requires r.ReportTelemetry? || r.ReportArtifacts?
    ensures Agree(s, r, now)
  {
    ExpiredIsSettled(s, now);
    if Handle(s, r, now).Commit? {
      var t := Handle(s, r, now).state;
      assert ExpiredIds(t, now) == ExpiredIds(s, now);
      ReclaimIgnoresTheRest(s, t, ExpiredIds(s, now));
    }
  }

  /** Expiring first does not change what a sweep leaves behind. */
  lemma SweepAfterExpiry(s: State, now: int, offlineAfter: int)
    ensures Sweep(Expire(s, now), now, offlineAfter) == Sweep(s, now, offlineAfter)
  {
    var x := Expire(s, now);
    var machines := MarkOffline(s.machines, now, offlineAfter);
    var marked := s.(machines := machines);
    ReclaimIgnoresTheRest(s, marked, ExpiredIds(s, now));
    assert x.(machines := machines) == Reclaim(marked, ExpiredIds(s, now));
    ReclaimComposes(marked, ExpiredIds(s, now), DoomedIds(x.(machines := machines), now));
    assert ExpiredIds(s, now) + DoomedIds(x.(machines := machines), now) == DoomedIds(marked, now);
  }

  lemma SweepsAgree(s: State, r: Request, now: int)
    requires r.SweepNow?
    ensures Agree(s, r, now)
  {
    SweepAfterExpiry(s, now, r.offlineAfter);
    NothingToExpire(Sweep(s, now, r.offlineAfter), now);
  }

  lemma CallAgrees(s: State, r: Request, now: int)
    ensures Agree(s, r, now) == true
  {
    if r.RegisterMachine? || r.Heartbeat? {
      CheckinsAgree(s, r, now);
    } else if r.Acquire? || r.Renew? || r.Release? || r.Quarantine? {
      LeaseCallsAgree(s, r, now);
    } else if r.ReleaseQuarantine? {
      ReleaseQuarantineAgrees(s, r, now);
    } else if r.ReportTelemetry? || r.ReportArtifacts? {
      ReportsAgree(s, r, now);
    } else if r.SweepNow? {
      SweepsAgree(s, r, now);
    } else {
      ReadsAgree(s, r, now);
    }
  }

  // ---------- runs ----------

  /** A point of time, at which a call may be made. */
  datatype Moment = Moment(now: int, request: Option<Request>)

  ghost predicate Nondecreasing(moments: seq<Moment>, from: int)
    decreases |moments|
  {
    moments == [] || (from <= moments[0].now && Nondecreasing(moments[1..], moments[0].now))
  }

  /** The controller as written: moments without a call do nothing. */
  ghost function LazyAnswers(s: State, moments: seq<Moment>): seq<Answer>
    decreases |moments|
  {
    if moments == [] then []
    else match moments[0].request
      case None => LazyAnswers(s, moments[1..])
      case Some(r) =>
        var o := Handle(s, r, moments[0].now);
        [Observable(o.answer)] + LazyAnswers(After(s, o, true), moments[1..])
  }

  /** The reference: every moment expires leases, and so does the instant before each call. */
  ghost function EagerAnswers(s: State, moments: seq<Moment>): seq<Answer>
    decreases |moments|
  {
    if moments == [] then []
    else
      var x := Expire(s, moments[0].now);
      match moments[0].request
      case None => EagerAnswers(x, moments[1..])
      case Some(r) =>
        var o := Handle(x, r, moments[0].now);
        [Observable(o.answer)] + EagerAnswers(After(x, o, true), moments[1..])
  }

  lemma {:induction false} LazyRefinesEagerFrom(s: State, e: State, moments: seq<Moment>, from: int)
    requires Expire(s, from) == Expire(e, from) && Nondecreasing(moments, from)
    ensures LazyAnswers(s, moments) == EagerAnswers(e, moments)
    decreases |moments|
  {
    if moments != [] {
      var now := moments[0].now;
      ExpireComposes(s, from, now);
      ExpireComposes(e, from, now);
      var x := Expire(e, now);
      match moments[0].request
      case None =>
        ExpiredIsSettled(e, now);
        LazyRefinesEagerFrom(s, x, moments[1..], now);
      case Some(r) =>
        CallAgrees(s, r, now);
        var t := After(s, Handle(s, r, now), true);
        ExpiredIsSettled(t, now);
        LazyRefinesEagerFrom(t, After(x, Handle(x, r, now), true), moments[1..], now);
    }
  }

  /** From any state, over any sequence of calls at nondecreasing times whose writes succeed, and
      however often expiry runs in between, lazy and eager expiry give the same answers. */
  lemma LazyRefinesEager(s: State, moments: seq<Moment>, from: int)
    requires Nondecreasing(moments, from)
    ensures LazyAnswers(s, moments) == EagerAnswers(s, moments)
  {
    LazyRefinesEagerFrom(s, s, moments, from);
  }
}

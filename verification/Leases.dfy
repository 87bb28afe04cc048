/** Where leases come from, how long they can last, and what a lookup promises about acquiring. */
module Leases {
  import opened Options
  import opened Messages
  import opened Registry
  import opened Operations
  import opened ControllerSystem
  import Invariants
  import LazyExpiry

  const I64_MAX := 0x7FFF_FFFF_FFFF_FFFF
  const MAX_LEASE_MS := MAX_LEASE_TTL_SECONDS * 1000

  // ---------- deadlines ----------

  /** Granting and renewing stay within 64 bits, and every deadline is in the future but not
      beyond the cap, whatever time to live was asked for. */
  lemma DeadlineFits(now: int, requested: int)
    requires 0 <= now <= I64_MAX - MAX_LEASE_MS
    ensures 1000 <= ResolveTtl(requested) * 1000 <= MAX_LEASE_MS
    ensures now + 1000 <= Deadline(now, requested) <= now + MAX_LEASE_MS <= I64_MAX
    ensures 0 < requested <= MAX_LEASE_TTL_SECONDS ==> Deadline(now, requested) == now + requested * 1000
  {
  }

  /** A lease in the state after a call was there before, or this call renewed or granted it. */
  ghost predicate Explained(s: State, r: Request, now: int, t: State, id: string)
    requires id in t.leases
  {
    || (id in s.leases && t.leases[id] == s.leases[id])
    || (r.Renew? && r.leaseId == id && id in s.leases
        && t.leases[id] == s.leases[id].(expiresAt := Deadline(now, r.ttl)))
    || (r.Acquire? && r.leaseId == id && t.leases[id].leaseId == id && t.leases[id].fencingToken == r.fencingToken
        && t.leases[id].expiresAt == Deadline(now, r.ttl))
  }

  lemma CheckinExplained(s: State, r: Request, now: int, id: string)
    requires (r.RegisterMachine? || r.Heartbeat?) && Handle(s, r, now).Commit? && id in Handle(s, r, now).state.leases
    ensures id in s.leases && Handle(s, r, now).state.leases[id] == s.leases[id]
  {
    var x := Expire(s, now);
    match r
    case RegisterMachine(machine, profiles) =>
      var m := Checkin(machine.value, now);
      LazyExpiry.UpsertsKeepLeases(x.(machines := x.machines[m.machineId := m]), profiles, m.machineId, now);
    case Heartbeat(machineId, status, profiles) =>
      var m := x.machines[machineId].(status := status, lastHeartbeat := now);
      LazyExpiry.UpsertsKeepLeases(x.(machines := x.machines[machineId := m]), profiles, machineId, now);
  }

  lemma EveryLeaseIsExplained(s: State, r: Request, now: int, id: string)
    requires Handle(s, r, now).Commit? && id in Handle(s, r, now).state.leases
    ensures Explained(s, r, now, Handle(s, r, now).state, id)
  {
    if r.RegisterMachine? || r.Heartbeat? {
      CheckinExplained(s, r, now, id);
    }
  }

  /** Every lease has a usable credential, and lasts no longer than the cap after `latest`. */
  ghost predicate Timely(s: State, latest: int) {
    forall id :: id in s.leases ==>
      && 0 < s.leases[id].expiresAt <= latest + MAX_LEASE_MS
      && id != "" && s.leases[id].fencingToken != ""
  }

  /** The id generator never returns an empty id, and clocks read after the epoch. */
  ghost predicate Realistic(step: Step) {
    step.Call? ==>
      0 <= step.now && (step.request.Acquire? ==> step.request.leaseId != "" && step.request.fencingToken != "")
  }

  function Later(latest: int, step: Step): int {
    if step.Call? && step.now > latest then step.now else latest
  }

  function Latest(latest: int, steps: seq<Step>): int
    decreases |steps|
  {
    if steps == [] then latest else Latest(Later(latest, steps[0]), steps[1..])
  }

  lemma StepKeepsTimely(sys: System, step: Step, latest: int)
    requires SystemInv(sys) == true && Legal(sys, step) && Realistic(step) && Timely(sys.state, latest)
    ensures Timely(Next(sys, step).state, Later(latest, step))
  {
    match step
    case Call(r, now, ioOk) =>
      if Handle(sys.state, r, now).Commit? {
        CallKeepsTimely(sys.state, r, now, latest);
      }
    case Reboot(order) =>
      if sys.store.Some? {
        RestartRestores(sys, order);
      }
  }

  lemma CallKeepsTimely(s: State, r: Request, now: int, latest: int)
    requires 0 <= now && Handle(s, r, now).Commit? && Timely(s, latest)
    requires r.Acquire? ==> r.leaseId != "" && r.fencingToken != ""
    ensures Timely(Handle(s, r, now).state, if now > latest then now else latest)
  {
    var t := Handle(s, r, now).state;
    forall id | id in t.leases
      ensures 0 < t.leases[id].expiresAt <= (if now > latest then now else latest) + MAX_LEASE_MS
      ensures id != "" && t.leases[id].fencingToken != ""
    {
      EveryLeaseIsExplained(s, r, now, id);
      assert Explained(s, r, now, t, id);
    }
  }

  /** In every reachable state no lease outlives the latest time any call has read by more than
      the cap, even when clock readings arrive out of order. */
  lemma {:induction false} RunKeepsTimely(sys: System, steps: seq<Step>, latest: int)
    requires SystemInv(sys) == true && LegalRun(sys, steps) && Timely(sys.state, latest)
    requires forall i :: 0 <= i < |steps| ==> Realistic(steps[i])
    ensures Timely(Run(sys, steps).state, Latest(latest, steps))
    decreases |steps|
  {
    if steps != [] {
      StepKeepsTimely(sys, steps[0], latest);
      StepKeepsSystemInv(sys, steps[0]);
      RunKeepsTimely(Next(sys, steps[0]), steps[1..], Later(latest, steps[0]));
    }
  }

  // ---------- lookup and acquire ----------

  /** An available profile has no lease, so what a lookup calls available can be acquired. */
  lemma AvailableIsUnleased(s: State, id: string)
    requires LeasedStatus(s) && id in s.profiles && s.profiles[id].status == PROFILE_AVAILABLE
    ensures !HasLease(s, id) && ActiveLease(s, id) == None
  {
  }

  lemma SelectionsAgree(s: State, platform: int, accountId: string, selector: map<string, string>, choice: string)
    requires Core(s) && KeyOf(platform, accountId).Some?
    ensures var b := SelectForLookup(s, platform, accountId, selector, false);
            var id := SelectForAcquire(s, platform, accountId, selector, choice);
            && (b.Some? <==> id.Some?)
            && (b.Some? ==> b.value.profileId == id.value && b.value.machineId == s.profiles[id.value].machineId)
  {
  }

  /** The lookup finds a connection exactly when the acquire is granted, for the same profile. */
  ghost predicate SameChoice(found: Answer, acquired: Outcome) {
    && found.Done?
    && (found.response.Connection? <==> acquired.Commit?)
    && (found.response.Connection? ==>
          && found.response.available && found.response.activeLeaseId == ""
          && acquired.answer.RouteTo?
          && found.response.binding.profileId == acquired.answer.lease.profileId
          && found.response.binding.machineId == acquired.answer.lease.machineId)
  }

  lemma AvailableDescription(s: State, b: Binding)
    requires LeasedStatus(s) && b.profileId in s.profiles && b.profileStatus == PROFILE_AVAILABLE
    requires s.profiles[b.profileId].status == PROFILE_AVAILABLE
    ensures Describe(s, b).Connection? && Describe(s, b).available && Describe(s, b).activeLeaseId == ""
            && Describe(s, b).binding == b
  {
    AvailableIsUnleased(s, b.profileId);
  }

  lemma SelectedIsAvailable(s: State, platform: int, accountId: string, selector: map<string, string>)
    requires KeysMatch(s) && SelectForLookup(s, platform, accountId, selector, false).Some?
    ensures var b := SelectForLookup(s, platform, accountId, selector, false).value;
            b.profileId in s.profiles && b.profileStatus == PROFILE_AVAILABLE
                && s.profiles[b.profileId].status == PROFILE_AVAILABLE
  {
  }

  lemma LookupChooses(s: State, platform: int, accountId: string, selector: map<string, string>, all: bool, now: int)
    requires KeyOf(platform, accountId).Some?
    ensures var b := SelectForLookup(Expire(s, now), platform, accountId, selector, all);
            HandleLookup(s, platform, accountId, selector, all, now).answer
            == Done(if b.Some? then Describe(Expire(s, now), b.value) else Failed(NotFound))
  {
  }

  lemma AcquireChooses(s: State, r: Request, now: int)
    requires r.Acquire? && r.clientId != ""
    ensures var id := SelectForAcquire(Expire(s, now), r.platform, r.accountId, r.selector, r.choice);
            var o := HandleAcquire(s, r, now);
            && (o.Commit? <==> id.Some?)
            && (id.Some? ==>
                  && o.answer.RouteTo?
                  && o.answer.lease.profileId == Expire(s, now).profiles[id.value].profileId
                  && o.answer.lease.machineId == Expire(s, now).profiles[id.value].machineId)
  {
  }

  lemma LookupChoosesAsAcquire(s: State, r: Request, now: int)
    requires Core(s) && r.Acquire? && r.clientId != "" && KeyOf(r.platform, r.accountId).Some?
    ensures SameChoice(HandleLookup(s, r.platform, r.accountId, r.selector, false, now).answer,
                       HandleAcquire(s, r, now))
  {
    var x := Expire(s, now);
    Invariants.ReclaimKeepsCore(s, ExpiredIds(s, now));
    SelectionsAgree(x, r.platform, r.accountId, r.selector, r.choice);
    LookupChooses(s, r.platform, r.accountId, r.selector, false, now);
    AcquireChooses(s, r, now);
    var b := SelectForLookup(x, r.platform, r.accountId, r.selector, false);
    if b.Some? {
      SelectedIsAvailable(x, r.platform, r.accountId, r.selector);
      AvailableDescription(x, b.value);
    }
  }

  /** The write that a call may need goes through. */
  ghost predicate WritesWork(sys: System, ioOk: bool) {
    sys.store.None? || (ioOk && Writable(sys))
  }

  lemma LookupIsHandled(s: State, platform: int, accountId: string, selector: map<string, string>, all: bool, now: int)
    ensures Handle(s, Lookup(platform, accountId, selector, all), now) ==
            HandleLookup(s, platform, accountId, selector, all, now)
  {
  }

  lemma LookupResponds(sys: System, platform: int, accountId: string, selector: map<string, string>, now: int,
                       ioOk: bool)
    requires SystemInv(sys) && KeyOf(platform, accountId).Some?
    requires HandleLookup(sys.state, platform, accountId, selector, false, now).answer.Done?
    ensures Execute(sys, Lookup(platform, accountId, selector, false), now, ioOk).1 ==
            if AnyExpired(sys.state, now) && !WritesWork(sys, ioOk) then Failed(Internal)
            else HandleLookup(sys.state, platform, accountId, selector, false, now).answer.response
  {
    var r := Lookup(platform, accountId, selector, false);
    LookupIsHandled(sys.state, platform, accountId, selector, false, now);
    if Handle(sys.state, r, now).Commit? {
      OtherCallsWriteIffWritable(sys, r, now, ioOk);
    }
  }

  lemma AcquireIsHandled(s: State, r: Request, now: int)
    requires r.Acquire?
    ensures Handle(s, r, now) == HandleAcquire(s, r, now)
  {
  }

  lemma AcquireAnswers(s: State, r: Request, now: int)
    requires r.Acquire?
    ensures var o := HandleAcquire(s, r, now);
            if o.Commit? then o.answer.RouteTo? && o.answer.granted else o.answer.Done? && o.answer.response.Failed?
  {
  }

  lemma AnswerResponds(sys: System, r: Request, now: int, ioOk: bool, o: Outcome)
    requires r.Acquire? && Handle(sys.state, r, now) == o
    ensures Execute(sys, r, now, ioOk).1 ==
            if o.Keep? || CanWrite(sys.store, o.state, ioOk) then Resolve(o.answer, sys.directory) else Failed(Internal)
  {
  }

  lemma AcquireIsFound(sys: System, r: Request, now: int, ioOk: bool)
    requires SystemInv(sys) && r.Acquire? && LegalRequest(sys.state, r, now)
    ensures Execute(sys, r, now, ioOk).1 != Failed(Unavailable)
  {
    AcquireIsRouted(sys, r, now, ioOk);
  }

  lemma AcquireResponds(sys: System, r: Request, now: int, ioOk: bool)
    requires SystemInv(sys) && r.Acquire? && LegalRequest(sys.state, r, now)
    ensures var acquired := Execute(sys, r, now, ioOk).1;
            && (acquired.Granted? <==> HandleAcquire(sys.state, r, now).Commit? && WritesWork(sys, ioOk))
            && (acquired.Granted? ==> HandleAcquire(sys.state, r, now).answer == RouteTo(acquired.lease, true))
  {
    var o := HandleAcquire(sys.state, r, now);
    AcquireIsHandled(sys.state, r, now);
    AcquireAnswers(sys.state, r, now);
    AnswerResponds(sys, r, now, ioOk, o);
    AcquireIsFound(sys, r, now, ioOk);
    if o.Commit? {
      OtherCallsWriteIffWritable(sys, r, now, ioOk);
    }
  }

  /** For an exact account at one time, an acquire is granted exactly when a lookup of available
      browsers finds one and the write goes through, and then for the same profile and machine; and
      a lookup fails where an acquire finds a profile only if it cannot write what it found expired. */
  lemma LookupAgreesWithAcquire(sys: System, r: Request, now: int, ioOk: bool)
    requires SystemInv(sys) && r.Acquire? && LegalRequest(sys.state, r, now)
    requires r.clientId != "" && KeyOf(r.platform, r.accountId).Some?
    ensures var found := Execute(sys, Lookup(r.platform, r.accountId, r.selector, false), now, ioOk).1;
            var acquired := Execute(sys, r, now, ioOk).1;
            && (acquired.Granted? <==> found.Connection? && WritesWork(sys, ioOk))
            && (acquired.Granted? ==>
                  && found.available && found.activeLeaseId == ""
                  && found.binding.profileId == acquired.lease.profileId
                     && found.binding.machineId == acquired.lease.machineId)
            && (found.Connection? <==>
                  HandleAcquire(sys.state, r, now).Commit? && (AnyExpired(sys.state, now) ==> WritesWork(sys, ioOk)))
  {
    LookupChoosesAsAcquire(sys.state, r, now);
    LookupResponds(sys, r.platform, r.accountId, r.selector, now, ioOk);
    AcquireResponds(sys, r, now, ioOk);
  }

  /** The description tells the truth about the profile's lease. */
  ghost predicate Honest(s: State, found: Response)
    requires found.Connection?
  {
    && found.available == (found.readiness == ReadyToAcquire)
    && (found.available ==> found.activeLeaseId == "" && !HasLease(s, found.binding.profileId))
    && (found.readiness == HeldByClient <==> HasLease(s, found.binding.profileId))
  }

  ghost predicate HonestAnswer(s: State, answer: Answer) {
    answer.Done? && (answer.response.Connection? ==> Honest(s, answer.response))
  }

  lemma DescriptionIsHonest(s: State, b: Binding)
    requires LeasedStatus(s) && b.profileId in s.profiles && b.profileStatus == s.profiles[b.profileId].status
    ensures Honest(s, Describe(s, b)) == true
  {
    if b.profileStatus == PROFILE_AVAILABLE {
      AvailableIsUnleased(s, b.profileId);
    }
  }

  lemma SelectedDescriptionIsHonest(s: State, platform: int, accountId: string, selector: map<string, string>,
                                    all: bool)
    requires KeysMatch(s) && LeasedStatus(s) && SelectForLookup(s, platform, accountId, selector, all).Some?
    ensures Honest(s, Describe(s, SelectForLookup(s, platform, accountId, selector, all).value)) == true
  {
    DescriptionIsHonest(s, SelectForLookup(s, platform, accountId, selector, all).value);
  }

  lemma ExpireKeepsStatus(s: State, now: int)
    requires Core(s)
    ensures KeysMatch(Expire(s, now)) && LeasedStatus(Expire(s, now))
  {
    Invariants.ReclaimKeepsCore(s, ExpiredIds(s, now));
  }

  /** Whatever a lookup returns, `available` is only said of a browser that nobody holds. */
  lemma LookupsAreHonest(s: State, platform: int, accountId: string, selector: map<string, string>, all: bool, now: int)
    requires Core(s)
    ensures HonestAnswer(Expire(s, now), HandleLookup(s, platform, accountId, selector, all, now).answer) == true
  {
    ExpireKeepsStatus(s, now);
    if KeyOf(platform, accountId).Some? {
      LookupChooses(s, platform, accountId, selector, all, now);
      if SelectForLookup(Expire(s, now), platform, accountId, selector, all).Some? {
        SelectedDescriptionIsHonest(Expire(s, now), platform, accountId, selector, all);
      }
    }
  }
}

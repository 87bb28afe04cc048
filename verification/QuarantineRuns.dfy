/** A quarantined profile stays quarantined until an operator releases it by name. */
module QuarantineRuns {
  import opened Messages
  import opened Registry
  import opened Operations
  import opened Edits
  import opened ControllerSystem
  import Invariants

  ghost predicate Held(s: State, profileId: string) {
    profileId in s.profiles && s.profiles[profileId].status == PROFILE_QUARANTINED && !HasLease(s, profileId)
  }

  lemma EditKeepsHeld(s: State, e: Edit, profileId: string)
    requires KeysMatch(s) && Held(s, profileId) && Enabled(s, e) && e != Unquarantine(profileId)
    ensures Held(Apply(s, e), profileId)
  {
  }

  /** Quarantining a known profile holds it, whatever lease it had. */
  lemma QuarantineHolds(s: State, profileId: string, now: int)
    requires KeysMatch(s) && profileId in s.profiles
    ensures var o := Handle(s, Quarantine(profileId), now);
            o.Commit? && Held(o.state, profileId) && o.answer == Done(Quarantined(o.state.profiles[profileId]))
  {
  }

  lemma OnlyReleaseUnquarantines(s: State, r: Request, now: int, profileId: string)
    requires Handle(s, r, now).Commit? && r != ReleaseQuarantine(profileId)
    ensures forall i :: 0 <= i < |EditsOf(s, r, now)| ==> EditsOf(s, r, now)[i] != Unquarantine(profileId)
  {
  }

  lemma CallKeepsHeld(s: State, r: Request, now: int, profileId: string)
    requires Core(s) && Held(s, profileId) && r != ReleaseQuarantine(profileId) && Handle(s, r, now).Commit?
    ensures Held(Handle(s, r, now).state, profileId)
  {
    CallIsEdits(s, r, now);
    OnlyReleaseUnquarantines(s, r, now, profileId);
    var keeps := (x: State) => Core(x) && Held(x, profileId);
    var allowed := (e: Edit) => e != Unquarantine(profileId);
    forall x, e | keeps(x) && allowed(e) && Enabled(x, e)
      ensures keeps(Apply(x, e))
    {
      Invariants.EditKeepsCore(x, e);
      EditKeepsHeld(x, e, profileId);
    }
    EditsKeep(keeps, allowed, s, EditsOf(s, r, now), Handle(s, r, now).state);
  }

  lemma HeldIsNotSelected(s: State, r: Request, now: int, profileId: string)
    requires KeysMatch(s) && Held(s, profileId) && r.Acquire? && HandleAcquire(s, r, now).Commit?
    ensures HandleAcquire(s, r, now).answer.lease.profileId != profileId
  {
    assert Expire(s, now).profiles[profileId] == s.profiles[profileId];
  }

  ghost predicate Grants(response: Response, profileId: string) {
    response.Granted? && response.lease.profileId == profileId
  }

  /** While it is held, a profile cannot be acquired. */
  lemma HeldIsNotGranted(sys: System, r: Request, now: int, ioOk: bool, profileId: string)
    requires KeysMatch(sys.state) && Held(sys.state, profileId)
    ensures !Grants(Execute(sys, r, now, ioOk).1, profileId)
  {
    if !r.Acquire? && !r.GetRoute? {
      OnlyLeaseCallsRoute(sys.state, r, now);
    } else if r.Acquire? && Handle(sys.state, r, now).Commit? {
      HeldIsNotSelected(sys.state, r, now, profileId);
    }
  }

  ghost predicate NeverGrants(sys: System, steps: seq<Step>, profileId: string)
    requires LegalRun(sys, steps)
    decreases |steps|
  {
    steps == []
    || ((steps[0].Call? ==> !Grants(Execute(sys, steps[0].request, steps[0].now, steps[0].ioOk).1, profileId))
        && NeverGrants(Next(sys, steps[0]), steps[1..], profileId))
  }

  /** Some call in the run releases this profile's quarantine. */
  predicate Releases(steps: seq<Step>, profileId: string) {
    steps != [] && ((steps[0].Call? && steps[0].request == ReleaseQuarantine(profileId))
                    || Releases(steps[1..], profileId))
  }

  predicate Reboots(steps: seq<Step>) {
    steps != [] && (steps[0].Reboot? || Reboots(steps[1..]))
  }

  lemma StepKeepsHeld(sys: System, step: Step, profileId: string)
    requires SystemInv(sys) == true && Held(sys.state, profileId) && Legal(sys, step)
    requires if step.Call? then step.request != ReleaseQuarantine(profileId) else sys.store.Some?
    ensures Held(Next(sys, step).state, profileId) && Next(sys, step).store.Some? == sys.store.Some?
  {
    match step
    case Call(r, now, ioOk) =>
      if Handle(sys.state, r, now).Commit? {
        CallKeepsHeld(sys.state, r, now, profileId);
      }
    case Reboot(order) => RestartRestores(sys, order);
  }

  /** Through any mix of registrations, heartbeats, acquires, renewals, releases, expiries, sweeps,
      failed writes and restarts, at whatever times, the profile stays quarantined and without a
      lease, and no call grants it, until a release names it. (Without a store a restart forgets
      everything, so only then restarts are excluded.) */
  lemma {:induction false} QuarantineIsSticky(sys: System, steps: seq<Step>, profileId: string)
    requires SystemInv(sys) == true && Held(sys.state, profileId) && LegalRun(sys, steps)
    requires !Releases(steps, profileId) && (sys.store.None? ==> !Reboots(steps))
    ensures Held(Run(sys, steps).state, profileId) && NeverGrants(sys, steps, profileId)
    decreases |steps|
  {
    if steps != [] {
      StepKeepsHeld(sys, steps[0], profileId);
      StepKeepsSystemInv(sys, steps[0]);
      if steps[0].Call? {
        HeldIsNotGranted(sys, steps[0].request, steps[0].now, steps[0].ioOk, profileId);
      }
      QuarantineIsSticky(Next(sys, steps[0]), steps[1..], profileId);
    }
  }
}

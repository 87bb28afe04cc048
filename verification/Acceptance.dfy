/** How long an agent goes on accepting a credential: exactly which steps end it. */
module Acceptance {
  import opened Messages
  import opened Agent
  import opened Handover
  import opened HandoverLimits

  /** A credential presented to one machine. */
  datatype Credential = Credential(machineId: string, leaseId: string, profileId: string, fencingToken: string)

  predicate Honoured(w: World, k: Credential) {
    Check(AgentMap(w, k.machineId), k.leaseId, k.profileId, k.fencingToken, w.clock)
  }

  /** The context backs the credential at the given time. */
  predicate Backs(c: LeaseContext, k: Credential, clock: int) {
    && c.leaseId == k.leaseId && c.profileId == k.profileId && c.fencingToken == k.fencingToken
    && !(c.expiresAt > 0 && clock >= c.expiresAt)
  }

  /** The steps that end acceptance: time reaching the installed deadline, an install at this agent
      of another lease for the profile or of the same lease in a form that does not back the
      credential, a sync that does not list it, its revocation, and a restart of the agent. */
  ghost predicate Ends(w: World, step: Step, k: Credential) {
    match step
    case Tick(to) =>
      var m := AgentMap(w, k.machineId);
      k.leaseId in m && 0 < m[k.leaseId].expiresAt <= to
    case Deliver(InstallMessage(machineId, c)) =>
      machineId == k.machineId && (c.profileId == k.profileId || c.leaseId == k.leaseId) && !Backs(c, k, w.clock)
    case Deliver(SyncMessage(machineId, desired)) =>
      machineId == k.machineId
      && !(k.leaseId in IdsOf(desired) && Backs(ContextOf(LastWithId(desired, k.leaseId)), k, w.clock))
    case RevokeAt(machineId, leaseId, fencingToken) =>
      machineId == k.machineId && leaseId == k.leaseId && fencingToken == k.fencingToken
    case RestartAgent(machineId) => machineId == k.machineId
    case _ => false
  }

  lemma DeliveryEndsIff(w: World, message: Message, k: Credential)
    requires Honoured(w, k) && message in w.net
    ensures Honoured(Delivered(w, message), k) <==> !Ends(w, Deliver(message), k)
  {
  }

  lemma OthersEndIff(w: World, step: Step, k: Credential)
    requires Honoured(w, k) && Possible(w, step) && !step.Deliver?
    ensures Honoured(Next(w, step), k) <==> !Ends(w, step, k)
  {
  }

  /** Acceptance ends at exactly these steps. */
  lemma AcceptanceEndsIff(w: World, step: Step, k: Credential)
    requires Honoured(w, k) && Possible(w, step)
    ensures Honoured(Next(w, step), k) <==> !Ends(w, step, k)
  {
    if step.Deliver? {
      DeliveryEndsIff(w, step.message, k);
    } else {
      OthersEndIff(w, step, k);
    }
  }

  ghost predicate NothingEnds(w: World, steps: seq<Step>, k: Credential)
    requires PossibleRun(w, steps)
    decreases |steps|
  {
    steps == [] || (!Ends(w, steps[0], k) && NothingEnds(Next(w, steps[0]), steps[1..], k))
  }

  ghost predicate HonouredThroughout(w: World, steps: seq<Step>, k: Credential)
    requires PossibleRun(w, steps)
    decreases |steps|
  {
    Honoured(w, k) && (steps == [] || HonouredThroughout(Next(w, steps[0]), steps[1..], k))
  }

  /** A credential is accepted through a whole run exactly when none of its steps ends that. */
  lemma {:induction false} AcceptedThroughoutIff(w: World, steps: seq<Step>, k: Credential)
    requires Honoured(w, k) && PossibleRun(w, steps)
    ensures HonouredThroughout(w, steps, k) <==> NothingEnds(w, steps, k)
    decreases |steps|
  {
    if steps != [] {
      AcceptanceEndsIff(w, steps[0], k);
      if !Ends(w, steps[0], k) {
        AcceptedThroughoutIff(Next(w, steps[0]), steps[1..], k);
      }
    }
  }

  /** The controller's own calls, its restarts and what happens at other agents end nothing. */
  lemma OnlyItsAgentAndTimeEnd(w: World, step: Step, k: Credential)
    requires Honoured(w, k) && Possible(w, step)
    requires step.CallController? || step.RestartController? || step.SendInstall? || step.AnswerSync?
             || (step.RestartAgent? && step.machineId != k.machineId)
             || (step.RevokeAt? && step.machineId != k.machineId)
             || (step.Deliver? && step.message.machineId != k.machineId)
    ensures Honoured(Next(w, step), k)
  {
    AcceptanceEndsIff(w, step, k);
  }

  /** In particular an older context of the profile, installed late or again, evicts its successor:
      two steps from any sound world in which someone knows it. */
  lemma LateInstallEvicts(w: World, k: Credential, older: LeaseContext)
    requires WorldInv(w) == true && Honoured(w, k)
    requires older in w.ledger.issued && older.profileId == k.profileId && older.leaseId != k.leaseId
    ensures var send := SendInstall(k.machineId, older);
            var deliver := Deliver(InstallMessage(k.machineId, older));
            && PossibleRun(w, [send] + ([deliver] + []))
            && !Honoured(Run(w, [send] + ([deliver] + [])), k)
  {
    var send, deliver := SendInstall(k.machineId, older), Deliver(InstallMessage(k.machineId, older));
    InstallSteps(w, older, k.machineId);
    OnlyItsAgentAndTimeEnd(w, send, k);
    AcceptanceEndsIff(Next(w, send), deliver, k);
    RunCons(Next(w, send), deliver, []);
    RunCons(w, send, [deliver] + []);
  }
}

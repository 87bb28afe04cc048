/** The lease map of a machine's agent: what installs, uninstalls and syncs do to it, and which
    credentials it accepts. */
module Agent {
  import opened Options
  import opened Messages
  import opened Registry
  import opened Operations
  import Leases

  datatype LocalLease = LocalLease(profileId: string, fencingToken: string, expiresAt: int)

  type Installed = map<string, LocalLease>

  function LocalOf(c: LeaseContext): LocalLease {
    LocalLease(c.profileId, c.fencingToken, c.expiresAt)
  }

  /** Installing a lease takes away every other lease of the same profile. */
  function Install(m: Installed, c: LeaseContext): Installed {
    (map id | id in m && (m[id].profileId != c.profileId || id == c.leaseId) :: m[id])[c.leaseId := LocalOf(c)]
  }

  function Uninstall(m: Installed, leaseId: string, fencingToken: string): Installed {
    if leaseId in m && m[leaseId].fencingToken == fencingToken then m - {leaseId} else m
  }

  function IdsOf(desired: seq<Lease>): set<string> {
    set l | l in desired :: l.leaseId
  }

  function LastWithId(desired: seq<Lease>, id: string): (l: Lease)
    requires id in IdsOf(desired)
    ensures l in desired && l.leaseId == id
  {
    if desired[|desired| - 1].leaseId == id then desired[|desired| - 1] else LastWithId(desired[..|desired| - 1], id)
  }

  /** The map that mirrors a list: nothing else survives a sync. */
  function Mirror(desired: seq<Lease>): Installed {
    map id | id in IdsOf(desired) :: LocalOf(ContextOf(LastWithId(desired, id)))
  }

  function Check(m: Installed, leaseId: string, profileId: string, fencingToken: string, now: int): bool {
    && leaseId != "" && profileId != "" && fencingToken != ""
    && leaseId in m
    && m[leaseId].profileId == profileId && m[leaseId].fencingToken == fencingToken
    && !(m[leaseId].expiresAt > 0 && now >= m[leaseId].expiresAt)
  }

  function Validate(m: Installed, c: Option<LeaseContext>, now: int): Result<string, Code> {
    if c.None? || c.value.leaseId == "" || c.value.profileId == ""
        || c.value.fencingToken == "" then Err(InvalidArgument)
    else if c.value.leaseId !in m then Err(PermissionDenied)
    else
      var local := m[c.value.leaseId];
      if local.profileId != c.value.profileId || local.fencingToken != c.value.fencingToken then Err(PermissionDenied)
      else if local.expiresAt > 0 && now >= local.expiresAt then Err(PermissionDenied)
      else Ok(c.value.profileId)
  }

  class AgentService {
    var leases: Installed

    constructor ()
      ensures leases == map[]
    {
      leases := map[];
    }

    method SyncLeases(desired: seq<Lease>)
      modifies this
      ensures leases == Mirror(desired)
    {
      leases := map id | id in leases && id in IdsOf(desired) :: leases[id];
      for i := 0 to |desired|
        invariant leases.Keys <= IdsOf(desired)
        invariant forall id :: id in IdsOf(desired[..i]) ==>
                    id in leases && leases[id] == LocalOf(ContextOf(LastWithId(desired[..i], id)))
      {
        assert desired[..i + 1] == desired[..i] + [desired[i]];
        assert desired[..i + 1][..i] == desired[..i];
        leases := leases[desired[i].leaseId :=
                         LocalLease(desired[i].profileId, desired[i].fencingToken, desired[i].expiresAt)];
      }
      assert desired[..|desired|] == desired;
      assert leases.Keys == IdsOf(desired);
    }

    method InstallLease(leaseId: string, profileId: string, fencingToken: string, expiresAt: int)
      modifies this
      ensures leases == Install(old(leases), LeaseContext(leaseId, profileId, fencingToken, expiresAt))
    {
      leases := map id | id in leases && (leases[id].profileId != profileId || id == leaseId) :: leases[id];
      leases := leases[leaseId := LocalLease(profileId, fencingToken, expiresAt)];
    }

    method UninstallLease(leaseId: string, fencingToken: string) returns (uninstalled: bool)
      modifies this
      ensures leases == Uninstall(old(leases), leaseId, fencingToken)
      ensures uninstalled <==> leases != old(leases)
    {
      if leaseId in leases && leases[leaseId].fencingToken == fencingToken {
        leases := leases - {leaseId};
        return true;
      }
      return false;
    }

    method ValidateLease(lease: Option<LeaseContext>, now: int) returns (r: Result<string, Code>)
      ensures r == Validate(leases, lease, now)
      ensures r.Ok? ==> lease.Some? && r.value == lease.value.profileId
    {
      if lease.None? || lease.value.leaseId == "" || lease.value.profileId == "" || lease.value.fencingToken == "" {
        return Err(InvalidArgument);
      }
      if lease.value.leaseId !in leases {
        return Err(PermissionDenied);
      }
      var local := leases[lease.value.leaseId];
      if local.profileId != lease.value.profileId || local.fencingToken != lease.value.fencingToken {
        return Err(PermissionDenied);
      }
      if local.expiresAt > 0 && now >= local.expiresAt {
        return Err(PermissionDenied);
      }
      return Ok(lease.value.profileId);
    }

    method CheckLease(leaseId: string, profileId: string, fencingToken: string, now: int) returns (ok: bool)
      ensures ok == Check(leases, leaseId, profileId, fencingToken, now)
    {
      if leaseId == "" || profileId == "" || fencingToken == "" || leaseId !in leases {
        return false;
      }
      var local := leases[leaseId];
      if local.profileId != profileId || local.fencingToken != fencingToken {
        return false;
      }
      return !(local.expiresAt > 0 && now >= local.expiresAt);
    }
  }

  // ---------- agreement ----------

  /** The semantic calls and the raw proxy apply one and the same rule; a context with a missing part is
      told apart from one that is refused. */
  lemma ValidateAgreesWithCheck(m: Installed, c: LeaseContext, now: int)
    ensures Validate(m, Some(c), now) == Ok(c.profileId) <==> Check(m, c.leaseId, c.profileId, c.fencingToken, now)
    ensures Validate(m, Some(c), now).Ok? ==> Validate(m, Some(c), now).value == c.profileId
    ensures Validate(m, Some(c), now) == Err(InvalidArgument) <==>
              c.leaseId == "" || c.profileId == "" || c.fencingToken == ""
    ensures Validate(m, Some(c), now).Err? ==> Validate(m, Some(c), now).error in {InvalidArgument, PermissionDenied}
    ensures Validate(m, None, now) == Err(InvalidArgument)
  {
  }

  /** A sync installs the leases listed and nothing else, each as its last entry has it. */
  lemma {:induction false} MirrorLaw(desired: seq<Lease>, i: nat)
    requires i < |desired| && forall j :: i < j < |desired| ==> desired[j].leaseId != desired[i].leaseId
    ensures desired[i].leaseId in Mirror(desired)
    ensures Mirror(desired)[desired[i].leaseId] ==
            LocalLease(desired[i].profileId, desired[i].fencingToken, desired[i].expiresAt)
    ensures forall id :: id in Mirror(desired) ==> exists l :: l in desired && l.leaseId == id
  {
    LastEntryWins(desired, i);
  }

  lemma {:induction false} LastEntryWins(desired: seq<Lease>, i: nat)
    requires i < |desired| && forall j :: i < j < |desired| ==> desired[j].leaseId != desired[i].leaseId
    ensures desired[i].leaseId in IdsOf(desired) && LastWithId(desired, desired[i].leaseId) == desired[i]
    decreases |desired|
  {
    assert desired[i] in desired;
    if i < |desired| - 1 {
      LastEntryWins(desired[..|desired| - 1], i);
    }
  }

  ghost predicate OnePerProfile(m: Installed) {
    forall a, b :: a in m && b in m && m[a].profileId == m[b].profileId ==> a == b
  }

  ghost predicate ExclusiveList(desired: seq<Lease>) {
    forall a, b :: a in desired && b in desired && a.profileId == b.profileId ==> a.leaseId == b.leaseId
  }

  datatype Act =
    | Installing(context: LeaseContext)
    | Uninstalling(leaseId: string, fencingToken: string)
    | Syncing(desired: seq<Lease>)
    | Restarting

  function Perform(m: Installed, a: Act): Installed {
    match a
    case Installing(c) => Install(m, c)
    case Uninstalling(leaseId, fencingToken) => Uninstall(m, leaseId, fencingToken)
    case Syncing(desired) => Mirror(desired)
    case Restarting => map[]
  }

  function PerformAll(m: Installed, acts: seq<Act>): Installed
    decreases |acts|
  {
    if acts == [] then m else PerformAll(Perform(m, acts[0]), acts[1..])
  }

  lemma ActKeepsOnePerProfile(m: Installed, a: Act)
    requires OnePerProfile(m) && (a.Syncing? ==> ExclusiveList(a.desired))
    ensures OnePerProfile(Perform(m, a))
  {
  }

  /** Whatever mix of installs, uninstalls, restarts and syncs with controller lists an agent
      sees, it accepts at most one credential per profile at any time. */
  lemma {:induction false} OneCredentialPerProfile(m: Installed, acts: seq<Act>)
    requires OnePerProfile(m) && forall i :: 0 <= i < |acts| && acts[i].Syncing? ==> ExclusiveList(acts[i].desired)
    ensures forall now: int, a: string, b: string, profileId: string, x: string, y: string ::
              Check(PerformAll(m, acts), a, profileId, x, now) && Check(PerformAll(m, acts), b, profileId, y, now)
              ==> a == b && x == y
    decreases |acts|
  {
    if acts != [] {
      ActKeepsOnePerProfile(m, acts[0]);
      OneCredentialPerProfile(Perform(m, acts[0]), acts[1..]);
    }
  }

  /** The controller's answer to a sync, in some order. */
  ghost predicate Lists(desired: seq<Lease>, leases: set<Lease>) {
    forall l :: l in desired <==> l in leases
  }

  lemma ControllerListsAreExclusive(s: State, machineId: string, asked: int, desired: seq<Lease>)
    requires Core(s) && Lists(desired, LiveLeases(s, machineId, asked))
    ensures ExclusiveList(desired)
  {
  }

  /** What a sync installs: the leases that were unexpired when it was answered, as they were then. */
  lemma MirrorOfAnswer(s: State, machineId: string, asked: int, desired: seq<Lease>, id: string)
    requires KeysMatch(s) && Lists(desired, LiveLeases(s, machineId, asked))
    ensures id in Mirror(desired) <==>
              id in s.leases && s.leases[id].machineId == machineId && s.leases[id].expiresAt > asked
    ensures id in Mirror(desired) ==> Mirror(desired)[id] == LocalOf(ContextOf(s.leases[id]))
  {
    if id in s.leases && s.leases[id].machineId == machineId && s.leases[id].expiresAt > asked {
      assert s.leases[id] in LiveLeases(s, machineId, asked);
      assert id in IdsOf(desired);
    }
    if id in IdsOf(desired) {
      var l := LastWithId(desired, id);
      assert l in LiveLeases(s, machineId, asked);
    }
  }

  /** A sync applied while the controller has not changed makes the agent accept exactly the
      controller's unexpired leases for its machine. */
  lemma SyncMirrorsController(s: State, machineId: string, asked: int, desired: seq<Lease>, latest: int, now: int,
                              leaseId: string, profileId: string, fencingToken: string)
    requires KeysMatch(s) && LeasedStatus(s) && Leases.Timely(s, latest)
    requires Lists(desired, LiveLeases(s, machineId, asked)) && asked <= now
    ensures Check(Mirror(desired), leaseId, profileId, fencingToken, now) <==>
              && leaseId in s.leases
              && s.leases[leaseId].machineId == machineId
              && s.leases[leaseId].profileId == profileId
              && s.leases[leaseId].fencingToken == fencingToken
              && s.leases[leaseId].expiresAt > now
  {
    MirrorOfAnswer(s, machineId, asked, desired, leaseId);
  }
}

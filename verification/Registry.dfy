/** The controller's in-memory state, the rules that edit it, and the invariant every edit keeps. */
module Registry {
  import opened Options
  import opened Messages
  import opened Strings

  const DEFAULT_LEASE_TTL_SECONDS := 300
  const MAX_LEASE_TTL_SECONDS := 86_400
  const MAX_STORED_EVENTS := 5_000
  const MAX_STORED_METRICS := 5_000

  datatype AccountKey = AccountKey(platform: int, accountId: string)

  datatype MetricKey = MetricKey(
    name: string, bucketStart: int, machineId: string, profileId: string, platform: int,
    domain: string, action: string, statusClass: string, errorClass: string)

  datatype State = State(
    machines: map<string, Machine>,
    profiles: map<string, Profile>,
    bindings: map<AccountKey, Binding>,
    leases: map<string, Lease>,
    metrics: map<MetricKey, MetricPoint>,
    events: seq<Event>,
    artifacts: map<string, Artifact>)

  const EMPTY := State(map[], map[], map[], map[], map[], [], map[])

  // ---------- account keys ----------

  predicate IsKey(k: AccountKey) {
    k.platform != PLATFORM_UNSPECIFIED && k.accountId != ""
  }

  function KeyOf(platform: int, accountId: string): Option<AccountKey> {
    if platform == PLATFORM_UNSPECIFIED || accountId == "" then None
    else Some(AccountKey(platform, accountId))
  }

  predicate IsFor(a: Account, k: AccountKey) {
    a.platform == k.platform && a.accountId == k.accountId
  }

  predicate HasAccount(p: Profile, k: AccountKey) {
    exists a :: a in p.accounts && IsFor(a, k)
  }

  function AccountKeys(p: Profile): set<AccountKey> {
    set a | a in p.accounts && IsKey(AccountKey(a.platform, a.accountId)) :: AccountKey(a.platform, a.accountId)
  }

  function BindingId(platform: int, accountId: string): string {
    Decimal(platform) + ":" + accountId
  }

  function KeyOfPoint(p: MetricPoint): MetricKey {
    MetricKey(p.name, p.bucketStart, p.machineId, p.profileId, p.platform,
              p.domain, p.action, p.statusClass, p.errorClass)
  }

  // ---------- lease deadlines ----------

  /** A request that names no positive time to live gets the default; none exceeds the cap. */
  function ResolveTtl(requested: int): int {
    var ttl := if requested > 0 then requested else DEFAULT_LEASE_TTL_SECONDS;
    if ttl < 1 then 1 else if ttl > MAX_LEASE_TTL_SECONDS then MAX_LEASE_TTL_SECONDS else ttl
  }

  function Deadline(now: int, requested: int): int {
    now + ResolveTtl(requested) * 1000
  }

  // ---------- matching and selection ----------

  predicate LabelsMatch(labels: map<string, string>, selector: map<string, string>) {
    forall key :: key in selector ==> key in labels && labels[key] == selector[key]
  }

  predicate ProfileMatches(p: Profile, platform: int, accountId: string,
                           selector: map<string, string>, includeUnavailable: bool) {
    && (includeUnavailable || p.status == PROFILE_AVAILABLE)
    && LabelsMatch(p.labels, selector)
    && (platform == PLATFORM_UNSPECIFIED || exists a :: a in p.accounts && a.platform == platform)
    && (accountId == "" || exists a :: a in p.accounts && a.accountId == accountId)
  }

  predicate HasLease(s: State, profileId: string) {
    exists id :: id in s.leases && s.leases[id].profileId == profileId
  }

  ghost function ActiveLease(s: State, profileId: string): (r: Option<Lease>)
    ensures r.Some? <==> HasLease(s, profileId)
    ensures r.Some? ==> exists id :: id in s.leases && s.leases[id] == r.value && r.value.profileId == profileId
  {
    if HasLease(s, profileId) then
      var id :| id in s.leases && s.leases[id].profileId == profileId;
      Some(s.leases[id])
    else None
  }

  /** Profiles that an acquire may hand out; `find` over a hash map returns any one of them. */
  ghost predicate Grantable(s: State, id: string, platform: int, accountId: string, selector: map<string, string>) {
    id in s.profiles && !HasLease(s, id) && ProfileMatches(s.profiles[id], platform, accountId, selector, false)
  }

  /** An exact account goes through the binding index; anything else is a scan, of which
      `choice` is the outcome. */
  ghost function SelectForAcquire(s: State, platform: int, accountId: string, selector: map<string, string>,
                                  choice: string): Option<string>
  {
    match KeyOf(platform, accountId)
    case Some(k) =>
      if k in s.bindings && Grantable(s, s.bindings[k].profileId, platform, accountId, selector)
      then Some(s.bindings[k].profileId) else None
    case None =>
      if Grantable(s, choice, platform, accountId, selector) then Some(choice) else None
  }

  /** The scan fails only when nothing can be granted. */
  ghost predicate LegalChoice(s: State, platform: int, accountId: string, selector: map<string, string>,
                              choice: string) {
    KeyOf(platform, accountId).None? && (exists id :: Grantable(s, id, platform, accountId, selector))
    ==> Grantable(s, choice, platform, accountId, selector)
  }

  function FindAccount(accounts: seq<Account>, k: AccountKey): Option<Account> {
    if accounts == [] then None
    else if IsFor(accounts[0], k) then Some(accounts[0])
    else FindAccount(accounts[1..], k)
  }

  function AddressOf(s: State, machineId: string): string {
    if machineId in s.machines then s.machines[machineId].agentGrpcAddr else ""
  }

  /** A stored binding is a snapshot; readers see it refreshed from the live profile. */
  function LiveBinding(s: State, b: Binding): Option<Binding> {
    if b.profileId !in s.profiles then None
    else
      var p := s.profiles[b.profileId];
      var account := FindAccount(p.accounts, AccountKey(b.platform, b.accountId));
      Some(Binding(
             b.bindingId, p.profileId, p.machineId, b.platform, b.accountId,
             if account.Some? then account.value.handle else b.handle,
             if account.Some? then account.value.health else b.accountHealth,
             p.status, AddressOf(s, p.machineId), p.cdpUrl, p.lastSeen))
  }

  function SelectForLookup(s: State, platform: int, accountId: string, selector: map<string, string>,
                           includeUnavailable: bool): Option<Binding> {
    match KeyOf(platform, accountId)
    case None => None
    case Some(k) =>
      if k !in s.bindings then None
      else match LiveBinding(s, s.bindings[k])
        case None => None
        case Some(b) =>
          if b.profileId in s.profiles
              && ProfileMatches(s.profiles[b.profileId], platform, accountId, selector, includeUnavailable)
          then Some(b) else None
  }

  // ---------- reclaiming leases ----------

  ghost predicate Frees(s: State, ids: set<string>, profileId: string) {
    exists id :: id in ids && id in s.leases && s.leases[id].profileId == profileId
  }

  /** Drops the leases in `ids` and makes their profiles available, if those are still Leased. */
  ghost function Reclaim(s: State, ids: set<string>): State {
    s.(leases := map id | id in s.leases && id !in ids :: s.leases[id],
       profiles := map id | id in s.profiles ::
         if s.profiles[id].status == PROFILE_LEASED && Frees(s, ids, id)
         then s.profiles[id].(status := PROFILE_AVAILABLE) else s.profiles[id])
  }

  ghost function ExpiredIds(s: State, now: int): set<string> {
    set id | id in s.leases && s.leases[id].expiresAt <= now
  }

  ghost function Expire(s: State, now: int): State {
    Reclaim(s, ExpiredIds(s, now))
  }

  /** Online machines whose last heartbeat is older than the threshold go Offline. */
  function MarkOffline(machines: map<string, Machine>, now: int, offlineAfter: int): map<string, Machine> {
    map id | id in machines ::
      if machines[id].status == MACHINE_ONLINE && machines[id].lastHeartbeat > 0
         && now - machines[id].lastHeartbeat > offlineAfter
      then machines[id].(status := MACHINE_OFFLINE) else machines[id]
  }

  ghost predicate OnOffline(machines: map<string, Machine>, machineId: string) {
    exists id :: id in machines && machines[id].status == MACHINE_OFFLINE && machines[id].machineId == machineId
  }

  ghost function DoomedIds(s: State, now: int): set<string> {
    set id | id in s.leases && (s.leases[id].expiresAt <= now || OnOffline(s.machines, s.leases[id].machineId))
  }

  ghost function Sweep(s: State, now: int, offlineAfter: int): State {
    var marked := s.(machines := MarkOffline(s.machines, now, offlineAfter));
    Reclaim(marked, DoomedIds(marked, now))
  }

  // ---------- profile registration ----------

  /** Statuses that only an operator or the controller may clear. */
  predicate OperatorOwned(status: int) {
    status == PROFILE_QUARANTINED || status == PROFILE_BROKEN || status == PROFILE_LAUNCHING
  }

  /** The record stored for a report: who owns it, which status wins, when it was seen. */
  ghost function Reported(s: State, p: Profile, machineId: string, now: int): Profile {
    var reported := if p.status == PROFILE_UNSPECIFIED then PROFILE_AVAILABLE else p.status;
    p.(machineId := machineId,
       status :=
         if p.profileId in s.profiles && OperatorOwned(s.profiles[p.profileId].status)
             then s.profiles[p.profileId].status
         else if HasLease(s, p.profileId) then PROFILE_LEASED
         else reported,
       lastSeen := if p.lastSeen == 0 then now else p.lastSeen)
  }

  /** The last account for `k`: a later duplicate overwrites an earlier one in the index. */
  function LastAccount(accounts: seq<Account>, k: AccountKey): Account
    requires exists a :: a in accounts && IsFor(a, k)
  {
    if IsFor(accounts[|accounts| - 1], k) then accounts[|accounts| - 1] else LastAccount(accounts[..|accounts| - 1], k)
  }

  function NewBinding(s: State, p: Profile, a: Account): Binding {
    Binding(BindingId(a.platform, a.accountId), p.profileId, p.machineId, a.platform, a.accountId,
            a.handle, a.health, p.status, AddressOf(s, p.machineId), p.cdpUrl, p.lastSeen)
  }

  ghost predicate Conflicts(s: State, p: Profile) {
    exists k :: k in AccountKeys(p) && k in s.bindings && s.bindings[k].profileId != p.profileId
  }

  /** The index after `p` is stored: its old entries go, one entry per reported account comes. */
  ghost function Reindexed(s: State, p: Profile): map<AccountKey, Binding> {
    map k | k in s.bindings.Keys + AccountKeys(p) && (k in AccountKeys(p) || s.bindings[k].profileId != p.profileId) ::
      if k in AccountKeys(p) then NewBinding(s, p, LastAccount(p.accounts, k)) else s.bindings[k]
  }

  ghost function Stored(s: State, p: Profile): State {
    s.(bindings := Reindexed(s, p), profiles := s.profiles[p.profileId := p])
  }

  ghost function Upsert(s: State, p: Profile, machineId: string, now: int): Result<State, Code> {
    if p.profileId == "" then Err(InvalidArgument)
    else if p.machineId != "" && p.machineId != machineId then Err(InvalidArgument)
    else
      var stored := Reported(s, p, machineId, now);
      if Conflicts(s, stored) then Err(AlreadyExists) else Ok(Stored(s, stored))
  }

  ghost function UpsertAll(s: State, profiles: seq<Profile>, machineId: string, now: int): Result<State, Code>
    decreases |profiles|
  {
    if profiles == [] then Ok(s)
    else match Upsert(s, profiles[0], machineId, now)
      case Err(code) => Err(code)
      case Ok(next) => UpsertAll(next, profiles[1..], machineId, now)
  }

  // ---------- the invariant ----------

  ghost predicate KeysMatch(s: State) {
    && (forall id :: id in s.machines ==> s.machines[id].machineId == id)
    && (forall id :: id in s.profiles ==> s.profiles[id].profileId == id && id != "")
    && (forall id :: id in s.leases ==> s.leases[id].leaseId == id)
  }

  /** No profile is held by two leases. */
  ghost predicate Exclusive(s: State) {
    forall a, b :: a in s.leases && b in s.leases && s.leases[a].profileId == s.leases[b].profileId ==> a == b
  }

  ghost predicate LeasedStatus(s: State) {
    forall id :: id in s.leases ==>
      s.leases[id].profileId in s.profiles && s.profiles[s.leases[id].profileId].status == PROFILE_LEASED
  }

  /** Every profile and every lease sits on a registered machine. */
  ghost predicate Housed(s: State) {
    && (forall id :: id in s.profiles ==> s.profiles[id].machineId in s.machines)
    && (forall id :: id in s.leases ==> s.leases[id].machineId in s.machines)
  }

  /** The binding index is exactly the inverse of the profiles' account lists. */
  ghost predicate Indexed(s: State) {
    && (forall k :: k in s.bindings ==>
          && IsKey(k) && s.bindings[k].platform == k.platform && s.bindings[k].accountId == k.accountId
          && s.bindings[k].profileId in s.profiles)
    && (forall k, id :: IsKey(k) && id in s.profiles ==>
          (HasAccount(s.profiles[id], k) <==> k in s.bindings && s.bindings[k].profileId == id))
  }

  /** Binding ids spell their keys; only the store depends on this, so it stands beside `Inv`. */
  ghost predicate Labelled(s: State) {
    forall k :: k in s.bindings ==> s.bindings[k].bindingId == BindingId(k.platform, k.accountId)
  }

  /** Telemetry and artifacts are keyed by their own records and stay within their limits. */
  ghost predicate Stocked(s: State) {
    && (forall k :: k in s.metrics ==> KeyOfPoint(s.metrics[k]) == k)
    && (forall id :: id in s.artifacts ==> s.artifacts[id].artifactId == id)
    && |s.metrics| <= MAX_STORED_METRICS && |s.events| <= MAX_STORED_EVENTS
  }

  ghost predicate Core(s: State) {
    KeysMatch(s) && Exclusive(s) && LeasedStatus(s) && Housed(s) && Indexed(s)
  }

  ghost predicate Inv(s: State) {
    Core(s) && Stocked(s)
  }
}

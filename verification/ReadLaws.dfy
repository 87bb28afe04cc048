/** What lookups and listings answer, field by field. */
module ReadLaws {
  import opened Options
  import opened Messages
  import opened Strings
  import opened Registry
  import opened Operations
  import opened LeaseLaws
  import Invariants

  /** A read writes exactly when something has expired, and then only that. */
  ghost predicate ReadOnly(s: State, o: Outcome, now: int) {
    && o.answer.Done?
    && (o.Commit? <==> exists l :: l in s.leases && s.leases[l].expiresAt <= now)
    && (o.Commit? ==> Kept(s, o.state, now, {}, {}))
  }

  lemma SettleLaw(s: State, now: int, response: Response)
    ensures ReadOnly(s, Settle(s, now, Done(response)), now) == true
    ensures Settle(s, now, Done(response)).answer == Done(response)
  {
    ExpiryLaw(s, now);
  }

  predicate HasLabels(p: Profile, selector: map<string, string>) {
    forall key :: key in selector ==> key in p.labels && p.labels[key] == selector[key]
  }

  /** The profile lists one account with this platform and id. */
  predicate Lists(p: Profile, platform: int, accountId: string) {
    exists a :: a in p.accounts && a.platform == platform && a.accountId == accountId
  }

  // ---------- listing profiles ----------

  ghost predicate Shown(s: State, id: string, platform: int, accountId: string, selector: map<string, string>,
                        all: bool, now: int) {
    && id in s.profiles && HasLabels(s.profiles[id], selector)
    && (all || Caught(s, id, now).status == PROFILE_AVAILABLE)
    && (platform == PLATFORM_UNSPECIFIED || exists a :: a in s.profiles[id].accounts && a.platform == platform)
    && (accountId == "" || exists a :: a in s.profiles[id].accounts && a.accountId == accountId)
  }

  lemma MatchingIsShown(s: State, id: string, platform: int, accountId: string, selector: map<string, string>,
                        all: bool, now: int)
    requires id in s.profiles
    ensures ProfileMatches(Caught(s, id, now), platform, accountId, selector, all) <==>
              Shown(s, id, platform, accountId, selector, all, now)
  {
  }

  lemma ListProfilesLaw(s: State, platform: int, accountId: string, selector: map<string, string>, all: bool, now: int)
    ensures var o := Handle(s, ListProfiles(platform, accountId, selector, all), now);
            && ReadOnly(s, o, now) && o.answer.response.Profiles?
            && (forall id :: Shown(s, id, platform, accountId, selector, all, now) ==>
                  Caught(s, id, now) in o.answer.response.profiles)
            && (forall p :: p in o.answer.response.profiles ==>
                  exists id :: Shown(s, id, platform, accountId, selector, all, now) && p == Caught(s, id, now))
  {
    var x := Expire(s, now);
    ExpiryLaw(s, now);
    SettleLaw(s, now, Profiles(MatchingProfiles(x, platform, accountId, selector, all)));
    forall id | id in s.profiles
      ensures x.profiles[id] == Caught(s, id, now)
      ensures ProfileMatches(x.profiles[id], platform, accountId, selector, all) <==>
                Shown(s, id, platform, accountId, selector, all, now)
    {
      MatchingIsShown(s, id, platform, accountId, selector, all, now);
    }
    MatchingLaw(s, x, platform, accountId, selector, all, now);
  }

  lemma MatchingLaw(s: State, x: State, platform: int, accountId: string, selector: map<string, string>, all: bool,
                    now: int)
    requires x.profiles.Keys == s.profiles.Keys
    requires forall id :: id in s.profiles ==>
               && x.profiles[id] == Caught(s, id, now)
               && (ProfileMatches(x.profiles[id], platform, accountId, selector, all) <==>
                     Shown(s, id, platform, accountId, selector, all, now))
    ensures var found := MatchingProfiles(x, platform, accountId, selector, all);
            && (forall id :: Shown(s, id, platform, accountId, selector, all, now) ==> Caught(s, id, now) in found)
            && (forall p :: p in found ==>
                  exists id :: Shown(s, id, platform, accountId, selector, all, now) && p == Caught(s, id, now))
  {
  }

  // ---------- one account's binding, as readers see it ----------

  predicate FirstFor(accounts: seq<Account>, i: int, platform: int, accountId: string) {
    && 0 <= i < |accounts| && accounts[i].platform == platform && accounts[i].accountId == accountId
    && forall j :: 0 <= j < i ==> accounts[j].platform != platform || accounts[j].accountId != accountId
  }

  /** The binding shows the profile as it is now: its machine and address, status, browser and the
      handle and health of the account itself. */
  ghost predicate Shows(s: State, id: string, platform: int, accountId: string, now: int, b: Binding)
    requires id in s.profiles
  {
    var p := Caught(s, id, now);
    && b.bindingId == Decimal(platform) + ":" + accountId
    && b.profileId == p.profileId && b.machineId == p.machineId && b.platform == platform && b.accountId == accountId
    && b.profileStatus == p.status && b.cdpUrl == p.cdpUrl && b.lastSeen == p.lastSeen
    && b.agentGrpcAddr == (if p.machineId in s.machines then s.machines[p.machineId].agentGrpcAddr else "")
    && forall i :: FirstFor(p.accounts, i, platform, accountId) ==>
         b.handle == p.accounts[i].handle && b.accountHealth == p.accounts[i].health
  }

  lemma {:induction false} FindsFirst(accounts: seq<Account>, i: int, k: AccountKey)
    requires FirstFor(accounts, i, k.platform, k.accountId)
    ensures FindAccount(accounts, k) == Some(accounts[i])
    decreases i
  {
    if i > 0 {
      assert forall j :: 0 <= j < i - 1 ==> accounts[1..][j] == accounts[j + 1];
      FindsFirst(accounts[1..], i - 1, k);
    }
  }

  lemma LiveBindingShows(s: State, k: AccountKey, now: int)
    requires Core(s) && Labelled(s) && k in s.bindings
    ensures var id := s.bindings[k].profileId;
            && id in s.profiles && LiveBinding(Expire(s, now), s.bindings[k]).Some?
            && Shows(s, id, k.platform, k.accountId, now, LiveBinding(Expire(s, now), s.bindings[k]).value)
  {
    ExpiryLaw(s, now);
    var id := s.bindings[k].profileId;
    var p := Caught(s, id, now);
    forall i | FirstFor(p.accounts, i, k.platform, k.accountId)
      ensures FindAccount(p.accounts, k) == Some(p.accounts[i])
    {
      FindsFirst(p.accounts, i, k);
    }
  }

  lemma ListedIsBound(s: State, id: string, k: AccountKey)
    requires Indexed(s) && IsKey(k) && id in s.profiles
    ensures Lists(s.profiles[id], k.platform, k.accountId) <==> k in s.bindings && s.bindings[k].profileId == id
  {
    assert HasAccount(s.profiles[id], k) <==> k in s.bindings && s.bindings[k].profileId == id;
  }

  // ---------- lookups ----------

  ghost predicate Found(s: State, id: string, platform: int, accountId: string, selector: map<string, string>,
                        all: bool, now: int) {
    && id in s.profiles && Lists(s.profiles[id], platform, accountId) && HasLabels(s.profiles[id], selector)
    && (all || Caught(s, id, now).status == PROFILE_AVAILABLE)
  }

  /** The connection described: the binding as it is now, the lease that is active if there is one, and
      whether an acquire would do. */
  ghost predicate Described(s: State, id: string, platform: int, accountId: string, now: int, r: Response)
    requires id in s.profiles
  {
    && r.Connection? && Shows(s, id, platform, accountId, now, r.binding)
    && (if exists l :: HoldsNow(s, l, id, now) then HoldsNow(s, r.activeLeaseId, id, now)
                                                    && r.activeLeaseExpiresAt == s.leases[r.activeLeaseId].expiresAt
        else r.activeLeaseId == "" && r.activeLeaseExpiresAt == 0)
    && r.available == (Caught(s, id, now).status == PROFILE_AVAILABLE)
    && r.readiness == if r.available then ReadyToAcquire
                      else if exists l :: HoldsNow(s, l, id, now) then HeldByClient else NotReady
  }

  ghost predicate HoldsNow(s: State, l: string, id: string, now: int) {
    Live(s, l, now) && s.leases[l].profileId == id
  }

  lemma ActiveAfterExpiry(s: State, id: string, now: int)
    requires KeysMatch(s)
    ensures var active := ActiveLease(Expire(s, now), id);
            && (active.Some? <==> exists l :: HoldsNow(s, l, id, now))
            && (active.Some? ==>
                  HoldsNow(s, active.value.leaseId, id, now) && active.value == s.leases[active.value.leaseId])
  {
    ExpiryLaw(s, now);
    HeldAfterExpiry(s, id, now);
    var x := Expire(s, now);
    if HasLease(x, id) {
      var l :| l in x.leases && x.leases[l].profileId == id;
      assert HoldsNow(s, l, id, now);
    }
    if l :| HoldsNow(s, l, id, now) {
      assert l in s.leases && s.leases[l].profileId == id && now < s.leases[l].expiresAt;
    }
  }

  lemma DescriptionLaw(s: State, k: AccountKey, now: int)
    requires Core(s) && Labelled(s) && k in s.bindings
    ensures var id := s.bindings[k].profileId;
            && LiveBinding(Expire(s, now), s.bindings[k]).Some? && id in s.profiles
            && Described(s, id, k.platform, k.accountId, now,
                         Describe(Expire(s, now), LiveBinding(Expire(s, now), s.bindings[k]).value)) == true
  {
    var id := s.bindings[k].profileId;
    LiveBindingShows(s, k, now);
    ActiveAfterExpiry(s, id, now);
  }

  lemma FoundIsSelected(s: State, platform: int, accountId: string, selector: map<string, string>, all: bool, now: int,
                        id: string)
    requires Core(s) && Labelled(s) && platform != PLATFORM_UNSPECIFIED && accountId != ""
    requires AccountKey(platform, accountId) in s.bindings
             && s.bindings[AccountKey(platform, accountId)].profileId == id
    ensures var k := AccountKey(platform, accountId);
            var x := Expire(s, now);
            && LiveBinding(x, s.bindings[k]).Some?
            && SelectForLookup(x, platform, accountId, selector, all) ==
               if Found(s, id, platform, accountId, selector, all, now) then LiveBinding(x, s.bindings[k]) else None
  {
    var k := AccountKey(platform, accountId);
    LiveBindingShows(s, k, now);
    ListedIsBound(s, id, k);
    ExpiryLaw(s, now);
    MatchingIsShown(s, id, platform, accountId, selector, all, now);
  }

  lemma FoundIsBound(s: State, platform: int, accountId: string, selector: map<string, string>, all: bool, now: int,
                     id: string)
    requires Core(s) && platform != PLATFORM_UNSPECIFIED && accountId != ""
    requires Found(s, id, platform, accountId, selector, all, now)
    ensures AccountKey(platform, accountId) in s.bindings && s.bindings[AccountKey(platform, accountId)].profileId == id
  {
    ListedIsBound(s, id, AccountKey(platform, accountId));
  }

  /** A lookup answers for the one profile that lists the account, if it has the labels and may be
      shown, and says truly whether and by whom it is held. */
  lemma LookupLaw(s: State, platform: int, accountId: string, selector: map<string, string>, all: bool, now: int)
    requires Core(s) && Labelled(s)
    ensures var o := HandleLookup(s, platform, accountId, selector, all, now);
            if platform == PLATFORM_UNSPECIFIED || accountId == "" then o == Keep(Done(Failed(InvalidArgument)))
            else
              && ReadOnly(s, o, now)
              && ((forall id :: !Found(s, id, platform, accountId, selector, all, now)) ==>
                  o.answer.response == Failed(NotFound))
              && (forall id :: Found(s, id, platform, accountId, selector, all, now) ==>
                    Described(s, id, platform, accountId, now, o.answer.response))
  {
    if platform != PLATFORM_UNSPECIFIED && accountId != "" {
      var x, k := Expire(s, now), AccountKey(platform, accountId);
      SettleLaw(s, now, Failed(NotFound));
      forall id | Found(s, id, platform, accountId, selector, all, now)
        ensures k in s.bindings && s.bindings[k].profileId == id
      {
        FoundIsBound(s, platform, accountId, selector, all, now, id);
      }
      if k in s.bindings {
        FoundIsSelected(s, platform, accountId, selector, all, now, s.bindings[k].profileId);
        DescriptionLaw(s, k, now);
        SettleLaw(s, now, Describe(x, LiveBinding(x, s.bindings[k]).value));
      }
    }
  }

  // ---------- listing bindings ----------

  /** The account is valid, and the profile lists it. */
  ghost predicate Bound(s: State, id: string, platform: int, accountId: string) {
    platform != PLATFORM_UNSPECIFIED && accountId != "" &&
    id in s.profiles && Lists(s.profiles[id], platform, accountId)
  }

  predicate Passes(b: Binding, platform: int, accountId: string, machineId: string, profileId: string, all: bool) {
    && (all || b.profileStatus == PROFILE_AVAILABLE)
    && (platform != PLATFORM_UNSPECIFIED ==> b.platform == platform) && (accountId != "" ==> b.accountId == accountId)
    && (machineId != "" ==> b.machineId == machineId) && (profileId != "" ==> b.profileId == profileId)
  }

  lemma BoundIsKey(s: State, k: AccountKey)
    requires Core(s) && k in s.bindings
    ensures Bound(s, s.bindings[k].profileId, k.platform, k.accountId)
  {
    ListedIsBound(s, s.bindings[k].profileId, k);
  }

  ghost predicate IsShown(s: State, b: Binding, now: int) {
    exists id :: Bound(s, id, b.platform, b.accountId) && Shows(s, id, b.platform, b.accountId, now, b)
  }

  lemma FoundIsShown(s: State, b: Binding, platform: int, accountId: string, machineId: string, profileId: string,
                     all: bool, now: int)
    requires Core(s) && Labelled(s)
    requires b in MatchingBindings(Expire(s, now), platform, accountId, machineId, profileId, all)
    ensures IsShown(s, b, now) && Passes(b, platform, accountId, machineId, profileId, all)
  {
    var x := Expire(s, now);
    ExpiryLaw(s, now);
    var k :| k in x.bindings && LiveBinding(x, x.bindings[k]).Some? && LiveBinding(x, x.bindings[k]).value == b
             && BindingMatches(b, platform, accountId, machineId, profileId, all);
    LiveBindingShows(s, k, now);
    BoundIsKey(s, k);
  }

  /** The listing holds exactly what the accounts of all profiles show, as far as it passes the filters. */
  lemma ListBindingsLaw(s: State, platform: int, accountId: string, machineId: string, profileId: string, all: bool,
                        now: int)
    requires Core(s) && Labelled(s)
    ensures var o := Handle(s, ListBindings(platform, accountId, machineId, profileId, all), now);
            && ReadOnly(s, o, now) && o.answer.response.Bindings?
            && (forall b :: b in o.answer.response.bindings ==>
                  IsShown(s, b, now) && Passes(b, platform, accountId, machineId, profileId, all))
            && (forall id, otherPlatform, account :: Bound(s, id, otherPlatform, account) ==>
                  Listing(s, id, otherPlatform, account, now, o.answer.response.bindings,
                          platform, accountId, machineId, profileId, all))
  {
    var x := Expire(s, now);
    var found := MatchingBindings(x, platform, accountId, machineId, profileId, all);
    SettleLaw(s, now, Bindings(found));
    ExpiryLaw(s, now);
    forall b | b in found
      ensures IsShown(s, b, now) && Passes(b, platform, accountId, machineId, profileId, all)
    {
      FoundIsShown(s, b, platform, accountId, machineId, profileId, all, now);
    }
    forall id, otherPlatform, account | Bound(s, id, otherPlatform, account)
      ensures Listing(s, id, otherPlatform, account, now, found, platform, accountId, machineId, profileId, all)
    {
      BoundIsListed(s, id, AccountKey(otherPlatform, account), now, platform, accountId, machineId, profileId, all);
    }
  }

  /** The account's binding, as it shows, is listed if and only if it passes. */
  ghost predicate Listing(s: State, id: string, otherPlatform: int, account: string, now: int, found: set<Binding>,
                          platform: int, accountId: string, machineId: string, profileId: string, all: bool)
    requires id in s.profiles
  {
    exists b :: Shows(s, id, otherPlatform, account, now, b)
                && (b in found <==> Passes(b, platform, accountId, machineId, profileId, all))
  }

  lemma BoundIsListed(s: State, id: string, k: AccountKey, now: int, platform: int, accountId: string,
                      machineId: string, profileId: string, all: bool)
    requires Core(s) && Labelled(s) && Bound(s, id, k.platform, k.accountId)
    ensures Listing(s, id, k.platform, k.accountId, now,
                    MatchingBindings(Expire(s, now), platform, accountId, machineId, profileId, all),
                    platform, accountId, machineId, profileId, all)
  {
    ExpiryLaw(s, now);
    ListedIsBound(s, id, k);
    LiveBindingShows(s, k, now);
    var x := Expire(s, now);
    var b := LiveBinding(x, x.bindings[k]).value;
    assert BindingMatches(b, platform, accountId, machineId, profileId, all) <==>
             Passes(b, platform, accountId, machineId, profileId, all);
    if b in MatchingBindings(x, platform, accountId, machineId, profileId, all) {
      assert BindingMatches(b, platform, accountId, machineId, profileId, all);
    }
  }
}

/** Browser operations over a cached connection: the script runner's restart loop and the
    reconnecting operations. Dialling a browser and running one step are oracles. */
module ScriptRunner {
  import opened Options
  import opened Strings

  datatype PwrightError =
    | ProfileNotFound(profileId: string)
    | Unhealthy(profileId: string, message: string)
    | OperationFailed(profileId: string, message: string)

  predicate Contains(s: string, phrase: string) {
    phrase <= s || (s != "" && Contains(s[1..], phrase))
  }

  predicate IsConnectionClosed(e: PwrightError) {
    e.OperationFailed? &&
    var message := AsciiLower(e.message);
    || Contains(message, "connection closed")
    || Contains(message, "connection reset")
    || Contains(message, "reset without closing handshake")
    || Contains(message, "closing handshake")
    || Contains(message, "broken pipe")
  }

  /** What the browsers do: whether the n-th dial succeeds, and what step i of a script gives
      on a page of connection n. */
  datatype World = World(dial: nat -> Result<(), PwrightError>, step: (nat, nat) -> Result<string, PwrightError>)

  datatype Line =
    | Success(step: nat, action: string, result: string)
    | Failure(step: nat, action: string, error: PwrightError)
    | ScriptComplete(steps: nat)

  /** What a run did to the browser. */
  datatype Deed = Ran(connection: nat, step: nat) | Evicted

  /** The gateway's state as a value: connections are numbered in the order they were dialled. */
  datatype Cache = Cache(profiles: set<string>, active: map<string, nat>, dials: nat)

  ghost predicate ValidCache(c: Cache) {
    forall id :: id in c.active ==> c.active[id] < c.dials
  }

  function Page(c: Cache, id: string, w: World): (Cache, Result<nat, PwrightError>) {
    if id !in c.profiles then (c, Err(ProfileNotFound(id)))
    else if id in c.active then (c, Ok(c.active[id]))
    else match w.dial(c.dials)
      case Ok(_) => (c.(active := c.active[id := c.dials], dials := c.dials + 1), Ok(c.dials))
      case Err(e) => (c.(dials := c.dials + 1), Err(e))
  }

  function Evict(c: Cache, id: string): Cache {
    c.(active := c.active - {id})
  }

  // ---------- what a script run amounts to ----------

  /** The lines of one pass over the steps from `i` on: it ends at the first failing step. */
  function Pass(connection: nat, actions: seq<string>, i: nat, w: World): seq<Line>
    requires i <= |actions|
    decreases |actions| - i
  {
    if i == |actions| then [ScriptComplete(|actions|)]
    else match w.step(connection, i)
      case Ok(value) => [Success(i, actions[i], value)] + Pass(connection, actions, i + 1, w)
      case Err(e) => [Failure(i, actions[i], e)]
  }

  function PassDeeds(connection: nat, actions: seq<string>, i: nat, w: World): seq<Deed>
    requires i <= |actions|
    decreases |actions| - i
  {
    if i == |actions| then []
    else [Ran(connection, i)] + if w.step(connection, i).Ok? then PassDeeds(connection, actions, i + 1, w) else []
  }

  /** The first thing done on this connection fails as if its transport had dropped. */
  predicate Dropped(connection: nat, w: World) {
    w.step(connection, 0).Err? && IsConnectionClosed(w.step(connection, 0).error)
  }

  predicate Stale(connection: nat, actions: seq<string>, w: World) {
    actions != [] && Dropped(connection, w)
  }

  datatype ScriptRun = ScriptRun(cache: Cache, result: Result<seq<Line>, PwrightError>, deeds: seq<Deed>)

  function PassOn(c: Cache, page: Result<nat, PwrightError>, actions: seq<string>, w: World,
                  before: seq<Deed>): ScriptRun {
    match page
    case Err(e) => ScriptRun(c, Err(e), before)
    case Ok(connection) => ScriptRun(c, Ok(Pass(connection, actions, 0, w)),
                                     before + PassDeeds(connection, actions, 0, w))
  }

  function Script(c: Cache, id: string, parsed: Result<seq<string>, string>, w: World): ScriptRun {
    match parsed
    case Err(message) => ScriptRun(c, Err(OperationFailed(id, message)), [])
    case Ok(actions) =>
      var (c', page) := Page(c, id, w);
      if page.Ok? && Stale(page.value, actions, w) then
        var (renewed, redialled) := Page(Evict(c', id), id, w);
        PassOn(renewed, redialled, actions, w, [Ran(page.value, 0), Evicted])
      else PassOn(c', page, actions, w, [])
  }

  function Operation(c: Cache, id: string, w: World): (Cache, Result<string, PwrightError>) {
    var (c', page) := Page(c, id, w);
    match page
    case Err(e) => (c', Err(e))
    case Ok(connection) =>
      if !Dropped(connection, w) then (c', w.step(connection, 0))
      else
        var (renewed, redialled) := Page(Evict(c', id), id, w);
        match redialled
        case Err(e) => (renewed, Err(e))
        case Ok(next) => (renewed, w.step(next, 0))
  }

  /** The first `i` steps gave these lines and deeds, and the pass went on after them. */
  ghost predicate Passed(connection: nat, actions: seq<string>, i: nat, w: World, lines: seq<Line>, deeds: seq<Deed>)
    requires i <= |actions|
  {
    && Pass(connection, actions, 0, w) == lines + Pass(connection, actions, i, w)
    && PassDeeds(connection, actions, 0, w) == deeds + PassDeeds(connection, actions, i, w)
  }

  lemma Reassociate<T>(a: seq<T>, x: T, b: seq<T>)
    ensures a + ([x] + b) == a + [x] + b
  {
  }

  lemma PassedOneMore(connection: nat, actions: seq<string>, i: nat, w: World, lines: seq<Line>, deeds: seq<Deed>)
    requires i < |actions| && Passed(connection, actions, i, w, lines, deeds)
    ensures match w.step(connection, i)
            case Ok(value) =>
              Passed(connection, actions, i + 1, w, lines + [Success(i, actions[i], value)],
                     deeds + [Ran(connection, i)])
            case Err(e) =>
              && Pass(connection, actions, 0, w) == lines + [Failure(i, actions[i], e)]
              && PassDeeds(connection, actions, 0, w) == deeds + [Ran(connection, i)]
  {
    match w.step(connection, i)
    case Ok(value) =>
      Reassociate(lines, Success(i, actions[i], value), Pass(connection, actions, i + 1, w));
      Reassociate(deeds, Ran(connection, i), PassDeeds(connection, actions, i + 1, w));
    case Err(_) =>
  }

  class RealPwrightGateway {
    var profiles: set<string>
    var active: map<string, nat>
    var dials: nat

    function State(): Cache
      reads this
    {
      Cache(profiles, active, dials)
    }

    method PageForProfile(id: string, w: World) returns (page: Result<nat, PwrightError>)
      modifies this
      ensures (State(), page) == Page(old(State()), id, w)
    {
      if id !in profiles {
        return Err(ProfileNotFound(id));
      }
      if id !in active {
        var dialled := w.dial(dials);
        dials := dials + 1;
        if dialled.Err? {
          return Err(dialled.error);
        }
        active := active[id := dials - 1];
      }
      return Ok(active[id]);
    }

    method EvictProfile(id: string)
      modifies this
      ensures State() == Evict(old(State()), id)
    {
      active := active - {id};
    }

    /** One pass over the script; `restart` asks for another on a fresh connection. */
    method RunPass(connection: nat, actions: seq<string>, reconnected: bool, w: World)
      returns (lines: seq<Line>, restart: bool, deeds: seq<Deed>)
      ensures restart == (!reconnected && Stale(connection, actions, w))
      ensures restart ==> deeds == [Ran(connection, 0)]
      ensures !restart ==> (lines, deeds) == (Pass(connection, actions, 0, w), PassDeeds(connection, actions, 0, w))
    {
      lines, restart, deeds := [], false, [];
      var index := 0;
      while index < |actions|
        invariant index <= |actions|
        invariant index > 0 ==> !Stale(connection, actions, w)
        invariant Passed(connection, actions, index, w, lines, deeds)
      {
        match w.step(connection, index) {
          case Ok(value) =>
            PassedOneMore(connection, actions, index, w, lines, deeds);
            lines := lines + [Success(index, actions[index], value)];
          case Err(e) =>
            if index == 0 && !reconnected && IsConnectionClosed(e) {
              return [], true, [Ran(connection, index)];
            }
            PassedOneMore(connection, actions, index, w, lines, deeds);
            return lines + [Failure(index, actions[index], e)], false, deeds + [Ran(connection, index)];
        }
        deeds := deeds + [Ran(connection, index)];
        index := index + 1;
      }
      assert deeds + [] == deeds;
      lines := lines + [ScriptComplete(|actions|)];
    }

    method RunScript(id: string, parsed: Result<seq<string>, string>, w: World)
      returns (result: Result<seq<Line>, PwrightError>, deeds: seq<Deed>)
      modifies this
      ensures ScriptRun(State(), result, deeds) == Script(old(State()), id, parsed, w)
    {
      if parsed.Err? {
        return Err(OperationFailed(id, parsed.error)), [];
      }
      var reconnected := false;
      deeds := [];
      ghost var stale: nat := 0;
      while true
        invariant reconnected ==>
          && Page(old(State()), id, w).1 == Ok(stale) && Stale(stale, parsed.value, w)
          && State() == Evict(Page(old(State()), id, w).0, id) && deeds == [Ran(stale, 0), Evicted]
        invariant !reconnected ==> State() == old(State()) && deeds == []
        decreases !reconnected
      {
        var page := PageForProfile(id, w);
        if page.Err? {
          return Err(page.error), deeds;
        }
        var lines, restart, done := RunPass(page.value, parsed.value, reconnected, w);
        deeds := deeds + done;
        if !restart {
          return Ok(lines), deeds;
        }
        stale := page.value;
        reconnected := true;
        EvictProfile(id);
        deeds := deeds + [Evicted];
      }
    }

    method WithReconnect(id: string, w: World) returns (result: Result<string, PwrightError>)
      modifies this
      ensures (State(), result) == Operation(old(State()), id, w)
    {
      var page := PageForProfile(id, w);
      if page.Err? {
        return Err(page.error);
      }
      result := w.step(page.value, 0);
      if result.Err? && IsConnectionClosed(result.error) {
        EvictProfile(id);
        page := PageForProfile(id, w);
        if page.Err? {
          return Err(page.error);
        }
        result := w.step(page.value, 0);
      }
    }
  }

  // ---------- dropped transports ----------

  ghost predicate Holds(s: string, phrase: string) {
    exists a, b :: s == a + phrase + b
  }

  lemma {:induction false} ContainsLaw(s: string, phrase: string)
    ensures Contains(s, phrase) <==> Holds(s, phrase)
  {
    if Contains(s, phrase) {
      var a, b := Occurrence(s, phrase);
    }
    forall a, b | s == a + phrase + b
      ensures Contains(s, phrase)
    {
      Occurs(a, phrase, b);
    }
  }

  lemma {:induction false} Occurrence(s: string, phrase: string) returns (a: string, b: string)
    requires Contains(s, phrase)
    ensures s == a + phrase + b
  {
    if phrase <= s {
      a, b := "", s[|phrase|..];
    } else {
      a, b := Occurrence(s[1..], phrase);
      a := [s[0]] + a;
    }
  }

  lemma {:induction false} Occurs(a: string, phrase: string, b: string)
    ensures Contains(a + phrase + b, phrase)
  {
    if a == "" {
      assert a + phrase + b == phrase + b;
    } else {
      assert (a + phrase + b)[1..] == a[1..] + phrase + b;
      Occurs(a[1..], phrase, b);
    }
  }

  /** Exactly the failed operations whose message holds one of these phrases, in any case, look like a
      dropped transport. */
  lemma ConnectionClosedLaw(e: PwrightError)
    ensures IsConnectionClosed(e) <==>
              e.OperationFailed?
              && (Holds(AsciiLower(e.message), "connection closed") || Holds(AsciiLower(e.message), "connection reset")
                  || Holds(AsciiLower(e.message), "reset without closing handshake")
                  || Holds(AsciiLower(e.message), "closing handshake") || Holds(AsciiLower(e.message), "broken pipe"))
  {
    if e.OperationFailed? {
      var message := AsciiLower(e.message);
      ContainsLaw(message, "connection closed");
      ContainsLaw(message, "connection reset");
      ContainsLaw(message, "reset without closing handshake");
      ContainsLaw(message, "closing handshake");
      ContainsLaw(message, "broken pipe");
    }
  }

  // ---------- what callers may rely on ----------

  /** The lines are those of one pass on the connection: each step's result in order, then the failure
      that ended it or the completion. */
  ghost predicate ReportsPass(lines: seq<Line>, actions: seq<string>, connection: nat, w: World) {
    && 0 < |lines| <= |actions| + 1
    && (forall i :: 0 <= i < |lines| - 1 ==>
          w.step(connection, i).Ok? && lines[i] == Success(i, actions[i], w.step(connection, i).value))
    && var done, last := |lines| - 1, lines[|lines| - 1];
       if done == |actions| then last == ScriptComplete(done)
       else w.step(connection, done).Err? && last == Failure(done, actions[done], w.step(connection, done).error)
  }

  lemma {:induction false} PassLaw(connection: nat, actions: seq<string>, i: nat, w: World, before: seq<Line>)
    requires i == |before| <= |actions|
    requires forall k :: 0 <= k < i ==>
               w.step(connection, k).Ok? && before[k] == Success(k, actions[k], w.step(connection, k).value)
    ensures ReportsPass(before + Pass(connection, actions, i, w), actions, connection, w)
    decreases |actions| - i
  {
    if i < |actions| {
      match w.step(connection, i)
      case Ok(value) =>
        var line := Success(i, actions[i], value);
        PassLaw(connection, actions, i + 1, w, before + [line]);
        assert before + [line] + Pass(connection, actions, i + 1, w) == before + Pass(connection, actions, i, w);
      case Err(_) =>
    }
  }

  lemma WholePassLaw(connection: nat, actions: seq<string>, w: World)
    ensures ReportsPass(Pass(connection, actions, 0, w), actions, connection, w) == true
  {
    PassLaw(connection, actions, 0, w, []);
    assert [] + Pass(connection, actions, 0, w) == Pass(connection, actions, 0, w);
  }

  /** What a pass did is what its lines say: every step that has a line was run, once and in order. */
  lemma {:induction false} DeedsLaw(connection: nat, actions: seq<string>, i: nat, w: World)
    requires i <= |actions|
    ensures var lines, deeds := Pass(connection, actions, i, w), PassDeeds(connection, actions, i, w);
            && |lines| > 0
            && |deeds| == (if lines[|lines| - 1].ScriptComplete? then |lines| - 1 else |lines|)
            && forall k :: 0 <= k < |deeds| ==> deeds[k] == Ran(connection, i + k)
    decreases |actions| - i
  {
    if i < |actions| && w.step(connection, i).Ok? {
      DeedsLaw(connection, actions, i + 1, w);
    }
  }

  /** A page is the cached connection if there is one, and else a new one, dialled now. */
  lemma PageLaw(c: Cache, id: string, w: World)
    ensures var (after, page) := Page(c, id, w);
            if id !in c.profiles then after == c && page == Err(ProfileNotFound(id))
            else if id in c.active then after == c && page == Ok(c.active[id])
            else
              && after.dials == c.dials + 1 && after.profiles == c.profiles
              && (w.dial(c.dials).Err? ==> page == Err(w.dial(c.dials).error) && after.active == c.active)
              && (w.dial(c.dials).Ok? ==> page == Ok(c.dials) && after.active == c.active[id := c.dials])
  {
  }

  /** A script runs on the cached connection if there is one and else on one dialled now. If its first
      step fails there as if the transport had dropped, that connection is evicted and the script runs
      on a newly dialled one, once; no other failure causes that. */
  lemma ScriptLaw(c: Cache, id: string, parsed: Result<seq<string>, string>, w: World)
    ensures var run := Script(c, id, parsed, w);
            && (parsed.Err? ==>
                  run.result == Err(OperationFailed(id, parsed.error)) && run.cache == c && run.deeds == [])
            && (parsed.Ok? ==>
                  var (c', page) := Page(c, id, w);
                  && (page.Err? ==> run.result == Err(page.error) && run.deeds == [] && run.cache == c')
                  && (page.Ok? ==>
                        if |parsed.value| > 0 && w.step(page.value, 0).Err?
                            && IsConnectionClosed(w.step(page.value, 0).error) then
                          var redialled := w.dial(c'.dials);
                          && run.cache.dials == c'.dials + 1
                          && (redialled.Err? ==> run.result == Err(redialled.error) && id !in run.cache.active)
                          && (redialled.Err? ==> run.deeds == [Ran(page.value, 0), Evicted])
                          && (redialled.Ok? ==>
                              && run.result.Ok? && ReportsPass(run.result.value, parsed.value, c'.dials, w)
                              && run.deeds == [Ran(page.value, 0), Evicted] + PassDeeds(c'.dials, parsed.value, 0, w))
                        else
                          && run.cache == c' && run.result.Ok?
                          && ReportsPass(run.result.value, parsed.value, page.value, w)
                          && run.deeds == PassDeeds(page.value, parsed.value, 0, w)))
  {
    if parsed.Ok? {
      var (c', page) := Page(c, id, w);
      PageLaw(c, id, w);
      if page.Ok? {
        PageLaw(Evict(c', id), id, w);
        WholePassLaw(page.value, parsed.value, w);
        WholePassLaw(c'.dials, parsed.value, w);
      }
    }
  }

  /** The reconnecting operations do the same for a single operation. */
  lemma OperationLaw(c: Cache, id: string, w: World)
    ensures var (after, result) := Operation(c, id, w);
            var (c', page) := Page(c, id, w);
            && (page.Err? ==> result == Err(page.error) && after == c')
            && (page.Ok? ==>
                  var first := w.step(page.value, 0);
                  if first.Err? && IsConnectionClosed(first.error) then
                    var redialled := w.dial(c'.dials);
                    && after.dials == c'.dials + 1
                    && (redialled.Err? ==> result == Err(redialled.error) && id !in after.active)
                    && (redialled.Ok? ==> result == w.step(c'.dials, 0) && after.active == c'.active[id := c'.dials])
                  else result == first && after == c')
  {
    var (c', page) := Page(c, id, w);
    PageLaw(c, id, w);
    if page.Ok? {
      PageLaw(Evict(c', id), id, w);
    }
  }

  /** Lines report steps in order: successes, then one closing line that says how far it got. */
  ghost predicate WellReported(lines: seq<Line>, actions: seq<string>) {
    && 0 < |lines| <= |actions| + 1
    && (forall i :: 0 <= i < |lines| - 1 ==> lines[i].Success? && lines[i].step == i && lines[i].action == actions[i])
    && var done, last := |lines| - 1, lines[|lines| - 1];
       if done == |actions| then last == ScriptComplete(done)
       else last.Failure? && last.step == done && last.action == actions[done]
  }

  lemma {:induction false} PassReports(connection: nat, actions: seq<string>, i: nat, w: World, before: seq<Line>)
    requires i == |before| <= |actions|
    requires forall k :: 0 <= k < i ==> before[k].Success? && before[k].step == k && before[k].action == actions[k]
    ensures WellReported(before + Pass(connection, actions, i, w), actions)
    decreases |actions| - i
  {
    if i < |actions| {
      match w.step(connection, i)
      case Ok(value) =>
        var line := Success(i, actions[i], value);
        PassReports(connection, actions, i + 1, w, before + [line]);
        assert before + [line] + Pass(connection, actions, i + 1, w) == before + Pass(connection, actions, i, w);
      case Err(_) =>
    }
  }

  function Runs(deeds: seq<Deed>, step: nat): nat {
    if deeds == [] then 0 else (if deeds[0].Ran? && deeds[0].step == step then 1 else 0) + Runs(deeds[1..], step)
  }

  function Evictions(deeds: seq<Deed>): nat {
    if deeds == [] then 0 else (if deeds[0].Evicted? then 1 else 0) + Evictions(deeds[1..])
  }

  lemma {:induction false} PassRunsOnce(connection: nat, actions: seq<string>, i: nat, w: World, step: nat)
    requires i <= |actions|
    ensures Evictions(PassDeeds(connection, actions, i, w)) == 0
    ensures Runs(PassDeeds(connection, actions, i, w), step) <= if i <= step then 1 else 0
    decreases |actions| - i
  {
    if i < |actions| && w.step(connection, i).Ok? {
      PassRunsOnce(connection, actions, i + 1, w, step);
    }
  }

  ghost predicate Careful(run: ScriptRun, actions: seq<string>, step: nat) {
    && Evictions(run.deeds) <= 1
    && Runs(run.deeds, step) <= (if step == 0 then 1 + Evictions(run.deeds) else 1)
    && (run.result.Ok? ==> WellReported(run.result.value, actions))
  }

  lemma StaleStartCounts(connection: nat, deeds: seq<Deed>, step: nat)
    ensures var all := [Ran(connection, 0), Evicted] + deeds;
            && Evictions(all) == 1 + Evictions(deeds)
            && Runs(all, step) == (if step == 0 then 1 else 0) + Runs(deeds, step)
  {
    var all := [Ran(connection, 0), Evicted] + deeds;
    assert all[1..] == [Evicted] + deeds && all[1..][1..] == deeds;
  }

  lemma PassIsCareful(c: Cache, connection: nat, actions: seq<string>, w: World, stale: nat, step: nat)
    ensures Careful(PassOn(c, Ok(connection), actions, w, []), actions, step)
    ensures Careful(PassOn(c, Ok(connection), actions, w, [Ran(stale, 0), Evicted]), actions, step)
  {
    var deeds := PassDeeds(connection, actions, 0, w);
    PassReports(connection, actions, 0, w, []);
    assert [] + Pass(connection, actions, 0, w) == Pass(connection, actions, 0, w);
    assert [] + deeds == deeds;
    PassRunsOnce(connection, actions, 0, w, step);
    StaleStartCounts(stale, deeds, step);
  }

  /** A script never repeats work: it evicts at most once, repeats at most the first step, and
      every line list it returns is well formed. */
  lemma ScriptNeverRepeatsWork(c: Cache, id: string, actions: seq<string>, w: World, step: nat)
    ensures Careful(Script(c, id, Ok(actions), w), actions, step)
  {
    var (c', page) := Page(c, id, w);
    if page.Ok? {
      var redialled := Page(Evict(c', id), id, w).1;
      StaleStartCounts(page.value, [], step);
      assert [Ran(page.value, 0), Evicted] + [] == [Ran(page.value, 0), Evicted];
      if Stale(page.value, actions, w) && redialled.Ok? {
        PassIsCareful(Page(Evict(c', id), id, w).0, redialled.value, actions, w, page.value, step);
      } else if !Stale(page.value, actions, w) {
        PassIsCareful(c', page.value, actions, w, 0, step);
      }
    }
  }

  /** A stale cached connection is invisible: the run gives what it would have given had the
      connection not been cached, and the rerun is on a connection dialled after the stale one. */
  lemma StaleConnectionIsInvisible(c: Cache, id: string, actions: seq<string>, w: World)
    requires ValidCache(c) && id in c.profiles && id in c.active && Stale(c.active[id], actions, w)
    requires w.dial(c.dials).Ok? && !Stale(c.dials, actions, w)
    ensures var run, clean := Script(c, id, Ok(actions), w), Script(Evict(c, id), id, Ok(actions), w);
            && run.result == clean.result && run.cache == clean.cache
            && run.deeds == [Ran(c.active[id], 0), Evicted] + clean.deeds
            && run.cache.active[id] == c.dials > c.active[id]
    ensures Operation(c, id, w) == (Script(c, id, Ok(actions), w).cache, w.step(c.dials, 0))
  {
  }
}

/** Lazy expiry cannot be told from eager expiry by the responses either: routes are resolved against
    the directory, which check-ins keep up to date. */
module LazyResponses {
  import opened Options
  import opened Messages
  import opened Registry
  import opened Operations
  import opened ControllerSystem
  import opened LazyExpiry
  import Network

  /** The response as compared: what `Observable` sets aside in an answer is set aside here. */
  function Observed(response: Response): Response {
    match response
    case QuarantineReleased(p) => QuarantineReleased(p.(status := PROFILE_UNSPECIFIED))
    case Swept(_) => Swept({})
    case _ => response
  }

  /** Every write of the run goes through. */
  ghost predicate AllWrite(sys: System, moments: seq<Moment>)
    decreases |moments|
  {
    moments == [] ||
    match moments[0].request
    case None => AllWrite(sys, moments[1..])
    case Some(r) =>
      && WritesThrough(sys, r, moments[0].now)
      && AllWrite(Execute(sys, r, moments[0].now, true).0, moments[1..])
  }

  ghost predicate WritesThrough(sys: System, r: Request, now: int) {
    Handle(sys.state, r, now).Commit? ==> CanWrite(sys.store, Handle(sys.state, r, now).state, true)
  }

  /** The controller as written, with its store and directory. */
  ghost function LazyRun(sys: System, moments: seq<Moment>): seq<Response>
    decreases |moments|
  {
    if moments == [] then []
    else match moments[0].request
      case None => LazyRun(sys, moments[1..])
      case Some(r) =>
        var (after, response) := Execute(sys, r, moments[0].now, true);
        [Observed(response)] + LazyRun(after, moments[1..])
  }

  /** The reference: a controller in memory that expires leases at every moment. */
  ghost function EagerRun(sys: System, moments: seq<Moment>): seq<Response>
    decreases |moments|
  {
    if moments == [] then []
    else
      var expired := System(Expire(sys.state, moments[0].now), None, sys.directory);
      match moments[0].request
      case None => EagerRun(expired, moments[1..])
      case Some(r) =>
        var (after, response) := Execute(expired, r, moments[0].now, true);
        [Observed(response)] + EagerRun(after, moments[1..])
  }

  lemma ResolvingAgrees(a: Answer, b: Answer, directory: map<string, Network.Endpoint>)
    requires Observable(a) == Observable(b)
    ensures Observed(Resolve(a, directory)) == Observed(Resolve(b, directory))
  {
  }

  /** A check-in expires first, so it does the same on the expired state. */
  lemma CheckinsExpireFirst(s: State, r: Request, now: int)
    requires r.RegisterMachine? || r.Heartbeat?
    ensures Handle(Expire(s, now), r, now) == Handle(s, r, now)
  {
    ExpiredIsSettled(s, now);
  }

  /** What a call does when its write goes through. */
  lemma WrittenCall(sys: System, r: Request, now: int)
    requires WritesThrough(sys, r, now)
    ensures var o := Handle(sys.state, r, now);
            var directory := if o.Commit? then Publish(sys.directory, r, o.state) else sys.directory;
            var store := if o.Commit? then Persisted(sys.store, o.state, true) else sys.store;
            Execute(sys, r, now, true) ==
            (System(After(sys.state, o, true), store, directory), Resolve(o.answer, directory))
  {
  }

  lemma DirectoriesAgree(s: State, r: Request, now: int, directory: map<string, Network.Endpoint>)
    ensures var o, p := Handle(s, r, now), Handle(Expire(s, now), r, now);
            (if o.Commit? then Publish(directory, r, o.state) else directory) ==
            (if p.Commit? then Publish(directory, r, p.state) else directory)
  {
    if r.RegisterMachine? || r.Heartbeat? {
      CheckinsExpireFirst(s, r, now);
    }
  }

  lemma ResponsesAgree(sys: System, r: Request, now: int)
    requires WritesThrough(sys, r, now)
    ensures var lazy := Execute(sys, r, now, true);
            var eager := Execute(System(Expire(sys.state, now), None, sys.directory), r, now, true);
            && Observed(lazy.1) == Observed(eager.1)
            && lazy.0.directory == eager.0.directory && Expire(lazy.0.state, now) == eager.0.state
  {
    var expired := System(Expire(sys.state, now), None, sys.directory);
    WrittenCall(sys, r, now);
    WrittenCall(expired, r, now);
    CallAgrees(sys.state, r, now);
    DirectoriesAgree(sys.state, r, now, sys.directory);
    var o := Handle(sys.state, r, now);
    ResolvingAgrees(o.answer, Handle(expired.state, r, now).answer,
                    if o.Commit? then Publish(sys.directory, r, o.state) else sys.directory);
  }

  lemma {:induction false} LazyRunRefinesEagerFrom(sys: System, eager: System, moments: seq<Moment>, from: int)
    requires Expire(sys.state, from) == Expire(eager.state, from) && sys.directory == eager.directory
    requires Nondecreasing(moments, from) && AllWrite(sys, moments)
    ensures LazyRun(sys, moments) == EagerRun(eager, moments)
    decreases |moments|
  {
    if moments != [] {
      var now := moments[0].now;
      ExpireComposes(sys.state, from, now);
      ExpireComposes(eager.state, from, now);
      var expired := System(Expire(eager.state, now), None, eager.directory);
      match moments[0].request
      case None =>
        ExpiredIsSettled(eager.state, now);
        LazyRunRefinesEagerFrom(sys, expired, moments[1..], now);
      case Some(r) =>
        ResponsesAgree(sys, r, now);
        var after := Execute(sys, r, now, true).0;
        ExpiredIsSettled(after.state, now);
        LazyRunRefinesEagerFrom(after, Execute(expired, r, now, true).0, moments[1..], now);
    }
  }

  /** From any controller, with or without a store, over any calls at nondecreasing times whose writes
      go through, and however often expiry runs in between: every response is that of a controller
      that expires leases at every instant. */
  lemma LazyRunRefinesEager(sys: System, moments: seq<Moment>, from: int)
    requires Nondecreasing(moments, from) && AllWrite(sys, moments)
    ensures LazyRun(sys, moments) == EagerRun(sys, moments)
  {
    LazyRunRefinesEagerFrom(sys, sys, moments, from);
  }
}

/**
 Executing a request over its ordered candidates: retry inside a candidate, fail over
 to the next, account for both, and settle the idempotency record
 (src/gateway.rs:1557-2157 for run_gateway, src/gateway.rs:2972-3374 for images_generations).

 What upstreams answer is an arbitrary function of the candidate and the try.
 */
module Failover {
  import opened Wrappers
  import opened Strings
  import opened Routing
  import I = Idempotency
  import J = Json

  datatype UpstreamError = Timeout | Connect | Status(code: int) | AuthFailed | BodyRead

  predicate Retryable(e: UpstreamError, codes: seq<int>) {
    match e
    case Timeout => true
    case Connect => true
    case Status(s) => s in codes
    case AuthFailed => false
    case BodyRead => false
  }

  /** The statuses that blame the request itself. */
  predicate ClientCode(s: int) {
    s == 400 || s == 404 || s == 405 || s == 413 || s == 422
  }

  predicate ClientCausal(e: UpstreamError) {
    e.Status? && ClientCode(e.code)
  }

  datatype Build = Built | Refused(parse: bool)

  datatype Outcome =
    /** a response to cache: 200 with the final JSON, or 202 with the media job */
    | Answered(status: int, body: J.Json, taskId: Option<nat>)
    /** the exchange ends here with an error: conversion of the response, or storing the media job, failed */
    | Aborted(status: int)
    | Streaming
    /** images only: a 2xx body of the wrong shape */
    | Malformed(error: UpstreamError)
    | Failed(error: UpstreamError)

  /** `build` and `exec` of candidate c, the latter at its k-th retry. */
  datatype World = World(build: nat -> Build, exec: (nat, nat) -> Outcome)

  /** How a text upstream takes a try: an error, or a delivery whose JSON converts or does not. */
  datatype Delivery = Errs(error: UpstreamError) | Converts(body: J.Json) | Garbled(status: int)

  /** A stream is handed on as it comes; anything else is collected and converted. */
  function DeliveredAs(stream: bool, d: Delivery): Outcome {
    match d
    case Errs(e) => Failed(e)
    case Converts(body) => if stream then Streaming else Answered(200, body, None)
    case Garbled(status) => if stream then Streaming else Aborted(status)
  }

  function AttemptRoutes(attempts: seq<Attempt>): (routes: seq<Route>)
    ensures |routes| == |attempts| && forall c :: 0 <= c < |routes| ==> routes[c] == attempts[c].candidate.route
  {
    seq(|attempts|, c requires 0 <= c < |attempts| => attempts[c].candidate.route)
  }

  /** A passthrough request is always built; the others are what their conversion gives. */
  function BuiltFor(attempts: seq<Attempt>, convert: nat -> Build, c: nat): Build {
    if c < |attempts| && attempts[c].mode.Passthrough? then Built else convert(c)
  }

  function GatewayWorld(attempts: seq<Attempt>, convert: nat -> Build, deliver: (nat, nat) -> Delivery, stream: bool): World {
    World((c: nat) => BuiltFor(attempts, convert, c), (c: nat, k: nat) => DeliveredAs(stream, deliver(c, k)))
  }

  /** What the world of run_gateway answers: a stream exactly when one was asked for, never the wrong shape. */
  lemma GatewayOutcomes(attempts: seq<Attempt>, convert: nat -> Build, deliver: (nat, nat) -> Delivery, stream: bool, c: nat, k: nat)
    ensures var world := GatewayWorld(attempts, convert, deliver, stream);
      var o := world.exec(c, k);
      && o == DeliveredAs(stream, deliver(c, k)) && world.build(c) == BuiltFor(attempts, convert, c)
      && !o.Malformed? && (o.Streaming? ==> stream) && (o.Answered? || o.Aborted? ==> !stream)
      && (c < |attempts| && attempts[c].mode.Passthrough? ==> world.build(c) == Built)
      && (c < |attempts| && attempts[c].mode.Convert? ==> world.build(c) == convert(c))
      && (o.Failed? <==> deliver(c, k).Errs?) && (o.Failed? ==> o.error == deliver(c, k).error)
      && (o.Answered? ==> deliver(c, k) == Converts(o.body)) && (o.Aborted? ==> deliver(c, k) == Garbled(o.status))
  {
    assert GatewayWorld(attempts, convert, deliver, stream).exec(c, k) == DeliveredAs(stream, deliver(c, k));
  }

  /** How an image upstream takes a try: images, a job that is stored or is not, or a body of the wrong shape. */
  datatype Rendering =
    | Rejects(error: UpstreamError)
    | Renders(body: J.Json)
    | Queues(body: J.Json, taskId: nat)
    | Unstored
    | WrongShape(error: UpstreamError)

  function RenderedAs(r: Rendering): Outcome {
    match r
    case Rejects(e) => Failed(e)
    case Renders(body) => Answered(200, body, None)
    case Queues(body, taskId) => Answered(202, body, Some(taskId))
    case Unstored => Aborted(500)
    case WrongShape(e) => Malformed(e)
  }

  function ImagesWorld(render: (nat, nat) -> Rendering): World {
    World((c: nat) => Built, (c: nat, k: nat) => RenderedAs(render(c, k)))
  }

  datatype Settle = Completes(rid: nat, status: int, body: J.Json, taskId: Option<nat>) | Fails(rid: nat)

  datatype Reply = Success(status: int, body: J.Json) | Abort(status: int) | StreamOut | Exhausted(last: Ending)

  /** How the visit of one candidate ended. */
  datatype Ending = NotBuilt(parse: bool) | Ended(outcome: Outcome)

  datatype Visit = Visit(retries: nat, ending: Ending)

  datatype Report = Report(reply: Reply, retryCount: int, settles: seq<Settle>)

  lemma ImagesOutcomes(render: (nat, nat) -> Rendering, c: nat, k: nat)
    ensures var world := ImagesWorld(render);
      var o := world.exec(c, k);
      && world.build(c) == Built && o == RenderedAs(render(c, k)) && !o.Streaming?
      && (o.Aborted? <==> render(c, k) == Unstored) && (o.Aborted? ==> o.status == 500)
      && (o.Failed? ==> render(c, k) == Rejects(o.error)) && (o.Malformed? ==> render(c, k) == WrongShape(o.error))
  {
    assert ImagesWorld(render).exec(c, k) == RenderedAs(render(c, k));
  }

  // ------------------------------------------------------------ what a run is

  function RetryLimit(r: Route): nat {
    if r.lockUpstream || r.retries < 0 then 0 else r.retries
  }

  /** Try k of candidate c is followed by another try of c. */
  ghost predicate Again(r: Route, world: World, c: nat, k: nat) {
    match world.exec(c, k)
    case Failed(e) => Retryable(e, r.retryStatusCodes) && k < RetryLimit(r)
    case _ => false
  }

  ghost predicate IsVisit(r: Route, world: World, c: nat, v: Visit) {
    match v.ending
    case NotBuilt(parse) => world.build(c) == Refused(parse) && v.retries == 0
    case Ended(outcome) =>
      && world.build(c) == Built
      && (forall k :: 0 <= k < v.retries ==> Again(r, world, c, k))
      && !Again(r, world, c, v.retries)
      && outcome == world.exec(c, v.retries)
  }

  /** Failover to the next candidate is allowed. */
  ghost predicate MovesOn(r: Route, v: Visit) {
    match v.ending
    case NotBuilt(parse) => !parse
    case Ended(Malformed(_)) => !r.lockUpstream
    case Ended(Failed(e)) => !r.lockUpstream && !ClientCausal(e)
    case Ended(_) => false
  }

  ghost predicate IsTrail(routes: seq<Route>, world: World, visits: seq<Visit>) {
    && |visits| <= |routes|
    && (forall c :: 0 <= c < |visits| ==> IsVisit(routes[c], world, c, visits[c]))
    && (forall c :: 0 <= c < |visits| - 1 ==> MovesOn(routes[c], visits[c]))
  }

  /** A trail that cannot be continued. */
  ghost predicate IsRun(routes: seq<Route>, world: World, visits: seq<Visit>) {
    && IsTrail(routes, world, visits)
    && visits != []
    && (|visits| == |routes| || !MovesOn(routes[|visits| - 1], visits[|visits| - 1]))
  }

  /** What must be answered, logged and settled after these visits. */
  ghost function ReportOf(visits: seq<Visit>, rec: Option<nat>): Report
    requires visits != []
  {
    var last := visits[|visits| - 1];
    var retryCount := last.retries + (|visits| - 1);
    match last.ending
    case Ended(Answered(status, body, taskId)) =>
      Report(Success(status, body), retryCount, CompletesIf(rec, status, body, taskId))
    case Ended(Aborted(status)) => Report(Abort(status), retryCount, FailsIf(rec))
    case Ended(Streaming) => Report(StreamOut, retryCount, [])
    case _ => Report(Exhausted(last.ending), retryCount, FailsIf(rec))
  }

  // ------------------------------------------------------------------ loops

  /** The retry loop inside one candidate: the last outcome and the retries it took. */
  method TryCandidate(route: Route, world: World, c: nat) returns (outcome: Outcome, idx: nat)
    ensures forall k :: 0 <= k < idx ==> Again(route, world, c, k)
    ensures !Again(route, world, c, idx) && outcome == world.exec(c, idx)
  {
    var lock := route.lockUpstream;
    var limit := if lock || route.retries < 0 then 0 else route.retries;
    idx := 0;
    while true
      invariant 0 <= idx <= limit
      invariant forall k :: 0 <= k < idx ==> Again(route, world, c, k)
      decreases limit - idx
    {
      outcome := world.exec(c, idx);
      if !outcome.Failed? {
        return;
      }
      var canRetry := Retryable(outcome.error, route.retryStatusCodes) && !lock && idx < limit;
      if !canRetry {
        return;
      }
      idx := idx + 1;
    }
  }

  function FailsIf(rec: Option<nat>): seq<Settle> {
    match rec
    case Some(rid) => [Fails(rid)]
    case None => []
  }

  function CompletesIf(rec: Option<nat>, status: int, body: J.Json, taskId: Option<nat>): seq<Settle> {
    match rec
    case Some(rid) => [Completes(rid, status, body, taskId)]
    case None => []
  }

  lemma TrailNext(routes: seq<Route>, world: World, visits: seq<Visit>, v: Visit)
    requires IsTrail(routes, world, visits) && |visits| < |routes|
    requires visits != [] ==> MovesOn(routes[|visits| - 1], visits[|visits| - 1])
    requires IsVisit(routes[|visits|], world, |visits|, v)
    ensures IsTrail(routes, world, visits + [v])
  {
    hide IsVisit, MovesOn;
  }

  lemma VisitOfTry(r: Route, world: World, c: nat, outcome: Outcome, idx: nat)
    requires world.build(c) == Built && (forall k :: 0 <= k < idx ==> Again(r, world, c, k))
    requires !Again(r, world, c, idx) && outcome == world.exec(c, idx)
    ensures IsVisit(r, world, c, Visit(idx, Ended(outcome)))
  {
  }

  /** The candidate loop of run_gateway. */
  method GatewayLoop(attempts: seq<Attempt>, convert: nat -> Build, deliver: (nat, nat) -> Delivery, stream: bool, rec: Option<nat>)
    returns (report: Report, ghost visits: seq<Visit>)
    requires attempts != []
    ensures IsRun(AttemptRoutes(attempts), GatewayWorld(attempts, convert, deliver, stream), visits)
    ensures report == ReportOf(visits, rec)
  {
    hide GatewayWorld, BuiltFor, DeliveredAs;
    var routes := AttemptRoutes(attempts);
    var world := GatewayWorld(attempts, convert, deliver, stream);
    visits := [];
    var lastErr := NotBuilt(true);
    var failedCandidates: nat, lastIdx: nat := 0, 0;
    var c := 0;
    while c < |routes|
      invariant 0 <= c <= |routes| && |visits| == c == failedCandidates
      invariant IsTrail(routes, world, visits)
      invariant c > 0 ==> MovesOn(routes[c - 1], visits[c - 1]) && visits[c - 1] == Visit(lastIdx, lastErr)
    {
      hide IsTrail, Again;
      var route := routes[c];
      var built := world.build(c);
      if built.Refused? {
        TrailNext(routes, world, visits, Visit(0, NotBuilt(built.parse)));
        visits := visits + [Visit(0, NotBuilt(built.parse))];
        lastErr := NotBuilt(built.parse);
        failedCandidates := failedCandidates + 1;
        lastIdx := 0;
        if built.parse {
          break;
        }
      } else {
        var outcome, idx := TryCandidate(route, world, c);
        GatewayOutcomes(attempts, convert, deliver, stream, c, idx);
        VisitOfTry(route, world, c, outcome, idx);
        TrailNext(routes, world, visits, Visit(idx, Ended(outcome)));
        visits := visits + [Visit(idx, Ended(outcome))];
        if outcome.Answered? {
          report := Report(Success(outcome.status, outcome.body), idx + failedCandidates,
                           CompletesIf(rec, outcome.status, outcome.body, outcome.taskId));
          return;
        } else if outcome.Aborted? {
          report := Report(Abort(outcome.status), idx + failedCandidates, FailsIf(rec));
          return;
        } else if outcome.Streaming? {
          report := Report(StreamOut, idx + failedCandidates, []);
          return;
        }
        lastErr := Ended(outcome);
        failedCandidates := failedCandidates + 1;
        lastIdx := idx;
        if route.lockUpstream || ClientCausal(outcome.error) {
          break;
        }
      }
      c := c + 1;
    }
    report := Report(Exhausted(lastErr), lastIdx + SaturatingPred(failedCandidates), FailsIf(rec));
  }

  function SaturatingPred(n: nat): nat {
    if n > 0 then n - 1 else 0
  }

  /** The candidate loop of images_generations: no request conversion, never a stream, but a 2xx
      body may have the wrong shape, which fails the candidate without a retry. */
  method ImagesLoop(routes: seq<Route>, render: (nat, nat) -> Rendering, rec: Option<nat>)
    returns (report: Report, ghost visits: seq<Visit>)
    requires routes != []
    ensures IsRun(routes, ImagesWorld(render), visits)
    ensures report == ReportOf(visits, rec)
  {
    var world := ImagesWorld(render);
    visits := [];
    var lastErr := NotBuilt(true);
    var lastIdx: nat, failedCandidates: nat := 0, 0;
    var c := 0;
    while c < |routes|
      invariant 0 <= c <= |routes| && |visits| == c == failedCandidates
      invariant IsTrail(routes, world, visits)
      invariant c > 0 ==> MovesOn(routes[c - 1], visits[c - 1]) && visits[c - 1] == Visit(lastIdx, lastErr)
    {
      hide IsTrail, Again, IsVisit;
      var route := routes[c];
      var outcome, idx := TryCandidate(route, world, c);
      ImagesOutcomes(render, c, idx);
      VisitOfTry(route, world, c, outcome, idx);
      TrailNext(routes, world, visits, Visit(idx, Ended(outcome)));
      visits := visits + [Visit(idx, Ended(outcome))];
      match outcome {
        case Answered(status, body, taskId) =>
          report := Report(Success(status, body), idx + failedCandidates, CompletesIf(rec, status, body, taskId));
          return;
        case Aborted(status) =>
          report := Report(Abort(status), idx + failedCandidates, FailsIf(rec));
          return;
        case Streaming => assert false;
        case Malformed(e) =>
          lastErr := Ended(outcome);
          failedCandidates := failedCandidates + 1;
          lastIdx := idx;
          if route.lockUpstream {
            break;
          }
        case Failed(e) =>
          lastErr := Ended(outcome);
          failedCandidates := failedCandidates + 1;
          lastIdx := idx;
          if route.lockUpstream || ClientCausal(e) {
            break;
          }
      }
      c := c + 1;
    }
    report := Report(Exhausted(lastErr), lastIdx + SaturatingPred(failedCandidates), FailsIf(rec));
  }

  // ------------------------------------------------------------- properties

  /** The visits are determined by what the world answers. */
  lemma {:induction false} RunsAgree(routes: seq<Route>, world: World, a: seq<Visit>, b: seq<Visit>)
    requires IsRun(routes, world, a) && IsRun(routes, world, b)
    ensures a == b
  {
    forall c | 0 <= c < |a| && c < |b| ensures a[c] == b[c] {
      VisitsAgree(routes[c], world, c, a[c], b[c]);
    }
    RunNotShorter(routes, world, a, b);
    RunNotShorter(routes, world, b, a);
  }

  lemma RunNotShorter(routes: seq<Route>, world: World, a: seq<Visit>, b: seq<Visit>)
    requires IsRun(routes, world, a) && IsRun(routes, world, b)
    ensures |b| <= |a|
  {
    if |a| < |b| {
      VisitsAgree(routes[|a| - 1], world, |a| - 1, a[|a| - 1], b[|a| - 1]);
    }
  }

  lemma VisitsAgree(r: Route, world: World, c: nat, v: Visit, w: Visit)
    requires IsVisit(r, world, c, v) && IsVisit(r, world, c, w)
    ensures v == w
  {
    var vMore, wMore := Again(r, world, c, v.retries), Again(r, world, c, w.retries);
  }

  /** Upstream executions of a visit. */
  function Executions(v: Visit): nat {
    if v.ending.NotBuilt? then 0 else v.retries + 1
  }

  function TotalExecutions(visits: seq<Visit>): nat {
    if visits == [] then 0 else TotalExecutions(visits[..|visits| - 1]) + Executions(visits[|visits| - 1])
  }

  /** What the routes allow: one execution each, plus the retries of those that are not locked. */
  function Budget(routes: seq<Route>): nat {
    if routes == [] then 0 else Budget(routes[..|routes| - 1]) + 1 + RetryLimit(routes[|routes| - 1])
  }

  lemma RetriesLimited(r: Route, world: World, c: nat, v: Visit)
    requires IsVisit(r, world, c, v)
    ensures v.retries <= RetryLimit(r)
  {
    if v.retries > 0 && v.ending.Ended? {
      assert Again(r, world, c, v.retries - 1);
    }
  }

  lemma {:induction false} ExecutionsWithinBudget(routes: seq<Route>, world: World, visits: seq<Visit>)
    requires IsTrail(routes, world, visits)
    ensures TotalExecutions(visits) <= Budget(routes[..|visits|]) <= Budget(routes)
  {
    hide IsVisit, MovesOn, RetryLimit;
    BudgetGrows(routes, |visits|);
    if visits != [] {
      var n := |visits| - 1;
      ExecutionsWithinBudget(routes, world, visits[..n]);
      RetriesLimited(routes[n], world, n, visits[n]);
      assert routes[..n + 1][..n] == routes[..n];
    }
  }

  lemma {:induction false} BudgetGrows(routes: seq<Route>, n: nat)
    requires n <= |routes|
    ensures Budget(routes[..n]) <= Budget(routes)
    decreases |routes| - n
  {
    if n < |routes| {
      BudgetGrows(routes, n + 1);
      assert routes[..n + 1][..n] == routes[..n];
    } else {
      assert routes[..n] == routes;
    }
  }

  /** Try k of candidate c took place. */
  ghost predicate Executed(visits: seq<Visit>, c: nat, k: nat) {
    c < |visits| && visits[c].ending.Ended? && k <= visits[c].retries
  }

  /** A locked route's upstream failure is final: nobody after it is visited. */
  lemma LockedFailureIsFinal(routes: seq<Route>, world: World, visits: seq<Visit>, c: nat, k: nat)
    requires IsRun(routes, world, visits) && Executed(visits, c, k) && routes[c].lockUpstream
    requires world.exec(c, k).Failed? || world.exec(c, k).Malformed?
    ensures |visits| == c + 1 && visits[c].retries == 0
  {
    RetriesLimited(routes[c], world, c, visits[c]);
  }

  /** But a conversion failure on a locked route still fails over, unless the request itself did not parse. */
  lemma LockedConversionMovesOn(routes: seq<Route>, world: World, visits: seq<Visit>, c: nat)
    requires IsRun(routes, world, visits) && c < |visits| && world.build(c).Refused?
    ensures |visits| == c + 1 <==> world.build(c).parse || c + 1 == |routes|
  {
    assert IsVisit(routes[c], world, c, visits[c]);
  }

  /** A try of candidate c took place and failed with an error that blames the request. */
  ghost predicate ClientFailure(world: World, visits: seq<Visit>, c: nat, k: nat) {
    Executed(visits, c, k) && world.exec(c, k).Failed? && ClientCausal(world.exec(c, k).error)
  }

  predicate NoClientCode(codes: seq<int>) {
    forall s :: s in codes ==> !ClientCode(s)
  }

  /** A client-causal error ends the run on the spot unless the route retries it; it ends the run after
      the retries if the route is the last. */
  lemma ClientErrorIsFinal(routes: seq<Route>, world: World, visits: seq<Visit>, c: nat, k: nat)
    requires IsRun(routes, world, visits) && ClientFailure(world, visits, c, k)
    requires c + 1 == |routes| || RetryLimit(routes[c]) == 0 || NoClientCode(routes[c].retryStatusCodes)
    ensures |visits| == c + 1
    ensures c + 1 < |routes| ==> k == visits[c].retries
  {
    var more := Again(routes[c], world, c, k);
    RetriesLimited(routes[c], world, c, visits[c]);
  }

  /** Conversions that refuse a request for another reason than parsing are among those considered, or not. */
  ghost predicate Allowed(convert: nat -> Build, refuses: bool) {
    !refuses ==> forall c :: convert(c) != Refused(false)
  }

  /** Whatever the conversions and upstreams do, a client-causal error at attempt c lets no later one be tried. */
  ghost predicate GatewayErrorsAreFinal(attempts: seq<Attempt>, c: nat, stream: bool, refuses: bool) {
    forall convert, deliver, visits, k ::
      var world := GatewayWorld(attempts, convert, deliver, stream);
      Allowed(convert, refuses) && IsRun(AttemptRoutes(attempts), world, visits) && ClientFailure(world, visits, c, k) ==>
        |visits| == c + 1
  }

  ghost predicate ImageErrorsAreFinal(routes: seq<Route>, c: nat) {
    forall render, visits, k ::
      var world := ImagesWorld(render);
      IsRun(routes, world, visits) && ClientFailure(world, visits, c, k) ==> |visits| == c + 1
  }

  /** The guards that make client-causal errors of a route final. */
  predicate FinalByItself(routes: seq<Route>, c: nat)
    requires c < |routes|
  {
    c + 1 == |routes| || RetryLimit(routes[c]) == 0 || NoClientCode(routes[c].retryStatusCodes)
  }

  /** An attempt that lets nobody after it be tried: locked, and its request cannot be refused. */
  predicate Blocks(a: Attempt, refuses: bool) {
    a.candidate.route.lockUpstream && (a.mode.Passthrough? || !refuses)
  }

  /** Exactly when client-causal errors of run_gateway are final at attempt c: it is the last, does not retry,
      lists no client status as retryable, or stands behind an attempt that blocks. */
  lemma ClientErrorsAreFinalWhen(attempts: seq<Attempt>, c: nat, stream: bool, refuses: bool)
    requires c < |attempts|
    ensures GatewayErrorsAreFinal(attempts, c, stream, refuses)
       <==> FinalByItself(AttemptRoutes(attempts), c) || exists i :: 0 <= i < c && Blocks(attempts[i], refuses)
  {
    hide IsRun, ClientFailure, FinalByItself;
    var routes := AttemptRoutes(attempts);
    if FinalByItself(routes, c) {
      forall convert, deliver, visits, k | IsRun(routes, GatewayWorld(attempts, convert, deliver, stream), visits)
          && ClientFailure(GatewayWorld(attempts, convert, deliver, stream), visits, c, k)
        ensures |visits| == c + 1
      {
        FinalIsFinal(routes, GatewayWorld(attempts, convert, deliver, stream), visits, c, k);
      }
    } else if i :| 0 <= i < c && Blocks(attempts[i], refuses) {
      forall convert, deliver, visits, k | Allowed(convert, refuses)
          && IsRun(routes, GatewayWorld(attempts, convert, deliver, stream), visits)
        ensures !ClientFailure(GatewayWorld(attempts, convert, deliver, stream), visits, c, k)
      {
        GatewayOutcomes(attempts, convert, deliver, stream, i, 0);
        LockedEnds(routes, GatewayWorld(attempts, convert, deliver, stream), visits, i, c, k);
      }
    } else {
      var convert, deliver, visits := RetriedClientErrorMovesOn(attempts, c, stream, refuses);
      assert ClientFailure(GatewayWorld(attempts, convert, deliver, stream), visits, c, 0);
    }
  }

  lemma FinalIsFinal(routes: seq<Route>, world: World, visits: seq<Visit>, c: nat, k: nat)
    requires c < |routes| && FinalByItself(routes, c) && IsRun(routes, world, visits) && ClientFailure(world, visits, c, k)
    ensures |visits| == c + 1
  {
    ClientErrorIsFinal(routes, world, visits, c, k);
  }

  lemma LockedEnds(routes: seq<Route>, world: World, visits: seq<Visit>, i: nat, c: nat, k: nat)
    requires IsRun(routes, world, visits) && i < c && i < |routes|
    requires routes[i].lockUpstream && world.build(i) != Refused(false)
    ensures !ClientFailure(world, visits, c, k)
  {
    if i < |visits| {
      assert IsVisit(routes[i], world, i, visits[i]);
      assert !MovesOn(routes[i], visits[i]);
    }
  }

  /** Otherwise the retry can end in another error, and then the next candidate gets the request. */
  lemma RetriedClientErrorMovesOn(attempts: seq<Attempt>, c: nat, stream: bool, refuses: bool)
    returns (convert: nat -> Build, deliver: (nat, nat) -> Delivery, visits: seq<Visit>)
    requires c < |attempts| && !FinalByItself(AttemptRoutes(attempts), c)
    requires forall i :: 0 <= i < c ==> !Blocks(attempts[i], refuses)
    ensures var world := GatewayWorld(attempts, convert, deliver, stream);
      && Allowed(convert, refuses) && IsRun(AttemptRoutes(attempts), world, visits)
      && ClientFailure(world, visits, c, 0) && |visits| == c + 2
  {
    hide IsRun, ClientFailure;
    var routes := AttemptRoutes(attempts);
    var code :| code in routes[c].retryStatusCodes && ClientCode(code);
    convert := (i: nat) => if i < c && i < |attempts| && attempts[i].candidate.route.lockUpstream then Refused(false) else Built;
    deliver := (i: nat, k: nat) =>
      if i == c && k == 0 then Errs(Status(code)) else if i <= c then Errs(BodyRead) else Converts(J.Null);
    var world := GatewayWorld(attempts, convert, deliver, stream);
    forall i: nat, k: nat | i <= c + 1
      ensures world.build(i) == BuiltFor(attempts, convert, i) && world.exec(i, k) == DeliveredAs(stream, deliver(i, k))
    {
      GatewayOutcomes(attempts, convert, deliver, stream, i, k);
    }
    forall i | 0 <= i < c ensures GivesUp(routes[i], world, i) {
      assert !Blocks(attempts[i], refuses);
    }
    visits := MovesOnRun(routes, world, c, code);
  }

  /** Candidate i fails at its first try in a way that is not retried, and lets the next be tried. */
  ghost predicate GivesUp(r: Route, world: World, i: nat) {
    world.build(i) == Refused(false) || (world.build(i) == Built && world.exec(i, 0) == Failed(BodyRead) && !r.lockUpstream)
  }

  /** The run in which everyone before c gives up, c retries a client error and fails otherwise, and the next answers. */
  lemma MovesOnRun(routes: seq<Route>, world: World, c: nat, code: int) returns (visits: seq<Visit>)
    requires c + 1 < |routes| && RetryLimit(routes[c]) > 0 && code in routes[c].retryStatusCodes && ClientCode(code)
    requires forall i :: 0 <= i < c ==> GivesUp(routes[i], world, i)
    requires world.build(c) == Built && world.build(c + 1) == Built
    requires world.exec(c, 0) == Failed(Status(code)) && world.exec(c, 1) == Failed(BodyRead)
    requires world.exec(c + 1, 0).Answered? || world.exec(c + 1, 0).Streaming?
    ensures IsRun(routes, world, visits) && ClientFailure(world, visits, c, 0) && |visits| == c + 2
  {
    var skipped := (i: nat) => Visit(0, if world.build(i) == Refused(false) then NotBuilt(false) else Ended(Failed(BodyRead)));
    visits := seq(c, skipped) + [Visit(1, Ended(Failed(BodyRead))), Visit(0, Ended(world.exec(c + 1, 0)))];
    assert Again(routes[c], world, c, 0) && !Again(routes[c], world, c, 1);
    assert !Again(routes[c + 1], world, c + 1, 0);
    forall i | 0 <= i < c + 2 ensures IsVisit(routes[i], world, i, visits[i]) && (i <= c ==> MovesOn(routes[i], visits[i])) {
      if i < c {
        assert GivesUp(routes[i], world, i);
        assert visits[i] == skipped(i);
      }
    }
  }

  /** Among images, where nothing is converted, every locked candidate blocks. */
  lemma ImageErrorsAreFinalWhen(routes: seq<Route>, c: nat)
    requires c < |routes|
    ensures ImageErrorsAreFinal(routes, c) <==> FinalByItself(routes, c) || exists i :: 0 <= i < c && routes[i].lockUpstream
  {
    hide IsRun, ClientFailure, FinalByItself;
    if FinalByItself(routes, c) {
      forall render, visits, k | IsRun(routes, ImagesWorld(render), visits) && ClientFailure(ImagesWorld(render), visits, c, k)
        ensures |visits| == c + 1
      {
        FinalIsFinal(routes, ImagesWorld(render), visits, c, k);
      }
    } else if i :| 0 <= i < c && routes[i].lockUpstream {
      forall render, visits, k | IsRun(routes, ImagesWorld(render), visits)
        ensures !ClientFailure(ImagesWorld(render), visits, c, k)
      {
        ImagesOutcomes(render, i, 0);
        LockedEnds(routes, ImagesWorld(render), visits, i, c, k);
      }
    } else {
      var render, visits := RetriedImageErrorMovesOn(routes, c);
      assert ClientFailure(ImagesWorld(render), visits, c, 0);
    }
  }

  lemma RetriedImageErrorMovesOn(routes: seq<Route>, c: nat) returns (render: (nat, nat) -> Rendering, visits: seq<Visit>)
    requires c < |routes| && !FinalByItself(routes, c) && forall i :: 0 <= i < c ==> !routes[i].lockUpstream
    ensures var world := ImagesWorld(render);
      IsRun(routes, world, visits) && ClientFailure(world, visits, c, 0) && |visits| == c + 2
  {
    hide IsRun, ClientFailure;
    var code :| code in routes[c].retryStatusCodes && ClientCode(code);
    render := (i: nat, k: nat) =>
      if i == c && k == 0 then Rejects(Status(code)) else if i <= c then Rejects(BodyRead) else Renders(J.Null);
    var world := ImagesWorld(render);
    forall i: nat, k: nat ensures world.build(i) == Built && world.exec(i, k) == RenderedAs(render(i, k)) {
      ImagesOutcomes(render, i, k);
    }
    forall i | 0 <= i < c ensures GivesUp(routes[i], world, i) {
    }
    visits := MovesOnRun(routes, world, c, code);
  }

  // ----------------------------------------------------- idempotency records

  datatype KeyError = BadLength | BadCharacter

  predicate KeyChar(c: char) {
    'a' <= c <= 'z' || 'A' <= c <= 'Z' || '0' <= c <= '9' || c in ['.', '_', ':', '-', '/']
  }

  /** validate_key: 8 to 128 bytes of the allowed characters, after trimming. */
  function ValidateKey(raw: string): (r: Result<string, KeyError>)
    ensures r.Ok? <==> 8 <= |Trim(raw)| <= 128 && forall c :: c in Trim(raw) ==> KeyChar(c)
    ensures r.Ok? ==> r.value == Trim(raw) && Trimmed(r.value)
  {
    var k := Trim(raw);
    TrimIsTrimmed(raw);
    KeyLen(k);
    if Utf8Len(k) < 8 || Utf8Len(k) > 128 then Err(BadLength)
    else if exists c :: c in k && !KeyChar(c) then Err(BadCharacter)
    else Ok(k)
  }

  lemma KeyLen(k: string)
    ensures (forall c :: c in k ==> KeyChar(c)) ==> Utf8Len(k) == |k|
  {
    if forall c :: c in k ==> KeyChar(c) {
      AsciiLen(k);
    }
  }

  lemma {:induction false} AsciiLen(k: string)
    requires forall c :: c in k ==> KeyChar(c)
    ensures Utf8Len(k) == |k|
  {
    if k != "" {
      assert k[|k| - 1] in k;
      AsciiLen(k[..|k| - 1]);
    }
  }

  /** What the store said to `begin`; asked only when a valid key came with a non-stream request. */
  datatype BeginReply = Begun(answer: I.Begin) | StoreDown

  datatype Gate =
    | Turned(status: int)
    | Replayed(status: int, body: J.Json)
    | Go(rec: Option<nat>)

  predicate AsksStore(header: Option<string>, stream: bool) {
    header.Some? && Trim(header.value) != "" && !stream && ValidateKey(Trim(header.value)).Ok?
  }

  function Register(header: Option<string>, stream: bool, begun: BeginReply): Gate {
    if header.None? || Trim(header.value) == "" then Go(None)
    else if stream then Turned(400)
    else if ValidateKey(Trim(header.value)).Err? then Turned(400)
    else match begun
      case Begun(Proceed(rid)) => Go(Some(rid))
      case Begun(Replay(status, response)) => Replayed(status, response)
      case Begun(Conflict(_)) => Turned(409)
      case StoreDown => Turned(500)
  }

  datatype Final = Early(gate: Gate) | Ran(report: Report)

  function Settles(f: Final): seq<Settle> {
    match f
    case Early(_) => []
    case Ran(report) => report.settles
  }

  /** The record `begin` handed out to this request. */
  function HandedOut(header: Option<string>, stream: bool, begun: BeginReply): Option<nat> {
    if AsksStore(header, stream) && begun.Begun? && begun.answer.Proceed? then Some(begun.answer.rid) else None
  }

  /** Exactly one settlement of the record `begin` handed out, none when it handed out none. */
  ghost predicate SettledOnce(header: Option<string>, stream: bool, begun: BeginReply, f: Final) {
    match HandedOut(header, stream, begun)
    case Some(rid) => |Settles(f)| == 1 && Settles(f)[0].rid == rid
    case None => Settles(f) == []
  }

  /** A record is completed by exactly the answers that are sent, with the status and body sent. */
  ghost predicate SettledAsAnswered(f: Final) {
    forall s :: s in Settles(f) && f.Ran? ==>
      if s.Completes? then f.report.reply == Success(s.status, s.body)
      else f.report.reply.Abort? || f.report.reply.Exhausted?
  }

  /** Whose answer was settled: the text upstreams give 200, the image upstreams 200 or, with a task, 202. */
  ghost predicate SettledFromUpstream(f: Final, deliver: (nat, nat) -> Delivery) {
    forall s :: s in Settles(f) && s.Completes? ==>
      s.status == 200 && s.taskId == None && exists c: nat, k: nat :: deliver(c, k) == Converts(s.body)
  }

  ghost predicate SettledFromRendering(f: Final, render: (nat, nat) -> Rendering) {
    forall s :: s in Settles(f) && s.Completes? ==>
      exists c: nat, k: nat ::
        if s.taskId.None? then s.status == 200 && render(c, k) == Renders(s.body)
        else s.status == 202 && render(c, k) == Queues(s.body, s.taskId.value)
  }

  /** The key names one request: 8 to 128 letters, digits and `. _ : - /`, not counting white space around it. */
  predicate GoodKey(key: string) {
    && 8 <= |Trim(key)| <= 128
    && forall c :: c in Trim(key) ==>
         'a' <= c <= 'z' || 'A' <= c <= 'Z' || '0' <= c <= '9' || c == '.' || c == '_' || c == ':' || c == '-' || c == '/'
  }

  /** Which requests run, and what the others are answered. */
  ghost predicate Gated(header: Option<string>, stream: bool, begun: BeginReply, f: Final) {
    if header == None || AllSpace(header.value) then f.Ran?
    else if stream || !GoodKey(header.value) then f == Early(Turned(400))
    else match begun
      case Begun(Proceed(_)) => f.Ran?
      case Begun(Replay(status, body)) => f == Early(Replayed(status, body))
      case Begun(Conflict(_)) => f == Early(Turned(409))
      case StoreDown => f == Early(Turned(500))
  }

  lemma RegisterGates(header: Option<string>, stream: bool, begun: BeginReply, f: Final)
    requires if Register(header, stream, begun).Go? then f.Ran? else f == Early(Register(header, stream, begun))
    ensures Gated(header, stream, begun, f)
  {
    if header.Some? {
      var key := header.value;
      BlankIsSpace(key);
      TrimIsTrimmed(key);
      TrimIsTrimmed(Trim(key));
      assert Trim(Trim(key)) == Trim(key);
    }
  }

  lemma GoodKeyAsks(key: string)
    requires GoodKey(key)
    ensures AsksStore(Some(key), false) && !AllSpace(key)
  {
    BlankIsSpace(key);
    TrimIsTrimmed(key);
    TrimIsTrimmed(Trim(key));
  }

  lemma LastOutcome(routes: seq<Route>, world: World, visits: seq<Visit>)
    requires IsRun(routes, world, visits)
    ensures var last := visits[|visits| - 1];
      last.ending.Ended? ==> last.ending.outcome == world.exec(|visits| - 1, last.retries)
  {
    var n := |visits| - 1;
    assert IsVisit(routes[n], world, n, visits[n]);
  }

  /** run_gateway from the idempotency header on. */
  method RunGateway(attempts: seq<Attempt>, convert: nat -> Build, deliver: (nat, nat) -> Delivery,
                    header: Option<string>, stream: bool, begun: BeginReply) returns (f: Final)
    requires attempts != []
    ensures Gated(header, stream, begun, f)
    ensures SettledOnce(header, stream, begun, f) && SettledAsAnswered(f) && SettledFromUpstream(f, deliver)
    ensures f.Ran? ==> exists visits ::
      IsRun(AttemptRoutes(attempts), GatewayWorld(attempts, convert, deliver, stream), visits)
      && f.report == ReportOf(visits, HandedOut(header, stream, begun))
  {
    var gate := Register(header, stream, begun);
    RegisterGates(header, stream, begun, if gate.Go? then Ran(Report(StreamOut, 0, [])) else Early(gate));
    if !gate.Go? {
      return Early(gate);
    }
    var report, visits := GatewayLoop(attempts, convert, deliver, stream, gate.rec);
    LastOutcome(AttemptRoutes(attempts), GatewayWorld(attempts, convert, deliver, stream), visits);
    GatewayOutcomes(attempts, convert, deliver, stream, |visits| - 1, visits[|visits| - 1].retries);
    f := Ran(report);
  }

  /** images_generations from the idempotency header on. */
  method RunImages(routes: seq<Route>, render: (nat, nat) -> Rendering, header: Option<string>, begun: BeginReply)
    returns (f: Final)
    requires routes != []
    ensures Gated(header, false, begun, f)
    ensures SettledOnce(header, false, begun, f) && SettledAsAnswered(f) && SettledFromRendering(f, render)
    ensures f.Ran? ==> exists visits ::
      IsRun(routes, ImagesWorld(render), visits) && f.report == ReportOf(visits, HandedOut(header, false, begun))
  {
    var gate := Register(header, false, begun);
    RegisterGates(header, false, begun, if gate.Go? then Ran(Report(StreamOut, 0, [])) else Early(gate));
    if !gate.Go? {
      return Early(gate);
    }
    var report, visits := ImagesLoop(routes, render, gate.rec);
    LastOutcome(routes, ImagesWorld(render), visits);
    ImagesOutcomes(render, |visits| - 1, visits[|visits| - 1].retries);
    f := Ran(report);
  }

  // ------------------------------------------------------- two calls, one key

  /** The table after a call: its settlements applied. */
  function Booked(rows: I.Rows, settles: seq<Settle>): I.Rows {
    if settles == [] then rows
    else
      match settles[0]
      case Completes(rid, status, body, taskId) => Booked(I.CompletedRow(rows, rid, status, body, taskId), settles[1..])
      case Fails(rid) => Booked(I.FailedRow(rows, rid), settles[1..])
  }

  /** What either endpoint promises about a call. */
  ghost predicate Call(header: Option<string>, stream: bool, begun: BeginReply, f: Final) {
    Gated(header, stream, begun, f) && SettledOnce(header, stream, begun, f) && SettledAsAnswered(f)
  }

  /** A call that got its key and was answered decides what the next call with that key is answered, until the
      record expires: the same parameters get the very answer without a run, others are refused; and if the first
      call failed, the next one runs and settles the same record. */
  lemma SecondCall(rows: I.Rows, now: int, rid: nat, header: Option<string>, first: Final,
                   later: int, fp: string, newId: nat, second: Final)
    requires I.KeysUnique(rows) && rid in rows && later < rows[rid].expiresAt
    requires header.Some? && GoodKey(header.value)
    requires Call(header, false, Begun(I.Proceed(rid)), first)
    requires var after := Booked(rows, Settles(first));
      Call(header, false, Begun(I.BeginAlone(after, later, rows[rid].keyId, rows[rid].idemKey, fp, newId).1), second)
    ensures first.Ran? && !first.report.reply.StreamOut?
    ensures first.report.reply.Success? && fp == rows[rid].fingerprint ==>
      second == Early(Replayed(first.report.reply.status, first.report.reply.body))
    ensures fp != rows[rid].fingerprint ==> second == Early(Turned(409))
    ensures !first.report.reply.Success? && fp == rows[rid].fingerprint ==>
      second.Ran? && |Settles(second)| == 1 && Settles(second)[0].rid == rid
  {
    GoodKeyAsks(header.value);
    var s := Settles(first)[0];
    assert Settles(first) == [s] && s in Settles(first);
    var after := Booked(rows, [s]);
    BookedOne(rows, s);
    NextBegin(rows, rid, later, fp, newId, s);
  }

  lemma BookedOne(rows: I.Rows, s: Settle)
    ensures Booked(rows, [s])
      == if s.Completes? then I.CompletedRow(rows, s.rid, s.status, s.body, s.taskId) else I.FailedRow(rows, s.rid)
  {
  }

  lemma NextBegin(rows: I.Rows, rid: nat, later: int, fp: string, newId: nat, s: Settle)
    requires I.KeysUnique(rows) && rid in rows && later < rows[rid].expiresAt && s.rid == rid
    ensures I.BeginAlone(Booked(rows, [s]), later, rows[rid].keyId, rows[rid].idemKey, fp, newId).1
         == if fp != rows[rid].fingerprint then I.Conflict(I.ParametersDiffer)
            else if s.Completes? then I.Replay(s.status, s.body) else I.Proceed(rid)
  {
    BookedOne(rows, s);
    var after := Booked(rows, [s]);
    assert I.KeysUnique(after) && I.Live(after[rid], later, rows[rid].keyId, rows[rid].idemKey);
  }

  // ------------------------------------------------------------ what errors do

  /** The first error of the first candidate decides what happens next: a time-out, a refused connection or a
      listed status is tried again if the route may; else the request moves on to the next candidate, unless the
      error says that the request itself is at fault (400, 404, 405, 413, 422). */
  lemma FirstErrorDecides(routes: seq<Route>, world: World, visits: seq<Visit>)
    requires IsRun(routes, world, visits) && |routes| >= 2 && world.build(0) == Built && world.exec(0, 0).Failed?
    requires !routes[0].lockUpstream
    ensures var e := world.exec(0, 0).error;
      var again := e == Timeout || e == Connect || exists s :: e == Status(s) && s in routes[0].retryStatusCodes;
      && (Executed(visits, 0, 1) <==> again && routes[0].retries > 0)
      && (!Executed(visits, 0, 1) ==>
            (|visits| == 1 <==> e in {Status(400), Status(404), Status(405), Status(413), Status(422)}))
  {
    assert IsVisit(routes[0], world, 0, visits[0]);
    var more := Again(routes[0], world, 0, 0);
  }

  /** A first candidate that times out at every try, and a second that answers: one failed candidate is logged. */
  lemma TimeoutsThenAnswer(routes: seq<Route>, world: World, visits: seq<Visit>, rid: nat)
    requires IsRun(routes, world, visits) && |routes| >= 2 && world.build(0) == Built && world.build(1) == Built
    requires !routes[0].lockUpstream && routes[0].retries >= 0
    requires forall k: nat :: world.exec(0, k) == Failed(Timeout)
    requires world.exec(1, 0).Answered?
    ensures var a := world.exec(1, 0);
      && visits == [Visit(routes[0].retries, Ended(Failed(Timeout))), Visit(0, Ended(a))]
      && ReportOf(visits, Some(rid)) == Report(Success(a.status, a.body), 1, [Completes(rid, a.status, a.body, a.taskId)])
  {
    assert IsVisit(routes[0], world, 0, visits[0]);
    var more := Again(routes[0], world, 0, visits[0].retries);
    assert visits[0].retries > 0 ==> Again(routes[0], world, 0, visits[0].retries - 1);
    assert IsVisit(routes[1], world, 1, visits[1]);
    assert !Again(routes[1], world, 1, 0);
  }

  /** A single candidate that times out at every try: its retries are logged, and the record is failed. */
  lemma TimeoutsOnly(routes: seq<Route>, world: World, visits: seq<Visit>, rid: nat)
    requires IsRun(routes, world, visits) && |routes| == 1 && world.build(0) == Built
    requires forall k: nat :: world.exec(0, k) == Failed(Timeout)
    ensures ReportOf(visits, Some(rid))
         == Report(Exhausted(Ended(Failed(Timeout))),
                   if routes[0].lockUpstream || routes[0].retries < 0 then 0 else routes[0].retries, [Fails(rid)])
  {
    assert IsVisit(routes[0], world, 0, visits[0]);
    var more := Again(routes[0], world, 0, visits[0].retries);
    assert visits[0].retries > 0 ==> Again(routes[0], world, 0, visits[0].retries - 1);
  }
}

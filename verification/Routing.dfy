/**
 Choosing and ordering the upstreams a request may try
 (src/routing/mod.rs:116-150, src/gateway.rs:723-766, src/gateway.rs:979-990).
 */
module Routing {
  import opened Wrappers
  import opened Sorting
  import Glob

  datatype Route = Route(
    id: nat, modelPattern: string, upstreamId: nat, priority: int, weight: int, enabled: bool,
    retries: int, retryStatusCodes: seq<int>, lockUpstream: bool, sortOrder: int)

  datatype Protocol = OpenaiChat | OpenaiResponses | Anthropic | Gemini

  /** `protocols` is what the upstream speaks, `protocolPriority` the order tried for conversion. */
  datatype Upstream = Upstream(id: nat, protocols: seq<Protocol>, protocolPriority: seq<Protocol>)

  datatype Candidate = Candidate(route: Route, upstream: Upstream)

  datatype Mode = Passthrough | Convert(target: Protocol)

  datatype Attempt = Attempt(candidate: Candidate, mode: Mode)

  // ----------------------------------------------------------- match_routes

  predicate RouteBefore(a: Route, b: Route) {
    a.priority < b.priority || (a.priority == b.priority && a.sortOrder <= b.sortOrder)
  }

  ghost predicate Applies(r: Route, model: string) {
    r.enabled && Glob.Matches(r.modelPattern, model)
  }

  ghost function Applicable(routes: seq<Route>, model: string): seq<Route> {
    if routes == [] then []
    else (if Applies(routes[0], model) then [routes[0]] else []) + Applicable(routes[1..], model)
  }

  lemma RouteBeforeIsOrder()
    ensures TotalPreorder(RouteBefore)
  {
  }

  method FilterRoutes(model: string, routes: seq<Route>) returns (matched: seq<Route>)
    ensures matched == Applicable(routes, model)
  {
    hide Glob.Matches, Applicable;
    matched := [];
    var i := 0;
    NoneApplicable(routes, model);
    while i < |routes|
      invariant 0 <= i <= |routes|
      invariant Applicable(routes, model) == matched + Applicable(routes[i..], model)
    {
      var hit := Glob.PatternMatches(routes[i].modelPattern, model);
      ApplicableNext(routes, model, i);
      if routes[i].enabled && hit {
        matched := matched + [routes[i]];
      }
      i := i + 1;
    }
  }

  lemma NoneApplicable(routes: seq<Route>, model: string)
    ensures Applicable(routes, model) == [] + Applicable(routes[0..], model) && Applicable(routes[|routes|..], model) == []
  {
    assert routes[0..] == routes;
  }

  lemma ApplicableNext(routes: seq<Route>, model: string, i: nat)
    requires i < |routes|
    ensures Applicable(routes[i..], model)
         == (if Applies(routes[i], model) then [routes[i]] else []) + Applicable(routes[i + 1..], model)
  {
    hide Glob.Matches;
    assert routes[i..][1..] == routes[i + 1..];
  }

  method MatchRoutes(model: string, routes: seq<Route>) returns (matched: seq<Route>)
    ensures multiset(matched) == multiset(Applicable(routes, model))
    ensures SortedBy(matched, RouteBefore)
    ensures forall r :: r in matched <==> r in routes && r.enabled && Glob.Matches(r.modelPattern, model)
    ensures InTurn(matched)
  {
    ApplicableAre(routes, model);
    hide Applicable, RouteBefore, Applies;
    matched := FilterRoutes(model, routes);
    RouteBeforeIsOrder();
    ghost var found := matched;
    matched := Sort(matched, RouteBefore);
    forall r ensures r in matched <==> r in found {
      assert r in multiset(matched) <==> r in multiset(found);
    }
    SortedInTurn(matched);
  }

  lemma {:induction false} ApplicableAre(routes: seq<Route>, model: string)
    ensures forall r :: r in Applicable(routes, model) <==> r in routes && r.enabled && Glob.Matches(r.modelPattern, model)
  {
    hide Glob.Matches;
    if routes != [] {
      ApplicableAre(routes[1..], model);
    }
  }

  /** A lower priority number comes first, and within a priority a lower sort order. */
  ghost predicate InTurn(routes: seq<Route>) {
    forall i, j :: 0 <= i < j < |routes| ==>
      routes[i].priority < routes[j].priority
      || (routes[i].priority == routes[j].priority && routes[i].sortOrder <= routes[j].sortOrder)
  }

  lemma SortedInTurn(routes: seq<Route>)
    requires SortedBy(routes, RouteBefore)
    ensures InTurn(routes)
  {
  }

  // ---------------------------------------------------------- weighted_pick

  function WeightOf(r: Route): (w: nat)
    ensures w >= 1
  {
    if r.weight <= 0 then 1 else r.weight
  }

  function TotalWeight(routes: seq<Route>): nat {
    if routes == [] then 0 else TotalWeight(routes[..|routes| - 1]) + WeightOf(routes[|routes| - 1])
  }

  lemma {:induction false} TotalWeightGrows(routes: seq<Route>, i: nat, j: nat)
    requires i <= j <= |routes|
    ensures TotalWeight(routes[..i]) <= TotalWeight(routes[..j])
    ensures i < j ==> TotalWeight(routes[..i]) + WeightOf(routes[i]) <= TotalWeight(routes[..j])
    decreases j - i
  {
    if i < j {
      TotalWeightGrows(routes, i, j - 1);
      assert routes[..j][..j - 1] == routes[..j - 1];
    }
  }

  /** The draw falls into the stretch of the weight line that belongs to route `i`. */
  predicate DrawnBy(routes: seq<Route>, draw: nat, i: nat)
    requires i < |routes|
  {
    TotalWeight(routes[..i]) <= draw < TotalWeight(routes[..i]) + WeightOf(routes[i])
  }

  /** `draw` is what `random_range(0..total)` gave. */
  method WeightedPick(routes: seq<Route>, draw: nat) returns (picked: Option<Route>)
    requires routes != [] ==> draw < TotalWeight(routes)
    ensures routes == [] <==> picked.None?
    ensures picked.Some? ==> exists i :: 0 <= i < |routes| && routes[i] == picked.value && DrawnBy(routes, draw, i)
  {
    if routes == [] {
      return None;
    }
    assert routes[..|routes|] == routes;
    var left := draw;
    var i := 0;
    while i < |routes|
      invariant 0 <= i <= |routes|
      invariant 0 <= left && left + TotalWeight(routes[..i]) == draw
    {
      assert routes[..i + 1][..i] == routes[..i];
      var w := WeightOf(routes[i]);
      if left < w {
        assert DrawnBy(routes, draw, i);
        return Some(routes[i]);
      }
      left := left - w;
      i := i + 1;
    }
    assert false;
  }

  /** Every draw below the total selects exactly one route. */
  lemma {:induction false} DrawSelectsOne(routes: seq<Route>, draw: nat) returns (i: nat)
    requires draw < TotalWeight(routes)
    ensures i < |routes| && DrawnBy(routes, draw, i)
    ensures forall j :: 0 <= j < |routes| && DrawnBy(routes, draw, j) ==> j == i
  {
    i := 0;
    assert routes[..|routes|] == routes;
    while i < |routes| && TotalWeight(routes[..i + 1]) <= draw
      invariant i <= |routes| && TotalWeight(routes[..i]) <= draw
    {
      i := i + 1;
    }
    assert routes[..i + 1][..i] == routes[..i];
    forall j | 0 <= j < |routes| && DrawnBy(routes, draw, j) ensures j == i {
      if i < j {
        TotalWeightGrows(routes, i, j);
      } else {
        TotalWeightGrows(routes, j, i);
      }
    }
  }

  /** The draws that select route `i`. */
  function Draws(routes: seq<Route>, i: nat): set<nat>
    requires i < |routes|
  {
    set d: nat | d < TotalWeight(routes) && DrawnBy(routes, d, i)
  }

  function Span(lo: nat, n: nat): (s: set<nat>)
    ensures forall d :: d in s <==> lo <= d < lo + n
    ensures |s| == n
  {
    if n == 0 then {} else Span(lo, n - 1) + {lo + n - 1}
  }

  /** As many draws select a route as it has weight, so weights are the odds. */
  lemma WeightsAreOdds(routes: seq<Route>, i: nat)
    requires i < |routes|
    ensures |Draws(routes, i)| == WeightOf(routes[i])
    ensures |Draws(routes, i)| == if routes[i].weight >= 1 then routes[i].weight else 1
  {
    TotalWeightGrows(routes, i, |routes|);
    assert routes[..|routes|] == routes;
    assert Draws(routes, i) == Span(TotalWeight(routes[..i]), WeightOf(routes[i]));
  }

  // ------------------------------------------------------- order_candidates

  predicate HeavierFirst(a: Candidate, b: Candidate) {
    a.route.weight > b.route.weight || (a.route.weight == b.route.weight && a.route.sortOrder <= b.route.sortOrder)
  }

  ghost predicate DistinctRoutes(cands: seq<Candidate>) {
    forall i, j :: 0 <= i < j < |cands| ==> cands[i].route.id != cands[j].route.id
  }

  ghost predicate ByPriority(cands: seq<Candidate>) {
    forall i, j :: 0 <= i < j < |cands| ==> cands[i].route.priority <= cands[j].route.priority
  }

  /** Within a priority group everything after the pick descends by weight, then ascends by sort order. */
  ghost predicate TailsSorted(cands: seq<Candidate>) {
    forall i, j :: 0 < i < j < |cands| && cands[i - 1].route.priority == cands[j].route.priority ==>
      HeavierFirst(cands[i], cands[j])
  }

  function WithPriority(cands: seq<Candidate>, p: int): seq<Candidate> {
    if cands == [] then []
    else
      var rest := WithPriority(cands[..|cands| - 1], p);
      var c := cands[|cands| - 1];
      if c.route.priority == p then rest + [c] else rest
  }

  lemma {:induction false} WithPriorityIs(cands: seq<Candidate>, p: int)
    ensures forall c :: c in WithPriority(cands, p) <==> c in cands && c.route.priority == p
    ensures DistinctRoutes(cands) ==> DistinctRoutes(WithPriority(cands, p))
  {
    if cands != [] {
      var init := cands[..|cands| - 1];
      WithPriorityIs(init, p);
      assert cands == init + [cands[|cands| - 1]];
      var w := WithPriority(init, p);
      assert forall i :: 0 <= i < |w| ==> w[i] in init;
    }
  }

  /** Candidates whose priority is in `ps`, as a multiset. */
  ghost function InPriorities(cands: seq<Candidate>, ps: set<int>): multiset<Candidate> {
    if cands == [] then multiset{}
    else
      var rest := InPriorities(cands[..|cands| - 1], ps);
      var c := cands[|cands| - 1];
      if c.route.priority in ps then rest + multiset{c} else rest
  }

  lemma {:induction false} InPrioritiesGrows(cands: seq<Candidate>, ps: set<int>, p: int)
    requires p !in ps
    ensures InPriorities(cands, ps + {p}) == InPriorities(cands, ps) + multiset(WithPriority(cands, p))
  {
    if cands != [] {
      InPrioritiesGrows(cands[..|cands| - 1], ps, p);
    }
  }

  lemma {:induction false} InNoPriorities(cands: seq<Candidate>)
    ensures InPriorities(cands, {}) == multiset{}
  {
    if cands != [] {
      InNoPriorities(cands[..|cands| - 1]);
    }
  }

  lemma {:induction false} InAllPriorities(cands: seq<Candidate>, ps: set<int>)
    requires forall c :: c in cands ==> c.route.priority in ps
    ensures InPriorities(cands, ps) == multiset(cands)
  {
    if cands != [] {
      InAllPriorities(cands[..|cands| - 1], ps);
      assert cands == cands[..|cands| - 1] + [cands[|cands| - 1]];
    }
  }

  /** BTreeMap::entry(priority).or_default().push(c) for every candidate. */
  method GroupByPriority(cands: seq<Candidate>) returns (groups: map<int, seq<Candidate>>)
    ensures forall p :: p in groups <==> exists c :: c in cands && c.route.priority == p
    ensures forall p :: p in groups ==> groups[p] == WithPriority(cands, p) && groups[p] != []
  {
    groups := map[];
    var i := 0;
    while i < |cands|
      invariant 0 <= i <= |cands|
      invariant forall p :: p !in groups ==> WithPriority(cands[..i], p) == []
      invariant forall p :: p in groups ==> groups[p] == WithPriority(cands[..i], p) && groups[p] != []
    {
      var c := cands[i];
      var p := c.route.priority;
      assert cands[..i + 1][..i] == cands[..i];
      groups := groups[p := (if p in groups then groups[p] else []) + [c]];
      i := i + 1;
    }
    assert cands[..i] == cands;
    forall p ensures p in groups <==> exists c :: c in cands && c.route.priority == p {
      WithPriorityIs(cands, p);
      if p in groups { assert groups[p][0] in cands; }
    }
  }

  lemma HeavierFirstIsOrder()
    ensures TotalPreorder(HeavierFirst)
  {
  }

  /** The position of the picked route in its group. */
  method PickIn(group: seq<Candidate>, draw: nat) returns (i: nat)
    requires group != [] && DistinctRoutes(group) && draw < TotalWeight(RoutesOf(group))
    ensures i < |group| && DrawnBy(RoutesOf(group), draw, i)
  {
    hide DrawnBy, TotalWeight;
    var primary := WeightedPick(RoutesOf(group), draw);
    ghost var k :| 0 <= k < |group| && RoutesOf(group)[k] == primary.value && DrawnBy(RoutesOf(group), draw, k);
    assert group[k].route == primary.value;
    i := 0;
    while group[i].route.id != primary.value.id
      invariant i < |group|
      invariant forall j :: 0 <= j < i ==> group[j].route.id != primary.value.id
      decreases |group| - i
    {
      i := i + 1;
    }
  }

  /** The first of `ordered` is the member of the group that the draw selects. */
  ghost predicate Picked(group: seq<Candidate>, ordered: seq<Candidate>, draw: nat) {
    ordered != [] && exists i :: 0 <= i < |group| && ordered[0] == group[i] && DrawnBy(RoutesOf(group), draw, i)
  }

  /** The pick of a group followed by its other members. */
  method OrderGroup(group: seq<Candidate>, draw: nat) returns (ordered: seq<Candidate>)
    requires group != [] && DistinctRoutes(group) && draw < TotalWeight(RoutesOf(group))
    ensures multiset(ordered) == multiset(group)
    ensures SortedBy(ordered[1..], HeavierFirst)
    ensures Picked(group, ordered, draw)
  {
    hide DrawnBy, TotalWeight, DistinctRoutes;
    var i := PickIn(group, draw);
    var rest := group[..i] + group[i + 1..];
    assert group == group[..i] + [group[i]] + group[i + 1..];
    HeavierFirstIsOrder();
    var sorted := Sort(rest, HeavierFirst);
    ordered := [group[i]] + sorted;
    assert ordered[1..] == sorted;
    assert ordered[0] == group[i] && DrawnBy(RoutesOf(group), draw, i);
  }

  function RoutesOf(group: seq<Candidate>): (r: seq<Route>)
    ensures |r| == |group| && forall i :: 0 <= i < |r| ==> r[i] == group[i].route
  {
    seq(|group|, i requires 0 <= i < |group| => group[i].route)
  }

  lemma SomeWeight(routes: seq<Route>)
    requires routes != []
    ensures TotalWeight(routes) > 0
  {
  }

  lemma EmptyOrInhabited(ps: set<int>)
    ensures ps == {} || exists p :: p in ps
  {
    if forall p :: p !in ps {
      assert ps == {};
    }
  }

  method LeastPriority(ps: set<int>) returns (least: int)
    requires ps != {}
    ensures least in ps && forall p :: p in ps ==> least <= p
  {
    EmptyOrInhabited(ps);
    least :| least in ps;
    var rest := ps - {least};
    while rest != {}
      invariant rest <= ps && least in ps && forall p :: p in ps && p !in rest ==> least <= p
      decreases rest
    {
      EmptyOrInhabited(rest);
      var p :| p in rest;
      if p < least {
        least := p;
      }
      rest := rest - {p};
    }
  }

  lemma AppendGroup(ordered: seq<Candidate>, group: seq<Candidate>, p: int)
    requires ByPriority(ordered) && TailsSorted(ordered)
    requires forall c :: c in ordered ==> c.route.priority < p
    requires forall c :: c in group ==> c.route.priority == p
    requires group != [] && SortedBy(group[1..], HeavierFirst)
    ensures ByPriority(ordered + group) && TailsSorted(ordered + group)
  {
    hide HeavierFirst, TailsSorted, ByPriority, SortedBy;
    assert forall i :: 0 <= i < |ordered| ==> ordered[i] in ordered;
    assert forall i :: 0 <= i < |group| ==> group[i] in group;
    PrioritiesAppend(ordered, group, p);
    TailsAppend(ordered, group, p);
  }

  lemma PrioritiesAppend(ordered: seq<Candidate>, group: seq<Candidate>, p: int)
    requires ByPriority(ordered)
    requires forall i :: 0 <= i < |ordered| ==> ordered[i].route.priority < p
    requires forall i :: 0 <= i < |group| ==> group[i].route.priority == p
    ensures ByPriority(ordered + group)
  {
  }

  lemma TailsAppend(ordered: seq<Candidate>, group: seq<Candidate>, p: int)
    requires TailsSorted(ordered)
    requires forall i :: 0 <= i < |ordered| ==> ordered[i].route.priority < p
    requires forall i :: 0 <= i < |group| ==> group[i].route.priority == p
    requires group != [] && SortedBy(group[1..], HeavierFirst)
    ensures TailsSorted(ordered + group)
  {
    hide HeavierFirst;
    var all, n := ordered + group, |ordered|;
    forall i, j | 0 < i < j < |all| && all[i - 1].route.priority == all[j].route.priority
      ensures HeavierFirst(all[i], all[j])
    {
      if i > n {
        assert all[i] == group[1..][i - n - 1] && all[j] == group[1..][j - n - 1];
      }
    }
  }

  /** Candidate `i` of its priority group was drawn, and leads what is ordered of the group. */
  ghost predicate LedBy(cands: seq<Candidate>, ordered: seq<Candidate>, p: int, draw: nat, i: nat) {
    var group := WithPriority(cands, p);
    i < |group| && DrawnBy(RoutesOf(group), draw, i) && WithPriority(ordered, p) != [] && WithPriority(ordered, p)[0] == group[i]
  }

  /** `draw` was within the group's total weight, and its pick comes first in the group. */
  ghost predicate PickLeads(cands: seq<Candidate>, ordered: seq<Candidate>, p: int, draw: nat) {
    draw < TotalWeight(RoutesOf(WithPriority(cands, p))) && exists i: nat :: LedBy(cands, ordered, p, draw, i)
  }

  ghost predicate AllLed(cands: seq<Candidate>, ordered: seq<Candidate>, draws: map<int, nat>) {
    forall p :: p in draws ==> PickLeads(cands, ordered, p, draws[p])
  }

  /** `draws` holds what was drawn for each priority. */
  method OrderCandidates(cands: seq<Candidate>) returns (ordered: seq<Candidate>, ghost draws: map<int, nat>)
    requires DistinctRoutes(cands)
    ensures multiset(ordered) == multiset(cands)
    ensures ByPriority(ordered) && TailsSorted(ordered)
    ensures ThenByWeight(ordered)
    ensures forall c :: c in cands ==> c.route.priority in draws
    ensures AllLed(cands, ordered, draws)
  {
    hide Ordered, DistinctRoutes, PickLeads, AllLed, Picked, SortedBy, HeavierFirst, WithPriority, InPriorities, ByPriority,
      TailsSorted, TotalWeight, RoutesOf;
    var groups := GroupByPriority(cands);
    ordered, draws := [], map[];
    var left := groups.Keys;
    ghost var done: set<int> := {};
    NothingPlaced(cands);
    while left != {}
      invariant left <= groups.Keys && done == groups.Keys - left
      invariant forall p, q :: p in done && q in left ==> p < q
      invariant Ordered(cands, done, ordered)
      invariant draws.Keys == done && AllLed(cands, ordered, draws)
      decreases left
    {
      var p := LeastPriority(left);
      ghost var draw;
      var block;
      block, draw := PickedGroup(cands, groups, p);
      AddGroup(cands, done, ordered, p, block);
      AddLead(cands, done, ordered, draws, block, p, draw);
      ordered, draws, done := ordered + block, draws[p := draw], done + {p};
      left := left - {p};
    }
    AllPlaced(cands, done, ordered);
    TailsByWeight(ordered);
  }

  /** Of two candidates of a priority, neither its first, the heavier comes first, and of equals the lower sort order. */
  ghost predicate ThenByWeight(cands: seq<Candidate>) {
    forall i, j :: 0 < i < j < |cands| && cands[i - 1].route.priority == cands[j].route.priority ==>
      cands[i].route.weight > cands[j].route.weight
      || (cands[i].route.weight == cands[j].route.weight && cands[i].route.sortOrder <= cands[j].route.sortOrder)
  }

  lemma TailsByWeight(cands: seq<Candidate>)
    ensures TailsSorted(cands) ==> ThenByWeight(cands)
  {
    if TailsSorted(cands) {
      forall i, j | 0 < i < j < |cands| && cands[i - 1].route.priority == cands[j].route.priority
        ensures cands[i].route.weight > cands[j].route.weight
          || (cands[i].route.weight == cands[j].route.weight && cands[i].route.sortOrder <= cands[j].route.sortOrder)
      {
        assert HeavierFirst(cands[i], cands[j]);
      }
    }
  }

  lemma NothingPlaced(cands: seq<Candidate>)
    ensures Ordered(cands, {}, []) && AllLed(cands, [], map[])
  {
    InNoPriorities(cands);
  }

  lemma AllPlaced(cands: seq<Candidate>, done: set<int>, ordered: seq<Candidate>)
    requires Ordered(cands, done, ordered) && forall c :: c in cands ==> c.route.priority in done
    ensures multiset(ordered) == multiset(cands) && ByPriority(ordered) && TailsSorted(ordered)
  {
    InAllPriorities(cands, done);
  }

  lemma AddLead(cands: seq<Candidate>, done: set<int>, ordered: seq<Candidate>, draws: map<int, nat>,
                block: seq<Candidate>, p: int, draw: nat)
    requires Ordered(cands, done, ordered) && draws.Keys == done && p !in done && AllLed(cands, ordered, draws)
    requires forall c :: c in block ==> c.route.priority == p
    requires draw < TotalWeight(RoutesOf(WithPriority(cands, p))) && Picked(WithPriority(cands, p), block, draw)
    ensures AllLed(cands, ordered + block, draws[p := draw])
  {
    OrderedPriorities(cands, done, ordered);
    hide Ordered, PickLeads, Picked, TotalWeight, WithPriority;
    forall q | q in draws ensures PickLeads(cands, ordered + block, q, draws[q]) {
      LeadStays(cands, ordered, block, p, q, draws[q]);
    }
    LeadBegins(cands, ordered, block, p, draw);
  }

  lemma OrderedPriorities(cands: seq<Candidate>, done: set<int>, ordered: seq<Candidate>)
    requires Ordered(cands, done, ordered)
    ensures forall c :: c in ordered ==> c.route.priority in done
  {
  }

  lemma {:induction false} WithPriorityAppend(a: seq<Candidate>, b: seq<Candidate>, p: int)
    ensures WithPriority(a + b, p) == WithPriority(a, p) + WithPriority(b, p)
  {
    if b == [] {
      assert a + b == a;
    } else {
      var n := |b| - 1;
      WithPriorityAppend(a, b[..n], p);
      assert (a + b)[..|a + b| - 1] == a + b[..n];
    }
  }

  lemma {:induction false} OnePriority(block: seq<Candidate>, p: int, q: int)
    requires forall c :: c in block ==> c.route.priority == p
    ensures WithPriority(block, q) == if p == q then block else []
  {
    if block != [] {
      OnePriority(block[..|block| - 1], p, q);
      assert block == block[..|block| - 1] + [block[|block| - 1]];
    }
  }

  lemma LeadStays(cands: seq<Candidate>, ordered: seq<Candidate>, block: seq<Candidate>, p: int, q: int, draw: nat)
    requires PickLeads(cands, ordered, q, draw) && p != q && forall c :: c in block ==> c.route.priority == p
    ensures PickLeads(cands, ordered + block, q, draw)
  {
    WithPriorityAppend(ordered, block, q);
    OnePriority(block, p, q);
    var i: nat :| LedBy(cands, ordered, q, draw, i);
    assert LedBy(cands, ordered + block, q, draw, i);
  }

  lemma {:induction false} NonePresent(ordered: seq<Candidate>, p: int)
    requires forall c :: c in ordered ==> c.route.priority != p
    ensures WithPriority(ordered, p) == []
  {
    if ordered != [] {
      NonePresent(ordered[..|ordered| - 1], p);
    }
  }

  lemma LeadBegins(cands: seq<Candidate>, ordered: seq<Candidate>, block: seq<Candidate>, p: int, draw: nat)
    requires (forall c :: c in ordered ==> c.route.priority != p) && forall c :: c in block ==> c.route.priority == p
    requires draw < TotalWeight(RoutesOf(WithPriority(cands, p))) && Picked(WithPriority(cands, p), block, draw)
    ensures PickLeads(cands, ordered + block, p, draw)
  {
    WithPriorityAppend(ordered, block, p);
    OnePriority(block, p, p);
    NonePresent(ordered, p);
    var group := WithPriority(cands, p);
    var i :| 0 <= i < |group| && block[0] == group[i] && DrawnBy(RoutesOf(group), draw, i);
    assert LedBy(cands, ordered + block, p, draw, i);
  }

  /** The candidates of the priorities `done` are placed, in order. */
  ghost predicate Ordered(cands: seq<Candidate>, done: set<int>, ordered: seq<Candidate>) {
    && (forall c :: c in ordered ==> c.route.priority in done)
    && multiset(ordered) == InPriorities(cands, done)
    && ByPriority(ordered) && TailsSorted(ordered)
  }

  /** One group of the BTreeMap with its weighted pick in front. */
  method PickedGroup(cands: seq<Candidate>, groups: map<int, seq<Candidate>>, p: int)
    returns (block: seq<Candidate>, ghost draw: nat)
    requires DistinctRoutes(cands) && p in groups && groups[p] == WithPriority(cands, p) && groups[p] != []
    ensures block != [] && multiset(block) == multiset(WithPriority(cands, p)) && SortedBy(block[1..], HeavierFirst)
    ensures forall c :: c in block ==> c.route.priority == p
    ensures draw < TotalWeight(RoutesOf(WithPriority(cands, p))) && Picked(WithPriority(cands, p), block, draw)
  {
    WithPriorityIs(cands, p);
    SomeWeight(RoutesOf(groups[p]));
    var random :| 0 <= random < TotalWeight(RoutesOf(groups[p]));
    draw := random;
    block := OrderGroup(groups[p], random);
    SameMembers(block, groups[p]);
  }

  lemma AddGroup(cands: seq<Candidate>, done: set<int>, ordered: seq<Candidate>, p: int, block: seq<Candidate>)
    requires Ordered(cands, done, ordered) && p !in done && forall q :: q in done ==> q < p
    requires block != [] && multiset(block) == multiset(WithPriority(cands, p)) && SortedBy(block[1..], HeavierFirst)
    requires forall c :: c in block ==> c.route.priority == p
    ensures Ordered(cands, done + {p}, ordered + block)
  {
    AppendGroup(ordered, block, p);
    InPrioritiesGrows(cands, done, p);
  }

  lemma SameMembers(a: seq<Candidate>, b: seq<Candidate>)
    requires multiset(a) == multiset(b)
    ensures forall c :: c in a <==> c in b
    ensures |a| == |b|
  {
    forall c ensures c in a <==> c in b {
      assert c in multiset(a) <==> c in multiset(b);
    }
    assert |multiset(a)| == |multiset(b)|;
  }

  // ----------------------------------------------- mode filter and stickiness

  /** Passthrough when the upstream speaks the entry protocol, else its best supported target. */
  function DecideMode(entry: Protocol, up: Upstream): Option<Mode> {
    if entry in up.protocols then Some(Passthrough) else FirstSupported(up.protocolPriority, up.protocols)
  }

  function FirstSupported(order: seq<Protocol>, supported: seq<Protocol>): Option<Mode> {
    if order == [] then None
    else if order[0] in supported then Some(Convert(order[0]))
    else FirstSupported(order[1..], supported)
  }

  /** Passthrough exactly for an upstream that speaks the entry protocol; otherwise the first supported
      entry of its priority list, and nothing exactly when none is supported. */
  lemma TargetIsBest(entry: Protocol, up: Upstream)
    ensures DecideMode(entry, up) == Some(Passthrough) <==> entry in up.protocols
    ensures DecideMode(entry, up).None? <==> entry !in up.protocols && forall p :: p in up.protocolPriority ==> p !in up.protocols
    ensures match DecideMode(entry, up)
      case Some(Convert(t)) =>
        entry !in up.protocols && exists i: nat :: BestTarget(up.protocolPriority, up.protocols, i) && up.protocolPriority[i] == t
      case _ => true
  {
    var order := up.protocolPriority;
    FirstSupportedIs(order, up.protocols);
    match FirstSupported(order, up.protocols)
    case Some(Convert(t)) =>
      var i: nat :| BestTarget(order, up.protocols, i) && order[i] == t;
      assert order[i] in order;
    case _ =>
  }

  /** Entry `i` is supported and none before it is. */
  ghost predicate BestTarget(order: seq<Protocol>, supported: seq<Protocol>, i: nat) {
    i < |order| && order[i] in supported && forall j :: 0 <= j < i ==> order[j] !in supported
  }

  lemma {:induction false} FirstSupportedIs(order: seq<Protocol>, supported: seq<Protocol>)
    ensures match FirstSupported(order, supported)
      case Some(Convert(t)) => exists i: nat :: BestTarget(order, supported, i) && order[i] == t
      case Some(Passthrough) => false
      case None => forall p :: p in order ==> p !in supported
  {
    if order != [] {
      FirstSupportedIs(order[1..], supported);
      assert order == [order[0]] + order[1..];
      if order[0] in supported {
        assert BestTarget(order, supported, 0);
      } else {
        match FirstSupported(order[1..], supported)
        case Some(Convert(t)) =>
          var i: nat :| BestTarget(order[1..], supported, i) && order[1..][i] == t;
          assert BestTarget(order, supported, i + 1);
        case _ =>
      }
    }
  }

  function Servable(entry: Protocol, cands: seq<Candidate>): seq<Attempt> {
    if cands == [] then []
    else
      var rest := Servable(entry, cands[..|cands| - 1]);
      var c := cands[|cands| - 1];
      match DecideMode(entry, c.upstream)
      case Some(mode) => rest + [Attempt(c, mode)]
      case None => rest
  }

  ghost predicate AttemptsByPriority(attempts: seq<Attempt>) {
    forall i, j :: 0 <= i < j < |attempts| ==>
      attempts[i].candidate.route.priority <= attempts[j].candidate.route.priority
  }

  predicate Stands(entry: Protocol, cands: seq<Candidate>, a: Attempt, i: nat) {
    i < |cands| && a.candidate == cands[i] && DecideMode(entry, cands[i].upstream) == Some(a.mode)
  }

  /** The k-th attempt is the candidate at `at[k]`; the positions ascend and name every servable candidate. */
  ghost predicate InOrder(entry: Protocol, cands: seq<Candidate>, attempts: seq<Attempt>, at: seq<nat>) {
    && |at| == |attempts|
    && (forall k, l :: 0 <= k < l < |at| ==> at[k] < at[l])
    && (forall k :: 0 <= k < |at| ==> Stands(entry, cands, attempts[k], at[k]))
    && (forall j :: 0 <= j < |cands| && DecideMode(entry, cands[j].upstream).Some? ==> j in at)
  }

  /** The filter drops exactly the candidates without a mode and keeps the order of the rest. */
  lemma {:induction false} ServableKeepsOrder(entry: Protocol, cands: seq<Candidate>) returns (at: seq<nat>)
    ensures InOrder(entry, cands, Servable(entry, cands), at)
  {
    hide DecideMode;
    if cands == [] {
      at := [];
    } else {
      var n := |cands| - 1;
      at := ServableKeepsOrder(entry, cands[..n]);
      InOrderNext(entry, cands, Servable(entry, cands[..n]), at);
      if DecideMode(entry, cands[n].upstream).Some? {
        at := at + [n];
      }
    }
  }

  lemma InOrderNext(entry: Protocol, cands: seq<Candidate>, attempts: seq<Attempt>, at: seq<nat>)
    requires cands != []
    requires var n := |cands| - 1; InOrder(entry, cands[..n], attempts, at)
    ensures var n := |cands| - 1;
      match DecideMode(entry, cands[n].upstream)
      case Some(mode) => InOrder(entry, cands, attempts + [Attempt(cands[n], mode)], at + [n])
      case None => InOrder(entry, cands, attempts, at)
  {
    hide DecideMode;
    var n := |cands| - 1;
    forall k | 0 <= k < |at| ensures Stands(entry, cands, attempts[k], at[k]) {
      assert Stands(entry, cands[..n], attempts[k], at[k]);
    }
    forall j | 0 <= j < n && DecideMode(entry, cands[j].upstream).Some? ensures j in at {
      assert cands[..n][j] == cands[j];
    }
  }

  lemma PriorityStays(entry: Protocol, cands: seq<Candidate>, attempts: seq<Attempt>, at: seq<nat>)
    requires ByPriority(cands) && InOrder(entry, cands, attempts, at)
    ensures AttemptsByPriority(attempts)
  {
    hide DecideMode;
    forall k, l | 0 <= k < l < |attempts|
      ensures attempts[k].candidate.route.priority <= attempts[l].candidate.route.priority
    {
      assert Stands(entry, cands, attempts[k], at[k]) && Stands(entry, cands, attempts[l], at[l]);
    }
  }

  lemma ServableMembers(entry: Protocol, cands: seq<Candidate>)
    ensures forall a :: a in Servable(entry, cands) <==>
      a.candidate in cands && DecideMode(entry, a.candidate.upstream) == Some(a.mode)
  {
    hide DecideMode, Servable;
    var at := ServableKeepsOrder(entry, cands);
    var all := Servable(entry, cands);
    forall a ensures a in all <==> a.candidate in cands && DecideMode(entry, a.candidate.upstream) == Some(a.mode) {
      if a in all {
        var k :| 0 <= k < |all| && all[k] == a;
        assert Stands(entry, cands, all[k], at[k]);
        assert cands[at[k]] in cands;
      }
      if a.candidate in cands && DecideMode(entry, a.candidate.upstream) == Some(a.mode) {
        var j :| 0 <= j < |cands| && cands[j] == a.candidate;
        var k :| 0 <= k < |at| && at[k] == j;
        assert Stands(entry, cands, all[k], at[k]);
      }
    }
  }

  predicate Pinned(a: Attempt, pin: nat, best: int) {
    a.candidate.upstream.id == pin && a.candidate.route.priority == best
  }

  /** `r` is `attempts` with its first pinned one moved to the front, or unchanged when it has none. */
  ghost predicate PinnedFirst(attempts: seq<Attempt>, pin: nat, r: seq<Attempt>, moved: Option<nat>) {
    && (moved.Some? <==> attempts != [] && exists a :: a in attempts && Pinned(a, pin, attempts[0].candidate.route.priority))
    && (moved.None? ==> r == attempts)
    && (moved.Some? ==>
          && moved.value < |attempts|
          && Pinned(attempts[moved.value], pin, attempts[0].candidate.route.priority)
          && (forall j :: 0 <= j < moved.value ==> !Pinned(attempts[j], pin, attempts[0].candidate.route.priority))
          && r == MovedToFront(attempts, moved.value))
  }

  /** Moves the first attempt at the pinned upstream to the front if it is in the best priority group. */
  method ReorderPinnedFirst(attempts: seq<Attempt>, pin: nat) returns (r: seq<Attempt>, ghost moved: Option<nat>)
    ensures PinnedFirst(attempts, pin, r, moved)
    ensures moved.None? ==> r == attempts && forall a :: a in attempts ==>
      a.candidate.upstream.id != pin || a.candidate.route.priority != attempts[0].candidate.route.priority
    ensures moved.Some? ==>
      && moved.value < |attempts|
      && attempts[moved.value].candidate.upstream.id == pin
      && attempts[moved.value].candidate.route.priority == attempts[0].candidate.route.priority
      && r == [attempts[moved.value]] + (attempts[..moved.value] + attempts[moved.value + 1..])
  {
    r := attempts;
    moved := None;
    if attempts != [] {
      var best := attempts[0].candidate.route.priority;
      var pos := 0;
      while pos < |attempts| && !Pinned(attempts[pos], pin, best)
        invariant 0 <= pos <= |attempts|
        invariant forall j :: 0 <= j < pos ==> !Pinned(attempts[j], pin, best)
      {
        pos := pos + 1;
      }
      if pos < |attempts| {
        moved := Some(pos);
        assert attempts[pos] in attempts;
        r := MovedToFront(attempts, pos);
      }
    }
  }

  function MovedToFront(attempts: seq<Attempt>, pos: nat): seq<Attempt>
    requires pos < |attempts|
  {
    [attempts[pos]] + (attempts[..pos] + attempts[pos + 1..])
  }

  /** Stickiness changes neither the set of attempts, nor priority order, nor the order of the others. */
  lemma PinningIsHarmless(attempts: seq<Attempt>, pos: nat)
    requires AttemptsByPriority(attempts) && pos < |attempts|
    requires attempts[pos].candidate.route.priority == attempts[0].candidate.route.priority
    ensures multiset(MovedToFront(attempts, pos)) == multiset(attempts)
    ensures AttemptsByPriority(MovedToFront(attempts, pos))
    ensures MovedToFront(attempts, pos)[1..] == attempts[..pos] + attempts[pos + 1..]
  {
    var r := MovedToFront(attempts, pos);
    assert attempts == attempts[..pos] + [attempts[pos]] + attempts[pos + 1..];
    forall i, j | 0 <= i < j < |r|
      ensures r[i].candidate.route.priority <= r[j].candidate.route.priority
    {
      var oi := if i == 0 then pos else if i <= pos then i - 1 else i;
      var oj := if j <= pos then j - 1 else j;
      assert r[i] == attempts[oi] && r[j] == attempts[oj];
    }
  }

  /** Candidates to attempts, as run_gateway prepares them (src/gateway.rs:1530-1555). */
  method PlanAttempts(entry: Protocol, cands: seq<Candidate>, pin: Option<nat>)
    returns (attempts: seq<Attempt>, ghost ordered: seq<Candidate>, ghost draws: map<int, nat>, ghost moved: Option<nat>)
    requires DistinctRoutes(cands)
    ensures AttemptsByPriority(attempts)
    ensures forall a :: a in attempts <==>
      a.candidate in cands && DecideMode(entry, a.candidate.upstream) == Some(a.mode)
    ensures multiset(ordered) == multiset(cands) && ByPriority(ordered) && TailsSorted(ordered)
    ensures forall c :: c in cands ==> c.route.priority in draws
    ensures AllLed(cands, ordered, draws)
    ensures match pin
      case Some(p) => PinnedFirst(Servable(entry, ordered), p, attempts, moved)
      case None => attempts == Servable(entry, ordered)
  {
    hide DecideMode, Servable, DistinctRoutes, PinnedFirst, InOrder, AllLed;
    var sorted;
    sorted, draws := OrderCandidates(cands);
    ordered, moved := sorted, None;
    SameMembers(ordered, cands);
    ghost var at := ServableKeepsOrder(entry, ordered);
    PriorityStays(entry, ordered, Servable(entry, ordered), at);
    ServableMembers(entry, ordered);
    attempts := ServableAttempts(entry, sorted);
    if pin.Some? {
      ghost var all := attempts;
      attempts, moved := ReorderPinnedFirst(attempts, pin.value);
      PinnedMembers(all, pin.value, attempts, moved);
    }
  }

  lemma PinnedMembers(attempts: seq<Attempt>, pin: nat, r: seq<Attempt>, moved: Option<nat>)
    requires AttemptsByPriority(attempts) && PinnedFirst(attempts, pin, r, moved)
    ensures AttemptsByPriority(r) && forall a :: a in r <==> a in attempts
  {
    if moved.Some? {
      PinningIsHarmless(attempts, moved.value);
      forall a ensures a in r <==> a in attempts {
        assert a in multiset(r) <==> a in multiset(attempts);
      }
    }
  }

  /** The filter over the ordered candidates. */
  method ServableAttempts(entry: Protocol, sorted: seq<Candidate>) returns (attempts: seq<Attempt>)
    ensures attempts == Servable(entry, sorted)
  {
    hide DecideMode;
    attempts := [];
    var i := 0;
    while i < |sorted|
      invariant 0 <= i <= |sorted|
      invariant attempts == Servable(entry, sorted[..i])
    {
      assert sorted[..i + 1][..i] == sorted[..i];
      var mode := DecideMode(entry, sorted[i].upstream);
      if mode.Some? {
        attempts := attempts + [Attempt(sorted[i], mode.value)];
      }
      i := i + 1;
    }
    assert sorted[..i] == sorted;
  }
}

/** From a route to the list of endpoints to dial: nobody is lost, nobody is dialled at a loss when that is
    forbidden. */
module Routing {
  import opened Basics
  import opened Order
  import opened DialOrder

  // ---- endpoints of one carrier ----

  datatype Endpoint = Endpoint(id: nat, priority: int, weight: int, enabled: bool)

  datatype Balancing = Failover | RoundRobin | Weighted

  /** A carrier's endpoints known to be unreachable: parked after failures, or with their gateway down. */
  datatype Health = Health(dead: set<nat>, down: set<nat>)

  predicate IsUsable(e: Endpoint, h: Health) {
    e.enabled && e.id !in h.dead && e.id !in h.down
  }

  function Usable(eps: seq<Endpoint>, h: Health): (u: seq<Endpoint>)
  {
    if eps == [] then []
    else
      var rest, e := Usable(eps[..|eps| - 1], h), eps[|eps| - 1];
      if IsUsable(e, h) then rest + [e] else rest
  }

  /** out is a dial order of the usable endpoints, cut to max when max is positive. */
  ghost predicate IsDialList(out: seq<Endpoint>, eps: seq<Endpoint>, lb: Balancing, h: Health, max: int) {
    var u := Usable(eps, h);
    && multiset(out) <= multiset(u)
    && |out| == (if 0 < max < |u| then max else |u|)
    && Arranged(lb, out)
  }

  /** Failover goes by priority; otherwise everything after the drawn one follows by share. */
  ghost predicate Arranged(lb: Balancing, s: seq<Endpoint>) {
    if lb.Failover? then forall i, j | 0 <= i < j < |s| :: s[i].priority <= s[j].priority
    else forall i, j | 1 <= i < j < |s| :: FollowsByShare(lb, s[i], s[j])
  }

  function Candidates(usable: seq<Endpoint>, lb: Balancing): (c: seq<Candidate>)
    ensures |c| == |usable|
    ensures forall i | 0 <= i < |c| ::
      c[i] == Candidate(usable[i].priority, if lb.RoundRobin? then 100 else usable[i].weight, false, 0.0, 0.0)
  {
    seq(|usable|, i requires 0 <= i < |usable| =>
      Candidate(usable[i].priority, if lb.RoundRobin? then 100 else usable[i].weight, false, 0.0, 0.0))
  }

  function Picked(usable: seq<Endpoint>, order: seq<nat>): (p: seq<Endpoint>)
    requires forall k | 0 <= k < |order| :: order[k] < |usable|
    ensures |p| == |order| && forall k | 0 <= k < |p| :: p[k] == usable[order[k]]
  {
    seq(|order|, k requires 0 <= k < |order| => usable[order[k]])
  }

  lemma Cancel(a: multiset<nat>, b: multiset<nat>, x: nat)
    requires a + multiset{x} == b + multiset{x}
    ensures a == b
  {
    assert a == a + multiset{x} - multiset{x};
    assert b == b + multiset{x} - multiset{x};
  }

  lemma {:induction false} PickedPermutes(usable: seq<Endpoint>, order: seq<nat>)
    requires multiset(order) == multiset(Indexes(|usable|))
    ensures |order| == |usable| && forall k | 0 <= k < |order| :: order[k] < |usable|
    ensures multiset(Picked(usable, order)) == multiset(usable)
    decreases |usable|
  {
    OrderBounds(order, |usable|);
    if usable != [] {
      var n := |usable| - 1;
      var j := LastOut(order, n);
      var rest := order[..j] + order[j + 1..];
      PickedPermutes(usable[..n], rest);
      PickedRemoved(usable, order, j, rest);
      assert usable == usable[..n] + [usable[n]];
    }
  }

  lemma OrderBounds(order: seq<nat>, n: nat)
    requires multiset(order) == multiset(Indexes(n))
    ensures |order| == n && forall k | 0 <= k < |order| :: order[k] < n
  {
    assert |multiset(order)| == |order| && |multiset(Indexes(n))| == n;
    forall k | 0 <= k < |order|
      ensures order[k] < n
    {
      assert order[k] in multiset(order);
      assert order[k] in Indexes(n);
    }
  }

  /** Taking the largest index out of an arrangement leaves one of the others. */
  lemma LastOut(order: seq<nat>, n: nat) returns (j: nat)
    requires multiset(order) == multiset(Indexes(n + 1))
    ensures j < |order| && order[j] == n && multiset(order[..j] + order[j + 1..]) == multiset(Indexes(n))
  {
    assert Indexes(n + 1) == Indexes(n) + [n];
    assert n in multiset(order);
    j :| 0 <= j < |order| && order[j] == n;
    RemoveOne(order, j);
    assert multiset(Indexes(n + 1)) == multiset(Indexes(n)) + multiset{n};
    Cancel(multiset(order[..j] + order[j + 1..]), multiset(Indexes(n)), n);
  }

  lemma PickedRemoved(usable: seq<Endpoint>, order: seq<nat>, j: nat, rest: seq<nat>)
    requires j < |order| && |usable| > 0 && order[j] == |usable| - 1 && rest == order[..j] + order[j + 1..]
    requires forall k | 0 <= k < |order| :: order[k] < |usable|
    requires forall k | 0 <= k < |rest| :: rest[k] < |usable| - 1
    ensures multiset(Picked(usable, order))
        == multiset(Picked(usable[..|usable| - 1], rest)) + multiset{usable[|usable| - 1]}
  {
    var p := Picked(usable, order);
    assert Picked(usable[..|usable| - 1], rest) == p[..j] + p[j + 1..];
    assert p == p[..j] + [p[j]] + p[j + 1..];
  }

  /** Behind the drawn endpoint: the larger weight first, and by priority among equals. */
  predicate FollowsByShare(lb: Balancing, a: Endpoint, b: Endpoint) {
    var v, w := if lb.RoundRobin? then 100 else a.weight, if lb.RoundRobin? then 100 else b.weight;
    v > w || w <= 0 || (v == w && a.priority <= b.priority)
  }

  /** Failover orders by priority; the other modes draw the first endpoint by share. */
  function EndpointModes(lb: Balancing): Modes {
    Modes(false, false, !lb.Failover?)
  }

  /** all are the usable endpoints in the order of the plan's draws. */
  ghost predicate DrawnFrom(usable: seq<Endpoint>, lb: Balancing, rnd: bool, plan: Plan, all: seq<Endpoint>) {
    && IsPlan(Candidates(usable, lb), EndpointModes(lb), rnd, plan)
    && (forall k | 0 <= k < |plan.base| :: plan.base[k] < |usable|)
    && all == Picked(usable, plan.base)
  }

  lemma {:induction false} NobodyDegraded(cands: seq<Candidate>, s: seq<nat>)
    requires Within(cands, s) && forall i | 0 <= i < |cands| :: !cands[i].degraded
    ensures Part(cands, s, false) == s && Part(cands, s, true) == []
  {
    if s != [] {
      NobodyDegraded(cands, s[..|s| - 1]);
    }
  }

  /** The usable endpoints in dial order: the head of an arrangement of all of them, which failover sorts by
      priority. */
  method UsableEndpoints(eps: seq<Endpoint>, lb: Balancing, h: Health, max: int, rnd: bool)
    returns (out: seq<Endpoint>, ghost all: seq<Endpoint>, ghost plan: Plan)
    ensures IsDialList(out, eps, lb, h, max)
    ensures out == [] <==> Usable(eps, h) == []
    ensures multiset(all) == multiset(Usable(eps, h)) && out <= all && Arranged(lb, all)
    ensures DrawnFrom(Usable(eps, h), lb, rnd, plan, all)
    ensures lb.Weighted? && rnd && (exists k :: 0 <= k < |all| && all[k].weight > 0) ==> all[0].weight > 0
  {
    var usable := CollectUsable(eps, h);
    if |usable| == 0 {
      plan := NothingDrawn(usable, lb, rnd);
      return [], [], plan;
    }
    out, plan := Arrange(usable, lb, rnd);
    all := out;
    if 0 < max < |out| {
      CutKeepsOrder(lb, out, max);
      out := out[..max];
    }
  }

  /** The endpoints that are enabled and neither dead nor down, in their order. */
  method CollectUsable(eps: seq<Endpoint>, h: Health) returns (usable: seq<Endpoint>)
    ensures usable == Usable(eps, h)
  {
    usable := [];
    for i := 0 to |eps|
      invariant usable == Usable(eps[..i], h)
    {
      assert eps[..i + 1][..i] == eps[..i];
      if !eps[i].enabled || eps[i].id in h.dead {
        continue;
      }
      if eps[i].id in h.down {
        continue;
      }
      usable := usable + [eps[i]];
    }
    assert eps[..|eps|] == eps;
  }

  lemma NothingDrawn(usable: seq<Endpoint>, lb: Balancing, rnd: bool) returns (plan: Plan)
    requires usable == []
    ensures DrawnFrom(usable, lb, rnd, plan, [])
  {
    plan := if lb.Failover? then Keyed([], []) else ByShare([], 0, 0);
  }

  method Arrange(usable: seq<Endpoint>, lb: Balancing, rnd: bool) returns (all: seq<Endpoint>, ghost plan: Plan)
    requires usable != []
    ensures multiset(all) == multiset(usable) && |all| == |usable| && Arranged(lb, all)
    ensures DrawnFrom(usable, lb, rnd, plan, all)
    ensures lb.Weighted? && rnd && (exists k :: 0 <= k < |all| && all[k].weight > 0) ==> all[0].weight > 0
  {
    var cands, modes := Candidates(usable, lb), EndpointModes(lb);
    var order;
    ghost var drawn: nat;
    order, drawn, plan := OrderCandidates(cands, modes, rnd);
    PickedPermutes(usable, order);
    all := Picked(usable, order);
    ArrangedByModes(usable, lb, rnd, order, drawn, plan, all);
  }

  lemma ArrangedByModes(usable: seq<Endpoint>, lb: Balancing, rnd: bool, order: seq<nat>, drawn: nat, plan: Plan,
                        all: seq<Endpoint>)
    requires usable != [] && ModesFollowed(Candidates(usable, lb), EndpointModes(lb), rnd, order, drawn, plan)
    requires multiset(order) == multiset(Indexes(|usable|)) && |order| == |usable| && all == Picked(usable, order)
    ensures DrawnFrom(usable, lb, rnd, plan, all) && Arranged(lb, all)
    ensures lb.Weighted? && rnd && (exists k :: 0 <= k < |all| && all[k].weight > 0) ==> all[0].weight > 0
  {
    var cands, modes := Candidates(usable, lb), EndpointModes(lb);
    PlanIsOrder(cands, modes, rnd, order, drawn, plan);
    if lb.Failover? {
      PrioritiesFollow(usable, lb, cands, modes, order, drawn, all);
    } else {
      SharesFollow(usable, lb, cands, modes, order, drawn, all);
      DrawnHasWeight(usable, lb, cands, order, drawn, rnd, all);
    }
  }

  /** Endpoints are never degraded, so the plan's order is the dial order. */
  lemma PlanIsOrder(cands: seq<Candidate>, modes: Modes, rnd: bool, order: seq<nat>, drawn: nat, plan: Plan)
    requires ModesFollowed(cands, modes, rnd, order, drawn, plan) && forall i | 0 <= i < |cands| :: !cands[i].degraded
    ensures order == plan.base
  {
    NobodyDegraded(cands, plan.base);
  }

  lemma CutKeepsOrder(lb: Balancing, all: seq<Endpoint>, n: nat)
    requires n <= |all| && Arranged(lb, all)
    ensures Arranged(lb, all[..n]) && all[..n] <= all && multiset(all[..n]) <= multiset(all)
  {
    assert all == all[..n] + all[n..];
  }

  lemma PrioritiesFollow(usable: seq<Endpoint>, lb: Balancing, cands: seq<Candidate>, modes: Modes, order: seq<nat>,
                         drawn: nat, all: seq<Endpoint>)
    requires modes == Modes(false, false, false) && lb.Failover? && cands == Candidates(usable, lb)
    requires (forall k | 0 <= k < |order| :: order[k] < |usable|) && all == Picked(usable, order)
    requires DegradedLast(cands, modes, drawn, order)
    ensures Arranged(lb, all)
  {
    forall i, j | 0 <= i < j < |all|
      ensures all[i].priority <= all[j].priority
    {
      assert MayPrecede(cands, modes, drawn, order[i], order[j]);
    }
  }

  lemma SharesFollow(usable: seq<Endpoint>, lb: Balancing, cands: seq<Candidate>, modes: Modes, order: seq<nat>,
                     drawn: nat, all: seq<Endpoint>)
    requires modes.percent && !lb.Failover? && cands == Candidates(usable, lb)
    requires multiset(order) == multiset(Indexes(|usable|))
    requires (forall k | 0 <= k < |order| :: order[k] < |usable|) && |order| > 0 && order[0] == drawn
    requires all == Picked(usable, order)
    requires DegradedLast(cands, modes, drawn, order)
    ensures Arranged(lb, all)
  {
    NoRepeat(Indexes(|usable|), order);
    forall i, j | 1 <= i < j < |all|
      ensures FollowsByShare(lb, all[i], all[j])
    {
      assert order[i] != order[0] && MayPrecede(cands, modes, drawn, order[i], order[j]);
    }
  }

  lemma DrawnHasWeight(usable: seq<Endpoint>, lb: Balancing, cands: seq<Candidate>, order: seq<nat>, drawn: nat,
                       rnd: bool, all: seq<Endpoint>)
    requires cands == Candidates(usable, lb) && (forall k | 0 <= k < |order| :: order[k] < |usable|)
    requires all == Picked(usable, order)
    requires |order| > 0 && order[0] == drawn && (rnd && SomeShare(cands) ==> Share(cands[drawn]) > 0)
    ensures lb.Weighted? && rnd && (exists k :: 0 <= k < |all| && all[k].weight > 0) ==> all[0].weight > 0
  {
    if lb.Weighted? && rnd && exists k :: 0 <= k < |all| && all[k].weight > 0 {
      var k :| 0 <= k < |all| && all[k].weight > 0;
      assert Share(cands[order[k]]) > 0;
    }
  }

  // ---- carriers of a route ----

  datatype RouteCarrier = RouteCarrier(carrier: nat, priority: int, weight: int, inWindow: bool)

  datatype Carrier = Carrier(active: bool, maxConcurrent: int, endpoints: seq<Endpoint>, balancing: Balancing,
                             degraded: bool, quality: real)

  /** A carrier without endpoint rows is dialled at the gateway of its own record. */
  function EndpointsOf(c: Carrier): seq<Endpoint> {
    if c.endpoints == [] then [Endpoint(0, 1, 100, true)] else c.endpoints
  }

  /** e is an endpoint of the carrier: one of its rows, or without rows the gateway of its own record. */
  predicate IsEndpointOf(c: Carrier, e: Endpoint) {
    if |c.endpoints| > 0 then e in c.endpoints else e == Endpoint(0, 1, 100, true)
  }

  lemma EndpointsAre(c: Carrier, e: Endpoint)
    ensures e in EndpointsOf(c) <==> IsEndpointOf(c, e)
  {
  }

  /** Outcome of matching the called number in a carrier's rate deck. */
  datatype BuyRate = NoRate | LookupFailed | Found(perMinute: nat)

  /** What routing reads: carriers, parked endpoints, gateways that are down (by carrier and endpoint), calls in
      progress (absent when unreadable), buy rates, the sell rate, and the policies. */
  datatype World = World(carriers: map<nat, Carrier>, dead: set<nat>, down: set<(nat, nat)>, inProgress: map<nat, int>,
                         buy: map<nat, BuyRate>, sell: Option<nat>, blockNegative: bool, lossless: bool,
                         maxEndpoints: int)
  {
    function HealthOf(carrier: nat): Health {
      Health(dead, set g | g in down && g.0 == carrier :: g.1)
    }
  }

  datatype Reason = Disabled | GatewayDown | OutsideWindow | CarrierCapacity | NoBuyRate | NegativeMargin | Lossless

  datatype Verdict = Skip(reason: Reason) | Keep(buy: nat) | Abort

  predicate LosesMoney(w: World, buy: nat) {
    w.sell.Some? && buy > w.sell.value
  }

  /** The verdict on one route carrier; the checks in their order. */
  function Judge(w: World, rc: RouteCarrier): Verdict {
    if rc.carrier !in w.carriers || !w.carriers[rc.carrier].active then Skip(Disabled)
    else
      var c := w.carriers[rc.carrier];
      if Usable(EndpointsOf(c), w.HealthOf(rc.carrier)) == [] then Skip(GatewayDown)
      else if !rc.inWindow then Skip(OutsideWindow)
      else if c.maxConcurrent > 0 && rc.carrier in w.inProgress && w.inProgress[rc.carrier] >= c.maxConcurrent then
        Skip(CarrierCapacity)
      else if rc.carrier !in w.buy || w.buy[rc.carrier].NoRate? then Skip(NoBuyRate)
      else if w.buy[rc.carrier].LookupFailed? then Abort
      else if LosesMoney(w, w.buy[rc.carrier].perMinute) && w.blockNegative then Skip(NegativeMargin)
      else if LosesMoney(w, w.buy[rc.carrier].perMinute) && w.lossless then Skip(Lossless)
      else Keep(w.buy[rc.carrier].perMinute)
  }

  /** The endpoint may be dialled: enabled, not parked, and its gateway is not down. */
  predicate CanDial(w: World, carrier: nat, e: Endpoint) {
    e.enabled && e.id !in w.dead && (carrier, e.id) !in w.down
  }

  lemma {:induction false} UsableAre(w: World, carrier: nat, eps: seq<Endpoint>, e: Endpoint)
    ensures e in Usable(eps, w.HealthOf(carrier)) <==> e in eps && CanDial(w, carrier, e)
  {
    if eps != [] {
      UsableAre(w, carrier, eps[..|eps| - 1], e);
      assert eps == eps[..|eps| - 1] + [eps[|eps| - 1]];
    }
  }

  /** The carrier is known and active and has an endpoint that can be dialled. */
  ghost predicate Reachable(w: World, c: nat) {
    c in w.carriers && w.carriers[c].active && exists e :: IsEndpointOf(w.carriers[c], e) && CanDial(w, c, e)
  }

  /** The carrier has no room for another call, as far as its calls in progress can be read. */
  predicate Full(w: World, c: nat)
    requires c in w.carriers
  {
    w.carriers[c].maxConcurrent > 0 && c in w.inProgress && w.inProgress[c] >= w.carriers[c].maxConcurrent
  }

  lemma ReachableIff(w: World, c: nat)
    requires c in w.carriers
    ensures Reachable(w, c)
       <==> w.carriers[c].active && Usable(EndpointsOf(w.carriers[c]), w.HealthOf(c)) != []
  {
    var eps := EndpointsOf(w.carriers[c]);
    var usable := Usable(eps, w.HealthOf(c));
    if usable != [] {
      UsableAre(w, c, eps, usable[0]);
      EndpointsAre(w.carriers[c], usable[0]);
    }
    if Reachable(w, c) {
      var e :| IsEndpointOf(w.carriers[c], e) && CanDial(w, c, e);
      EndpointsAre(w.carriers[c], e);
      UsableAre(w, c, eps, e);
    }
  }

  /** The carrier gets as far as its rates: reachable, inside its window, and not full. */
  ghost predicate Offered(w: World, rc: RouteCarrier) {
    Reachable(w, rc.carrier) && rc.inWindow && !Full(w, rc.carrier)
  }

  /** The buy rate is above the sell rate. */
  predicate Dear(w: World, c: nat) {
    c in w.buy && w.buy[c].Found? && w.sell.Some? && w.buy[c].perMinute > w.sell.value
  }

  /** A carrier is kept exactly when it is offered, has a rate, and no policy forbids its loss; the whole call fails
      exactly when an offered carrier has an unreadable deck. */
  lemma VerdictIff(w: World, rc: RouteCarrier)
    ensures var c, v := rc.carrier, Judge(w, rc);
      && (v.Keep? <==>
            Offered(w, rc) && c in w.buy && w.buy[c].Found? && !(Dear(w, c) && (w.blockNegative || w.lossless)))
      && (v.Keep? ==> v.buy == w.buy[c].perMinute)
      && (v.Abort? <==> Offered(w, rc) && c in w.buy && w.buy[c].LookupFailed?)
  {
    if rc.carrier in w.carriers {
      ReachableIff(w, rc.carrier);
    }
  }

  /** And a skipped carrier is given the first reason that applies. */
  lemma ReasonIff(w: World, rc: RouteCarrier)
    ensures var c, v := rc.carrier, Judge(w, rc);
      && (v == Skip(Disabled) <==> c !in w.carriers || !w.carriers[c].active)
      && (v == Skip(GatewayDown) <==> c in w.carriers && w.carriers[c].active && !Reachable(w, c))
      && (v == Skip(OutsideWindow) <==> Reachable(w, c) && !rc.inWindow)
      && (v == Skip(CarrierCapacity) <==> Reachable(w, c) && rc.inWindow && Full(w, c))
      && (v == Skip(NoBuyRate) <==> Offered(w, rc) && (c !in w.buy || w.buy[c].NoRate?))
      && (v == Skip(NegativeMargin) <==> Offered(w, rc) && Dear(w, c) && w.blockNegative)
      && (v == Skip(Lossless) <==> Offered(w, rc) && Dear(w, c) && w.lossless && !w.blockNegative)
  {
    if rc.carrier in w.carriers {
      ReachableIff(w, rc.carrier);
    }
  }

  datatype Skipped = Skipped(carrier: nat, reason: Reason)

  datatype Kept = Kept(rc: RouteCarrier, buy: nat, endpoints: seq<Endpoint>)

  function SkipList(w: World, route: seq<RouteCarrier>): seq<Skipped> {
    if route == [] then []
    else
      var rest, rc := SkipList(w, route[..|route| - 1]), route[|route| - 1];
      match Judge(w, rc)
      case Skip(reason) => rest + [Skipped(rc.carrier, reason)]
      case _ => rest
  }

  /** k is the route carrier with its buy rate and a non-empty dial list of its endpoints. */
  ghost predicate IsKept(w: World, rc: RouteCarrier, k: Kept) {
    && Judge(w, rc) == Keep(k.buy) && k.rc == rc
    && k.endpoints != []
    && var c := w.carriers[rc.carrier];
       IsDialList(k.endpoints, EndpointsOf(c), c.balancing, w.HealthOf(rc.carrier), w.maxEndpoints)
  }

  /** kept lists, in route order, the carriers that passed; the others were skipped, none aborted. */
  ghost predicate IsKeptList(w: World, route: seq<RouteCarrier>, kept: seq<Kept>) {
    if route == [] then kept == []
    else if Judge(w, route[|route| - 1]).Skip? then IsKeptList(w, route[..|route| - 1], kept)
    else
      && |kept| > 0 && IsKept(w, route[|route| - 1], kept[|kept| - 1])
      && IsKeptList(w, route[..|route| - 1], kept[..|kept| - 1])
  }

  lemma KeptListNoAborts(w: World, route: seq<RouteCarrier>, kept: seq<Kept>)
    requires IsKeptList(w, route, kept)
    ensures forall i | 0 <= i < |route| :: !Judge(w, route[i]).Abort?
  {
    forall i | 0 <= i < |route|
      ensures !Judge(w, route[i]).Abort?
    {
      KeptListNoAbort(w, route, kept, i);
    }
  }

  lemma {:induction false} KeptListNoAbort(w: World, route: seq<RouteCarrier>, kept: seq<Kept>, i: nat)
    requires IsKeptList(w, route, kept) && i < |route|
    ensures !Judge(w, route[i]).Abort?
  {
    var rest := if Judge(w, route[|route| - 1]).Skip? then kept else kept[..|kept| - 1];
    if i < |route| - 1 {
      KeptListNoAbort(w, route[..|route| - 1], rest, i);
    }
  }

  function TimesRouted(route: seq<RouteCarrier>, c: nat): nat {
    if route == [] then 0
    else TimesRouted(route[..|route| - 1], c) + if route[|route| - 1].carrier == c then 1 else 0
  }

  function TimesSkipped(s: seq<Skipped>, c: nat): nat {
    if s == [] then 0 else TimesSkipped(s[..|s| - 1], c) + if s[|s| - 1].carrier == c then 1 else 0
  }

  function TimesKept(s: seq<Kept>, c: nat): nat {
    if s == [] then 0 else TimesKept(s[..|s| - 1], c) + if s[|s| - 1].rc.carrier == c then 1 else 0
  }

  /** Every route carrier is either skipped once or kept once. */
  lemma {:induction false} NobodyLost(w: World, route: seq<RouteCarrier>, kept: seq<Kept>, c: nat)
    requires IsKeptList(w, route, kept)
    ensures TimesRouted(route, c) == TimesSkipped(SkipList(w, route), c) + TimesKept(kept, c)
  {
    if route != [] {
      var rc, init := route[|route| - 1], route[..|route| - 1];
      var v := Judge(w, rc);
      if v.Skip? {
        NobodyLost(w, init, kept, c);
        var s := SkipList(w, init);
        assert (s + [Skipped(rc.carrier, v.reason)])[..|s|] == s;
      } else {
        NobodyLost(w, init, kept[..|kept| - 1], c);
      }
    }
  }

  /** No kept carrier loses money where a policy forbids it. */
  lemma {:induction false} NoLossKept(w: World, route: seq<RouteCarrier>, kept: seq<Kept>, k: nat)
    requires IsKeptList(w, route, kept) && k < |kept| && (w.blockNegative || w.lossless)
    ensures !LosesMoney(w, kept[k].buy)
  {
    var rc, init := route[|route| - 1], route[..|route| - 1];
    if Judge(w, rc).Skip? {
      NoLossKept(w, init, kept, k);
    } else if k < |kept| - 1 {
      NoLossKept(w, init, kept[..|kept| - 1], k);
    }
  }

  // ---- the dial list ----

  datatype Choice = Choice(seqNo: nat, carrier: nat, endpoint: Endpoint, buy: nat)

  function Block(k: Kept, first: nat): (b: seq<Choice>)
    ensures |b| == |k.endpoints|
    ensures forall i | 0 <= i < |b| :: b[i] == Choice(first + i, k.rc.carrier, k.endpoints[i], k.buy)
  {
    seq(|k.endpoints|, i requires 0 <= i < |k.endpoints| => Choice(first + i, k.rc.carrier, k.endpoints[i], k.buy))
  }

  /** The blocks of the kept carriers in dial order, numbered through. */
  function Expand(kept: seq<Kept>, order: seq<nat>): (cs: seq<Choice>)
    requires forall k | 0 <= k < |order| :: order[k] < |kept|
    ensures forall i | 0 <= i < |cs| :: cs[i].seqNo == i + 1
  {
    if order == [] then []
    else
      var rest := Expand(kept, order[..|order| - 1]);
      rest + Block(kept[order[|order| - 1]], |rest| + 1)
  }

  /** Each carrier of the order owns one contiguous block of the dial list, its endpoints in their order. */
  lemma {:induction false} OneBlockEach(kept: seq<Kept>, order: seq<nat>, p: nat)
    requires p < |order| && forall k | 0 <= k < |order| :: order[k] < |kept|
    ensures var a := |Expand(kept, order[..p])|;
      var k := kept[order[p]];
      && a + |k.endpoints| <= |Expand(kept, order)|
      && Expand(kept, order)[a..a + |k.endpoints|] == Block(k, a + 1)
    decreases |order|
  {
    var init := order[..|order| - 1];
    if p < |order| - 1 {
      OneBlockEach(kept, init, p);
      assert init[..p] == order[..p];
    }
  }

  function Orderables(w: World, kept: seq<Kept>, modes: Modes): (c: seq<Candidate>)
    ensures |c| == |kept|
    ensures forall i | 0 <= i < |c| :: c[i].priority == kept[i].rc.priority && c[i].weight == kept[i].rc.weight
  {
    seq(|kept|, i requires 0 <= i < |kept| =>
      var carrier := kept[i].rc.carrier;
      var quality := if modes.quality && carrier in w.carriers then w.carriers[carrier].quality else 0.5;
      var degraded := carrier in w.carriers && w.carriers[carrier].degraded;
      Candidate(kept[i].rc.priority, kept[i].rc.weight, degraded, kept[i].buy as real, quality))
  }

  // ---- who is dialled before whom ----

  /** Carrier a may be dialled before b when the modes sort by key: the better quality first, then the cheaper, then
      the smaller priority, as far as the modes ask for it. */
  predicate SortsFirst(w: World, modes: Modes, a: Kept, b: Kept)
    requires a.rc.carrier in w.carriers && b.rc.carrier in w.carriers
  {
    var qa, qb := w.carriers[a.rc.carrier].quality, w.carriers[b.rc.carrier].quality;
    if modes.quality && qa != qb then qa > qb
    else if modes.lcr && a.buy != b.buy then a.buy < b.buy
    else a.rc.priority <= b.rc.priority
  }

  /** And when they draw by share: the larger route weight first, none below zero, then the smaller priority. */
  predicate SharesFirst(a: Kept, b: Kept) {
    || a.rc.weight > b.rc.weight
    || b.rc.weight <= 0
    || (a.rc.weight == b.rc.weight && a.rc.priority <= b.rc.priority)
  }

  /** Carrier a may be dialled before b: not when only a is degraded; and when neither or both are, by key, or behind
      the drawn one by share. */
  ghost predicate DialsFirst(w: World, modes: Modes, a: Kept, b: Kept, aDrawn: bool, bDrawn: bool) {
    && a.rc.carrier in w.carriers && b.rc.carrier in w.carriers
    && var da, db := w.carriers[a.rc.carrier].degraded, w.carriers[b.rc.carrier].degraded;
    && (da ==> db)
    && (da == db && !modes.percent ==> SortsFirst(w, modes, a, b))
    && (da == db && modes.percent && !aDrawn ==> !bDrawn && SharesFirst(a, b))
  }

  /** The order of the kept carriers, in terms of their rows. */
  ghost predicate DialledInOrder(w: World, modes: Modes, kept: seq<Kept>, order: seq<nat>, drawn: nat)
    requires forall k | 0 <= k < |order| :: order[k] < |kept|
  {
    forall p, q | 0 <= p < q < |order| ::
      DialsFirst(w, modes, kept[order[p]], kept[order[q]], order[p] == drawn, order[q] == drawn)
  }

  lemma {:induction false} KeptKnown(w: World, route: seq<RouteCarrier>, kept: seq<Kept>, k: nat)
    requires IsKeptList(w, route, kept) && k < |kept|
    ensures kept[k].rc.carrier in w.carriers
    ensures kept[k].rc in route && kept[k].rc.carrier in w.buy && w.buy[kept[k].rc.carrier] == Found(kept[k].buy)
    ensures DialsUsable(w, kept[k])
  {
    var rc, init := route[|route| - 1], route[..|route| - 1];
    assert route == init + [rc];
    if Judge(w, rc).Skip? {
      KeptKnown(w, init, kept, k);
    } else if k < |kept| - 1 {
      KeptKnown(w, init, kept[..|kept| - 1], k);
    } else {
      KeptDials(w, rc, kept[k]);
    }
  }

  /** The carrier's entries are endpoints of it that can be dialled, and all of those unless the limit cuts them. */
  ghost predicate DialsUsable(w: World, k: Kept)
    requires k.rc.carrier in w.carriers
  {
    var c := k.rc.carrier;
    && (forall e | e in k.endpoints :: IsEndpointOf(w.carriers[c], e) && CanDial(w, c, e))
    && (w.maxEndpoints > 0 ==> |k.endpoints| <= w.maxEndpoints)
    && (forall e | IsEndpointOf(w.carriers[c], e) && CanDial(w, c, e) ::
          e in k.endpoints || (w.maxEndpoints > 0 && |k.endpoints| == w.maxEndpoints))
  }

  lemma KeptDials(w: World, rc: RouteCarrier, k: Kept)
    requires IsKept(w, rc, k)
    ensures DialsUsable(w, k)
  {
    var c := w.carriers[rc.carrier];
    var usable := Usable(EndpointsOf(c), w.HealthOf(rc.carrier));
    forall e
      ensures e in usable <==> IsEndpointOf(c, e) && CanDial(w, rc.carrier, e)
    {
      UsableAre(w, rc.carrier, EndpointsOf(c), e);
      EndpointsAre(c, e);
    }
    SomeOrAll(k.endpoints, usable);
  }

  lemma SomeOrAll(out: seq<Endpoint>, usable: seq<Endpoint>)
    requires multiset(out) <= multiset(usable)
    ensures forall e | e in out :: e in usable
    ensures |out| == |usable| ==> forall e | e in usable :: e in out
  {
    forall e | e in out
      ensures e in usable
    {
      assert e in multiset(out);
      assert e in multiset(usable);
    }
    if |out| == |usable| {
      var rest := multiset(usable) - multiset(out);
      assert multiset(usable) == multiset(out) + rest;
      assert |multiset(usable)| == |multiset(out)| + |rest|;
      assert rest == multiset{};
      forall e | e in usable
        ensures e in out
      {
        assert e in multiset(usable);
        assert e in multiset(out);
      }
    }
  }

  /** What the modes allow of two candidates they allow of the carriers. */
  lemma TwoCarriers(w: World, modes: Modes, kept: seq<Kept>, x: nat, y: nat, drawn: nat, cands: seq<Candidate>)
    requires x < |kept| && y < |kept| && cands == Orderables(w, kept, modes)
    requires kept[x].rc.carrier in w.carriers && kept[y].rc.carrier in w.carriers
    requires cands[x].degraded ==> cands[y].degraded
    requires cands[x].degraded == cands[y].degraded ==> MayPrecede(cands, modes, drawn, x, y)
    ensures DialsFirst(w, modes, kept[x], kept[y], x == drawn, y == drawn)
  {
  }

  /** The modes, followed on the candidates, are followed on the carriers. */
  lemma OrderOfCarriers(w: World, modes: Modes, kept: seq<Kept>, order: seq<nat>, drawn: nat)
    requires forall k | 0 <= k < |order| :: order[k] < |kept|
    requires DegradedLast(Orderables(w, kept, modes), modes, drawn, order)
    requires forall k | 0 <= k < |kept| :: kept[k].rc.carrier in w.carriers
    ensures DialledInOrder(w, modes, kept, order, drawn)
  {
    forall p, q | 0 <= p < q < |order|
      ensures DialsFirst(w, modes, kept[order[p]], kept[order[q]], order[p] == drawn, order[q] == drawn)
    {
      TwoCarriers(w, modes, kept, order[p], order[q], drawn, Orderables(w, kept, modes));
    }
  }

  /** The place in the order that each entry of the dial list comes from. */
  function Places(kept: seq<Kept>, order: seq<nat>): (ps: seq<nat>)
    requires forall k | 0 <= k < |order| :: order[k] < |kept|
  {
    if order == [] then []
    else Places(kept, order[..|order| - 1]) + seq(|kept[order[|order| - 1]].endpoints|, _ => |order| - 1)
  }

  /** Entry i belongs to the carrier at place ps[i] of the order; places do not fall. */
  ghost predicate Placed(kept: seq<Kept>, order: seq<nat>, ps: seq<nat>, cs: seq<Choice>)
    requires forall k | 0 <= k < |order| :: order[k] < |kept|
  {
    && |ps| == |cs| && (forall i | 0 <= i < |ps| :: ps[i] < |order|)
    && (forall i, j | 0 <= i < j < |ps| :: ps[i] <= ps[j])
    && (forall i | 0 <= i < |ps| :: IsEntryOf(cs[i], kept[order[ps[i]]]))
  }

  predicate IsEntryOf(c: Choice, k: Kept) {
    c.carrier == k.rc.carrier && c.buy == k.buy && c.endpoint in k.endpoints
  }

  lemma {:induction false} PlacesOfChoices(kept: seq<Kept>, order: seq<nat>)
    requires forall k | 0 <= k < |order| :: order[k] < |kept|
    ensures Placed(kept, order, Places(kept, order), Expand(kept, order))
  {
    if order != [] {
      PlacesOfChoices(kept, order[..|order| - 1]);
    }
  }

  /** No entry of a degraded carrier is dialled before one of a healthy carrier, and every entry can be dialled. */
  ghost predicate HealthyFirst(w: World, choices: seq<Choice>) {
    && (forall i | 0 <= i < |choices| ::
          choices[i].carrier in w.carriers && CanDial(w, choices[i].carrier, choices[i].endpoint))
    && (forall i, j | 0 <= i < j < |choices| ::
          w.carriers[choices[i].carrier].degraded ==> w.carriers[choices[j].carrier].degraded)
  }

  /** Inside the healthy and the degraded part no entry is dialled before a cheaper one. */
  ghost predicate CheapestFirst(w: World, choices: seq<Choice>)
    requires HealthyFirst(w, choices)
  {
    forall i, j | 0 <= i < j < |choices|
      && w.carriers[choices[i].carrier].degraded == w.carriers[choices[j].carrier].degraded ::
      choices[i].buy <= choices[j].buy
  }

  /** Nor, when quality is asked for, before one of a better carrier. */
  ghost predicate BestFirst(w: World, choices: seq<Choice>)
    requires HealthyFirst(w, choices)
  {
    forall i, j | 0 <= i < j < |choices|
      && w.carriers[choices[i].carrier].degraded == w.carriers[choices[j].carrier].degraded ::
      w.carriers[choices[i].carrier].quality >= w.carriers[choices[j].carrier].quality
  }

  /** x may be dialled before y. */
  ghost predicate EntryFirst(w: World, modes: Modes, x: Choice, y: Choice) {
    && x.carrier in w.carriers && y.carrier in w.carriers
    && var c, d := w.carriers[x.carrier], w.carriers[y.carrier];
    && (c.degraded ==> d.degraded)
    && (c.degraded == d.degraded && modes.lcr && !modes.quality && !modes.percent ==> x.buy <= y.buy)
    && (c.degraded == d.degraded && modes.quality && !modes.percent ==> c.quality >= d.quality)
  }

  /** Two entries of the dial list, of one carrier or of two in their order. */
  lemma TwoEntries(w: World, modes: Modes, a: Kept, b: Kept, aDrawn: bool, bDrawn: bool, x: Choice, y: Choice)
    requires IsEntryOf(x, a) && IsEntryOf(y, b)
    requires (a == b && a.rc.carrier in w.carriers) || DialsFirst(w, modes, a, b, aDrawn, bDrawn)
    ensures EntryFirst(w, modes, x, y)
  {
  }

  lemma EntriesInOrder(w: World, modes: Modes, kept: seq<Kept>, order: seq<nat>, drawn: nat, ps: seq<nat>,
                       cs: seq<Choice>)
    requires forall k | 0 <= k < |order| :: order[k] < |kept|
    requires DialledInOrder(w, modes, kept, order, drawn) && Placed(kept, order, ps, cs)
    requires forall k | 0 <= k < |kept| :: kept[k].rc.carrier in w.carriers
    ensures forall i, j | 0 <= i < j < |cs| :: EntryFirst(w, modes, cs[i], cs[j])
  {
    forall i, j | 0 <= i < j < |cs|
      ensures EntryFirst(w, modes, cs[i], cs[j])
    {
      var p, q := order[ps[i]], order[ps[j]];
      TwoEntries(w, modes, kept[p], kept[q], p == drawn, q == drawn, cs[i], cs[j]);
    }
  }

  lemma EntriesKnown(w: World, route: seq<RouteCarrier>, kept: seq<Kept>, order: seq<nat>, ps: seq<nat>,
                     cs: seq<Choice>)
    requires IsKeptList(w, route, kept) && forall k | 0 <= k < |order| :: order[k] < |kept|
    requires Placed(kept, order, ps, cs)
    ensures forall i | 0 <= i < |cs| ::
      cs[i].carrier in w.carriers && CanDial(w, cs[i].carrier, cs[i].endpoint)
  {
    forall i | 0 <= i < |cs|
      ensures cs[i].carrier in w.carriers && CanDial(w, cs[i].carrier, cs[i].endpoint)
    {
      KeptKnown(w, route, kept, order[ps[i]]);
    }
  }

  lemma EntriesSuffice(w: World, modes: Modes, cs: seq<Choice>)
    requires forall i | 0 <= i < |cs| :: cs[i].carrier in w.carriers && CanDial(w, cs[i].carrier, cs[i].endpoint)
    requires forall i, j | 0 <= i < j < |cs| :: EntryFirst(w, modes, cs[i], cs[j])
    ensures HealthyFirst(w, cs)
    ensures modes.lcr && !modes.quality && !modes.percent ==> CheapestFirst(w, cs)
    ensures modes.quality && !modes.percent ==> BestFirst(w, cs)
  {
  }

  /** Judge one route carrier; a carrier that is kept comes with its endpoints in dial order. */
  method JudgeOne(w: World, rc: RouteCarrier, rnd: bool) returns (v: Verdict, usable: seq<Endpoint>)
    ensures v == Judge(w, rc)
    ensures v.Keep? ==> IsKept(w, rc, Kept(rc, v.buy, usable))
  {
    usable := [];
    if rc.carrier !in w.carriers || !w.carriers[rc.carrier].active {
      return Skip(Disabled), [];
    }
    var c := w.carriers[rc.carrier];
    ghost var all: seq<Endpoint>, plan: Plan;
    usable, all, plan := UsableEndpoints(EndpointsOf(c), c.balancing, w.HealthOf(rc.carrier), w.maxEndpoints, rnd);
    if |usable| == 0 {
      return Skip(GatewayDown), [];
    }
    if !rc.inWindow {
      return Skip(OutsideWindow), [];
    }
    if c.maxConcurrent > 0 && rc.carrier in w.inProgress && w.inProgress[rc.carrier] >= c.maxConcurrent {
      return Skip(CarrierCapacity), [];
    }
    if rc.carrier !in w.buy || w.buy[rc.carrier].NoRate? {
      return Skip(NoBuyRate), [];
    }
    if w.buy[rc.carrier].LookupFailed? {
      return Abort, [];
    }
    var buy := w.buy[rc.carrier].perMinute;
    if LosesMoney(w, buy) && w.blockNegative {
      return Skip(NegativeMargin), [];
    }
    if LosesMoney(w, buy) && w.lossless {
      return Skip(Lossless), [];
    }
    v := Keep(buy);
  }

  lemma JudgedNext(w: World, route: seq<RouteCarrier>, rc: RouteCarrier, v: Verdict, kept: seq<Kept>,
                   usable: seq<Endpoint>)
    requires IsKeptList(w, route, kept) && v == Judge(w, rc) && !v.Abort?
    requires v.Keep? ==> IsKept(w, rc, Kept(rc, v.buy, usable))
    ensures SkipList(w, route + [rc]) == SkipList(w, route) + (if v.Skip? then [Skipped(rc.carrier, v.reason)] else [])
    ensures IsKeptList(w, route + [rc], if v.Keep? then kept + [Kept(rc, v.buy, usable)] else kept)
  {
    assert (route + [rc])[..|route|] == route;
    if v.Keep? {
      assert (kept + [Kept(rc, v.buy, usable)])[..|kept|] == kept;
    }
  }

  /** Judge every carrier of the route, in route order. */
  method JudgeAll(w: World, route: seq<RouteCarrier>, rnd: bool)
    returns (ok: bool, skipped: seq<Skipped>, kept: seq<Kept>)
    ensures ok <==> forall i | 0 <= i < |route| :: !Judge(w, route[i]).Abort?
    ensures ok ==> skipped == SkipList(w, route) && IsKeptList(w, route, kept)
  {
    skipped, kept := [], [];
    for i := 0 to |route|
      invariant skipped == SkipList(w, route[..i]) && IsKeptList(w, route[..i], kept)
    {
      var rc := route[i];
      var v, usable := JudgeOne(w, rc, rnd);
      if v.Abort? {
        return false, [], [];
      }
      assert route[..i + 1] == route[..i] + [rc];
      JudgedNext(w, route[..i], rc, v, kept, usable);
      if v.Skip? {
        skipped := skipped + [Skipped(rc.carrier, v.reason)];
      } else {
        kept := kept + [Kept(rc, v.buy, usable)];
      }
    }
    assert route[..|route|] == route;
    KeptListNoAborts(w, route, kept);
    ok := true;
  }

  /** The carriers to dial and the carriers skipped; an unreadable rate deck fails the whole call. */
  method RouteCall(w: World, route: seq<RouteCarrier>, modes: Modes, rnd: bool)
    returns (ok: bool, skipped: seq<Skipped>, choices: seq<Choice>, ghost kept: seq<Kept>, ghost order: seq<nat>,
             ghost drawn: nat, ghost plan: Plan)
    ensures ok <==> forall i | 0 <= i < |route| :: !Judge(w, route[i]).Abort?
    ensures ok ==> skipped == SkipList(w, route) && IsKeptList(w, route, kept)
    ensures ok ==> forall c: nat :: TimesRouted(route, c) == TimesSkipped(skipped, c) + TimesKept(kept, c)
    ensures ok ==> multiset(order) == multiset(Indexes(|kept|)) && forall k | 0 <= k < |order| :: order[k] < |kept|
    ensures ok ==> ModesFollowed(Orderables(w, kept, modes), modes, rnd, order, drawn, plan)
    ensures ok ==> DialledInOrder(w, modes, kept, order, drawn)
    ensures ok ==> HealthyFirst(w, choices)
    ensures ok && modes.lcr && !modes.quality && !modes.percent ==> CheapestFirst(w, choices)
    ensures ok && modes.quality && !modes.percent ==> BestFirst(w, choices)
    ensures ok && modes.percent && rnd && (exists k :: 0 <= k < |kept| && kept[k].rc.weight > 0) ==>
      drawn < |kept| && kept[drawn].rc.weight > 0
    ensures ok ==> choices == Expand(kept, order)
    ensures ok ==> forall i | 0 <= i < |choices| :: choices[i].seqNo == i + 1
    ensures ok && (w.blockNegative || w.lossless) ==> forall i | 0 <= i < |choices| :: !LosesMoney(w, choices[i].buy)
  {
    var ks: seq<Kept>;
    order, drawn, plan := [], 0, Keyed([], []);
    ok, skipped, ks := JudgeAll(w, route, rnd);
    kept := ks;
    choices := [];
    if !ok {
      return;
    }
    forall c: nat
      ensures TimesRouted(route, c) == TimesSkipped(skipped, c) + TimesKept(ks, c)
    {
      NobodyLost(w, route, ks, c);
    }
    var cands := Orderables(w, ks, modes);
    var ord: seq<nat>;
    ord, drawn, plan := OrderCandidates(cands, modes, rnd);
    order := ord;
    choices := NumberChoices(ks, ord);
    RouteOrdered(w, modes, rnd, route, ks, ord, drawn, plan, choices);
    if w.blockNegative || w.lossless {
      NoLossDialled(w, route, ks, ord);
    }
  }

  lemma RouteOrdered(w: World, modes: Modes, rnd: bool, route: seq<RouteCarrier>, kept: seq<Kept>, order: seq<nat>,
                     drawn: nat, plan: Plan, choices: seq<Choice>)
    requires IsKeptList(w, route, kept) && (forall k | 0 <= k < |order| :: order[k] < |kept|)
    requires ModesFollowed(Orderables(w, kept, modes), modes, rnd, order, drawn, plan) && choices == Expand(kept, order)
    ensures DialledInOrder(w, modes, kept, order, drawn) && HealthyFirst(w, choices)
    ensures modes.lcr && !modes.quality && !modes.percent ==> CheapestFirst(w, choices)
    ensures modes.quality && !modes.percent ==> BestFirst(w, choices)
    ensures modes.percent && rnd && (exists k :: 0 <= k < |kept| && kept[k].rc.weight > 0) ==>
      drawn < |kept| && kept[drawn].rc.weight > 0
  {
    forall k | 0 <= k < |kept|
      ensures kept[k].rc.carrier in w.carriers
    {
      KeptKnown(w, route, kept, k);
    }
    OrderOfCarriers(w, modes, kept, order, drawn);
    PlacesOfChoices(kept, order);
    EntriesInOrder(w, modes, kept, order, drawn, Places(kept, order), choices);
    EntriesKnown(w, route, kept, order, Places(kept, order), choices);
    EntriesSuffice(w, modes, choices);
    DrawnWeighs(Orderables(w, kept, modes), kept, modes, rnd, order, drawn, plan);
  }

  lemma DrawnWeighs(cands: seq<Candidate>, kept: seq<Kept>, modes: Modes, rnd: bool, order: seq<nat>, drawn: nat,
                    plan: Plan)
    requires ModesFollowed(cands, modes, rnd, order, drawn, plan) && |cands| == |kept|
    requires forall i | 0 <= i < |cands| :: cands[i].weight == kept[i].rc.weight
    ensures modes.percent && rnd && (exists k :: 0 <= k < |kept| && kept[k].rc.weight > 0) ==>
      drawn < |kept| && kept[drawn].rc.weight > 0
  {
    if modes.percent && rnd && exists k :: 0 <= k < |kept| && kept[k].rc.weight > 0 {
      var k :| 0 <= k < |kept| && kept[k].rc.weight > 0;
      assert Share(cands[k]) > 0;
    }
  }

  /** Every endpoint of every carrier in dial order, numbered through. */
  method NumberChoices(kept: seq<Kept>, order: seq<nat>) returns (choices: seq<Choice>)
    requires forall k | 0 <= k < |order| :: order[k] < |kept|
    ensures choices == Expand(kept, order)
  {
    choices := [];
    for i := 0 to |order|
      invariant choices == Expand(kept, order[..i])
    {
      assert order[..i + 1][..i] == order[..i];
      var k := kept[order[i]];
      ghost var before := choices;
      for e := 0 to |k.endpoints|
        invariant choices == before + Block(k, |before| + 1)[..e]
      {
        choices := choices + [Choice(|choices| + 1, k.rc.carrier, k.endpoints[e], k.buy)];
      }
      assert Block(k, |before| + 1)[..|k.endpoints|] == Block(k, |before| + 1);
    }
    assert order[..|order|] == order;
  }

  lemma {:induction false} NoLossDialled(w: World, route: seq<RouteCarrier>, kept: seq<Kept>, order: seq<nat>)
    requires IsKeptList(w, route, kept) && (w.blockNegative || w.lossless)
    requires forall k | 0 <= k < |order| :: order[k] < |kept|
    ensures forall i | 0 <= i < |Expand(kept, order)| :: !LosesMoney(w, Expand(kept, order)[i].buy)
    decreases |order|
  {
    if order != [] {
      NoLossDialled(w, route, kept, order[..|order| - 1]);
      NoLossKept(w, route, kept, order[|order| - 1]);
    }
  }
}

/**
 Weighted least-load scheduling: the cross-multiplied scan finds the first target
 with the smallest load per unit of weight, and repeated arrivals stay fair.
 */
module LeastLoad {
  import opened MetricsCounter

  predicate PositiveWeights(targets: seq<Endpoint>) {
    forall i :: 0 <= i < |targets| ==> targets[i].weight > 0
  }

  lemma CrossTransitive(a: int, wa: int, b: int, wb: int, c: int, wc: int)
    requires wa > 0 && wb > 0 && wc > 0
    requires a * wb <= b * wa && b * wc <= c * wb
    ensures a * wc <= c * wa
    ensures a * wb < b * wa || b * wc < c * wb ==> a * wc < c * wa
  {
    assert (a * wc) * wb == (a * wb) * wc;
    assert (a * wb) * wc <= (b * wa) * wc;
    assert (b * wa) * wc == (b * wc) * wa;
    assert (b * wc) * wa <= (c * wb) * wa;
    assert (c * wb) * wa == (c * wa) * wb;
    if a * wb < b * wa {
      assert (a * wb) * wc < (b * wa) * wc;
    }
    if b * wc < c * wb {
      assert (b * wc) * wa < (c * wb) * wa;
    }
    Unscale(a * wc, c * wa, wb);
  }

  lemma Unscale(x: int, y: int, w: int)
    requires w > 0
    ensures x * w <= y * w ==> x <= y
    ensures x * w < y * w ==> x < y
  {
    if x > y {
      assert x * w > y * w;
    } else if x == y {
      assert x * w == y * w;
    }
  }

  /** `i` carries no more load per weight than any target, and strictly less than earlier ones. */
  ghost predicate FirstMinimum(s: State, ruleID: string, targets: seq<Endpoint>, i: nat)
    requires i < |targets|
  {
    && (forall j :: 0 <= j < |targets| ==> !Lighter(s, ruleID, targets[j], targets[i]))
    && (forall j :: 0 <= j < i ==> Lighter(s, ruleID, targets[i], targets[j]))
  }

  lemma LighterChain(s: State, ruleID: string, a: Endpoint, b: Endpoint, c: Endpoint)
    requires a.weight > 0 && b.weight > 0 && c.weight > 0
    requires !Lighter(s, ruleID, b, a) && !Lighter(s, ruleID, c, b)
    ensures !Lighter(s, ruleID, c, a)
    ensures Lighter(s, ruleID, a, b) || Lighter(s, ruleID, b, c) ==> Lighter(s, ruleID, a, c)
  {
    CrossTransitive(Load(s, ruleID, a), a.weight, Load(s, ruleID, b), b.weight, Load(s, ruleID, c), c.weight);
  }

  /** The scan returns the first target that minimises load divided by weight. */
  lemma {:induction false} PickIsFirstMinimum(s: State, ruleID: string, targets: seq<Endpoint>)
    requires targets != [] && PositiveWeights(targets)
    ensures FirstMinimum(s, ruleID, targets, Pick(s, ruleID, targets))
  {
    hide Lighter;
    if |targets| == 1 {
      assert !Lighter(s, ruleID, targets[0], targets[0]) by { NotLighterThanItself(s, ruleID, targets[0]); }
    } else {
      var front, last := targets[..|targets| - 1], targets[|targets| - 1];
      PickIsFirstMinimum(s, ruleID, front);
      var best := Pick(s, ruleID, front);
      var i := Pick(s, ruleID, targets);
      NotLighterThanItself(s, ruleID, last);
      forall j | 0 <= j < |targets|
        ensures !Lighter(s, ruleID, targets[j], targets[i])
        ensures j < i ==> Lighter(s, ruleID, targets[i], targets[j])
      {
        if i == |targets| - 1 && j < |front| {
          LighterNotBack(s, ruleID, last, front[best]);
          LighterChain(s, ruleID, last, front[best], front[j]);
        } else if j < |front| {
          assert front[j] == targets[j];
        }
      }
    }
  }

  lemma NotLighterThanItself(s: State, ruleID: string, a: Endpoint)
    ensures !Lighter(s, ruleID, a, a)
  {}

  lemma LighterNotBack(s: State, ruleID: string, a: Endpoint, b: Endpoint)
    requires Lighter(s, ruleID, a, b)
    ensures !Lighter(s, ruleID, b, a)
  {}

  // ---------- the read-only selector ----------

  function Count(counts: map<string, int>, id: string): int {
    if id in counts then counts[id] else 0
  }

  method OpenConnectionsForTargets(metrics: Metrics, ruleID: string, targets: seq<Endpoint>) returns (counts: map<string, int>)
    ensures forall i :: 0 <= i < |targets| && targets[i].id != "" ==>
              Count(counts, targets[i].id) == Load(metrics.Now(), ruleID, targets[i])
    ensures "" !in counts
  {
    counts := map[];
    for i := 0 to |targets|
      invariant "" !in counts
      invariant forall j :: 0 <= j < i && targets[j].id != "" ==> targets[j].id in counts
      invariant forall id :: id in counts ==> counts[id] == metrics.Now().OpenOn(Key(ruleID, id))
    {
      if targets[i].id != "" {
        var open := metrics.TargetOpenConnections(Key(ruleID, targets[i].id));
        counts := counts[targets[i].id := open];
      }
    }
  }

  /** Reads a snapshot of the loads first, and agrees with the reserving scan on the same state. */
  method SelectLeastLoadTargetGroupEndpoint(metrics: Metrics, ruleID: string, candidates: seq<Endpoint>)
    returns (best: Endpoint, found: bool)
    ensures found == (candidates != [])
    ensures found && (forall i :: 0 <= i < |candidates| ==> candidates[i].id != "") ==>
              best == candidates[Pick(metrics.Now(), ruleID, candidates)]
  {
    if candidates == [] { return Endpoint("", 0), false; }
    var counts := OpenConnectionsForTargets(metrics, ruleID, candidates);
    best := candidates[0];
    var bestConnections := Count(counts, best.id);
    ghost var named := forall i :: 0 <= i < |candidates| ==> candidates[i].id != "";
    assert candidates[..1] == [candidates[0]];
    for i := 1 to |candidates|
      invariant named ==> best == candidates[Pick(metrics.Now(), ruleID, candidates[..i])]
      invariant named ==> bestConnections == Load(metrics.Now(), ruleID, best)
    {
      PickStep(metrics.Now(), ruleID, candidates, i);
      var candidate := candidates[i];
      var candidateConnections := Count(counts, candidate.id);
      if candidateConnections * best.weight < bestConnections * candidate.weight {
        best := candidate;
        bestConnections := candidateConnections;
      }
    }
    assert candidates[..|candidates|] == candidates;
    found := true;
  }

  // ---------- candidates ----------

  datatype Member = Member(endpoint: Endpoint, enabled: bool)

  datatype Bucket = Bucket(priority: int, members: seq<Member>)

  function Usable(members: seq<Member>): seq<Endpoint> {
    if members == [] then []
    else
      var m := members[|members| - 1];
      Usable(members[..|members| - 1]) + (if m.enabled && m.endpoint.weight > 0 then [m.endpoint] else [])
  }

  lemma {:induction false} UsablePositive(members: seq<Member>)
    ensures PositiveWeights(Usable(members))
  {
    if members != [] {
      UsablePositive(members[..|members| - 1]);
    }
  }

  /** No usable bucket has a better priority, and no earlier one an equal priority. */
  ghost predicate BestBucket(buckets: seq<Bucket>, i: nat)
    requires i < |buckets|
  {
    forall j :: 0 <= j < |buckets| && Usable(buckets[j].members) != [] ==>
      && buckets[i].priority <= buckets[j].priority
      && (j < i ==> buckets[i].priority < buckets[j].priority)
  }

  /** The enabled, positively weighted members of the first bucket of the best usable priority. */
  method EnabledLeastLoadTargetGroupCandidates(buckets: seq<Bucket>) returns (candidates: seq<Endpoint>)
    ensures PositiveWeights(candidates)
    ensures candidates == [] <==> forall i :: 0 <= i < |buckets| ==> Usable(buckets[i].members) == []
    ensures candidates != [] ==>
              exists i :: 0 <= i < |buckets| && candidates == Usable(buckets[i].members) && BestBucket(buckets, i)
    ensures candidates != [] ==>
              exists i :: 0 <= i < |buckets| && candidates == Usable(buckets[i].members)
                          && forall j :: 0 <= j < |buckets| && buckets[j].priority < buckets[i].priority ==> Usable(buckets[j].members) == []
  {
    candidates := [];
    var best := 0;
    var bestPriority := 0;
    for i := 0 to |buckets|
      invariant candidates == [] <==> forall j :: 0 <= j < i ==> Usable(buckets[j].members) == []
      invariant candidates != [] ==> 0 <= best < i && candidates == Usable(buckets[best].members) && bestPriority == buckets[best].priority
      invariant candidates != [] ==> forall j :: 0 <= j < i && Usable(buckets[j].members) != [] ==>
                  bestPriority <= buckets[j].priority && (j < best ==> bestPriority < buckets[j].priority)
    {
      var usable := UsableMembers(buckets[i].members);
      if usable != [] && (candidates == [] || buckets[i].priority < bestPriority) {
        best, bestPriority, candidates := i, buckets[i].priority, usable;
      }
    }
    if candidates != [] {
      UsablePositive(buckets[best].members);
      assert BestBucket(buckets, best);
    }
  }

  method UsableMembers(members: seq<Member>) returns (usable: seq<Endpoint>)
    ensures usable == Usable(members)
  {
    usable := [];
    for i := 0 to |members|
      invariant usable == Usable(members[..i])
    {
      assert members[..i + 1][..i] == members[..i];
      if members[i].enabled && members[i].endpoint.weight > 0 {
        usable := usable + [members[i].endpoint];
      }
    }
    assert members[..|members|] == members;
  }

  // ---------- fairness ----------

  datatype Arrival = Arrives | Connects(targetID: string)

  /** An arrival reserves the picked target; a dial that succeeds becomes a connection. */
  function Next(s: State, ruleID: string, targets: seq<Endpoint>, e: Arrival): State
    requires targets != []
  {
    match e
    case Arrives => Apply(s, Key(ruleID, targets[Pick(s, ruleID, targets)].id), ReserveTCP)
    case Connects(id) => Apply(s, Key(ruleID, id), PromoteTCP)
  }

  predicate Enabled(s: State, ruleID: string, e: Arrival) {
    e.Connects? ==> Key(ruleID, e.targetID) in s.targets && s.targets[Key(ruleID, e.targetID)].tcpDialReservations > 0
  }

  predicate Runnable(s: State, ruleID: string, targets: seq<Endpoint>, events: seq<Arrival>)
    requires targets != []
    decreases |events|
  {
    events == [] || (Enabled(s, ruleID, events[0]) && Runnable(Next(s, ruleID, targets, events[0]), ruleID, targets, events[1..]))
  }

  function Run(s: State, ruleID: string, targets: seq<Endpoint>, events: seq<Arrival>): State
    requires targets != []
    decreases |events|
  {
    if events == [] then s else Run(Next(s, ruleID, targets, events[0]), ruleID, targets, events[1..])
  }

  predicate DistinctIDs(targets: seq<Endpoint>) {
    forall i, j :: 0 <= i < j < |targets| ==> targets[i].id != targets[j].id
  }

  predicate AllAdmitted(s: State, ruleID: string, targets: seq<Endpoint>) {
    forall i :: 0 <= i < |targets| ==> s.Admits(Key(ruleID, targets[i].id))
  }

  /** Taking one connection away from a target makes it no heavier, per weight, than any other. */
  ghost predicate FairPair(s: State, ruleID: string, a: Endpoint, b: Endpoint) {
    (Load(s, ruleID, a) - 1) * b.weight <= Load(s, ruleID, b) * a.weight
  }

  ghost predicate Fair(s: State, ruleID: string, targets: seq<Endpoint>) {
    && (forall i :: 0 <= i < |targets| ==> Load(s, ruleID, targets[i]) >= 0)
    && (forall i, j :: 0 <= i < |targets| && 0 <= j < |targets| ==> FairPair(s, ruleID, targets[i], targets[j]))
  }

  lemma ReservedLoad(s: State, ruleID: string, id: string, t: Endpoint)
    requires s.Admits(Key(ruleID, id))
    ensures Load(Apply(s, Key(ruleID, id), ReserveTCP), ruleID, t) == Load(s, ruleID, t) + if t.id == id then 1 else 0
  {}

  lemma ScaleNonNegative(a: int, b: int, w: int)
    requires a <= b && w > 0
    ensures a * w <= b * w
  {}

  lemma ArrivalKeepsFair(s: State, ruleID: string, targets: seq<Endpoint>)
    requires targets != [] && PositiveWeights(targets) && DistinctIDs(targets)
    requires AllAdmitted(s, ruleID, targets) && Fair(s, ruleID, targets)
    ensures Fair(Next(s, ruleID, targets, Arrives), ruleID, targets)
  {
    var p := Pick(s, ruleID, targets);
    var s' := Next(s, ruleID, targets, Arrives);
    PickIsFirstMinimum(s, ruleID, targets);
    forall i | 0 <= i < |targets|
      ensures Load(s', ruleID, targets[i]) == Load(s, ruleID, targets[i]) + if i == p then 1 else 0
    {
      ReservedLoad(s, ruleID, targets[p].id, targets[i]);
    }
    hide Next, Load, Pick;
    forall i, j | 0 <= i < |targets| && 0 <= j < |targets|
      ensures FairPair(s', ruleID, targets[i], targets[j])
    {
      var a, b := targets[i], targets[j];
      assert FairPair(s, ruleID, a, b);
      if i == p {
        assert !Lighter(s, ruleID, b, a);
        ScaleNonNegative(Load(s, ruleID, b), Load(s', ruleID, b), a.weight);
      } else {
        ScaleNonNegative(Load(s, ruleID, b), Load(s', ruleID, b), a.weight);
      }
    }
  }

  lemma ConnectKeepsLoads(s: State, ruleID: string, id: string, t: Endpoint)
    requires Enabled(s, ruleID, Connects(id))
    ensures Load(Apply(s, Key(ruleID, id), PromoteTCP), ruleID, t) == Load(s, ruleID, t)
  {}

  lemma StepKeepsFair(s: State, ruleID: string, targets: seq<Endpoint>, e: Arrival)
    requires targets != [] && PositiveWeights(targets) && DistinctIDs(targets)
    requires AllAdmitted(s, ruleID, targets) && Fair(s, ruleID, targets) && Enabled(s, ruleID, e)
    ensures AllAdmitted(Next(s, ruleID, targets, e), ruleID, targets)
    ensures Fair(Next(s, ruleID, targets, e), ruleID, targets)
  {
    match e
    case Arrives => ArrivalKeepsFair(s, ruleID, targets);
    case Connects(id) =>
      var s' := Next(s, ruleID, targets, e);
      forall i | 0 <= i < |targets|
        ensures Load(s', ruleID, targets[i]) == Load(s, ruleID, targets[i])
      {
        ConnectKeepsLoads(s, ruleID, id, targets[i]);
      }
      hide Load;
      forall i, j | 0 <= i < |targets| && 0 <= j < |targets|
        ensures FairPair(s', ruleID, targets[i], targets[j])
      {
        assert FairPair(s, ruleID, targets[i], targets[j]);
      }
  }

  lemma {:induction false} RunKeepsFair(s: State, ruleID: string, targets: seq<Endpoint>, events: seq<Arrival>)
    requires targets != [] && PositiveWeights(targets) && DistinctIDs(targets)
    requires AllAdmitted(s, ruleID, targets) && Fair(s, ruleID, targets) && Runnable(s, ruleID, targets, events)
    ensures Fair(Run(s, ruleID, targets, events), ruleID, targets)
    decreases |events|
  {
    hide Fair, Next, Enabled, AllAdmitted;
    if events != [] {
      StepKeepsFair(s, ruleID, targets, events[0]);
      RunKeepsFair(Next(s, ruleID, targets, events[0]), ruleID, targets, events[1..]);
    }
  }

  /** From idle targets, after any number of arrivals: (c_i - 1) * w_j <= c_j * w_i for all i, j. */
  lemma ArrivalsAreFair(s: State, ruleID: string, targets: seq<Endpoint>, events: seq<Arrival>, i: nat, j: nat)
    requires targets != [] && PositiveWeights(targets) && DistinctIDs(targets)
    requires AllAdmitted(s, ruleID, targets) && Runnable(s, ruleID, targets, events)
    requires forall t :: 0 <= t < |targets| ==> Load(s, ruleID, targets[t]) == 0
    requires i < |targets| && j < |targets|
    ensures var r := Run(s, ruleID, targets, events);
            (Load(r, ruleID, targets[i]) - 1) * targets[j].weight <= Load(r, ruleID, targets[j]) * targets[i].weight
  {
    hide Run, Runnable, Load, AllAdmitted;
    forall a, b | 0 <= a < |targets| && 0 <= b < |targets|
      ensures FairPair(s, ruleID, targets[a], targets[b])
    {
      assert (0 - 1) * targets[b].weight <= 0 * targets[a].weight;
    }
    RunKeepsFair(s, ruleID, targets, events);
    assert FairPair(Run(s, ruleID, targets, events), ruleID, targets[i], targets[j]);
  }

  // ---------- in figures ----------

  /** No target has less load per weight than the picked one, and every earlier one has more. */
  lemma PickMinimisesLoad(s: State, ruleID: string, targets: seq<Endpoint>, j: nat)
    requires targets != [] && PositiveWeights(targets) && j < |targets|
    ensures var i := Pick(s, ruleID, targets);
            && Load(s, ruleID, targets[i]) * targets[j].weight <= Load(s, ruleID, targets[j]) * targets[i].weight
            && (j < i ==> Load(s, ruleID, targets[i]) * targets[j].weight < Load(s, ruleID, targets[j]) * targets[i].weight)
  {
    hide Pick, Load;
    PickIsFirstMinimum(s, ruleID, targets);
  }

  predicate Eligible(m: Member) {
    m.enabled && m.endpoint.weight > 0
  }

  /** `places` are the positions, in order, of the eligible members, which are the ones in `usable`. */
  ghost predicate ListsEligible(members: seq<Member>, usable: seq<Endpoint>, places: seq<nat>) {
    && |places| == |usable| && (forall a, b :: 0 <= a < b < |places| ==> places[a] < places[b])
    && (forall a :: 0 <= a < |places| ==> places[a] < |members| && members[places[a]].endpoint == usable[a])
    && (forall i: nat :: i < |members| ==> (i in places <==> Eligible(members[i])))
  }

  lemma ListsOneMore(members: seq<Member>, usable: seq<Endpoint>, places: seq<nat>, m: Member)
    requires ListsEligible(members, usable, places)
    ensures Eligible(m) ==> ListsEligible(members + [m], usable + [m.endpoint], places + [|members|])
    ensures !Eligible(m) ==> ListsEligible(members + [m], usable, places)
  {
    hide Eligible;
    var more := members + [m];
    assert forall a :: 0 <= a < |places| ==> more[places[a]] == members[places[a]];
    assert forall i: nat :: i < |members| ==> more[i] == members[i];
    assert |members| !in places;
  }

  /** The usable members are the enabled ones with a positive weight, each once and in order. */
  lemma {:induction false} UsableExactly(members: seq<Member>) returns (places: seq<nat>)
    ensures ListsEligible(members, Usable(members), places)
  {
    hide ListsEligible;
    if members == [] {
      places := [];
      ListsNone();
    } else {
      var front, last := members[..|members| - 1], members[|members| - 1];
      var before := UsableExactly(front);
      ListsOneMore(front, Usable(front), before, last);
      assert members == front + [last];
      assert Usable(members) == Usable(front) + if Eligible(last) then [last.endpoint] else [];
      assert Usable(front) + [] == Usable(front);
      places := if Eligible(last) then before + [|front|] else before;
    }
  }

  lemma ListsNone()
    ensures ListsEligible([], [], [])
  {
  }

  /** A target is a candidate exactly when it is an enabled, positively weighted member of the chosen bucket. */
  lemma CandidateIff(members: seq<Member>, e: Endpoint)
    ensures e in Usable(members) <==> exists i :: 0 <= i < |members| && members[i].endpoint == e && Eligible(members[i])
  {
    var places := UsableExactly(members);
    var usable := Usable(members);
    if e in usable {
      var a :| 0 <= a < |usable| && usable[a] == e;
      assert places[a] in places;
    }
    if i :| 0 <= i < |members| && members[i].endpoint == e && Eligible(members[i]) {
      assert i in places;
      var a :| 0 <= a < |places| && places[a] == i;
      assert usable[a] == e;
    }
  }
}

/**
 Conservation of traffic inside the forwarder: whatever targets are deactivated,
 pruned and reactivated while connections are open, every accepted byte, packet and
 connection is either reported, waiting in a pending delta, or still the difference
 between a counter and its baseline.
 */
module CounterConservation {
  import opened Traffic
  import opened MetricsCounter

  // ---------- sums over the counter map ----------

  ghost function SumMap(m: map<Key, Volume>): Volume {
    if m == map[] then NOTHING
    else
      var k :| k in m;
      SumMap(m - {k}).Plus(m[k])
  }

  lemma {:induction false} SumRemove(m: map<Key, Volume>, k: Key)
    requires k in m
    ensures SumMap(m) == SumMap(m - {k}).Plus(m[k])
    decreases |m|
  {
    var first :| first in m && SumMap(m) == SumMap(m - {first}).Plus(m[first]);
    assert SumMap(m) == SumMap(m - {first}).Plus(m[first]);
    if first != k {
      var without := m - {first, k};
      SumRemove(m - {first}, k);
      SumRemove(m - {k}, first);
      assert m - {first} - {k} == without && m - {k} - {first} == without;
      var rest := SumMap(without);
      assert SumMap(m - {first}) == rest.Plus(m[k]);
      assert SumMap(m - {k}) == rest.Plus(m[first]);
      assert SumMap(m) == rest.Plus(m[k]).Plus(m[first]);
      assert rest.Plus(m[k]).Plus(m[first]) == rest.Plus(m[first]).Plus(m[k]);
    }
  }

  lemma {:induction false} SumZero(m: map<Key, Volume>)
    requires forall k :: k in m ==> m[k] == NOTHING
    ensures SumMap(m) == NOTHING
    decreases |m|
  {
    if m != map[] {
      var k :| k in m;
      SumRemove(m, k);
      SumZero(m - {k});
    }
  }

  /** The parts of a rule's counters that lie above their baselines. */
  ghost function Gaps(s: State, rule: string): map<Key, Volume> {
    map k | k in s.targets && k.ruleID == rule :: s.targets[k].Meter().Minus(s.Baseline(k))
  }

  ghost function Unreported(s: State, rule: string): Volume {
    SumMap(Gaps(s, rule))
  }

  /** Baselines belong to existing counters and never exceed them. */
  ghost predicate Metered(s: State) {
    && s.lastTargets.Keys <= s.targets.Keys
    && (forall k :: k in s.targets ==> s.targets[k].Meter().Minus(s.Baseline(k)).NonNegative())
  }

  lemma WithGap(s: State, k: Key, c: Counter, rule: string)
    requires Metered(s)
    ensures Unreported(s.With(k, c), rule) ==
            if k.ruleID == rule then Unreported(s, rule).Plus(c.Meter().Minus(s.At(k).Meter())) else Unreported(s, rule)
  {
    hide SumMap;
    var before, after := Gaps(s, rule), Gaps(s.With(k, c), rule);
    if k.ruleID != rule {
      assert before == after;
    } else {
      SumRemove(after, k);
      assert after - {k} == before - {k};
      if k in s.targets {
        SumRemove(before, k);
      } else {
        assert before - {k} == before;
      }
    }
  }

  lemma GainIsGap(current: Volume, last: Volume)
    requires current.Minus(last).NonNegative()
    ensures Gain(current, last) == current.Minus(last)
  {}

  lemma DeltaIsGap(s: State, k: Key, rule: string)
    requires k in s.targets && Metered(s)
    ensures Total(TargetDelta(s, k), rule) ==
            if k.ruleID == rule then s.targets[k].Meter().Minus(s.Baseline(k)) else NOTHING
  {
    GainIsGap(s.targets[k].Meter(), s.Baseline(k));
    var d := TargetDelta(s, k);
    if d != [] {
      assert d[..0] == [];
    }
  }

  // ---------- pruning ----------

  /** What is held for a rule: pending deltas and the gaps of its counters. */
  ghost function Held(s: State, rule: string): Volume {
    Total(s.pendingDeltas, rule).Plus(Unreported(s, rule))
  }

  lemma DropKeepsHeld(s: State, k: Key, rule: string)
    requires k in s.targets && Metered(s)
    ensures Metered(Drop(s, k)) && Held(Drop(s, k), rule) == Held(s, rule)
  {
    hide SumMap, Total, TargetDelta;
    var s' := Drop(s, k);
    DeltaIsGap(s, k, rule);
    TotalConcat(s.pendingDeltas, TargetDelta(s, k), rule);
    var before, after := Gaps(s, rule), Gaps(s', rule);
    assert after == before - {k};
    if k.ruleID == rule {
      SumRemove(before, k);
    } else {
      assert before - {k} == before;
    }
  }

  lemma VisitKeepsHeld(s: State, k: Key, rule: string)
    requires Metered(s)
    ensures Metered(Visit(s, k)) && Held(Visit(s, k), rule) == Held(s, rule)
  {
    if s.activeApplied && k !in s.activeTargets && k in s.targets {
      if s.targets[k].Open() <= 0 {
        DropKeepsHeld(s, k, rule);
      } else {
        WithGap(s, k, s.targets[k].(latencyMS := 0), rule);
      }
    }
  }

  /** Pruning in any order moves traffic between gaps and pending deltas, and loses none. */
  lemma {:induction false} PruneKeepsHeld(s: State, order: seq<Key>, rule: string)
    requires Metered(s)
    ensures Metered(Prune(s, order)) && Held(Prune(s, order), rule) == Held(s, rule)
  {
    if order != [] {
      var front := order[..|order| - 1];
      PruneKeepsHeld(s, front, rule);
      VisitKeepsHeld(Prune(s, front), order[|order| - 1], rule);
    }
  }

  // ---------- the payload ----------

  ghost function GapsOn(s: State, rule: string, keys: set<Key>): map<Key, Volume> {
    map k | k in s.targets && k.ruleID == rule && k in keys :: s.targets[k].Meter().Minus(s.Baseline(k))
  }

  ghost function Elems(keys: seq<Key>): set<Key> {
    set k | k in keys
  }

  lemma GapsOnStep(s: State, rule: string, keys: set<Key>, k: Key)
    requires k !in keys
    ensures SumMap(GapsOn(s, rule, keys + {k})) ==
            if k in s.targets && k.ruleID == rule
            then SumMap(GapsOn(s, rule, keys)).Plus(s.targets[k].Meter().Minus(s.Baseline(k)))
            else SumMap(GapsOn(s, rule, keys))
  {
    hide SumMap;
    var before, after := GapsOn(s, rule, keys), GapsOn(s, rule, keys + {k});
    if k in s.targets && k.ruleID == rule {
      SumRemove(after, k);
      assert after - {k} == before;
    } else {
      assert after == before;
    }
  }

  predicate Distinct(keys: seq<Key>) {
    forall i, j :: 0 <= i < j < |keys| ==> keys[i] != keys[j]
  }

  lemma ElemsStep(keys: seq<Key>)
    requires keys != [] && Distinct(keys)
    ensures var front, k := keys[..|keys| - 1], keys[|keys| - 1];
            Distinct(front) && k !in Elems(front) && Elems(keys) == Elems(front) + {k}
  {
    var front, k := keys[..|keys| - 1], keys[|keys| - 1];
    assert keys == front + [k];
  }

  lemma LiveDeltasNone(s: State, rule: string)
    ensures Total(LiveDeltas(s, []), rule) == SumMap(GapsOn(s, rule, Elems([])))
  {
    assert GapsOn(s, rule, Elems([])) == map[];
  }

  lemma OwnTotal(s: State, k: Key, rule: string)
    requires Metered(s)
    ensures Total(if k in s.targets then TargetDelta(s, k) else [], rule) ==
            if k in s.targets && k.ruleID == rule then s.targets[k].Meter().Minus(s.Baseline(k)) else NOTHING
  {
    if k in s.targets {
      DeltaIsGap(s, k, rule);
    }
  }

  lemma {:induction false} LiveDeltasTotal(s: State, keys: seq<Key>, rule: string)
    requires Metered(s) && Distinct(keys)
    ensures Total(LiveDeltas(s, keys), rule) == SumMap(GapsOn(s, rule, Elems(keys)))
  {
    hide SumMap, TargetDelta, GapsOn, Elems, Distinct, Total, Metered;
    if keys == [] {
      LiveDeltasNone(s, rule);
    } else {
      var front, k := keys[..|keys| - 1], keys[|keys| - 1];
      ElemsStep(keys);
      LiveDeltasTotal(s, front, rule);
      TotalConcat(LiveDeltas(s, front), if k in s.targets then TargetDelta(s, k) else [], rule);
      GapsOnStep(s, rule, Elems(front), k);
      OwnTotal(s, k, rule);
    }
  }

  lemma PruneLeavesNoneDoomed(s: State, order: seq<Key>)
    requires Listing(order, s.targets.Keys)
    ensures Snapshots(Prune(s, order)).Keys == Prune(s, order).targets.Keys
  {
    PruneKeepsOthers(s, order);
  }

  lemma BaselineReached(s: State, now: nat, rule: string)
    requires Snapshots(s).Keys == s.targets.Keys
    ensures Metered(AfterPayload(s, now)) && Held(AfterPayload(s, now), rule) == NOTHING
  {
    hide SumMap;
    var s' := AfterPayload(s, now);
    forall k | k in s'.targets
      ensures s'.targets[k].Meter().Minus(s'.Baseline(k)) == NOTHING
    {
      assert k in Snapshots(s).Keys;
      assert s'.Baseline(k) == s.targets[k].Meter();
    }
    SumZero(Gaps(s', rule));
    assert Unreported(s', rule) == NOTHING && Total(s'.pendingDeltas, rule) == NOTHING;
  }

  /**
   A payload reports everything held for the rule, except that it forgets the gaps of
   live counters when the clock has not moved past the previous snapshot.
   */
  lemma PayloadReports(s: State, now: nat, order: seq<Key>, keys: seq<Key>, rule: string)
    requires Metered(s) && rule != ""
    requires Listing(order, s.targets.Keys)
    requires Listing(keys, Snapshots(Prune(s, order)).Keys)
    ensures var pruned := Prune(s, order);
            && Metered(AfterPayload(pruned, now))
            && Total(PayloadDeltas(pruned, now, keys), rule).Plus(Held(AfterPayload(pruned, now), rule)) ==
               if Elapsed(s, now) then Held(s, rule) else Held(s, rule).Minus(Unreported(pruned, rule))
  {
    hide SumMap, Prune, PayloadDeltas, Total;
    var pruned := Prune(s, order);
    PruneKeepsHeld(s, order, rule);
    PruneKeepsOthers(s, order);
    PruneLeavesNoneDoomed(s, order);
    BaselineReached(pruned, now, rule);
    PayloadTotal(pruned, now, keys, rule);
  }

  lemma LiveIsUnreported(s: State, keys: seq<Key>, rule: string)
    requires Metered(s) && Listing(keys, s.targets.Keys)
    ensures Total(LiveDeltas(s, keys), rule) == Unreported(s, rule)
  {
    hide SumMap, Total, LiveDeltas;
    LiveDeltasTotal(s, keys, rule);
    assert GapsOn(s, rule, Elems(keys)) == Gaps(s, rule);
  }

  lemma PayloadTotal(pruned: State, now: nat, keys: seq<Key>, rule: string)
    requires Metered(pruned) && rule != "" && Listing(keys, pruned.targets.Keys)
    ensures Total(PayloadDeltas(pruned, now, keys), rule) ==
            if Elapsed(pruned, now) then Held(pruned, rule) else Total(pruned.pendingDeltas, rule)
  {
    LiveIsUnreported(pruned, keys, rule);
    MergedTotal(pruned.pendingDeltas, if Elapsed(pruned, now) then LiveDeltas(pruned, keys) else [], rule);
    assert Total([], rule) == NOTHING;
    hide Merge, LiveDeltas, Total, Unreported, Metered, Listing;
  }

  lemma MergedTotal(pending: seq<Delta>, live: seq<Delta>, rule: string)
    requires rule != ""
    ensures Total(if pending == [] then live else Merge(pending + live), rule) == Total(pending, rule).Plus(Total(live, rule))
  {
    hide Merge;
    TotalConcat(pending, live, rule);
    MergeConserves(pending + live, rule);
    assert [] + live == live;
  }

  // ---------- runs ----------

  datatype Event =
    | Touch(key: Key, change: Change)
    | ApplyConfig(active: set<Key>, order: seq<Key>)
    | Report(now: nat, order: seq<Key>, keys: seq<Key>)

  /** The counters with two histories: deltas handed to the agent, increments accepted. */
  datatype Books = Books(state: State, reported: seq<Delta>, accepted: seq<Delta>)

  /** The volume an update is worth, were it accepted. */
  function Gained(change: Change): Volume {
    match change
    case Carry(Packets, amount) => Volume(0, 0, 0, amount)
    case Carry(Upload, amount) => Volume(amount, 0, 0, 0)
    case Carry(Download, amount) => Volume(0, amount, 0, 0)
    case CountTCP(step) => Volume(0, 0, Max0(step), 0)
    case PromoteTCP => Volume(0, 0, 1, 0)
    case _ => NOTHING
  }

  function Accepted(s: State, k: Key, change: Change): seq<Delta> {
    if Accepts(s, k, change) then [Delta(k.ruleID, Gained(change))] else []
  }

  function Next(b: Books, e: Event): Books {
    match e
    case ApplyConfig(active, order) => b.(state := SetActive(b.state, active, order))
    case Report(now, order, keys) =>
      var pruned := Prune(b.state, order);
      Books(AfterPayload(pruned, now), b.reported + PayloadDeltas(pruned, now, keys), b.accepted)
    case Touch(k, change) =>
      Books(Apply(b.state, k, change), b.reported, b.accepted + Accepted(b.state, k, change))
  }

  /** Byte and packet counts are not negative, loops visit every target once, and each report is later than the one before. */
  ghost predicate Enabled(s: State, e: Event) {
    match e
    case ApplyConfig(_, order) => Listing(order, s.targets.Keys)
    case Report(now, order, keys) =>
      now > s.lastSnapshotAt && Listing(order, s.targets.Keys) && Listing(keys, Snapshots(Prune(s, order)).Keys)
    case Touch(_, change) => change.Carry? ==> change.amount >= 0
  }

  ghost predicate Runnable(b: Books, events: seq<Event>)
    decreases |events|
  {
    events == [] || (Enabled(b.state, events[0]) && Runnable(Next(b, events[0]), events[1..]))
  }

  function Run(b: Books, events: seq<Event>): Books
    decreases |events|
  {
    if events == [] then b else Run(Next(b, events[0]), events[1..])
  }

  ghost predicate Inv(b: Books) {
    forall rule :: rule != "" ==> Balances(b, rule)
  }

  lemma UpdatedMeter(c: Counter, change: Change)
    ensures Updated(c, change).Meter() == c.Meter().Plus(Gained(change))
  {}

  lemma TouchKeeps(s: State, k: Key, change: Change, rule: string)
    requires Metered(s) && Gained(change).NonNegative()
    ensures Metered(Apply(s, k, change)) && Apply(s, k, change).lastSnapshotAt == s.lastSnapshotAt
    ensures Held(Apply(s, k, change), rule) == Held(s, rule).Plus(Total(Accepted(s, k, change), rule))
  {
    hide Updated, Gained, Held, Accepts, Accepted, PruneClosed, Metered, Total;
    TotalAccepted(s, k, change, rule);
    UpdatedMeter(s.At(k), change);
    WithHeld(s, k, Updated(s.At(k), change), Gained(change), rule);
    PruneClosedHeld(s.With(k, Updated(s.At(k), change)), k, rule);
  }

  lemma TotalAccepted(s: State, k: Key, change: Change, rule: string)
    ensures Total(Accepted(s, k, change), rule) ==
            if Accepts(s, k, change) && k.ruleID == rule then Gained(change) else NOTHING
  {
    SingleTotal(Delta(k.ruleID, Gained(change)), rule);
  }

  lemma WithHeld(s: State, k: Key, c: Counter, gained: Volume, rule: string)
    requires Metered(s) && c.Meter() == s.At(k).Meter().Plus(gained) && gained.NonNegative()
    ensures Metered(s.With(k, c))
    ensures Held(s.With(k, c), rule) == Held(s, rule).Plus(if k.ruleID == rule then gained else NOTHING)
  {
    hide Unreported, Total, Metered;
    WithGap(s, k, c, rule);
    WithKeepsMetered(s, k, c, gained);
  }

  lemma PruneClosedHeld(s: State, k: Key, rule: string)
    requires Metered(s)
    ensures Metered(PruneClosed(s, k)) && PruneClosed(s, k).lastSnapshotAt == s.lastSnapshotAt
    ensures Held(PruneClosed(s, k), rule) == Held(s, rule)
  {
    hide Metered, Held, TargetDelta;
    if s.Doomed(k) {
      DropKeepsHeld(s, k, rule);
    }
  }

  lemma SingleTotal(d: Delta, rule: string)
    ensures Total([d], rule) == if d.ruleID == rule then d.volume else NOTHING
  {
    assert [d][..0] == [];
    assert Total([], rule) == NOTHING;
  }

  lemma WithKeepsMetered(s: State, k: Key, c: Counter, gained: Volume)
    requires Metered(s) && c.Meter() == s.At(k).Meter().Plus(gained) && gained.NonNegative()
    ensures Metered(s.With(k, c))
  {
    var next := s.With(k, c);
    forall j | j in next.targets
      ensures next.targets[j].Meter().Minus(next.Baseline(j)).NonNegative()
    {
      if j == k {
        assert s.At(k).Meter().Minus(s.Baseline(k)).NonNegative();
      }
    }
  }

  ghost predicate Balances(b: Books, rule: string) {
    && Metered(b.state) && b.state.lastSnapshotAt > 0
    && Total(b.reported, rule).Plus(Held(b.state, rule)) == Total(b.accepted, rule)
  }

  lemma ReportBalances(b: Books, now: nat, order: seq<Key>, keys: seq<Key>, rule: string)
    requires Balances(b, rule) && Enabled(b.state, Report(now, order, keys)) && rule != ""
    ensures Balances(Next(b, Report(now, order, keys)), rule)
  {
    hide Prune, Total, Metered, Held, PayloadDeltas;
    PayloadReports(b.state, now, order, keys, rule);
    TotalConcat(b.reported, PayloadDeltas(Prune(b.state, order), now, keys), rule);
  }

  lemma TouchBalances(b: Books, k: Key, change: Change, rule: string)
    requires Balances(b, rule) && Enabled(b.state, Touch(k, change)) && rule != ""
    ensures Balances(Next(b, Touch(k, change)), rule)
  {
    hide Total, Metered, Held, Apply, Accepted;
    TouchKeeps(b.state, k, change, rule);
    TotalConcat(b.accepted, Accepted(b.state, k, change), rule);
  }

  lemma StepBalances(b: Books, e: Event, rule: string)
    requires Balances(b, rule) && Enabled(b.state, e) && rule != ""
    ensures Balances(Next(b, e), rule)
  {
    match e
    case ApplyConfig(active, order) =>
      hide Total, Metered, Held, SetActive;
      ConfigKeepsHeld(b.state, active, order, rule);
    case Report(now, order, keys) =>
      hide Balances;
      ReportBalances(b, now, order, keys, rule);
    case Touch(k, change) =>
      hide Balances;
      TouchBalances(b, k, change, rule);
  }

  lemma StepKeepsInv(b: Books, e: Event)
    requires Inv(b) && Enabled(b.state, e)
    ensures Inv(Next(b, e))
  {
    hide Balances, Next, Enabled;
    forall rule | rule != ""
      ensures Balances(Next(b, e), rule)
    {
      StepBalances(b, e, rule);
    }
  }

  lemma ConfigKeepsHeld(s: State, active: set<Key>, order: seq<Key>, rule: string)
    requires Metered(s)
    ensures Metered(SetActive(s, active, order)) && SetActive(s, active, order).lastSnapshotAt == s.lastSnapshotAt
    ensures Held(SetActive(s, active, order), rule) == Held(s, rule)
  {
    hide Prune, Total, SumMap;
    var configured := s.(activeTargets := active, activeApplied := true);
    assert Gaps(configured, rule) == Gaps(s, rule);
    PruneKeepsHeld(configured, order, rule);
    PruneKeepsOthers(configured, order);
  }

  lemma {:induction false} RunKeepsInv(b: Books, events: seq<Event>)
    requires Inv(b) && Runnable(b, events)
    ensures Inv(Run(b, events))
    decreases |events|
  {
    hide Inv, Next, Enabled;
    if events != [] {
      StepKeepsInv(b, events[0]);
      RunKeepsInv(Next(b, events[0]), events[1..]);
    }
  }

  function Start(startedAt: nat): Books {
    Books(State(map[], map[], [], {}, false, startedAt), [], [])
  }

  /** Reported plus pending plus unreported equals accepted, for every rule, after every run. */
  lemma CounterConservation(startedAt: nat, events: seq<Event>, rule: string)
    requires startedAt > 0 && Runnable(Start(startedAt), events) && rule != ""
    ensures var b := Run(Start(startedAt), events);
            Total(b.reported, rule).Plus(Total(b.state.pendingDeltas, rule)).Plus(Unreported(b.state, rule))
            == Total(b.accepted, rule)
  {
    hide Run, Runnable, Total, Unreported, Metered, Start;
    EveryRunBalances(startedAt, events, rule);
  }

  lemma EveryRunBalances(startedAt: nat, events: seq<Event>, rule: string)
    requires startedAt > 0 && Runnable(Start(startedAt), events) && rule != ""
    ensures Balances(Run(Start(startedAt), events), rule)
  {
    hide Run, Runnable, Balances, Start;
    StartInv(startedAt);
    RunKeepsInv(Start(startedAt), events);
  }

  lemma StartInv(startedAt: nat)
    requires startedAt > 0
    ensures Inv(Start(startedAt))
  {
    hide SumMap;
    var b := Start(startedAt);
    forall rule | rule != ""
      ensures Balances(b, rule)
    {
      assert Gaps(b.state, rule) == map[];
      SumZero(Gaps(b.state, rule));
      assert Total([], rule) == NOTHING;
    }
  }

  /**
   The clock matters: a report keeps the rule's balance if and only if time has moved
   past the previous snapshot or no live counter of the rule stands above its baseline.
   */
  lemma PayloadConservesIff(s: State, now: nat, order: seq<Key>, keys: seq<Key>, rule: string)
    requires Metered(s) && s.lastSnapshotAt > 0 && rule != ""
    requires Listing(order, s.targets.Keys)
    requires Listing(keys, Snapshots(Prune(s, order)).Keys)
    ensures var pruned := Prune(s, order);
            Total(PayloadDeltas(pruned, now, keys), rule).Plus(Held(AfterPayload(pruned, now), rule)) == Held(s, rule)
            <==> now > s.lastSnapshotAt || Unreported(pruned, rule) == NOTHING
  {
    hide Prune, PayloadDeltas, AfterPayload, Held, Unreported, Snapshots, Listing, Metered;
    PayloadReports(s, now, order, keys, rule);
  }
}

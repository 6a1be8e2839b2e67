/**
 Dial reservations and live connections. The counters of a target are exactly the dials
 in progress and the connections open on it, whatever configs are applied in between, as
 long as no connection is opened without a reservation on a target that is not admitted.
 */
module Reservations {
  import opened Traffic
  import opened MetricsCounter

  /** The counters next to the dials and connections that exist in the process. */
  datatype Process = Process(state: State, dials: multiset<Key>, connections: multiset<Key>)

  datatype Event =
    | StartDial(key: Key)
    | FailDial(key: Key)
    | FinishDial(key: Key)
    | OpenUnreserved(key: Key)
    | CloseConnection(key: Key)
    | Other(key: Key, change: Change)
    | ApplyConfig(active: set<Key>, order: seq<Key>)
    | Report(now: nat, order: seq<Key>)

  predicate TouchesTCP(change: Change) {
    change.CountTCP? || change.ReserveTCP? || change.ReleaseTCP? || change.PromoteTCP?
  }

  /**
   A dial counts as started once its reservation is granted; a connection whose reservation
   was refused opens at any later moment; only what exists can end.
   */
  ghost predicate Enabled(p: Process, e: Event) {
    match e
    case StartDial(k) => p.state.Admits(k)
    case FailDial(k) => k in p.dials
    case FinishDial(k) => k in p.dials
    case OpenUnreserved(_) => true
    case CloseConnection(k) => k in p.connections
    case Other(_, change) => !TouchesTCP(change)
    case ApplyConfig(_, order) => Listing(order, p.state.targets.Keys)
    case Report(_, order) => Listing(order, p.state.targets.Keys)
  }

  function Next(p: Process, e: Event): Process {
    match e
    case StartDial(k) => Process(Apply(p.state, k, ReserveTCP), p.dials + multiset{k}, p.connections)
    case FailDial(k) => Process(Apply(p.state, k, ReleaseTCP), p.dials - multiset{k}, p.connections)
    case FinishDial(k) => Process(Apply(p.state, k, PromoteTCP), p.dials - multiset{k}, p.connections + multiset{k})
    case OpenUnreserved(k) => Process(Apply(p.state, k, CountTCP(1)), p.dials, p.connections + multiset{k})
    case CloseConnection(k) => Process(Apply(p.state, k, CountTCP(-1)), p.dials, p.connections - multiset{k})
    case Other(k, change) => p.(state := Apply(p.state, k, change))
    case ApplyConfig(active, order) => p.(state := SetActive(p.state, active, order))
    case Report(now, order) => p.(state := AfterPayload(Prune(p.state, order), now))
  }

  ghost predicate Runnable(p: Process, events: seq<Event>)
    decreases |events|
  {
    events == [] || (Enabled(p, events[0]) && Runnable(Next(p, events[0]), events[1..]))
  }

  function Run(p: Process, events: seq<Event>): Process
    decreases |events|
  {
    if events == [] then p else Run(Next(p, events[0]), events[1..])
  }

  /** An open without a reservation is counted when its target is admitted at that moment. */
  predicate Counted(p: Process, e: Event) {
    e.OpenUnreserved? ==> p.state.Admits(e.key)
  }

  ghost predicate AllCounted(p: Process, events: seq<Event>)
    decreases |events|
  {
    events == [] || (Counted(p, events[0]) && AllCounted(Next(p, events[0]), events[1..]))
  }

  /** The counter of one target is exact, and exists as long as something is open on it. */
  predicate ExactAt(s: State, dials: multiset<Key>, connections: multiset<Key>, k: Key) {
    && (k in s.targets ==>
          && s.targets[k].tcpDialReservations == dials[k]
          && s.targets[k].tcpConnections == connections[k]
          && s.targets[k].udpSessions >= 0 && s.targets[k].udpSessionReservations >= 0)
    && (k in dials || k in connections ==> k in s.targets)
  }

  ghost predicate Exact(p: Process) {
    forall k :: ExactAt(p.state, p.dials, p.connections, k)
  }

  /** None of the guards against negative counts would change the outcome of this step. */
  predicate Unclamped(s: State, e: Event) {
    match e
    case FailDial(k) => k in s.targets && s.targets[k].tcpDialReservations >= 1
    case FinishDial(k) => k in s.targets && s.targets[k].tcpDialReservations >= 1
    case CloseConnection(k) => k in s.targets && s.targets[k].tcpConnections >= 1
    case _ => true
  }

  lemma TouchOthers(s: State, k: Key, change: Change, j: Key)
    requires j != k
    ensures j in Apply(s, k, change).targets <==> j in s.targets
    ensures j in s.targets ==> Apply(s, k, change).targets[j] == s.targets[j]
  {
    hide Updated, TargetDelta;
  }

  lemma TouchOwn(s: State, k: Key, change: Change)
    requires Accepts(s, k, change)
    ensures var c := Updated(s.At(k), change);
            if Closes(change) && s.activeApplied && k !in s.activeTargets && c.Open() <= 0
            then k !in Apply(s, k, change).targets
            else k in Apply(s, k, change).targets && Apply(s, k, change).targets[k] == c
  {
    hide Updated, TargetDelta;
  }

  function ChangeOf(e: Event): Change
    requires !e.ApplyConfig? && !e.Report?
  {
    match e
    case StartDial(_) => ReserveTCP
    case FailDial(_) => ReleaseTCP
    case FinishDial(_) => PromoteTCP
    case OpenUnreserved(_) => CountTCP(1)
    case CloseConnection(_) => CountTCP(-1)
    case Other(_, change) => change
  }

  lemma StepExactAtOther(p: Process, e: Event, j: Key)
    requires Exact(p) && Enabled(p, e) && Counted(p, e) && !e.ApplyConfig? && !e.Report? && j != e.key
    ensures ExactAt(Next(p, e).state, Next(p, e).dials, Next(p, e).connections, j)
  {
    hide Apply, Enabled;
    TouchOthers(p.state, e.key, ChangeOf(e), j);
    assert ExactAt(p.state, p.dials, p.connections, j);
  }

  /** The new counter agrees with the new numbers of dials and connections. */
  lemma UpdatedExact(p: Process, e: Event)
    requires Exact(p) && Enabled(p, e) && Counted(p, e) && !e.ApplyConfig? && !e.Report?
    requires Accepts(p.state, e.key, ChangeOf(e))
    ensures var c := Updated(p.state.At(e.key), ChangeOf(e));
            && c.tcpDialReservations == Next(p, e).dials[e.key] && c.tcpConnections == Next(p, e).connections[e.key]
            && c.udpSessions >= 0 && c.udpSessionReservations >= 0
  {
    var c := p.state.At(e.key);
    ExactCounter(p, e.key);
    NextCounts(p, e);
    hide Exact, Next, Updated;
    if e.Other? {
      OtherKeepsTCP(c, e.change);
    } else {
      UpdatedCounts(c, e);
    }
  }

  function DialStep(e: Event): int {
    if e.StartDial? then 1 else if e.FailDial? || e.FinishDial? then -1 else 0
  }

  function ConnectionStep(e: Event): int {
    if e.FinishDial? || e.OpenUnreserved? then 1 else if e.CloseConnection? then -1 else 0
  }

  lemma NextCounts(p: Process, e: Event)
    requires Enabled(p, e) && !e.ApplyConfig? && !e.Report?
    ensures Next(p, e).dials[e.key] == p.dials[e.key] + DialStep(e)
    ensures Next(p, e).connections[e.key] == p.connections[e.key] + ConnectionStep(e)
  {
    hide Apply;
  }

  lemma UpdatedCounts(c: Counter, e: Event)
    requires !e.ApplyConfig? && !e.Report? && !e.Other?
    requires c.tcpDialReservations + DialStep(e) >= 0 && c.tcpConnections + ConnectionStep(e) >= 0
    ensures var d := Updated(c, ChangeOf(e));
            && d.tcpDialReservations == c.tcpDialReservations + DialStep(e) && d.tcpConnections == c.tcpConnections + ConnectionStep(e)
            && d.udpSessions == c.udpSessions && d.udpSessionReservations == c.udpSessionReservations
  {
  }

  lemma ExactCounter(p: Process, k: Key)
    requires Exact(p)
    ensures var c := p.state.At(k);
            && c.tcpDialReservations == p.dials[k] && c.tcpConnections == p.connections[k]
            && c.udpSessions >= 0 && c.udpSessionReservations >= 0
  {
    assert ExactAt(p.state, p.dials, p.connections, k);
  }

  lemma OtherKeepsTCP(c: Counter, change: Change)
    requires !TouchesTCP(change) && c.udpSessions >= 0 && c.udpSessionReservations >= 0
    ensures var d := Updated(c, change);
            && d.tcpDialReservations == c.tcpDialReservations && d.tcpConnections == c.tcpConnections
            && d.udpSessions >= 0 && d.udpSessionReservations >= 0
  {
  }

  lemma OnlyOthersAreRefused(p: Process, e: Event)
    requires Exact(p) && Enabled(p, e) && Counted(p, e) && !e.ApplyConfig? && !e.Report?
    requires !Accepts(p.state, e.key, ChangeOf(e))
    ensures e.Other? && e.key !in p.dials && e.key !in p.connections
  {
    hide Apply, Updated, Next;
    assert ExactAt(p.state, p.dials, p.connections, e.key);
    hide Exact;
  }

  lemma StepExactAtOwn(p: Process, e: Event)
    requires Exact(p) && Enabled(p, e) && Counted(p, e) && !e.ApplyConfig? && !e.Report?
    ensures ExactAt(Next(p, e).state, Next(p, e).dials, Next(p, e).connections, e.key)
  {
    var p', change := Next(p, e), ChangeOf(e);
    assert p'.state == Apply(p.state, e.key, change);
    hide Enabled, Updated, Next;
    if Accepts(p.state, e.key, change) {
      UpdatedExact(p, e);
      TouchOwn(p.state, e.key, change);
      hide Apply, Exact, Accepts;
    } else {
      OnlyOthersAreRefused(p, e);
      RefusedChangesNothing(p, e);
    }
  }

  lemma RefusedChangesNothing(p: Process, e: Event)
    requires e.Other? && !Accepts(p.state, e.key, e.change)
    ensures Next(p, e) == p
  {}

  lemma StepExactAt(p: Process, e: Event, j: Key)
    requires Exact(p) && Enabled(p, e) && Counted(p, e) && !e.ApplyConfig? && !e.Report?
    ensures ExactAt(Next(p, e).state, Next(p, e).dials, Next(p, e).connections, j)
  {
    hide Exact, ExactAt, Enabled, Next;
    if j == e.key {
      StepExactAtOwn(p, e);
    } else {
      StepExactAtOther(p, e, j);
    }
  }

  lemma VisitExactAt(s: State, dials: multiset<Key>, connections: multiset<Key>, k: Key, j: Key)
    requires ExactAt(s, dials, connections, j) && ExactAt(s, dials, connections, k)
    ensures ExactAt(Visit(s, k), dials, connections, j)
  {
    hide TargetDelta;
  }

  lemma {:induction false} PruneExactAt(s: State, dials: multiset<Key>, connections: multiset<Key>, order: seq<Key>, j: Key)
    requires forall k :: ExactAt(s, dials, connections, k)
    ensures ExactAt(Prune(s, order), dials, connections, j)
  {
    hide ExactAt, Visit;
    if order != [] {
      var front, k := order[..|order| - 1], order[|order| - 1];
      PruneExactAt(s, dials, connections, front, j);
      PruneExactAt(s, dials, connections, front, k);
      VisitExactAt(Prune(s, front), dials, connections, k, j);
    }
  }

  lemma StepKeepsExact(p: Process, e: Event)
    requires Exact(p) && Enabled(p, e) && Counted(p, e)
    ensures Exact(Next(p, e)) && Unclamped(p.state, e)
  {
    var p' := Next(p, e);
    assert Unclamped(p.state, e) by {
      if e.FailDial? || e.FinishDial? || e.CloseConnection? {
        assert ExactAt(p.state, p.dials, p.connections, e.key);
      }
    }
    forall j
      ensures ExactAt(p'.state, p'.dials, p'.connections, j)
    {
      match e
      case ApplyConfig(active, order) =>
        var configured := p.state.(activeTargets := active, activeApplied := true);
        assert forall k :: ExactAt(p.state, p.dials, p.connections, k) ==> ExactAt(configured, p.dials, p.connections, k);
        PruneExactAt(configured, p.dials, p.connections, order, j);
        hide Prune;
      case Report(now, order) =>
        PruneExactAt(p.state, p.dials, p.connections, order, j);
        hide Prune;
      case _ =>
        StepExactAt(p, e, j);
    }
  }

  function Start(startedAt: nat): Process {
    Process(State(map[], map[], [], {}, false, startedAt), multiset{}, multiset{})
  }

  lemma {:induction false} RunKeepsExact(p: Process, events: seq<Event>)
    requires Exact(p) && Runnable(p, events) && AllCounted(p, events)
    ensures Exact(Run(p, events))
    decreases |events|
  {
    hide Exact, Next, Enabled, Unclamped, Counted;
    if events != [] {
      StepKeepsExact(p, events[0]);
      RunKeepsExact(Next(p, events[0]), events[1..]);
    }
  }

  /**
   After every run whose unreserved opens were counted, for every target: its reservations are the dials in progress, its
   connections the open ones, and its counter exists while either is non-zero.
   */
  lemma CountersAreExact(startedAt: nat, events: seq<Event>, k: Key)
    requires Runnable(Start(startedAt), events) && AllCounted(Start(startedAt), events)
    ensures var p := Run(Start(startedAt), events);
            && (k in p.dials || k in p.connections ==> k in p.state.targets)
            && (k in p.state.targets ==>
                  p.state.targets[k].tcpDialReservations == p.dials[k] && p.state.targets[k].tcpConnections == p.connections[k])
  {
    RunKeepsExact(Start(startedAt), events);
    hide Run, Runnable, Start, AllCounted;
    assert ExactAt(Run(Start(startedAt), events).state, Run(Start(startedAt), events).dials, Run(Start(startedAt), events).connections, k);
  }

  lemma {:induction false} RunSplit(p: Process, events: seq<Event>, e: Event)
    requires Runnable(p, events + [e]) && AllCounted(p, events + [e])
    ensures Runnable(p, events) && Enabled(Run(p, events), e)
    ensures AllCounted(p, events) && Counted(Run(p, events), e)
    decreases |events|
  {
    hide Next, Enabled, Counted;
    if events != [] {
      assert (events + [e])[1..] == events[1..] + [e];
      RunSplit(Next(p, events[0]), events[1..], e);
    }
  }

  /** No reachable step of such a run ever hits a clamp at zero. */
  lemma NoClampFires(startedAt: nat, events: seq<Event>, e: Event)
    requires Runnable(Start(startedAt), events + [e]) && AllCounted(Start(startedAt), events + [e])
    ensures Unclamped(Run(Start(startedAt), events).state, e)
  {
    hide Run, Runnable, Unclamped, AllCounted, Counted;
    RunSplit(Start(startedAt), events, e);
    RunKeepsExact(Start(startedAt), events);
    StepKeepsExact(Run(Start(startedAt), events), e);
  }

  // ---------- when an open without a reservation is harmless ----------

  /** From exact counters: exact afterwards if and only if the target is admitted. */
  lemma OpenUnreservedExactIff(p: Process, k: Key)
    requires Exact(p)
    ensures Exact(Next(p, OpenUnreserved(k))) <==> p.state.Admits(k)
  {
    var e := OpenUnreserved(k);
    if p.state.Admits(k) {
      hide Exact, Next;
      StepKeepsExact(p, e);
    } else {
      var p' := Next(p, e);
      assert p'.state == p.state && k in p'.connections && k !in p'.state.targets;
      assert !ExactAt(p'.state, p'.dials, p'.connections, k);
    }
  }

  /** Exact now and after each of the events. */
  ghost predicate ExactThroughout(p: Process, events: seq<Event>)
    decreases |events|
  {
    Exact(p) && (events == [] || ExactThroughout(Next(p, events[0]), events[1..]))
  }

  lemma {:induction false} ExactFromIff(p: Process, events: seq<Event>)
    requires Exact(p) && Runnable(p, events)
    ensures ExactThroughout(p, events) <==> AllCounted(p, events)
    decreases |events|
  {
    hide Exact, Next, Enabled, Unclamped;
    if events != [] {
      var e, rest := events[0], events[1..];
      if e.OpenUnreserved? { OpenUnreservedExactIff(p, e.key); }
      if Counted(p, e) {
        StepKeepsExact(p, e);
        ExactFromIff(Next(p, e), rest);
      } else if ExactThroughout(p, events) {
        assert ExactThroughout(Next(p, e), rest);
      }
    }
  }

  /**
   The counters of a run are exact at every moment if and only if each connection opened
   without a reservation met an admitted target.
   */
  lemma ExactIffOpensAdmitted(startedAt: nat, events: seq<Event>)
    requires Runnable(Start(startedAt), events)
    ensures ExactThroughout(Start(startedAt), events) <==> AllCounted(Start(startedAt), events)
  {
    hide Runnable, AllCounted, ExactThroughout;
    ExactFromIff(Start(startedAt), events);
  }

  /**
   A run in which it shows: an uncounted connection stays open, its target is configured
   again, a counted one opens and one of the two closes. One is live, the count is zero.
   */
  lemma RefusedConnectionMiscounts(k: Key)
    ensures var events := MiscountingRun(k);
            && Runnable(Start(1), events) && !AllCounted(Start(1), events)
            && var p := Run(Start(1), events);
               p.connections[k] == 1 && k in p.state.targets && p.state.targets[k].tcpConnections == 0
  {
    hide Next, Enabled, Counted, Run, Runnable, AllCounted;
    Configure(Start(1), {});
    OpenRefused(k);
    Configure(Stage({}, map[], multiset{}, multiset{k}), {k});
    DialAndConnect(k);
    CloseOne(k);
    var p1 := Next(Start(1), ApplyConfig({}, []));
    var p2 := Next(p1, OpenUnreserved(k));
    var p3 := Next(p2, ApplyConfig({k}, []));
    var p4 := Next(p3, StartDial(k));
    var p5 := Next(p4, FinishDial(k));
    var e5 := [CloseConnection(k)];
    var e4 := [FinishDial(k)] + e5;
    var e3 := [StartDial(k)] + e4;
    var e2 := [ApplyConfig({k}, [])] + e3;
    var e1 := [OpenUnreserved(k)] + e2;
    RunsNothing(Next(p5, CloseConnection(k)));
    Unroll(p5, CloseConnection(k), []);
    assert [CloseConnection(k)] + [] == e5;
    Unroll(p4, FinishDial(k), e5);
    Unroll(p3, StartDial(k), e4);
    Unroll(p2, ApplyConfig({k}, []), e3);
    Unroll(p1, OpenUnreserved(k), e2);
    Unroll(Start(1), ApplyConfig({}, []), e1);
    assert MiscountingRun(k) == [ApplyConfig({}, [])] + e1;
  }

  lemma RunsNothing(p: Process)
    ensures Runnable(p, []) && Run(p, []) == p
  {
  }

  lemma Unroll(p: Process, e: Event, rest: seq<Event>)
    ensures Runnable(p, [e] + rest) <==> Enabled(p, e) && Runnable(Next(p, e), rest)
    ensures Run(p, [e] + rest) == Run(Next(p, e), rest)
    ensures AllCounted(p, [e] + rest) <==> Counted(p, e) && AllCounted(Next(p, e), rest)
  {
    hide Next, Enabled, Counted;
    assert ([e] + rest)[1..] == rest;
  }

  function Stage(active: set<Key>, targets: map<Key, Counter>, dials: multiset<Key>, connections: multiset<Key>): Process {
    Process(State(targets, map[], [], active, true, 1), dials, connections)
  }

  lemma Configure(p: Process, active: set<Key>)
    requires p.state.targets == map[]
    ensures Enabled(p, ApplyConfig(active, []))
    ensures Next(p, ApplyConfig(active, [])) == p.(state := p.state.(activeTargets := active, activeApplied := true))
  {
  }

  lemma OpenRefused(k: Key)
    ensures var p := Stage({}, map[], multiset{}, multiset{});
            && Enabled(p, OpenUnreserved(k)) && !Counted(p, OpenUnreserved(k))
            && Next(p, OpenUnreserved(k)) == Stage({}, map[], multiset{}, multiset{k})
  {
  }

  lemma DialAndConnect(k: Key)
    ensures var p := Stage({k}, map[], multiset{}, multiset{k});
            var reserved := Stage({k}, map[k := FRESH.(tcpDialReservations := 1)], multiset{k}, multiset{k});
            && Enabled(p, StartDial(k)) && Next(p, StartDial(k)) == reserved
            && Enabled(reserved, FinishDial(k))
            && Next(reserved, FinishDial(k)) ==
                 Stage({k}, map[k := FRESH.(tcpConnections := 1, tcpConnectionEvents := 1)], multiset{}, multiset{k, k})
  {
    hide TargetDelta;
  }

  lemma CloseOne(k: Key)
    ensures var open := FRESH.(tcpConnections := 1, tcpConnectionEvents := 1);
            var p := Stage({k}, map[k := open], multiset{}, multiset{k, k});
            && Enabled(p, CloseConnection(k))
            && Next(p, CloseConnection(k)) == Stage({k}, map[k := open.(tcpConnections := 0)], multiset{}, multiset{k})
  {
    hide TargetDelta;
    assert multiset{k, k} - multiset{k} == multiset{k};
  }

  function MiscountingRun(k: Key): seq<Event> {
    [ApplyConfig({}, []), OpenUnreserved(k), ApplyConfig({k}, []), StartDial(k), FinishDial(k), CloseConnection(k)]
  }
}

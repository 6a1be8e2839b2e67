/**
 The forwarder's per-target counters. Counters of inactive targets are pruned once
 nothing is open on them; what they had not yet reported becomes a pending delta.
 */
module MetricsCounter {
  import opened Traffic

  datatype Key = Key(ruleID: string, targetID: string)

  datatype Counter = Counter(
    tcpConnections: int,
    tcpConnectionEvents: int,
    tcpDialReservations: int,
    udpSessions: int,
    udpSessionReservations: int,
    udpPackets: int,
    uploadBytes: int,
    downloadBytes: int,
    latencyMS: int)
  {
    function Open(): int {
      tcpConnections + tcpDialReservations + udpSessions + udpSessionReservations
    }

    /** The monotone part of the counter, which traffic deltas are taken from. */
    function Meter(): Volume {
      Volume(uploadBytes, downloadBytes, tcpConnectionEvents, udpPackets)
    }
  }

  const FRESH := Counter(0, 0, 0, 0, 0, 0, 0, 0, 0)

  /** `lastTargets` keeps the meters of the last snapshot; 0 is the zero time. */
  datatype State = State(
    targets: map<Key, Counter>,
    lastTargets: map<Key, Volume>,
    pendingDeltas: seq<Delta>,
    activeTargets: set<Key>,
    activeApplied: bool,
    lastSnapshotAt: nat)
  {
    function Baseline(k: Key): Volume {
      if k in lastTargets then lastTargets[k] else NOTHING
    }

    function OpenOn(k: Key): int {
      if k in targets then targets[k].Open() else 0
    }

    /** A missing counter is only created for an active target, or before the first config. */
    predicate Admits(k: Key) {
      k in targets || !activeApplied || k in activeTargets
    }

    function At(k: Key): Counter {
      if k in targets then targets[k] else FRESH
    }

    function With(k: Key, c: Counter): State {
      this.(targets := targets[k := c])
    }

    predicate Doomed(k: Key) {
      activeApplied && k !in activeTargets && k in targets && targets[k].Open() <= 0
    }
  }

  // ---------- deltas ----------

  function PositiveDelta(current: int, last: int): int {
    if current <= last then 0 else current - last
  }

  function Gain(current: Volume, last: Volume): Volume {
    Volume(PositiveDelta(current.upload, last.upload), PositiveDelta(current.download, last.download),
           PositiveDelta(current.tcp, last.tcp), PositiveDelta(current.udp, last.udp))
  }

  /** At most one delta: a target that gained nothing reports nothing. */
  function TargetDelta(s: State, k: Key): seq<Delta>
    requires k in s.targets
  {
    var gain := Gain(s.targets[k].Meter(), s.Baseline(k));
    if gain.IsZero() then [] else [Delta(k.ruleID, gain)]
  }

  // ---------- pruning ----------

  function Drop(s: State, k: Key): State
    requires k in s.targets
  {
    s.(pendingDeltas := s.pendingDeltas + TargetDelta(s, k), targets := s.targets - {k}, lastTargets := s.lastTargets - {k})
  }

  /** One target of the prune loop. */
  function Visit(s: State, k: Key): State {
    if !s.activeApplied || k in s.activeTargets || k !in s.targets then s
    else if s.targets[k].Open() <= 0 then Drop(s, k)
    else s.With(k, s.targets[k].(latencyMS := 0))
  }

  /** The prune loop, in the iteration order the map happened to give. */
  function Prune(s: State, order: seq<Key>): State {
    if order == [] then s
    else Visit(Prune(s, order[..|order| - 1]), order[|order| - 1])
  }

  predicate Listing(order: seq<Key>, keys: set<Key>) {
    && (forall i :: 0 <= i < |order| ==> order[i] in keys)
    && (forall k :: k in keys ==> k in order)
    && (forall i, j :: 0 <= i < j < |order| ==> order[i] != order[j])
  }

  function PruneClosed(s: State, k: Key): State {
    if s.Doomed(k) then Drop(s, k) else s
  }

  function SetActive(s: State, active: set<Key>, order: seq<Key>): State {
    Prune(s.(activeTargets := active, activeApplied := true), order)
  }

  // ---------- updates of one target ----------

  datatype Meters = Packets | Upload | Download

  /** The updates that concern a single target. */
  datatype Change =
    | Carry(meter: Meters, amount: int)
    | CountTCP(step: int)
    | CountUDPSession(step: int)
    | ReserveTCP
    | ReleaseTCP
    | PromoteTCP
    | ReserveUDP
    | ReleaseUDP
    | PromoteUDP
    | Latency(latencyMS: int)

  function Updated(c: Counter, change: Change): Counter {
    match change
    case Carry(Packets, amount) => c.(udpPackets := c.udpPackets + amount)
    case Carry(Upload, amount) => c.(uploadBytes := c.uploadBytes + amount)
    case Carry(Download, amount) => c.(downloadBytes := c.downloadBytes + amount)
    case CountTCP(step) => c.(tcpConnections := Max0(c.tcpConnections + step), tcpConnectionEvents := c.tcpConnectionEvents + Max0(step))
    case CountUDPSession(step) => c.(udpSessions := Max0(c.udpSessions + step))
    case ReserveTCP => c.(tcpDialReservations := c.tcpDialReservations + 1)
    case ReleaseTCP => c.(tcpDialReservations := Max0(c.tcpDialReservations - 1))
    case PromoteTCP => c.(tcpDialReservations := LessOne(c.tcpDialReservations),
                          tcpConnections := c.tcpConnections + 1,
                          tcpConnectionEvents := c.tcpConnectionEvents + 1)
    case ReserveUDP => c.(udpSessionReservations := c.udpSessionReservations + 1)
    case ReleaseUDP => c.(udpSessionReservations := Max0(c.udpSessionReservations - 1))
    case PromoteUDP => c.(udpSessionReservations := LessOne(c.udpSessionReservations), udpSessions := c.udpSessions + 1)
    case Latency(latencyMS) => c.(latencyMS := latencyMS)
  }

  function LessOne(n: int): int {
    if n > 0 then n - 1 else n
  }

  /** Releases need an existing counter, promotions create one whatever the config says. */
  predicate Accepts(s: State, k: Key, change: Change) {
    match change
    case CountTCP(step) => k in s.targets || (step >= 0 && s.Admits(k))
    case CountUDPSession(step) => k in s.targets || (step >= 0 && s.Admits(k))
    case ReleaseTCP => k in s.targets
    case ReleaseUDP => k in s.targets
    case PromoteTCP => true
    case PromoteUDP => true
    case _ => s.Admits(k)
  }

  /** Updates that may close the last thing open on a target prune it when it is inactive. */
  predicate Closes(change: Change) {
    change.CountTCP? || change.CountUDPSession? || change.ReleaseTCP? || change.ReleaseUDP?
  }

  function Apply(s: State, k: Key, change: Change): State {
    if !Accepts(s, k, change) then s
    else
      var next := s.With(k, Updated(s.At(k), change));
      if Closes(change) then PruneClosed(next, k) else next
  }

  lemma ApplyCount(s: State, k: Key, amount: int)
    ensures Apply(s, k, CountTCP(amount)) ==
              if k in s.targets || (amount >= 0 && s.Admits(k)) then PruneClosed(s.With(k, Updated(s.At(k), CountTCP(amount))), k) else s
  {
    hide PruneClosed, Updated;
  }

  // ---------- the payload ----------

  predicate Reportable(s: State, k: Key) {
    k in s.targets && !s.Doomed(k)
  }

  function Snapshots(s: State): map<Key, Volume> {
    map k | k in s.targets && Reportable(s, k) :: s.targets[k].Meter()
  }

  /** Deltas of the live targets, in the order of `keys`. */
  function LiveDeltas(s: State, keys: seq<Key>): seq<Delta> {
    if keys == [] then []
    else
      var k := keys[|keys| - 1];
      LiveDeltas(s, keys[..|keys| - 1]) + (if k in s.targets then TargetDelta(s, k) else [])
  }

  /** Rates and deltas are only computed when time has moved on since the last snapshot. */
  predicate Elapsed(s: State, now: nat) {
    s.lastSnapshotAt != 0 && now > s.lastSnapshotAt
  }

  function PayloadDeltas(pruned: State, now: nat, keys: seq<Key>): seq<Delta> {
    var live := if Elapsed(pruned, now) then LiveDeltas(pruned, keys) else [];
    if pruned.pendingDeltas == [] then live else Merge(pruned.pendingDeltas + live)
  }

  /** The snapshot moves the baseline forward whether or not deltas were emitted. */
  function AfterPayload(pruned: State, now: nat): State {
    pruned.(pendingDeltas := [], lastTargets := Snapshots(pruned), lastSnapshotAt := now)
  }

  // ---------- least load ----------

  datatype Endpoint = Endpoint(id: string, weight: int)

  function Load(s: State, ruleID: string, target: Endpoint): int {
    s.OpenOn(Key(ruleID, target.id))
  }

  predicate Lighter(s: State, ruleID: string, left: Endpoint, right: Endpoint) {
    Load(s, ruleID, left) * right.weight < Load(s, ruleID, right) * left.weight
  }

  /** The index the scan is left with after looking at all of `targets`. */
  function Pick(s: State, ruleID: string, targets: seq<Endpoint>): (i: nat)
    requires targets != []
    ensures i < |targets|
  {
    if |targets| == 1 then 0
    else
      var best := Pick(s, ruleID, targets[..|targets| - 1]);
      if Lighter(s, ruleID, targets[|targets| - 1], targets[best]) then |targets| - 1 else best
  }

  lemma PickStep(s: State, ruleID: string, targets: seq<Endpoint>, i: nat)
    requires 1 <= i < |targets|
    ensures Pick(s, ruleID, targets[..i + 1]) ==
            var best := Pick(s, ruleID, targets[..i]);
            if Lighter(s, ruleID, targets[i], targets[best]) then i else best
  {
    assert targets[..i + 1][..i] == targets[..i];
  }

  // ---------- the object the forwarder updates in place ----------

  class Metrics {
    var targets: map<Key, Counter>
    var lastTargets: map<Key, Volume>
    var pendingDeltas: seq<Delta>
    var activeTargets: set<Key>
    var activeApplied: bool
    var lastSnapshotAt: nat

    ghost function Now(): State
      reads this
    {
      State(targets, lastTargets, pendingDeltas, activeTargets, activeApplied, lastSnapshotAt)
    }

    constructor (startedAt: nat)
      requires startedAt > 0
      ensures Now() == State(map[], map[], [], {}, false, startedAt)
    {
      targets, lastTargets, pendingDeltas, activeTargets := map[], map[], [], {};
      activeApplied, lastSnapshotAt := false, startedAt;
    }

    method QueueFinalInactiveTargetDelta(k: Key)
      requires k in targets
      modifies this`pendingDeltas
      ensures pendingDeltas == old(pendingDeltas) + TargetDelta(old(Now()), k)
    {
      var gain := Gain(targets[k].Meter(), if k in lastTargets then lastTargets[k] else NOTHING);
      if !gain.IsZero() {
        pendingDeltas := pendingDeltas + [Delta(k.ruleID, gain)];
      }
    }

    method PruneInactiveTargets() returns (ghost order: seq<Key>)
      modifies this
      ensures Now() == Prune(old(Now()), order)
      ensures Listing(order, old(targets).Keys)
    {
      order := [];
      var remaining := targets.Keys;
      ghost var before := Now();
      while remaining != {}
        invariant Now() == Prune(before, order)
        invariant remaining <= targets.Keys
        invariant forall i :: 0 <= i < |order| ==> order[i] in before.targets && order[i] !in remaining
        invariant forall k :: k in before.targets ==> k in order || k in remaining
        invariant forall i, j :: 0 <= i < j < |order| ==> order[i] != order[j]
        decreases remaining
      {
        var k :| k in remaining;
        assert remaining <= before.targets.Keys by { PruneKeepsOthers(before, order); }
        remaining := remaining - {k};
        ghost var longer := order + [k];
        assert longer[..|longer| - 1] == order;
        order := longer;
        if activeApplied && k !in activeTargets {
          if targets[k].Open() <= 0 {
            QueueFinalInactiveTargetDelta(k);
            targets := targets - {k};
            lastTargets := lastTargets - {k};
          } else {
            targets := targets[k := targets[k].(latencyMS := 0)];
          }
        }
      }
    }

    method SetActiveTargets(active: set<Key>) returns (ghost order: seq<Key>)
      modifies this
      ensures Now() == SetActive(old(Now()), active, order)
      ensures Listing(order, old(targets).Keys)
    {
      activeTargets := active;
      activeApplied := true;
      order := PruneInactiveTargets();
    }

    method PruneClosedInactiveTarget(k: Key)
      requires k in targets
      modifies this
      ensures Now() == PruneClosed(old(Now()), k)
    {
      if activeApplied && k !in activeTargets && targets[k].Open() <= 0 {
        QueueFinalInactiveTargetDelta(k);
        targets := targets - {k};
        lastTargets := lastTargets - {k};
      }
    }

    /** Finds or creates a counter; fails on a target that is no longer configured. */
    method Target(k: Key) returns (ok: bool)
      modifies this`targets
      ensures ok == old(Now()).Admits(k)
      ensures Now() == if ok then old(Now()).With(k, old(Now()).At(k)) else old(Now())
    {
      if k !in targets {
        if activeApplied && k !in activeTargets { return false; }
        targets := targets[k := FRESH];
      } else {
        assert targets == targets[k := targets[k]];
      }
      return true;
    }

    method AddTargetTraffic(k: Key, meter: Meters, amount: int)
      modifies this`targets
      ensures Now() == Apply(old(Now()), k, Carry(meter, amount))
    {
      var ok := Target(k);
      if ok {
        var c := CarryTraffic(targets[k], meter, amount);
        hide Updated;
        targets := targets[k := c];
      }
    }

    static method CarryTraffic(c: Counter, meter: Meters, amount: int) returns (next: Counter)
      ensures next == Updated(c, Carry(meter, amount))
    {
      match meter {
        case Packets => next := c.(udpPackets := c.udpPackets + amount);
        case Upload => next := c.(uploadBytes := c.uploadBytes + amount);
        case Download => next := c.(downloadBytes := c.downloadBytes + amount);
      }
    }

    /** Opens are events, and a count does not go below zero. */
    static method CountConnections(c: Counter, amount: int) returns (next: Counter)
      ensures next == Updated(c, CountTCP(amount))
    {
      next := c.(tcpConnections := c.tcpConnections + amount);
      if amount > 0 { next := next.(tcpConnectionEvents := next.tcpConnectionEvents + amount); }
      if next.tcpConnections < 0 { next := next.(tcpConnections := 0); }
    }

    method AddTargetTCPConnection(k: Key, amount: int)
      modifies this
      ensures Now() == Apply(old(Now()), k, CountTCP(amount))
    {
      ApplyCount(Now(), k, amount);
      hide PruneClosed, Apply;
      if k !in targets && (amount < 0 || (activeApplied && k !in activeTargets)) { return; }
      hide Updated;
      var c := if k in targets then targets[k] else FRESH;
      c := CountConnections(c, amount);
      targets := targets[k := c];
      PruneClosedInactiveTarget(k);
    }

    method ReserveTargetTCPDial(k: Key) returns (granted: bool)
      modifies this`targets
      ensures granted == old(Now()).Admits(k)
      ensures Now() == Apply(old(Now()), k, ReserveTCP)
    {
      granted := Target(k);
      if granted {
        var c := targets[k];
        targets := targets[k := c.(tcpDialReservations := c.tcpDialReservations + 1)];
      }
    }

    method ReleaseTargetTCPDial(k: Key)
      modifies this
      ensures Now() == Apply(old(Now()), k, ReleaseTCP)
    {
      if k !in targets { return; }
      var c := targets[k].(tcpDialReservations := targets[k].tcpDialReservations - 1);
      if c.tcpDialReservations < 0 { c := c.(tcpDialReservations := 0); }
      targets := targets[k := c];
      PruneClosedInactiveTarget(k);
    }

    method PromoteTargetTCPDial(k: Key)
      modifies this`targets
      ensures Now() == Apply(old(Now()), k, PromoteTCP)
    {
      var c := if k in targets then targets[k] else FRESH;
      if c.tcpDialReservations > 0 { c := c.(tcpDialReservations := c.tcpDialReservations - 1); }
      targets := targets[k := c.(tcpConnections := c.tcpConnections + 1, tcpConnectionEvents := c.tcpConnectionEvents + 1)];
    }

    method TargetOpenConnections(k: Key) returns (open: int)
      ensures open == Now().OpenOn(k)
    {
      open := if k in targets then targets[k].Open() else 0;
    }

    /** Scans the candidates with cross-multiplied loads and reserves the winner. */
    method ReserveLeastLoadTargetTCPDial(ruleID: string, candidates: seq<Endpoint>)
      returns (best: Endpoint, granted: bool, found: bool)
      modifies this`targets
      ensures found == (candidates != [])
      ensures !found ==> !granted && Now() == old(Now())
      ensures found ==>
                && best == candidates[Pick(old(Now()), ruleID, candidates)]
                && granted == old(Now()).Admits(Key(ruleID, best.id))
                && Now() == Apply(old(Now()), Key(ruleID, best.id), ReserveTCP)
    {
      if candidates == [] { return Endpoint("", 0), false, false; }
      best := candidates[0];
      var bestConnections := TargetOpenConnections(Key(ruleID, best.id));
      assert candidates[..1] == [candidates[0]];
      for i := 1 to |candidates|
        invariant best == candidates[Pick(Now(), ruleID, candidates[..i])]
        invariant bestConnections == Load(Now(), ruleID, best)
        invariant Now() == old(Now())
      {
        PickStep(Now(), ruleID, candidates, i);
        var candidate := candidates[i];
        var candidateConnections := TargetOpenConnections(Key(ruleID, candidate.id));
        if candidateConnections * best.weight < bestConnections * candidate.weight {
          best := candidate;
          bestConnections := candidateConnections;
        }
      }
      assert candidates[..|candidates|] == candidates;
      granted := ReserveTargetTCPDial(Key(ruleID, best.id));
      found := true;
    }

    /** Closes a metrics interval: prunes, reports what each target gained, and moves the baseline. */
    method AgentPayload(now: nat) returns (deltas: seq<Delta>, ghost order: seq<Key>, ghost keys: seq<Key>)
      modifies this
      ensures Listing(order, old(targets).Keys)
      ensures Listing(keys, Snapshots(Prune(old(Now()), order)).Keys)
      ensures deltas == PayloadDeltas(Prune(old(Now()), order), now, keys)
      ensures Now() == AfterPayload(Prune(old(Now()), order), now)
      ensures lastSnapshotAt == now && pendingDeltas == []
    {
      order := PruneInactiveTargets();
      ghost var pruned := Now();
      var current := map k | k in targets && !(activeApplied && k !in activeTargets && targets[k].Open() <= 0) :: targets[k].Meter();
      assert current == Snapshots(pruned);
      deltas, keys := LiveTargetDeltas(current, now);
      if pendingDeltas != [] {
        deltas := MergeDeltas(pendingDeltas + deltas, false);
        pendingDeltas := [];
      }
      lastTargets := current;
      lastSnapshotAt := now;
    }

    method LiveTargetDeltas(current: map<Key, Volume>, now: nat) returns (deltas: seq<Delta>, ghost keys: seq<Key>)
      requires current == Snapshots(Now())
      ensures Listing(keys, current.Keys)
      ensures deltas == if Elapsed(Now(), now) then LiveDeltas(Now(), keys) else []
    {
      deltas, keys := [], [];
      var remaining := current.Keys;
      while remaining != {}
        invariant remaining <= current.Keys
        invariant deltas == if Elapsed(Now(), now) then LiveDeltas(Now(), keys) else []
        invariant forall i :: 0 <= i < |keys| ==> keys[i] in current && keys[i] !in remaining
        invariant forall k :: k in current ==> k in keys || k in remaining
        invariant forall i, j :: 0 <= i < j < |keys| ==> keys[i] != keys[j]
        decreases remaining
      {
        var k :| k in remaining;
        remaining := remaining - {k};
        ghost var longer := keys + [k];
        assert longer[..|longer| - 1] == keys;
        keys := longer;
        if lastSnapshotAt != 0 && now > lastSnapshotAt {
          var gain := Gain(current[k], if k in lastTargets then lastTargets[k] else NOTHING);
          if !gain.IsZero() {
            deltas := deltas + [Delta(k.ruleID, gain)];
          }
        }
      }
    }
  }

  // ---------- what the prune loop leaves behind ----------

  /** Targets not yet visited are untouched; visited ones are no longer doomed. */
  lemma {:induction false} PruneKeepsOthers(s: State, order: seq<Key>)
    ensures var p := Prune(s, order);
            && p.activeTargets == s.activeTargets && p.activeApplied == s.activeApplied
            && p.lastSnapshotAt == s.lastSnapshotAt
            && p.targets.Keys <= s.targets.Keys
            && (forall k :: k in s.targets && k !in order ==> k in p.targets && p.targets[k] == s.targets[k] && p.Baseline(k) == s.Baseline(k))
            && (forall k :: k in order ==> !p.Doomed(k))
  {
    if order != [] {
      var front, k := order[..|order| - 1], order[|order| - 1];
      PruneKeepsOthers(s, front);
      assert order == front + [k];
      assert !Visit(Prune(s, front), k).Doomed(k);
    }
  }

  /** Connections, sessions and what is reserved for either. */
  function InUse(c: Counter): int {
    c.tcpConnections + c.udpSessions + c.tcpDialReservations + c.udpSessionReservations
  }

  /** The load of a target counts connections, sessions and reservations of both protocols. */
  lemma LoadCountsEverything(s: State, ruleID: string, target: Endpoint)
    ensures Load(s, ruleID, target) == if Key(ruleID, target.id) in s.targets then InUse(s.targets[Key(ruleID, target.id)]) else 0
  {
  }

  lemma VisitDropsOnlyIdle(s: State, k: Key, j: Key)
    requires j in s.targets
    ensures j in Visit(s, k).targets ==> InUse(Visit(s, k).targets[j]) == InUse(s.targets[j])
    ensures j !in Visit(s, k).targets ==> s.activeApplied && j !in s.activeTargets && InUse(s.targets[j]) <= 0
    ensures Visit(s, k).activeApplied == s.activeApplied && Visit(s, k).activeTargets == s.activeTargets
  {
    hide TargetDelta;
  }

  lemma {:induction false} PruneDropsOnlyIdle(s: State, order: seq<Key>, j: Key)
    requires j in s.targets
    ensures j in Prune(s, order).targets ==> InUse(Prune(s, order).targets[j]) == InUse(s.targets[j])
    ensures j !in Prune(s, order).targets ==> s.activeApplied && j !in s.activeTargets && InUse(s.targets[j]) <= 0
    ensures Prune(s, order).activeApplied == s.activeApplied && Prune(s, order).activeTargets == s.activeTargets
  {
    hide Visit;
    if order != [] {
      var front := order[..|order| - 1];
      PruneDropsOnlyIdle(s, front, j);
      var before := Prune(s, front);
      if j in before.targets {
        VisitDropsOnlyIdle(before, order[|order| - 1], j);
      } else {
        VisitAddsNothing(before, order[|order| - 1], j);
      }
    }
  }

  lemma VisitAddsNothing(s: State, k: Key, j: Key)
    requires j !in s.targets
    ensures j !in Visit(s, k).targets && Visit(s, k).activeApplied == s.activeApplied && Visit(s, k).activeTargets == s.activeTargets
  {
    hide TargetDelta;
  }

  /** After a configuration exactly the counters remain that are active or in use. */
  lemma ConfigKeepsExactly(s: State, active: set<Key>, order: seq<Key>, k: Key)
    requires Listing(order, s.targets.Keys)
    ensures k in SetActive(s, active, order).targets <==> k in s.targets && (k in active || InUse(s.targets[k]) > 0)
  {
    var configured := s.(activeTargets := active, activeApplied := true);
    PruneKeepsOthers(configured, order);
    if k in s.targets {
      PruneDropsOnlyIdle(configured, order, k);
      assert k in order;
    }
    hide Prune;
  }

  /** Each change moves the load of its target by what it opens or closes, and by nothing else. */
  lemma ChangesMoveLoad(c: Counter, step: int)
    requires c.tcpConnections >= 0 && c.udpSessions >= 0
    ensures InUse(Updated(c, ReserveTCP)) == InUse(Updated(c, ReserveUDP)) == InUse(c) + 1
    ensures c.tcpDialReservations > 0 ==> InUse(Updated(c, PromoteTCP)) == InUse(c) && InUse(Updated(c, ReleaseTCP)) == InUse(c) - 1
    ensures c.udpSessionReservations > 0 ==> InUse(Updated(c, PromoteUDP)) == InUse(c) && InUse(Updated(c, ReleaseUDP)) == InUse(c) - 1
    ensures c.tcpConnections + step >= 0 ==> InUse(Updated(c, CountTCP(step))) == InUse(c) + step
    ensures c.udpSessions + step >= 0 ==> InUse(Updated(c, CountUDPSession(step))) == InUse(c) + step
    ensures forall meter, amount :: InUse(Updated(c, Carry(meter, amount))) == InUse(c)
  {
  }
}

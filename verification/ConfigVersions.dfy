/**
 Desired and applied configuration versions of nodes: increments and raises on the control
 plane, compiled snapshots, and acknowledgements that may be stale, repeated or bogus.
 */
module ConfigVersions {
  import opened Text

  datatype Status = Pending | Applied | Failed

  datatype Node = Node(desired: int, applied: int, status: Status, statusVersion: int, groups: set<string>)

  /** The live node rows. */
  type Rows = map<string, Node>

  function Max(a: int, b: int): int {
    if a >= b then a else b
  }

  // ---- the guarded updates

  function Incremented(node: Node): Node {
    var next := Max(node.desired, node.applied) + 1;
    node.(desired := next, status := Pending, statusVersion := next)
  }

  function Raised(node: Node, version: int): Node {
    if node.desired < version then node.(desired := version, status := Pending, statusVersion := version) else node
  }

  function Acked(node: Node, version: int, success: bool): Node {
    if !(node.applied <= version <= node.desired) then node
    else if success then
      node.(applied := version, status := if node.desired <= version then Applied else Pending, statusVersion := version)
    else
      node.(status := if node.desired <= version then Failed else Pending, statusVersion := version)
  }

  function MaxVersion(versions: seq<int>): (r: int)
    ensures r >= 0 && forall i :: 0 <= i < |versions| ==> versions[i] <= r
    ensures r == 0 || r in versions
  {
    if versions == [] then 0 else Max(MaxVersion(versions[..|versions| - 1]), versions[|versions| - 1])
  }

  class NodeStore {
    var rows: Rows

    constructor (rows: Rows)
      ensures this.rows == rows
    {
      this.rows := rows;
    }

    method IncrementDesiredConfigForNode(id: string) returns (found: bool)
      modifies this
      ensures found <==> id in old(rows)
      ensures rows == if found then old(rows)[id := Incremented(old(rows)[id])] else old(rows)
    {
      found := id in rows;
      if found {
        var node := rows[id];
        var next := if node.desired >= node.applied then node.desired + 1 else node.applied + 1;
        rows := rows[id := node.(desired := next, status := Pending, statusVersion := next)];
      }
    }

    method IncrementDesiredConfigForNodeGroup(group: string)
      modifies this
      ensures rows == GroupIncremented(old(rows), group)
    {
      var rest := rows.Keys;
      while rest != {}
        invariant rest <= rows.Keys == old(rows).Keys
        invariant forall id :: id in rest ==> rows[id] == old(rows)[id]
        invariant forall id :: id in rows && id !in rest ==> rows[id] == GroupIncremented(old(rows), group)[id]
        decreases rest
      {
        var id :| id in rest;
        if group in rows[id].groups { rows := rows[id := Incremented(rows[id])]; }
        rest := rest - {id};
      }
    }

    method EnsureDesiredConfigVersionAtLeast(id: string, version: int)
      modifies this
      ensures rows == if id in old(rows) then old(rows)[id := Raised(old(rows)[id], version)] else old(rows)
    {
      if id in rows && rows[id].desired < version {
        rows := rows[id := rows[id].(desired := version, status := Pending, statusVersion := version)];
      }
    }

    method RecordNodeConfigAck(id: string, version: int, success: bool)
      modifies this
      ensures rows == if id in old(rows) then old(rows)[id := Acked(old(rows)[id], version, success)] else old(rows)
    {
      if id in rows && rows[id].applied <= version && version <= rows[id].desired {
        var current := rows[id].desired <= version;
        if success {
          rows := rows[id := rows[id].(applied := version, status := if current then Applied else Pending, statusVersion := version)];
        } else {
          rows := rows[id := rows[id].(status := if current then Failed else Pending, statusVersion := version)];
        }
      }
    }

    /** The version the snapshot carries is the one the row then stores. */
    method CompileNodeAgentConfig(id: string, candidates: seq<int>, compiled: int) returns (snapshot: Option<int>)
      modifies this
      ensures snapshot.Some? <==> id in old(rows)
      ensures snapshot.None? ==> rows == old(rows)
      ensures snapshot.Some? ==> rows == old(rows)[id := Raised(old(rows)[id], snapshot.value)]
      ensures snapshot.Some? ==> snapshot.value == rows[id].desired == CompiledVersion(old(rows)[id], candidates, compiled)
      ensures snapshot.Some? ==> snapshot.value >= old(rows)[id].desired && snapshot.value >= compiled
      ensures snapshot.Some? ==> forall i :: 0 <= i < |candidates| ==> candidates[i] <= snapshot.value
    {
      if id !in rows { return None; }
      var node := rows[id];
      var candidate := MaxRuleRecordConfigVersion(candidates);
      var version := compiled;
      var target := node.desired;
      if version > target { target := version; }
      if candidate > target { target := candidate; }
      if target > node.desired { EnsureDesiredConfigVersionAtLeast(id, target); }
      if target > version { version := target; }
      assert node == Raised(node, node.desired);
      return Some(version);
    }
  }

  method MaxRuleRecordConfigVersion(versions: seq<int>) returns (max: int)
    ensures max == MaxVersion(versions)
  {
    max := 0;
    for i := 0 to |versions|
      invariant max == MaxVersion(versions[..i])
    {
      assert versions[..i + 1][..i] == versions[..i];
      if versions[i] > max { max := versions[i]; }
    }
    assert versions[..|versions|] == versions;
  }

  ghost function GroupIncremented(rows: Rows, group: string): Rows {
    map id | id in rows :: if group in rows[id].groups then Incremented(rows[id]) else rows[id]
  }

  function CompiledVersion(node: Node, candidates: seq<int>, compiled: int): int {
    Max(Max(node.desired, compiled), MaxVersion(candidates))
  }

  // ---- runs

  /** A snapshot handed to an agent: its version and the revision of the rules it was compiled from. */
  datatype Snapshot = Snapshot(node: string, version: int, revision: nat)

  /** `revision` counts the changes to a node's rules. */
  datatype World = World(rows: Rows, revision: map<string, nat>, snapshots: set<Snapshot>)

  datatype Event =
    | Increment(id: string)
    | ChangeRules(group: string)
    | Raise(id: string, version: int)
    | Compile(id: string, candidates: seq<int>, compiled: int)
    | Ack(id: string, version: int, success: bool)
    | Delete(id: string)

  ghost function Update(w: World, id: string, node: Node): World {
    w.(rows := w.rows[id := node])
  }

  ghost function Next(w: World, e: Event): World {
    match e
    case Increment(id) => if id in w.rows then Update(w, id, Incremented(w.rows[id])) else w
    case ChangeRules(group) =>
      w.(rows := GroupIncremented(w.rows, group),
         revision := map id | id in w.revision :: if id in w.rows && group in w.rows[id].groups then w.revision[id] + 1 else w.revision[id])
    case Raise(id, version) => if id in w.rows then Update(w, id, Raised(w.rows[id], version)) else w
    case Compile(id, candidates, compiled) =>
      if id !in w.rows || id !in w.revision then w
      else
        var version := CompiledVersion(w.rows[id], candidates, compiled);
        Update(w, id, Raised(w.rows[id], version)).(snapshots := w.snapshots + {Snapshot(id, version, w.revision[id])})
    case Ack(id, version, success) => if id in w.rows then Update(w, id, Acked(w.rows[id], version, success)) else w
    case Delete(id) => w.(rows := w.rows - {id})
  }

  ghost function Run(w: World, events: seq<Event>): World
    decreases |events|
  {
    if events == [] then w else Next(Run(w, events[..|events| - 1]), events[|events| - 1])
  }

  ghost predicate NodeInv(w: World, id: string)
    requires id in w.rows
  {
    var node := w.rows[id];
    node.applied <= node.desired && (node.status == Applied ==> node.applied == node.desired)
  }

  /** Snapshots never run ahead, and one with the current version has the current rules. */
  ghost predicate SnapshotInv(w: World, s: Snapshot) {
    s.node in w.rows && s.node in w.revision ==>
      s.version <= w.rows[s.node].desired
      && (s.version == w.rows[s.node].desired ==> s.revision == w.revision[s.node])
  }

  ghost predicate Inv(w: World) {
    && (forall id :: id in w.rows ==> NodeInv(w, id))
    && (forall s :: s in w.snapshots ==> SnapshotInv(w, s))
  }

  lemma AckedKeeps(node: Node, version: int, success: bool)
    requires node.applied <= node.desired && (node.status == Applied ==> node.applied == node.desired)
    ensures var after := Acked(node, version, success);
            && after.desired == node.desired && node.applied <= after.applied <= after.desired
            && (after.status == Applied ==> after.applied == after.desired)
  {
  }

  lemma StepKeepsInv(w: World, e: Event)
    requires Inv(w)
    ensures Inv(Next(w, e))
  {
    hide MaxVersion;
    if e.Ack? && e.id in w.rows { AckedKeeps(w.rows[e.id], e.version, e.success); }
  }

  /** No row's versions go down. */
  ghost predicate Grows(w: World, later: World) {
    forall id :: id in later.rows ==>
      id in w.rows && w.rows[id].desired <= later.rows[id].desired && w.rows[id].applied <= later.rows[id].applied
  }

  lemma StepGrows(w: World, e: Event)
    requires Inv(w)
    ensures Grows(w, Next(w, e))
  {
    hide MaxVersion;
  }

  /**
   Over every run: desired and applied never decrease, applied never passes desired, and
   APPLIED means they are equal.
   */
  lemma {:induction false} RunKeepsVersions(w: World, events: seq<Event>)
    requires Inv(w)
    ensures Inv(Run(w, events)) && Grows(w, Run(w, events))
    decreases |events|
  {
    hide Next, Inv;
    if events != [] {
      var front, last := events[..|events| - 1], events[|events| - 1];
      RunKeepsVersions(w, front);
      StepKeepsInv(Run(w, front), last);
      StepGrows(Run(w, front), last);
    }
  }

  lemma RunConcat(w: World, a: seq<Event>, b: seq<Event>)
    ensures Run(w, a + b) == Run(Run(w, a), b)
    decreases |b|
  {
    hide Next;
    if b == [] {
      assert a + b == a;
    } else {
      assert (a + b)[..|a + b| - 1] == a + b[..|b| - 1];
      RunConcat(w, a, b[..|b| - 1]);
    }
  }

  /** Between any two moments of a run. */
  lemma VersionsNeverDecrease(w: World, events: seq<Event>, i: nat, j: nat)
    requires Inv(w) && i <= j <= |events|
    ensures Grows(Run(w, events[..i]), Run(w, events[..j]))
  {
    hide Run, Inv, Grows;
    RunKeepsVersions(w, events[..i]);
    RunKeepsVersions(Run(w, events[..i]), events[i..j]);
    assert events[..i] + events[i..j] == events[..j];
    RunConcat(w, events[..i], events[i..j]);
  }

  // ---- what APPLIED tells, when agents only acknowledge what they received

  ghost predicate Received(w: World, id: string, version: int) {
    exists revision :: Snapshot(id, version, revision) in w.snapshots
  }

  ghost predicate Honest(w: World, events: seq<Event>)
    decreases |events|
  {
    events == [] ||
    (&& Honest(w, events[..|events| - 1])
     && var last := events[|events| - 1];
        (last.Ack? && last.success ==> Received(Run(w, events[..|events| - 1]), last.id, last.version)))
  }

  /** An APPLIED node runs a snapshot of its current rules. */
  ghost predicate Current(w: World) {
    forall id :: id in w.rows && id in w.revision && w.rows[id].status == Applied ==>
      Snapshot(id, w.rows[id].desired, w.revision[id]) in w.snapshots
  }

  lemma StepKeepsCurrent(w: World, e: Event)
    requires Inv(w) && Current(w)
    requires e.Ack? && e.success ==> Received(w, e.id, e.version)
    ensures Current(Next(w, e))
  {
    hide MaxVersion;
    if e.Ack? && e.success && e.id in w.rows && e.id in w.revision && Next(w, e).rows[e.id].status == Applied {
      var revision :| Snapshot(e.id, e.version, revision) in w.snapshots;
      assert SnapshotInv(w, Snapshot(e.id, e.version, revision));
    }
  }

  /** For every run: a node shown as APPLIED has acknowledged a snapshot of exactly the rules it should have. */
  lemma {:induction false} AppliedMeansCurrentRules(w: World, events: seq<Event>)
    requires Inv(w) && Current(w) && Honest(w, events)
    ensures Current(Run(w, events))
    decreases |events|
  {
    hide Next, Inv, Current, Received;
    if events != [] {
      var front, last := events[..|events| - 1], events[|events| - 1];
      AppliedMeansCurrentRules(w, front);
      RunKeepsVersions(w, front);
      StepKeepsCurrent(Run(w, front), last);
    }
  }

  // ---- what the status tells about the past

  /** The event changes the node's row: a new desired version, or an acknowledgement between applied and desired. */
  ghost predicate Counts(w: World, e: Event, id: string) {
    id in w.rows &&
    match e
    case Increment(i) => i == id
    case ChangeRules(group) => group in w.rows[id].groups
    case Raise(i, version) => i == id && version > w.rows[id].desired
    case Compile(i, candidates, compiled) =>
      i == id && id in w.revision
      && (compiled > w.rows[id].desired || 0 > w.rows[id].desired || exists version :: version in candidates && version > w.rows[id].desired)
    case Ack(i, version, _) => i == id && w.rows[id].applied <= version <= w.rows[id].desired
    case Delete(_) => false
  }

  /** The last event of the run that counted for the node. */
  ghost function LastCounted(w: World, events: seq<Event>, id: string): Option<Event>
    decreases |events|
  {
    if events == [] then None
    else
      var front, last := events[..|events| - 1], events[|events| - 1];
      if Counts(Run(w, front), last, id) then Some(last) else LastCounted(w, front, id)
  }

  /** What the history says the status should be, given the desired version now and the status at the start. */
  ghost function Verdict(last: Option<Event>, desired: int, initial: Status): Status {
    match last
    case None => initial
    case Some(Ack(_, version, success)) => if version != desired then Pending else if success then Applied else Failed
    case Some(_) => Pending
  }

  lemma UncountedKeeps(w: World, e: Event, id: string)
    requires id in Next(w, e).rows && !Counts(w, e, id)
    ensures id in w.rows && Next(w, e).rows[id] == w.rows[id]
  {
    if e.Compile? && e.id == id && id in w.rows && id in w.revision {
      assert MaxVersion(e.candidates) == 0 || MaxVersion(e.candidates) in e.candidates;
    }
  }

  lemma CountedDecides(w: World, e: Event, id: string, initial: Status)
    requires id in Next(w, e).rows && Counts(w, e, id)
    ensures Next(w, e).rows[id].status == Verdict(Some(e), Next(w, e).rows[id].desired, initial)
  {
  }

  /** After every run a node's status is exactly what the last counted event on it says. */
  lemma {:induction false} StatusIsHistory(w: World, events: seq<Event>, id: string)
    requires id in Run(w, events).rows
    ensures id in w.rows
    ensures Run(w, events).rows[id].status == Verdict(LastCounted(w, events, id), Run(w, events).rows[id].desired, w.rows[id].status)
    decreases |events|
  {
    hide Next, Counts, Verdict;
    if events == [] {
      NoHistory(w.rows[id]);
    } else {
      var front, last := events[..|events| - 1], events[|events| - 1];
      var before := Run(w, front);
      RowsStay(before, last, id);
      StatusIsHistory(w, front, id);
      if Counts(before, last, id) {
        CountedDecides(before, last, id, w.rows[id].status);
      } else {
        UncountedKeeps(before, last, id);
      }
    }
  }

  lemma NoHistory(node: Node)
    ensures Verdict(None, node.desired, node.status) == node.status
  {
  }

  lemma RowsStay(w: World, e: Event, id: string)
    requires id in Next(w, e).rows
    ensures id in w.rows
  {
  }

  /** In plain words: APPLIED or FAILED exactly after such an acknowledgement of the current desired version. */
  lemma StatusMeans(w: World, events: seq<Event>, id: string)
    requires id in Run(w, events).rows && LastCounted(w, events, id).Some?
    ensures var node, last := Run(w, events).rows[id], LastCounted(w, events, id).value;
            && (node.status == Applied <==> last.Ack? && last.success && last.version == node.desired)
            && (node.status == Failed <==> last.Ack? && !last.success && last.version == node.desired)
  {
    hide Run, LastCounted;
    StatusIsHistory(w, events, id);
  }

  /** From every reachable state: compiling and acknowledging that snapshot settles the node, either way. */
  lemma AcknowledgedSnapshotSettles(w: World, id: string, candidates: seq<int>, compiled: int)
    requires Inv(w) && id in w.rows && id in w.revision
    ensures var sent := Next(w, Compile(id, candidates, compiled));
            var version := sent.rows[id].desired;
            var good, bad := Next(sent, Ack(id, version, true)).rows[id], Next(sent, Ack(id, version, false)).rows[id];
            && Snapshot(id, version, w.revision[id]) in sent.snapshots
            && good.status == Applied && good.applied == good.desired == version
            && bad.status == Failed && bad.applied == w.rows[id].applied && bad.desired == version
  {
    hide MaxVersion;
    assert NodeInv(w, id);
  }

  /** The version a status speaks of: the acknowledged one, or the new desired one. */
  lemma StatusVersionIs(w: World, e: Event, id: string)
    requires id in Next(w, e).rows && Counts(w, e, id)
    ensures Next(w, e).rows[id].statusVersion == if e.Ack? then e.version else Next(w, e).rows[id].desired
  {
  }

  /** An increment asks for a version nobody has seen; a raise for exactly the given one. */
  lemma NewVersions(w: World, id: string, version: int)
    requires id in w.rows
    ensures Next(w, Increment(id)).rows[id].desired > w.rows[id].desired && Next(w, Increment(id)).rows[id].desired > w.rows[id].applied
    ensures version > w.rows[id].desired ==> Next(w, Raise(id, version)).rows[id].desired == version
    ensures Next(w, Increment(id)).rows[id].applied == Next(w, Raise(id, version)).rows[id].applied == w.rows[id].applied
  {
  }
}

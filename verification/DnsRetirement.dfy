/**
 DNS managed records: evaluations read a snapshot, talk to the provider outside any
 transaction, and commit optimistically, while updates may move the record to another
 provider target in between. Targets left behind are kept in a retirement list until
 their values are deleted at the provider.
 */
module DnsRetirement {
  import opened Text

  /** Names are lower case and types upper case once a record is built, so equality is exact. */
  datatype Target = Target(zone: string, name: string, recordType: string)

  /** A CNAME excludes every other record of the same name. */
  predicate Conflicts(a: Target, b: Target) {
    a.zone == b.zone && a.name == b.name && (a.recordType == b.recordType || a.recordType == "CNAME" || b.recordType == "CNAME")
  }

  datatype Status = PENDING | APPLIED | NO_MATCH | CONFLICT | FAILED

  /** `settings` stands for credential, TTL and proxying, `instances` for the policy instances. */
  datatype Record = Record(
    target: Target,
    settings: string,
    instances: string,
    applied: seq<string>,
    retirements: seq<Target>,
    status: Status,
    updatedAt: nat)

  datatype Action = Action(target: Target, values: seq<string>)

  /** What evaluating the policy concluded. */
  datatype Verdict = Publish(values: seq<string>) | Keep | NoMatch | Ambiguous | Broken

  /** An evaluation between its two transactions. */
  datatype Flight = Flight(
    snapshot: Record,
    verdict: Verdict,
    action: Option<Action>,
    cleanup: seq<Target>,
    attempted: bool,
    written: bool,
    cleaned: nat,
    cleanFailed: bool)

  function BeginEvaluation(record: Record, verdict: Verdict): Flight {
    var action := if verdict.Publish? then Some(Action(record.target, verdict.values)) else None;
    var cleanup := if verdict.Publish? || verdict.Keep? || verdict.NoMatch? then record.retirements else [];
    Flight(record, verdict, action, cleanup, false, false, 0, false)
  }

  predicate RetirementCleaned(f: Flight) {
    (f.action.None? || f.written) && f.cleanup != [] && f.cleaned >= |f.cleanup| && !f.cleanFailed
  }

  function FinalStatus(f: Flight): Status {
    if (f.attempted && !f.written) || f.cleanFailed then FAILED
    else match f.verdict
      case Publish(_) => APPLIED
      case Keep => APPLIED
      case NoMatch => NO_MATCH
      case Ambiguous => CONFLICT
      case Broken => FAILED
  }

  /** The second transaction: a changed record only absorbs what was written at the provider. */
  function CommitEvaluation(record: Record, f: Flight, now: nat): Record {
    if f.snapshot != record then
      var absorbed :=
        if !f.written || f.action.None? then record
        else if f.action.value.target == record.target then record.(applied := f.action.value.values)
        else if f.action.value.values != [] then record.(retirements := record.retirements + [f.action.value.target])
        else record;
      absorbed.(status := PENDING, updatedAt := now)
    else
      record.(applied := if f.written && f.action.Some? then f.action.value.values else record.applied,
              retirements := if RetirementCleaned(f) then [] else record.retirements,
              status := FinalStatus(f),
              updatedAt := now)
  }

  predicate TargetAllowed(record: Record, target: Target) {
    forall i :: 0 <= i < |record.retirements| ==> !Conflicts(record.retirements[i], target)
  }

  /** Moving the record away from a target that holds values retires that target. */
  function UpdateRecord(record: Record, target: Target, settings: string, now: nat): Record {
    var moved := record.target != target;
    var changed := moved || record.settings != settings;
    record.(target := target,
            settings := settings,
            applied := if moved then [] else record.applied,
            retirements := if moved && record.applied != [] then record.retirements + [record.target] else record.retirements,
            status := if changed then PENDING else record.status,
            updatedAt := now)
  }

  class ManagedRecord {
    var record: Record

    constructor (record: Record)
      ensures this.record == record
    {
      this.record := record;
    }

    method UpdateDNSManagedRecord(target: Target, settings: string, now: nat) returns (ok: bool)
      modifies this
      ensures ok == TargetAllowed(old(record), target)
      ensures ok <==> forall r :: r in old(record).retirements && r.zone == target.zone && r.name == target.name ==>
                        r.recordType != target.recordType && r.recordType != "CNAME" && target.recordType != "CNAME"
      ensures record == if ok then UpdateRecord(old(record), target, settings, now) else old(record)
      ensures ok ==> record.target == target && record.settings == settings && record.updatedAt == now && record.instances == old(record).instances
      ensures ok && old(record).target != target ==> record.applied == [] && record.status == PENDING
      ensures ok && old(record).target != target ==>
                record.retirements == old(record).retirements + if old(record).applied != [] then [old(record).target] else []
      ensures ok && old(record).target == target ==> record.applied == old(record).applied && record.retirements == old(record).retirements
    {
      for i := 0 to |record.retirements|
        invariant record == old(record)
        invariant forall j :: 0 <= j < i ==> !Conflicts(record.retirements[j], target)
      {
        if Conflicts(record.retirements[i], target) { return false; }
      }
      var previous := record;
      record := record.(target := target, settings := settings);
      if previous.target != target || previous.settings != settings {
        if previous.target != target {
          record := record.(applied := []);
        }
        record := record.(status := PENDING);
      }
      if previous.target != target && previous.applied != [] {
        record := record.(retirements := record.retirements + [previous.target]);
      }
      record := record.(updatedAt := now);
      return true;
    }

    method CommitDNSManagedRecordEvaluation(f: Flight, now: nat)
      modifies this
      ensures record == CommitEvaluation(old(record), f, now)
    {
      if f.snapshot != record {
        if f.written && f.action.Some? {
          if f.action.value.target == record.target {
            record := record.(applied := f.action.value.values);
          } else if f.action.value.values != [] {
            record := record.(retirements := record.retirements + [f.action.value.target]);
          }
        }
        record := record.(status := PENDING, updatedAt := now);
        return;
      }
      if f.written && f.action.Some? {
        record := record.(applied := f.action.value.values);
      }
      if RetirementCleaned(f) {
        record := record.(retirements := []);
      }
      record := record.(status := FinalStatus(f), updatedAt := now);
    }
  }

  // ---------- runs ----------

  /** `provider` maps the targets that hold values to those values. */
  datatype System = System(record: Record, provider: map<Target, seq<string>>, flights: map<nat, Flight>)

  datatype Event =
    | Begin(id: nat, verdict: Verdict)
    | Write(id: nat, ok: bool)
    | Clean(id: nat, ok: bool)
    | Commit(id: nat, now: nat)
    | Update(target: Target, settings: string, now: nat)
    | MarkPending(now: nat)
    | EditInstances(instances: string)

  /** Provider calls are all or nothing, published value lists are not empty, timestamps grow. */
  ghost predicate Enabled(s: System, e: Event) {
    match e
    case Begin(id, verdict) => id !in s.flights && (verdict.Publish? ==> verdict.values != [])
    case Write(id, _) => id in s.flights && s.flights[id].action.Some? && !s.flights[id].attempted
    case Clean(id, _) =>
      id in s.flights && var f := s.flights[id];
      (f.action.None? || f.written) && f.cleaned < |f.cleanup| && !f.cleanFailed
    case Commit(id, now) => id in s.flights && now > s.record.updatedAt
    case Update(target, _, now) => TargetAllowed(s.record, target) && now > s.record.updatedAt
    case MarkPending(now) => now > s.record.updatedAt
    case EditInstances(_) => true
  }

  function Next(s: System, e: Event): System {
    match e
    case Begin(id, verdict) => s.(flights := s.flights[id := BeginEvaluation(s.record, verdict)])
    case Write(id, ok) => if id in s.flights then WriteProvider(s, id, s.flights[id], ok) else s
    case Clean(id, ok) => if id in s.flights then CleanProvider(s, id, s.flights[id], ok) else s
    case Commit(id, now) =>
      if id in s.flights
      then s.(record := CommitEvaluation(s.record, s.flights[id], now), flights := s.flights - {id})
      else s
    case Update(target, settings, now) => s.(record := UpdateRecord(s.record, target, settings, now))
    case MarkPending(now) => s.(record := s.record.(status := PENDING, updatedAt := now))
    case EditInstances(instances) => s.(record := s.record.(instances := instances))
  }

  function WriteProvider(s: System, id: nat, f: Flight, ok: bool): System {
    if f.action.None? then s
    else if !ok then s.(flights := s.flights[id := f.(attempted := true)])
    else s.(flights := s.flights[id := f.(attempted := true, written := true)],
            provider := if f.action.value.values == [] then s.provider - {f.action.value.target}
                        else s.provider[f.action.value.target := f.action.value.values])
  }

  function CleanProvider(s: System, id: nat, f: Flight, ok: bool): System {
    if f.cleaned >= |f.cleanup| then s
    else if !ok then s.(flights := s.flights[id := f.(cleanFailed := true)])
    else s.(flights := s.flights[id := f.(cleaned := f.cleaned + 1)],
            provider := s.provider - {f.cleanup[f.cleaned]})
  }

  ghost predicate Runnable(s: System, events: seq<Event>)
    decreases |events|
  {
    events == [] || (Enabled(s, events[0]) && Runnable(Next(s, events[0]), events[1..]))
  }

  function Run(s: System, events: seq<Event>): System
    decreases |events|
  {
    if events == [] then s else Run(Next(s, events[0]), events[1..])
  }

  // ---------- the invariant ----------

  predicate WroteTo(f: Flight, t: Target) {
    f.written && f.action.Some? && f.action.value.target == t
  }

  /** Some evaluation that has not committed yet wrote to the target. */
  ghost predicate BeingWritten(s: System, t: Target) {
    exists id :: id in s.flights && WroteTo(s.flights[id], t)
  }

  ghost predicate Remembered(s: System, t: Target) {
    || (t == s.record.target && s.record.applied != [])
    || t in s.record.retirements
    || BeingWritten(s, t)
  }

  /** The record has not been touched since the flight's snapshot, except perhaps its instances. */
  predicate Current(s: System, f: Flight) {
    f.snapshot.(instances := s.record.instances) == s.record
  }

  ghost predicate FlightSound(s: System, f: Flight) {
    && f.snapshot.updatedAt <= s.record.updatedAt
    && (f.action.Some? ==> f.action.value.target == f.snapshot.target && f.action.value.values != [])
    && (f.cleanup == f.snapshot.retirements || f.cleanup == [])
    && (f.written ==> f.action.Some?)
    && f.cleaned <= |f.cleanup|
    && (Current(s, f) ==> forall i :: 0 <= i < f.cleaned ==> f.cleanup[i] in s.provider ==> BeingWritten(s, f.cleanup[i]))
  }

  ghost predicate Inv(s: System) {
    && s.record.target !in s.record.retirements
    && (forall t :: t in s.provider ==> Remembered(s, t))
    && (forall id :: id in s.flights ==> FlightSound(s, s.flights[id]))
  }

  lemma BeginKeepsInv(s: System, id: nat, verdict: Verdict)
    requires Inv(s) && Enabled(s, Begin(id, verdict))
    ensures Inv(Next(s, Begin(id, verdict)))
  {
    var s' := Next(s, Begin(id, verdict));
    forall t | BeingWritten(s, t)
      ensures BeingWritten(s', t)
    {
      var o :| o in s.flights && WroteTo(s.flights[o], t);
      assert o in s'.flights && WroteTo(s'.flights[o], t);
    }
    forall o | o in s'.flights
      ensures FlightSound(s', s'.flights[o])
    {
      assert o != id ==> FlightSound(s, s.flights[o]);
    }
  }

  lemma WriteKeepsInv(s: System, id: nat, ok: bool)
    requires Inv(s) && Enabled(s, Write(id, ok))
    ensures Inv(Next(s, Write(id, ok)))
  {
    var s' := Next(s, Write(id, ok));
    assert FlightSound(s, s.flights[id]);
    forall t | BeingWritten(s, t)
      ensures BeingWritten(s', t)
    {
      var o :| o in s.flights && WroteTo(s.flights[o], t);
      assert o in s'.flights && WroteTo(s'.flights[o], t);
    }
    if ok {
      assert WroteTo(s'.flights[id], s.flights[id].action.value.target);
    }
    forall o | o in s'.flights
      ensures FlightSound(s', s'.flights[o])
    {
      assert FlightSound(s, s.flights[o]);
    }
  }

  lemma CleanKeepsInv(s: System, id: nat, ok: bool)
    requires Inv(s) && Enabled(s, Clean(id, ok))
    ensures Inv(Next(s, Clean(id, ok)))
  {
    var s' := Next(s, Clean(id, ok));
    forall t | BeingWritten(s, t)
      ensures BeingWritten(s', t)
    {
      var o :| o in s.flights && WroteTo(s.flights[o], t);
      assert o in s'.flights && WroteTo(s'.flights[o], t);
    }
    forall o | o in s'.flights
      ensures FlightSound(s', s'.flights[o])
    {
      assert FlightSound(s, s.flights[o]);
    }
  }

  /** A write to the record makes every snapshot stale, so only the memory of targets is at stake. */
  lemma RecordStepKeepsInv(s: System, s': System)
    requires Inv(s) && s'.provider == s.provider
    requires s'.record.updatedAt > s.record.updatedAt
    requires forall id :: id in s'.flights ==> id in s.flights && s'.flights[id] == s.flights[id]
    requires s'.record.target !in s'.record.retirements
    requires forall t :: t in s.provider ==> Remembered(s', t)
    ensures Inv(s')
  {
    forall id | id in s'.flights
      ensures FlightSound(s', s'.flights[id])
    {
      assert FlightSound(s, s.flights[id]);
    }
  }

  lemma CommitRemembers(s: System, id: nat, now: nat, t: Target)
    requires Inv(s) && Enabled(s, Commit(id, now)) && t in s.provider
    ensures Remembered(Next(s, Commit(id, now)), t)
  {
    var s' := Next(s, Commit(id, now));
    var f := s.flights[id];
    assert FlightSound(s, f) && Remembered(s, t);
    if BeingWritten(s, t) {
      var o :| o in s.flights && WroteTo(s.flights[o], t);
      if o != id {
        assert o in s'.flights && WroteTo(s'.flights[o], t);
      }
    }
  }

  lemma CommitKeepsInv(s: System, id: nat, now: nat)
    requires Inv(s) && Enabled(s, Commit(id, now))
    ensures Inv(Next(s, Commit(id, now)))
  {
    var s' := Next(s, Commit(id, now));
    forall t | t in s.provider
      ensures Remembered(s', t)
    {
      CommitRemembers(s, id, now, t);
    }
    assert FlightSound(s, s.flights[id]);
    RecordStepKeepsInv(s, s');
  }

  lemma UpdateKeepsInv(s: System, target: Target, settings: string, now: nat)
    requires Inv(s) && Enabled(s, Update(target, settings, now))
    ensures Inv(Next(s, Update(target, settings, now)))
  {
    var s' := Next(s, Update(target, settings, now));
    forall t | t in s.provider
      ensures Remembered(s', t)
    {
      assert Remembered(s, t);
      assert BeingWritten(s, t) ==> BeingWritten(s', t);
    }
    assert target !in s.record.retirements;
    RecordStepKeepsInv(s, s');
  }

  lemma StepKeepsInv(s: System, e: Event)
    requires Inv(s) && Enabled(s, e)
    ensures Inv(Next(s, e))
  {
    match e
    case Begin(id, verdict) => BeginKeepsInv(s, id, verdict);
    case Write(id, ok) => WriteKeepsInv(s, id, ok);
    case Clean(id, ok) => CleanKeepsInv(s, id, ok);
    case Commit(id, now) => CommitKeepsInv(s, id, now);
    case Update(target, settings, now) => UpdateKeepsInv(s, target, settings, now);
    case MarkPending(now) =>
      var s' := Next(s, e);
      assert forall t :: BeingWritten(s, t) ==> BeingWritten(s', t);
      RecordStepKeepsInv(s, s');
    case EditInstances(_) =>
      var s' := Next(s, e);
      assert forall t :: BeingWritten(s, t) <==> BeingWritten(s', t);
      forall id | id in s'.flights
        ensures FlightSound(s', s'.flights[id])
      {
        assert FlightSound(s, s.flights[id]);
      }
  }

  lemma {:induction false} RunKeepsInv(s: System, events: seq<Event>)
    requires Inv(s) && Runnable(s, events)
    ensures Inv(Run(s, events))
    decreases |events|
  {
    hide Inv, Next, Enabled;
    if events != [] {
      StepKeepsInv(s, events[0]);
      RunKeepsInv(Next(s, events[0]), events[1..]);
    }
  }

  /** A new record: nothing published, nothing retired, nothing running. */
  ghost predicate Initial(s: System) {
    s.record.applied == [] && s.record.retirements == [] && s.provider == map[] && s.flights == map[]
  }

  /**
   However evaluations and updates interleave: every provider target that holds values
   is the current target with its values recorded, a listed retirement, or written by an
   evaluation yet to commit, and the current target is never itself up for retirement.
   */
  lemma NoForgottenTarget(s: System, events: seq<Event>, t: Target)
    requires Initial(s) && Runnable(s, events)
    ensures var end := Run(s, events);
            && end.record.target !in end.record.retirements
            && (t in end.provider ==>
                  || (t == end.record.target && end.record.applied != [])
                  || t in end.record.retirements
                  || exists id :: id in end.flights && WroteTo(end.flights[id], t))
  {
    RunKeepsInv(s, events);
    var end := Run(s, events);
    hide Run, Runnable;
    if t in end.provider {
      assert Remembered(end, t);
    }
  }
}

/**
 The dual of remembering retired targets: cleaning one up must not delete what the record
 publishes now. It cannot, unless the record returns to a target that a still running
 evaluation is about to clean.
 */
module DnsCleanup {
  import opened Text
  import opened DnsRetirement

  /** Its cleanup has not failed, and its own write has succeeded, is not needed, or is still to come. */
  predicate CanStillClean(f: Flight) {
    !f.cleanFailed && (f.action.None? || f.written || !f.attempted)
  }

  /** A running evaluation that may still delete the values of `t`. */
  predicate Threatens(f: Flight, t: Target) {
    f.cleaned <= |f.cleanup| && t in f.cleanup[f.cleaned..] && CanStillClean(f)
  }

  /** No running evaluation may still clean the current target. */
  ghost predicate Unthreatened(s: System) {
    forall id :: id in s.flights ==> !Threatens(s.flights[id], s.record.target)
  }

  /** The update moves the record onto a target some running evaluation may still clean. */
  ghost predicate Returns(s: System, e: Event) {
    e.Update? && exists id :: id in s.flights && Threatens(s.flights[id], e.target)
  }

  ghost predicate NeverReturns(s: System, events: seq<Event>)
    decreases |events|
  {
    events == [] || (!Returns(s, events[0]) && NeverReturns(Next(s, events[0]), events[1..]))
  }

  /** The step is a cleanup and takes away the values of the current target. */
  predicate DeletesCurrent(s: System, e: Event) {
    e.Clean? && s.record.target in s.provider && s.record.target !in Next(s, e).provider
  }

  ghost predicate DeletesCurrentAt(s: System, events: seq<Event>, i: nat)
    requires i < |events|
    decreases |events|
  {
    if i == 0 then DeletesCurrent(s, events[0]) else DeletesCurrentAt(Next(s, events[0]), events[1..], i - 1)
  }

  lemma CleanHits(s: System, e: Event)
    requires Enabled(s, e) && DeletesCurrent(s, e)
    ensures !Unthreatened(s)
  {
    var f := s.flights[e.id];
    assert f.cleanup[f.cleaned..][0] == f.cleanup[f.cleaned];
    assert Threatens(f, s.record.target);
  }

  /** Of all steps only an update can threaten the current target, and exactly one that returns. */
  lemma StepThreatensIff(s: System, e: Event)
    requires Inv(s) && Enabled(s, e) && Unthreatened(s)
    ensures Unthreatened(Next(s, e)) <==> !Returns(s, e)
  {
    var t := Next(s, e);
    if e.Update? {
      assert t.record.target == e.target && t.flights == s.flights;
    } else {
      assert t.record.target == s.record.target;
      forall id | id in t.flights
        ensures !Threatens(t.flights[id], t.record.target)
      {
        FlightThreat(s, e, id);
      }
    }
  }

  lemma FlightThreat(s: System, e: Event, id: nat)
    requires Inv(s) && Enabled(s, e) && Unthreatened(s) && !e.Update? && id in Next(s, e).flights
    ensures !Threatens(Next(s, e).flights[id], s.record.target)
  {
    hide Threatens, CanStillClean, CommitEvaluation;
    if e.Begin? && e.id == id {
      NewFlightSpares(s.record, e.verdict);
    } else {
      FlightGoesOn(s, e, id);
      var f, g := s.flights[id], Next(s, e).flights[id];
      if Threatens(g, s.record.target) { ThreatsShrink(f, g, s.record.target); }
    }
  }

  lemma NewFlightSpares(record: Record, verdict: Verdict)
    requires record.target !in record.retirements
    ensures !Threatens(BeginEvaluation(record, verdict), record.target)
  {
    var f := BeginEvaluation(record, verdict);
    assert f.cleanup[0..] == f.cleanup;
  }

  lemma FlightGoesOn(s: System, e: Event, id: nat)
    requires Enabled(s, e) && id in Next(s, e).flights && !(e.Begin? && e.id == id)
    ensures id in s.flights
    ensures var f, g := s.flights[id], Next(s, e).flights[id];
            g.cleanup == f.cleanup && f.cleaned <= g.cleaned && (CanStillClean(g) ==> CanStillClean(f))
  {
    hide CommitEvaluation, UpdateRecord, BeginEvaluation;
  }

  lemma ThreatsShrink(f: Flight, g: Flight, t: Target)
    requires g.cleanup == f.cleanup && f.cleaned <= g.cleaned && (CanStillClean(g) ==> CanStillClean(f)) && Threatens(g, t)
    ensures Threatens(f, t)
  {
    assert g.cleanup[g.cleaned..] == f.cleanup[f.cleaned..][g.cleaned - f.cleaned..];
  }

  /** Over every run in which the record never returns like that, no cleanup touches the current target. */
  lemma {:induction false} RunSparesCurrent(s: System, events: seq<Event>, i: nat)
    requires Inv(s) && Unthreatened(s) && Runnable(s, events) && NeverReturns(s, events) && i < |events|
    ensures !DeletesCurrentAt(s, events, i)
    decreases |events|
  {
    hide Inv, Next, Enabled, Returns, Unthreatened, DeletesCurrent;
    StepThreatensIff(s, events[0]);
    if i == 0 {
      if DeletesCurrent(s, events[0]) { CleanHits(s, events[0]); }
    } else {
      StepKeepsInv(s, events[0]);
      RunSparesCurrent(Next(s, events[0]), events[1..], i - 1);
    }
  }

  lemma CleanupSparesCurrent(s: System, events: seq<Event>, i: nat)
    requires Initial(s) && Runnable(s, events) && NeverReturns(s, events) && i < |events|
    ensures !DeletesCurrentAt(s, events, i)
  {
    hide Runnable, NeverReturns, DeletesCurrentAt, DeletesCurrent;
    RunSparesCurrent(s, events, i);
  }

  // ---- exactly when a deletion may follow

  ghost predicate NoUpdate(events: seq<Event>) {
    forall i :: 0 <= i < |events| ==> !events[i].Update?
  }

  /** The events lead, without any further update, to a cleanup that deletes the current target. */
  ghost predicate Strikes(s: System, events: seq<Event>) {
    Runnable(s, events) && NoUpdate(events) && events != [] && DeletesCurrentAt(s, events, |events| - 1)
  }

  /** Some continuation without an update does. */
  ghost predicate Doomed(s: System) {
    exists events :: Strikes(s, events)
  }

  lemma {:induction false} NoUpdateNeverReturns(s: System, events: seq<Event>)
    requires NoUpdate(events)
    ensures NeverReturns(s, events)
    decreases |events|
  {
    hide Next;
    if events != [] { NoUpdateNeverReturns(Next(s, events[0]), events[1..]); }
  }

  lemma StrikeFirst(s: System, e: Event, rest: seq<Event>)
    requires Enabled(s, e) && !e.Update? && Strikes(Next(s, e), rest)
    ensures Strikes(s, [e] + rest)
  {
    hide Next, Enabled, DeletesCurrent;
    assert ([e] + rest)[1..] == rest;
  }

  lemma StrikeNow(s: System, e: Event)
    requires Enabled(s, e) && DeletesCurrent(s, e)
    ensures Strikes(s, [e])
  {
    assert [e][1..] == [];
  }

  lemma {:induction false} UnusedId(ids: set<nat>) returns (id: nat)
    ensures id !in ids && forall k :: k in ids ==> k < id
  {
    if ids == {} {
      id := 0;
    } else {
      var k :| k in ids;
      var above := UnusedId(ids - {k});
      id := if k < above then above else k + 1;
      assert forall other :: other in ids ==> other == k || other in ids - {k};
    }
  }

  /** The evaluation writes if it must, cleans what comes before, and then the current target. */
  lemma {:induction false} Strike(s: System, id: nat) returns (events: seq<Event>)
    requires id in s.flights && Threatens(s.flights[id], s.record.target)
    ensures Strikes(s, events)
    decreases if s.flights[id].action.Some? && !s.flights[id].attempted then 1 else 0,
              |s.flights[id].cleanup| - s.flights[id].cleaned,
              if s.record.target in s.provider then 0 else 1
  {
    hide Strikes;
    var f, t := s.flights[id], s.record.target;
    assert f.cleaned < |f.cleanup| && f.cleanup[f.cleaned..] == [f.cleanup[f.cleaned]] + f.cleanup[f.cleaned + 1..];
    if f.action.Some? && !f.attempted && !f.written {
      var e := Write(id, true);
      var rest := Strike(Next(s, e), id);
      StrikeFirst(s, e, rest);
      events := [e] + rest;
    } else if f.cleanup[f.cleaned] != t {
      var e := Clean(id, true);
      var rest := Strike(Next(s, e), id);
      StrikeFirst(s, e, rest);
      events := [e] + rest;
    } else if t !in s.provider {
      var other := UnusedId(s.flights.Keys);
      var begin, write := Begin(other, Publish(["values"])), Write(other, true);
      var s1 := Next(s, begin);
      var s2 := Next(s1, write);
      assert s2.flights[id] == f && t in s2.provider && s2.record == s.record;
      var rest := Strike(s2, id);
      StrikeFirst(s1, write, rest);
      StrikeFirst(s, begin, [write] + rest);
      events := [begin] + ([write] + rest);
    } else {
      StrikeNow(s, Clean(id, true));
      events := [Clean(id, true)];
    }
  }

  /** A deletion may follow without any further update if and only if a running evaluation may still clean the target. */
  lemma DoomedIff(s: System)
    requires Inv(s)
    ensures Doomed(s) <==> !Unthreatened(s)
  {
    hide Inv, Next, Enabled, Runnable, Threatens;
    if Doomed(s) {
      var events :| Strikes(s, events);
      NoUpdateNeverReturns(s, events);
      if Unthreatened(s) { RunSparesCurrent(s, events, |events| - 1); }
    }
    if !Unthreatened(s) {
      var id :| id in s.flights && Threatens(s.flights[id], s.record.target);
      var events := Strike(s, id);
    }
  }

  /** No moment of the run leaves the current target open to deletion. */
  ghost predicate NeverDoomed(s: System, events: seq<Event>)
    decreases |events|
  {
    !Doomed(s) && (events == [] || NeverDoomed(Next(s, events[0]), events[1..]))
  }

  lemma {:induction false} SafeFromIff(s: System, events: seq<Event>)
    requires Inv(s) && Unthreatened(s) && Runnable(s, events)
    ensures NeverDoomed(s, events) <==> NeverReturns(s, events)
    decreases |events|
  {
    hide Inv, Next, Enabled, Returns, Unthreatened, Doomed;
    DoomedIff(s);
    if events != [] {
      var e, rest := events[0], events[1..];
      StepThreatensIff(s, e);
      StepKeepsInv(s, e);
      DoomedIff(Next(s, e));
      if Unthreatened(Next(s, e)) {
        SafeFromIff(Next(s, e), rest);
      } else {
        assert !NeverDoomed(Next(s, e), rest);
      }
    }
  }

  /** For every run: the current target is never open to deletion if and only if the record never returns. */
  lemma SafeIffNeverReturns(s: System, events: seq<Event>)
    requires Initial(s) && Runnable(s, events)
    ensures NeverDoomed(s, events) <==> NeverReturns(s, events)
  {
    hide Runnable, NeverReturns, NeverDoomed, Doomed;
    SafeFromIff(s, events);
  }

  // ---- and a run in which the record does return

  function Fresh(t: Target): System {
    System(Record(t, "", "", [], [], PENDING, 0), map[], map[])
  }

  function At(t: Target, applied: seq<string>, retirements: seq<Target>, status: Status, now: nat): Record {
    Record(t, "", "", applied, retirements, status, now)
  }

  /**
   The record publishes at `a`, moves to `b`, and two evaluations start that are to clean `a`.
   The second one finishes; the record moves back to `a` and publishes there again.
   */
  function BackAndForth(a: Target, b: Target, v: seq<string>): seq<Event> {
    [Begin(0, Publish(v)), Write(0, true), Commit(0, 1), Update(b, "", 2),
     Begin(1, NoMatch), Begin(2, NoMatch), Clean(2, true), Commit(2, 3),
     Update(a, "", 4), Begin(3, Publish(v)), Write(3, true), Commit(3, 5), Clean(1, true)]
  }

  lemma Unroll(s: System, e: Event, rest: seq<Event>)
    ensures Runnable(s, [e] + rest) <==> Enabled(s, e) && Runnable(Next(s, e), rest)
    ensures Run(s, [e] + rest) == Run(Next(s, e), rest)
  {
    hide Next, Enabled;
    assert ([e] + rest)[1..] == rest;
  }

  lemma PublishAt(t: Target, before: map<nat, Flight>, id: nat, v: seq<string>, status: Status, now: nat)
    requires v != [] && id !in before
    ensures var s0 := System(At(t, [], [], status, now), map[], before);
            var s1 := Next(s0, Begin(id, Publish(v)));
            var s2 := Next(s1, Write(id, true));
            && Enabled(s0, Begin(id, Publish(v))) && Enabled(s1, Write(id, true)) && Enabled(s2, Commit(id, now + 1))
            && Next(s2, Commit(id, now + 1)) == System(At(t, v, [], APPLIED, now + 1), map[t := v], before)
  {
    var s0 := System(At(t, [], [], status, now), map[], before);
    var s1 := Next(s0, Begin(id, Publish(v)));
    var s2 := Next(s1, Write(id, true));
    assert s2.provider == map[t := v];
    assert s2.flights - {id} == before;
  }

  function Cleaner(b: Target, a: Target, cleaned: nat): Flight {
    Flight(At(b, [], [a], PENDING, 2), NoMatch, None, [a], false, false, cleaned, false)
  }

  lemma MoveAway(a: Target, b: Target, v: seq<string>)
    requires a != b && v != []
    ensures var s0 := System(At(a, v, [], APPLIED, 1), map[a := v], map[]);
            var s1 := Next(s0, Update(b, "", 2));
            var s2 := Next(s1, Begin(1, NoMatch));
            var s3 := Next(s2, Begin(2, NoMatch));
            && Enabled(s0, Update(b, "", 2)) && Enabled(s1, Begin(1, NoMatch)) && Enabled(s2, Begin(2, NoMatch))
            && s3 == System(At(b, [], [a], PENDING, 2), map[a := v], map[1 := Cleaner(b, a, 0), 2 := Cleaner(b, a, 0)])
  {
    var s0 := System(At(a, v, [], APPLIED, 1), map[a := v], map[]);
    var s1 := Next(s0, Update(b, "", 2));
    assert s1 == System(At(b, [], [a], PENDING, 2), map[a := v], map[]);
  }

  lemma CleanAndReturn(a: Target, b: Target, v: seq<string>)
    requires a != b && v != []
    ensures var s0 := System(At(b, [], [a], PENDING, 2), map[a := v], map[1 := Cleaner(b, a, 0), 2 := Cleaner(b, a, 0)]);
            var s1 := Next(s0, Clean(2, true));
            var s2 := Next(s1, Commit(2, 3));
            && Enabled(s0, Clean(2, true)) && Enabled(s1, Commit(2, 3)) && Enabled(s2, Update(a, "", 4))
            && Next(s2, Update(a, "", 4)) == System(At(a, [], [], PENDING, 4), map[], map[1 := Cleaner(b, a, 0)])
  {
    var s0 := System(At(b, [], [a], PENDING, 2), map[a := v], map[1 := Cleaner(b, a, 0), 2 := Cleaner(b, a, 0)]);
    var s1 := Next(s0, Clean(2, true));
    assert map[a := v] - {a} == map[];
    assert s1 == System(At(b, [], [a], PENDING, 2), map[], map[1 := Cleaner(b, a, 0), 2 := Cleaner(b, a, 1)]);
    var s2 := Next(s1, Commit(2, 3));
    assert s1.flights - {2} == map[1 := Cleaner(b, a, 0)];
    assert s2 == System(At(b, [], [], NO_MATCH, 3), map[], map[1 := Cleaner(b, a, 0)]);
  }

  lemma LateClean(a: Target, b: Target, v: seq<string>)
    requires v != []
    ensures var s := System(At(a, v, [], APPLIED, 5), map[a := v], map[1 := Cleaner(b, a, 0)]);
            && Enabled(s, Clean(1, true)) && DeletesCurrent(s, Clean(1, true))
            && Next(s, Clean(1, true)) == System(At(a, v, [], APPLIED, 5), map[], map[1 := Cleaner(b, a, 1)])
            && Enabled(Next(s, Clean(1, true)), Commit(1, 6)) && Next(Next(s, Clean(1, true)), Commit(1, 6)).record.status == PENDING
  {
    assert map[a := v] - {a} == map[];
  }

  /**
   The record is APPLIED with its values on file, and the provider holds nothing. The late
   evaluation's own commit then finds its snapshot stale and sets the record PENDING.
   */
  lemma LateCleanupDeletesCurrent(a: Target, b: Target, v: seq<string>)
    requires a != b && v != []
    ensures Initial(Fresh(a)) && Runnable(Fresh(a), BackAndForth(a, b, v))
    ensures var end := Run(Fresh(a), BackAndForth(a, b, v));
            && end.record.target == a && end.record.applied == v && end.record.status == APPLIED && end.provider == map[]
            && Enabled(end, Commit(1, 6)) && Next(end, Commit(1, 6)).record.status == PENDING
  {
    hide Next, Enabled, Run, Runnable, DeletesCurrent;
    PublishAt(a, map[], 0, v, PENDING, 0);
    MoveAway(a, b, v);
    CleanAndReturn(a, b, v);
    PublishAt(a, map[1 := Cleaner(b, a, 0)], 3, v, PENDING, 4);
    LateClean(a, b, v);
    var events := BackAndForth(a, b, v);
    var s0 := Fresh(a);
    var s1 := System(At(a, v, [], APPLIED, 1), map[a := v], map[]);
    var s2 := System(At(b, [], [a], PENDING, 2), map[a := v], map[1 := Cleaner(b, a, 0), 2 := Cleaner(b, a, 0)]);
    var s3 := System(At(a, [], [], PENDING, 4), map[], map[1 := Cleaner(b, a, 0)]);
    var s4 := System(At(a, v, [], APPLIED, 5), map[a := v], map[1 := Cleaner(b, a, 0)]);
    Last(s4, Clean(1, true));
    Three(s3, Begin(3, Publish(v)), Write(3, true), Commit(3, 5), [Clean(1, true)]);
    var e3 := [Begin(3, Publish(v)), Write(3, true), Commit(3, 5)] + [Clean(1, true)];
    Three(s2, Clean(2, true), Commit(2, 3), Update(a, "", 4), e3);
    var e2 := [Clean(2, true), Commit(2, 3), Update(a, "", 4)] + e3;
    Three(s1, Update(b, "", 2), Begin(1, NoMatch), Begin(2, NoMatch), e2);
    var e1 := [Update(b, "", 2), Begin(1, NoMatch), Begin(2, NoMatch)] + e2;
    Three(s0, Begin(0, Publish(v)), Write(0, true), Commit(0, 1), e1);
    assert events == [Begin(0, Publish(v)), Write(0, true), Commit(0, 1)] + e1;
  }

  lemma Last(s: System, e: Event)
    ensures Runnable(s, [e]) <==> Enabled(s, e)
    ensures Run(s, [e]) == Next(s, e)
  {
    hide Next, Enabled;
    assert [e][1..] == [];
  }

  lemma Three(s: System, e: Event, f: Event, g: Event, rest: seq<Event>)
    ensures Runnable(s, [e, f, g] + rest) <==>
              && Enabled(s, e) && Enabled(Next(s, e), f) && Enabled(Next(Next(s, e), f), g)
              && Runnable(Next(Next(Next(s, e), f), g), rest)
    ensures Run(s, [e, f, g] + rest) == Run(Next(Next(Next(s, e), f), g), rest)
  {
    hide Next, Enabled, Run, Runnable;
    Unroll(Next(Next(s, e), f), g, rest);
    Unroll(Next(s, e), f, [g] + rest);
    Unroll(s, e, [f] + ([g] + rest));
    assert [e] + ([f] + ([g] + rest)) == [e, f, g] + rest;
  }
}

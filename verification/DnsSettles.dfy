/**
 An undisturbed evaluation settles the record: the provider ends up with exactly the
 published values, and nothing is left to retire.
 */
module DnsSettles {
  import opened Text
  import opened DnsRetirement

  lemma Unroll(s: System, e: Event, rest: seq<Event>)
    ensures Runnable(s, [e] + rest) <==> Enabled(s, e) && Runnable(Next(s, e), rest)
    ensures Run(s, [e] + rest) == Run(Next(s, e), rest)
  {
    hide Next, Enabled;
    assert ([e] + rest)[1..] == rest;
  }

  lemma {:induction false} Append(s: System, events: seq<Event>, e: Event)
    requires Runnable(s, events) && Enabled(Run(s, events), e)
    ensures Runnable(s, events + [e]) && Run(s, events + [e]) == Next(Run(s, events), e)
    decreases |events|
  {
    hide Next, Enabled;
    if events == [] {
      assert events + [e] == [e] && [e][1..] == [];
    } else {
      assert (events + [e])[1..] == events[1..] + [e];
      Append(Next(s, events[0]), events[1..], e);
    }
  }

  predicate Cleaning(f: Flight) {
    (f.action.None? || f.written) && f.cleaned <= |f.cleanup| && !f.cleanFailed
  }

  function Targets(targets: seq<Target>): set<Target> {
    set t | t in targets
  }

  /** Cleaning everything still listed. */
  lemma {:induction false} CleanRest(s: System, id: nat) returns (events: seq<Event>)
    requires id in s.flights && Cleaning(s.flights[id])
    ensures Runnable(s, events)
    ensures var f := s.flights[id];
            Run(s, events) == s.(flights := s.flights[id := f.(cleaned := |f.cleanup|)], provider := s.provider - Targets(f.cleanup[f.cleaned..]))
    decreases |s.flights[id].cleanup| - s.flights[id].cleaned
  {
    hide Next, Enabled, Targets;
    var f := s.flights[id];
    TargetsFrom(f.cleanup, f.cleaned, s.provider);
    if f.cleaned == |f.cleanup| {
      events := [];
      assert s.flights[id := f] == s.flights;
      RunsNothing(s);
    } else {
      var e := Clean(id, true);
      CleanOne(s, id);
      var next := Next(s, e);
      hide Run, Runnable;
      var rest := CleanRest(next, id);
      Unroll(s, e, rest);
      events := [e] + rest;
      assert next.flights[id := f.(cleaned := |f.cleanup|)] == s.flights[id := f.(cleaned := |f.cleanup|)];
    }
  }

  lemma RunsNothing(s: System)
    ensures Runnable(s, []) && Run(s, []) == s
  {
  }

  lemma CleanOne(s: System, id: nat)
    requires id in s.flights && Cleaning(s.flights[id]) && s.flights[id].cleaned < |s.flights[id].cleanup|
    ensures Enabled(s, Clean(id, true))
    ensures var f := s.flights[id];
            Next(s, Clean(id, true)) == s.(flights := s.flights[id := f.(cleaned := f.cleaned + 1)], provider := s.provider - {f.cleanup[f.cleaned]})
  {
  }

  lemma TargetsFrom(targets: seq<Target>, i: nat, provider: map<Target, seq<string>>)
    requires i <= |targets|
    ensures i == |targets| ==> provider - Targets(targets[i..]) == provider
    ensures i < |targets| ==> provider - Targets(targets[i..]) == provider - {targets[i]} - Targets(targets[i + 1..])
  {
    if i < |targets| {
      assert targets[i..] == [targets[i]] + targets[i + 1..];
      assert Targets(targets[i..]) == {targets[i]} + Targets(targets[i + 1..]);
    } else {
      assert Targets(targets[i..]) == {};
    }
  }

  /** The evaluation so far: begun, written, and everything cleaned. */
  lemma PublishAndClean(s: System, id: nat, v: seq<string>) returns (events: seq<Event>)
    requires s.flights == map[] && v != []
    ensures Runnable(s, events)
    ensures var end := Run(s, events);
            && end.record == s.record && end.flights.Keys == {id}
            && end.provider == s.provider[s.record.target := v] - Targets(s.record.retirements)
            && var f := end.flights[id];
               f.snapshot == s.record && f.verdict == Publish(v) && f.action == Some(Action(s.record.target, v)) && f.written && f.attempted
               && f.cleanup == s.record.retirements && f.cleaned == |f.cleanup| && !f.cleanFailed
  {
    hide Run, Runnable, CommitEvaluation;
    var begin, write := Begin(id, Publish(v)), Write(id, true);
    var s1 := Next(s, begin);
    var s2 := Next(s1, write);
    var rest := CleanRest(s2, id);
    Unroll(s1, write, rest);
    Unroll(s, begin, [write] + rest);
    events := [begin] + ([write] + rest);
    assert s2.flights[id].cleanup[0..] == s2.flights[id].cleanup;
  }

  /** From every quiet reachable state: one evaluation whose calls succeed leaves exactly what it published. */
  lemma EvaluationSettles(s: System, id: nat, v: seq<string>, now: nat) returns (events: seq<Event>)
    requires Inv(s) && s.flights == map[] && v != [] && now > s.record.updatedAt
    ensures Runnable(s, events)
    ensures var end := Run(s, events);
            && end.provider == map[s.record.target := v] && end.flights == map[]
            && end.record == s.record.(applied := v, retirements := [], status := APPLIED, updatedAt := now)
  {
    var before := PublishAndClean(s, id, v);
    hide Run, Runnable;
    var t := Run(s, before);
    Append(s, before, Commit(id, now));
    events := before + [Commit(id, now)];
    assert t.provider == map[s.record.target := v] by {
      QuietProvider(s, v);
    }
    assert t.flights - {id} == map[];
  }

  lemma QuietProvider(s: System, v: seq<string>)
    requires Inv(s) && s.flights == map[]
    ensures s.provider[s.record.target := v] - Targets(s.record.retirements) == map[s.record.target := v]
  {
    forall t | t in s.provider
      ensures t == s.record.target || t in Targets(s.record.retirements)
    {
      assert Remembered(s, t);
    }
  }

  /** What a commit on an unchanged record stores, outcome by outcome. */
  lemma CommitStatus(record: Record, f: Flight, now: nat)
    requires f.snapshot == record
    ensures var status := CommitEvaluation(record, f, now).status;
            && ((f.attempted && !f.written) || f.cleanFailed ==> status == FAILED)
            && (!(f.attempted && !f.written) && !f.cleanFailed ==>
                  && (f.verdict.Publish? || f.verdict.Keep? ==> status == APPLIED)
                  && (f.verdict.NoMatch? ==> status == NO_MATCH)
                  && (f.verdict.Ambiguous? ==> status == CONFLICT)
                  && (f.verdict.Broken? ==> status == FAILED))
    ensures !f.written ==> CommitEvaluation(record, f, now).applied == record.applied
    ensures f.cleanFailed || f.cleaned < |f.cleanup| ==> CommitEvaluation(record, f, now).retirements == record.retirements
  {
  }

  /** On a changed record: always PENDING; the values written are recorded, or their target retired. */
  lemma StaleCommitAbsorbs(record: Record, f: Flight, now: nat)
    requires f.snapshot != record
    ensures var after := CommitEvaluation(record, f, now);
            && after.status == PENDING && after.target == record.target && after.updatedAt == now
            && (f.written && f.action.Some? && f.action.value.target == record.target ==> after.applied == f.action.value.values && after.retirements == record.retirements)
            && (f.written && f.action.Some? && f.action.value.target != record.target && f.action.value.values != [] ==>
                  after.applied == record.applied && after.retirements == record.retirements + [f.action.value.target])
            && (!f.written ==> after.applied == record.applied && after.retirements == record.retirements)
  {
  }
}

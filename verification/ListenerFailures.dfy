/**
 Which plans can cost a process a lock it relies on when their acquisition fails: exactly
 those that compete with a listener it has acquired.
 */
module ListenerFailures {
  import opened Text
  import opened Listeners
  import opened ListenerLocks
  import opened ListenerHolding
  import D = Deployment

  /** A step the process takes while acquiring; other processes may take any. */
  predicate Inside(p: Proc, e: Event) {
    e.p == p ==> e.Examine? || e.StartWriting? || e.Create? || e.Occupied? || e.Fill? || e.GiveUp? || e.ReadForRelease? || e.RemoveForRelease?
  }

  /** An acquisition of `keys` under way. */
  ghost predicate Attempt(site: Site, s: State, p: Proc, keys: set<Key>, events: seq<Event>) {
    && Runnable(site, s, events) && Considerate(site, s, events)
    && events != [] && events[0] == Begin(p, keys) && forall i :: 1 <= i < |events| ==> Inside(p, events[i])
  }

  /** One that failed. */
  ghost predicate FailedAttempt(site: Site, s: State, p: Proc, keys: set<Key>, events: seq<Event>) {
    && |events| >= 2 && Runnable(site, s, events) && events[|events| - 1] == Unlock(p)
    && Attempt(site, s, p, keys, events[..|events| - 1])
  }

  /** The phase belongs to an acquisition of `keys`. */
  ghost predicate PhaseOf(phase: Phase, keys: set<Key>) {
    match phase
    case Idle => false
    case Checking(k, _) => k == keys
    case Writing(k, todo) => k == keys && todo <= keys
    case Filling(k, todo, key) => k == keys && todo <= keys && key in keys
    case Unwinding(written) => written <= keys
  }

  /** The process is acquiring `keys`, relies on `acquired`, and has dropped only what competes with the plan. */
  ghost predicate Underway(site: Site, s: State, p: Proc, keys: set<Key>, acquired: set<Key>) {
    && p in s.live && s.live[p].acquired == acquired && PhaseOf(s.live[p].phase, keys)
    && (s.live[p].removing.Some? ==> exists k :: k in keys && site.path(k) == s.live[p].removing.value)
    && forall k :: k in s.live[p].dropped ==> Touches(site, k, keys)
  }

  lemma OtherStepUnderway(site: Site, s: State, e: Event, p: Proc, keys: set<Key>, acquired: set<Key>)
    requires Underway(site, s, p, keys, acquired) && Enabled(site, s, e) && e.p != p
    ensures Underway(site, Next(site, s, e), p, keys, acquired)
  {
    hide CheckEntry, CheckOccupant, Releasable, Touches;
  }

  /** A removal at a path drops the acquired listener there, if any. */
  lemma DropUnderway(site: Site, s: State, p: Proc, keys: set<Key>, acquired: set<Key>, path: string, removed: bool)
    requires Underway(site, s, p, keys, acquired)
    requires forall k :: k in acquired && site.path(k) == path && k !in s.live[p].dropped ==> Touches(site, k, keys)
    ensures Underway(site, Drop(site, s, p, path, removed), p, keys, acquired)
  {
    hide Touches;
  }

  lemma PlannedPathTouches(site: Site, keys: set<Key>, acquired: set<Key>, key: Key)
    requires DistinctPaths(site, acquired + keys) && key in keys
    ensures forall k :: k in acquired && site.path(k) == site.path(key) ==> Touches(site, k, keys)
  {
    TouchesAmong(site, key, keys);
    hide Touches;
  }

  lemma ExamineUnderway(site: Site, s: State, e: Event, keys: set<Key>, acquired: set<Key>)
    requires Underway(site, s, e.p, keys, acquired) && Keeps(site, s, e.p) && Enabled(site, s, e) && e.Examine?
    ensures Underway(site, Next(site, s, e), e.p, keys, acquired)
  {
    hide Touches, Drop;
    var p, phase := e.p, s.live[e.p].phase;
    if CheckEntry(site, s, p, phase.keys, e.path, e.guarded) == Remove {
      forall k | k in acquired && site.path(k) == e.path && k !in s.live[p].dropped
        ensures Touches(site, k, keys)
      {
        assert Has(site, s, p, k);
      }
      DropUnderway(site, To(s, p, phase.(unread := phase.unread - {e.path})), p, keys, acquired, e.path, e.removed);
    }
  }

  lemma WriteUnderway(site: Site, s: State, e: Event, keys: set<Key>, acquired: set<Key>)
    requires Underway(site, s, e.p, keys, acquired) && DistinctPaths(site, acquired + keys) && Enabled(site, s, e)
    requires e.Occupied? || e.Fill?
    ensures Underway(site, Next(site, s, e), e.p, keys, acquired)
  {
    hide Touches, Drop, CheckOccupant, DistinctPaths;
    var p, phase := e.p, s.live[e.p].phase;
    var key := if e.Fill? then phase.key else e.key;
    PlannedPathTouches(site, keys, acquired, key);
    if e.Occupied? {
      DropUnderway(site, s, p, keys, acquired, site.path(key), e.removed);
    } else if !e.written {
      DropUnderway(site, To(s, p, Unwinding(Written(phase))), p, keys, acquired, site.path(key), true);
    }
  }

  lemma ReleaseUnderway(site: Site, s: State, e: Event, keys: set<Key>, acquired: set<Key>)
    requires Underway(site, s, e.p, keys, acquired) && DistinctPaths(site, acquired + keys) && Enabled(site, s, e)
    requires e.ReadForRelease? || e.RemoveForRelease?
    ensures Underway(site, Next(site, s, e), e.p, keys, acquired)
  {
    hide Touches, Drop, Releasable, DistinctPaths;
    var p := e.p;
    if e.RemoveForRelease? {
      var key :| key in keys && site.path(key) == s.live[p].removing.value;
      PlannedPathTouches(site, keys, acquired, key);
      DropUnderway(site, s.(live := s.live[p := s.live[p].(removing := None)]), p, keys, acquired, s.live[p].removing.value, e.removed);
    }
  }

  lemma StepUnderway(site: Site, s: State, e: Event, p: Proc, keys: set<Key>, acquired: set<Key>)
    requires Underway(site, s, p, keys, acquired) && Keeps(site, s, p) && DistinctPaths(site, acquired + keys)
    requires Enabled(site, s, e) && Inside(p, e)
    ensures Underway(site, Next(site, s, e), p, keys, acquired)
  {
    hide Keeps, DistinctPaths;
    if e.p != p {
      hide Underway, Enabled, Next;
      OtherStepUnderway(site, s, e, p, keys, acquired);
    } else if e.Examine? {
      hide Underway, Enabled, Next;
      ExamineUnderway(site, s, e, keys, acquired);
    } else if e.Occupied? || e.Fill? {
      hide Underway, Enabled, Next;
      WriteUnderway(site, s, e, keys, acquired);
    } else if e.ReadForRelease? || e.RemoveForRelease? {
      hide Underway, Enabled, Next;
      ReleaseUnderway(site, s, e, keys, acquired);
    } else {
      hide Touches;
    }
  }

  /** Ready to acquire, with all its locks in place. */
  ghost predicate Settled(site: Site, s: State, p: Proc) {
    && Inv(site, s) && AllKeep(site, s) && Ready(s, p)
    && s.live[p].phase.Idle? && s.live[p].dropped == {} && s.holder.None?
  }

  lemma {:induction false} AttemptUnderway(site: Site, s: State, p: Proc, keys: set<Key>, events: seq<Event>)
    requires Settled(site, s, p) && DistinctPaths(site, s.live[p].acquired + keys) && Attempt(site, s, p, keys, events)
    ensures var t := Run(site, s, events);
            Inv(site, t) && AllKeep(site, t) && Underway(site, t, p, keys, s.live[p].acquired)
    decreases |events|
  {
    hide Inv, Enabled, Next, Keeps, Underway, SeparatePlan, HarmlessRemoval, DistinctPaths;
    var front, last := events[..|events| - 1], events[|events| - 1];
    var before := Run(site, s, front);
    if front == [] {
      BeginUnderway(site, s, p, keys);
    } else {
      assert Attempt(site, s, p, keys, front);
      AttemptUnderway(site, s, p, keys, front);
      assert p in before.live by { UnderwayLives(site, before, p, keys, s.live[p].acquired); }
      StepUnderway(site, before, last, p, keys, s.live[p].acquired);
    }
    StepKeepsInv(site, before, last);
    StepKeeps(site, before, last);
  }

  lemma UnderwayLives(site: Site, s: State, p: Proc, keys: set<Key>, acquired: set<Key>)
    requires Underway(site, s, p, keys, acquired)
    ensures p in s.live
  {
  }

  lemma BeginUnderway(site: Site, s: State, p: Proc, keys: set<Key>)
    requires Settled(site, s, p) && Enabled(site, s, Begin(p, keys))
    ensures Underway(site, Next(site, s, Begin(p, keys)), p, keys, s.live[p].acquired)
  {
    hide Inv, AllKeep, Touches;
  }

  /** After the failure, a lock the process relied on is gone. */
  ghost predicate LosesLock(site: Site, s: State, p: Proc, events: seq<Event>)
    requires Runnable(site, s, events) && p in s.live
  {
    !HasAll(site, Run(site, s, events), p, s.live[p].acquired)
  }

  ghost predicate MayLose(site: Site, s: State, p: Proc, keys: set<Key>)
    requires p in s.live
  {
    exists events :: FailedAttempt(site, s, p, keys, events) && LosesLock(site, s, p, events)
  }

  ghost predicate Competes(site: Site, s: State, p: Proc, keys: set<Key>)
    requires p in s.live
  {
    exists k :: k in s.live[p].acquired && Touches(site, k, keys)
  }

  /** What a failed attempt leaves: the locks are all there exactly when nothing was dropped. */
  lemma AfterFailure(site: Site, s: State, p: Proc, keys: set<Key>, events: seq<Event>)
    requires Settled(site, s, p) && DistinctPaths(site, s.live[p].acquired + keys) && FailedAttempt(site, s, p, keys, events)
    ensures var before := Run(site, s, events[..|events| - 1]);
            && Underway(site, before, p, keys, s.live[p].acquired) && Keeps(site, before, p)
            && (LosesLock(site, s, p, events) <==> before.live[p].dropped != {})
  {
    hide Inv, Enabled, Next, Keeps, SeparatePlan, HarmlessRemoval, DistinctPaths, Touches, HasAll, Attempt;
    AttemptUnderway(site, s, p, keys, events[..|events| - 1]);
    FailureHarmlessIff(site, Run(site, s, events[..|events| - 1]), p);
  }

  lemma LossNeedsCompetition(site: Site, s: State, p: Proc, keys: set<Key>)
    requires Settled(site, s, p) && DistinctPaths(site, s.live[p].acquired + keys) && MayLose(site, s, p, keys)
    ensures Competes(site, s, p, keys)
  {
    hide DistinctPaths, Attempt, LosesLock, Touches, Run, Inv, AllKeep, Enabled, Next;
    var events :| FailedAttempt(site, s, p, keys, events) && LosesLock(site, s, p, events);
    AfterFailure(site, s, p, keys, events);
    DroppedCompetes(site, s, Run(site, s, events[..|events| - 1]), p, keys);
  }

  lemma DroppedCompetes(site: Site, s: State, t: State, p: Proc, keys: set<Key>)
    requires p in s.live && Underway(site, t, p, keys, s.live[p].acquired) && t.live[p].dropped != {} && Keeps(site, t, p)
    ensures Competes(site, s, p, keys)
  {
    hide Touches;
    var k :| k in t.live[p].dropped;
  }

  // ---- and any competing plan may fail and cost one

  /** The further events are the process's own examinations and its giving up. */
  ghost predicate Continues(site: Site, events: seq<Event>, longer: seq<Event>, p: Proc) {
    && events <= longer
    && forall i :: |events| <= i < |longer| ==> Inside(p, longer[i]) && Plain(site, longer[i])
  }

  lemma Append(site: Site, s: State, events: seq<Event>, e: Event)
    requires Runnable(site, s, events) && Enabled(site, Run(site, s, events), e)
    ensures Runnable(site, s, events + [e]) && Run(site, s, events + [e]) == Next(site, Run(site, s, events), e)
  {
    hide Enabled, Next;
    assert (events + [e])[..|events|] == events;
  }

  lemma Continue(site: Site, s: State, events: seq<Event>, p: Proc, e: Event) returns (longer: seq<Event>)
    requires Runnable(site, s, events) && Enabled(site, Run(site, s, events), e) && Inside(p, e) && Plain(site, e)
    ensures Runnable(site, s, longer) && Run(site, s, longer) == Next(site, Run(site, s, events), e) && Continues(site, events, longer, p)
  {
    hide Enabled, Next, Inside, Plain;
    longer := events + [e];
    assert longer[..|longer| - 1] == events;
  }

  lemma ContinuesOn(site: Site, a: seq<Event>, b: seq<Event>, c: seq<Event>, p: Proc)
    requires Continues(site, a, b, p) && Continues(site, b, c, p)
    ensures Continues(site, a, c, p)
  {
    hide Inside, Plain;
    forall i | |a| <= i < |c|
      ensures Inside(p, c[i]) && Plain(site, c[i])
    {
      if i < |b| { assert c[i] == b[i]; }
    }
  }

  /** The process has dropped `k` and is on its way to finish or fail the check. */
  ghost predicate Losing(s: State, p: Proc, k: Key) {
    p in s.live && s.live[p].removing.None? && k in s.live[p].dropped
  }

  /** Examining the rest of the directory ends in a refusal or with nothing left to read. */
  lemma {:induction false} ExamineRest(site: Site, s: State, events: seq<Event>, p: Proc, k: Key) returns (longer: seq<Event>)
    requires Runnable(site, s, events) && Losing(Run(site, s, events), p, k) && Run(site, s, events).live[p].phase.Checking?
    ensures Runnable(site, s, longer) && Continues(site, events, longer, p) && Losing(Run(site, s, longer), p, k)
    ensures var phase := Run(site, s, longer).live[p].phase;
            phase.Unwinding? || (phase.Checking? && phase.unread == {})
    decreases Run(site, s, events).live[p].phase.unread
  {
    hide Run, Runnable, CheckEntry, Continues, Inside, Plain;
    var t := Run(site, s, events);
    if t.live[p].phase.unread == {} {
      longer := events;
      ContinuesItself(site, events, p);
    } else {
      var path :| path in t.live[p].phase.unread;
      PlainSteps(site, p, path);
      var more := Continue(site, s, events, p, Examine(p, path, false, true));
      if Run(site, s, more).live[p].phase.Unwinding? {
        longer := more;
      } else {
        longer := ExamineRest(site, s, more, p, k);
        ContinuesOn(site, events, more, longer, p);
      }
    }
  }

  lemma ContinuesItself(site: Site, events: seq<Event>, p: Proc)
    ensures Continues(site, events, events, p)
  {
  }

  lemma PlainSteps(site: Site, p: Proc, path: string)
    ensures forall e :: e in {Examine(p, path, false, true), StartWriting(p), GiveUp(p)} ==> Inside(p, e) && Plain(site, e)
  {
  }

  /** Having dropped `k`, the acquisition is refused, or cannot write and gives up. */
  lemma FailFrom(site: Site, s: State, events: seq<Event>, p: Proc, k: Key) returns (longer: seq<Event>)
    requires Runnable(site, s, events) && Losing(Run(site, s, events), p, k) && Run(site, s, events).live[p].phase.Checking?
    ensures Runnable(site, s, longer) && Continues(site, events, longer, p) && Losing(Run(site, s, longer), p, k)
    ensures Run(site, s, longer).live[p].phase.Unwinding?
  {
    hide Run, Runnable, CheckEntry, Continues, Inside, Plain;
    longer := ExamineRest(site, s, events, p, k);
    if !Run(site, s, longer).live[p].phase.Unwinding? {
      PlainSteps(site, p, "");
      var writing := Continue(site, s, longer, p, StartWriting(p));
      var failed := Continue(site, s, writing, p, GiveUp(p));
      ContinuesOn(site, longer, writing, failed, p);
      ContinuesOn(site, events, longer, failed, p);
      longer := failed;
    }
  }

  lemma CompetitionMayLose(site: Site, s: State, p: Proc, keys: set<Key>)
    requires Settled(site, s, p) && DistinctPaths(site, s.live[p].acquired + keys) && Competes(site, s, p, keys)
    ensures MayLose(site, s, p, keys)
  {
    hide Run, Runnable, CheckEntry, Touches, Inv, Continues, Inside, Plain, Considerate, HasAll;
    var k :| k in s.live[p].acquired && Touches(site, k, keys);
    RunNothing(site, s);
    assert Keeps(site, s, p);
    assert Has(site, s, p, k) by { KeptIsHad(site, s, p, k); }
    var path := site.path(k);
    var begun := [Begin(p, keys)];
    Append(site, s, [], Begin(p, keys));
    assert [] + begun == begun;
    var t := Run(site, s, begun);
    OwnIsRemoved(site, t, p, keys, k);
    PlainSteps(site, p, path);
    var dropped := Continue(site, s, begun, p, Examine(p, path, false, true));
    assert Losing(Run(site, s, dropped), p, k);
    var failed := FailFrom(site, s, dropped, p, k);
    ContinuesOn(site, begun, dropped, failed, p);
    Append(site, s, failed, Unlock(p));
    FailureLoses(site, s, p, keys, k, begun, failed, failed + [Unlock(p)]);
  }

  lemma KeptIsHad(site: Site, s: State, p: Proc, k: Key)
    requires p in s.live && Keeps(site, s, p) && k in s.live[p].acquired && s.live[p].dropped == {}
    ensures Has(site, s, p, k)
  {
  }

  lemma FailureLoses(site: Site, s: State, p: Proc, keys: set<Key>, k: Key, begun: seq<Event>, failed: seq<Event>, events: seq<Event>)
    requires Settled(site, s, p) && DistinctPaths(site, s.live[p].acquired + keys)
    requires begun == [Begin(p, keys)] && Continues(site, begun, failed, p) && Runnable(site, s, failed)
    requires Losing(Run(site, s, failed), p, k) && events == failed + [Unlock(p)] && Runnable(site, s, events)
    ensures MayLose(site, s, p, keys)
  {
    hide Run, Runnable, Inv, Considerate, Inside, HasAll, AllKeep, Touches;
    assert events[..|events| - 1] == failed;
    SeparateSubset(site, s.live[p].acquired + keys, keys);
    forall i | 0 <= i < |failed|
      ensures Plain(site, failed[i])
    {
      if i == 0 { assert failed[0] == begun[0]; }
    }
    NoReleaseIsConsiderate(site, s, failed);
    forall i | 1 <= i < |failed|
      ensures Inside(p, failed[i])
    {
    }
    assert failed[0] == begun[0];
    assert Attempt(site, s, p, keys, failed);
    assert FailedAttempt(site, s, p, keys, events);
    AfterFailure(site, s, p, keys, events);
  }

  lemma SeparateSubset(site: Site, all: set<Key>, some: set<Key>)
    requires DistinctPaths(site, all) && some <= all
    ensures DistinctPaths(site, some)
  {
  }

  /**
   A failing acquisition of `keys` can leave the process without a lock it relies on if and
   only if one of its acquired listeners competes with the plan.
   */
  lemma PlanMayLoseIff(site: Site, s: State, p: Proc, keys: set<Key>)
    requires Settled(site, s, p) && DistinctPaths(site, s.live[p].acquired + keys)
    ensures MayLose(site, s, p, keys) <==> Competes(site, s, p, keys)
  {
    hide MayLose, Competes, Inv, AllKeep, DistinctPaths;
    if MayLose(site, s, p, keys) { LossNeedsCompetition(site, s, p, keys); }
    if Competes(site, s, p, keys) { CompetitionMayLose(site, s, p, keys); }
  }
}

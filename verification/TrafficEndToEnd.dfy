/**
 The whole pipeline: counters of every process life of the agent, the spool that outlives
 them, the link and the recorder. Whatever was accepted is on the server, in the spool, or
 was still in some process's memory.
 */
module TrafficEndToEnd {
  import opened Text
  import opened Traffic
  import M = MetricsCounter
  import C = CounterConservation
  import D = TrafficDelivery

  /** One run of the agent process. */
  datatype Life = Life(startedAt: nat, events: seq<C.Event>)

  ghost predicate TrimmedRules(events: seq<C.Event>) {
    forall i :: 0 <= i < |events| && events[i].Touch? ==> Trimmed(events[i].key.ruleID)
  }

  ghost predicate Lived(life: Life) {
    life.startedAt > 0 && C.Runnable(C.Start(life.startedAt), life.events) && TrimmedRules(life.events)
  }

  function End(life: Life): C.Books {
    C.Run(C.Start(life.startedAt), life.events)
  }

  /** Every delta handed to the spool, life after life. */
  function Reported(lives: seq<Life>): seq<Delta> {
    if lives == [] then [] else Reported(lives[..|lives| - 1]) + End(lives[|lives| - 1]).reported
  }

  function Accepted(lives: seq<Life>, rule: string): Volume {
    if lives == [] then NOTHING
    else Accepted(lives[..|lives| - 1], rule).Plus(Total(End(lives[|lives| - 1]).accepted, rule))
  }

  /** Increments a process had not handed over when it ended, or has not yet. */
  ghost function InMemory(lives: seq<Life>, rule: string): Volume {
    if lives == [] then NOTHING
    else InMemory(lives[..|lives| - 1], rule).Plus(C.Held(End(lives[|lives| - 1]).state, rule))
  }

  // ---- reported deltas are clean: trimmed rules, nothing negative

  ghost predicate Sane(deltas: seq<Delta>) {
    forall i :: 0 <= i < |deltas| ==> Trimmed(deltas[i].ruleID) && deltas[i].volume.NonNegative()
  }

  lemma SaneIsClean(deltas: seq<Delta>)
    requires Sane(deltas)
    ensures Clean(deltas) == deltas
  {
    hide Trimmed, TrimSpace;
    forall i | 0 <= i < |deltas|
      ensures Normalize(deltas[i]) == deltas[i]
    {
      ClampNonNegative(deltas[i].volume);
      TrimmedStays(deltas[i].ruleID);
    }
  }

  lemma TrimmedStays(s: string)
    requires Trimmed(s)
    ensures TrimSpace(s) == s
  {
  }

  lemma SaneMerge(deltas: seq<Delta>)
    requires Sane(deltas)
    ensures Sane(Merge(deltas))
  {
    hide Tally, DropZero, Trimmed, Merge;
    SaneIsClean(deltas);
    MergeCleanCanonical(deltas);
  }

  ghost predicate SaneState(s: M.State) {
    Sane(s.pendingDeltas) && forall k :: k in s.targets ==> Trimmed(k.ruleID)
  }

  lemma SaneDelta(s: M.State, k: M.Key)
    requires k in s.targets && Trimmed(k.ruleID)
    ensures Sane(M.TargetDelta(s, k))
  {
    hide Trimmed;
  }

  lemma SaneVisit(s: M.State, k: M.Key)
    requires SaneState(s)
    ensures SaneState(M.Visit(s, k)) && SaneState(M.PruneClosed(s, k))
  {
    hide Trimmed, M.TargetDelta;
    if k in s.targets { SaneDelta(s, k); }
  }

  lemma {:induction false} SanePrune(s: M.State, order: seq<M.Key>)
    requires SaneState(s)
    ensures SaneState(M.Prune(s, order))
  {
    hide SaneState, M.Visit;
    if order != [] {
      SanePrune(s, order[..|order| - 1]);
      SaneVisit(M.Prune(s, order[..|order| - 1]), order[|order| - 1]);
    }
  }

  lemma {:induction false} SaneLive(s: M.State, keys: seq<M.Key>)
    requires SaneState(s)
    ensures Sane(M.LiveDeltas(s, keys))
  {
    hide Trimmed, M.TargetDelta;
    if keys != [] {
      SaneLive(s, keys[..|keys| - 1]);
      var k := keys[|keys| - 1];
      if k in s.targets { SaneDelta(s, k); }
    }
  }

  lemma SanePayload(s: M.State, now: nat, keys: seq<M.Key>)
    requires SaneState(s)
    ensures Sane(M.PayloadDeltas(s, now, keys))
  {
    hide Trimmed, M.LiveDeltas, Merge;
    SaneLive(s, keys);
    var live := if M.Elapsed(s, now) then M.LiveDeltas(s, keys) else [];
    SaneMerge(s.pendingDeltas + live);
  }

  lemma SaneTouch(s: M.State, k: M.Key, change: M.Change)
    requires SaneState(s) && Trimmed(k.ruleID)
    ensures SaneState(M.Apply(s, k, change))
  {
    hide Trimmed, M.PruneClosed, M.Updated;
    var next := s.With(k, M.Updated(s.At(k), change));
    assert SaneState(next);
    SaneVisit(next, k);
  }

  lemma SaneStep(b: C.Books, e: C.Event)
    requires SaneState(b.state) && Sane(b.reported) && (e.Touch? ==> Trimmed(e.key.ruleID))
    ensures SaneState(C.Next(b, e).state) && Sane(C.Next(b, e).reported)
  {
    hide Trimmed, M.Prune, M.PayloadDeltas, M.Apply;
    match e
    case Touch(k, change) => { SaneTouch(b.state, k, change); }
    case ApplyConfig(active, order) => { SanePrune(b.state.(activeTargets := active, activeApplied := true), order); }
    case Report(now, order, keys) => {
      SanePrune(b.state, order);
      SanePayload(M.Prune(b.state, order), now, keys);
    }
  }

  lemma {:induction false} SaneRun(b: C.Books, events: seq<C.Event>)
    requires SaneState(b.state) && Sane(b.reported) && TrimmedRules(events)
    ensures Sane(C.Run(b, events).reported)
    decreases |events|
  {
    hide Sane, SaneState, C.Next, Trimmed;
    if events != [] {
      SaneStep(b, events[0]);
      SaneRun(C.Next(b, events[0]), events[1..]);
    }
  }

  // ---- adding it up

  lemma LifeBalances(life: Life, rule: string)
    requires Lived(life) && rule != ""
    ensures Worth(End(life).reported, rule).Plus(C.Held(End(life).state, rule)) == Total(End(life).accepted, rule)
  {
    hide C.Run, C.Runnable, Total, C.Unreported;
    C.CounterConservation(life.startedAt, life.events, rule);
    SaneRun(C.Start(life.startedAt), life.events);
    SaneIsClean(End(life).reported);
  }

  ghost predicate Balanced(lives: seq<Life>, rule: string) {
    Worth(Reported(lives), rule).Plus(InMemory(lives, rule)) == Accepted(lives, rule)
  }

  lemma {:induction false} LivesBalance(lives: seq<Life>, rule: string)
    requires rule != "" && forall i :: 0 <= i < |lives| ==> Lived(lives[i])
    ensures Balanced(lives, rule)
  {
    hide Balanced, Lived;
    if lives == [] {
      NoLifeBalances(rule);
    } else {
      var front, last := lives[..|lives| - 1], lives[|lives| - 1];
      LivesBalance(front, rule);
      OneMoreLife(front, last, rule);
      assert lives == front + [last];
    }
  }

  lemma NoLifeBalances(rule: string)
    ensures Balanced([], rule)
  {
    hide Worth;
    D.WorthEmpty(rule);
  }

  lemma OneMoreLife(front: seq<Life>, last: Life, rule: string)
    requires Balanced(front, rule) && Lived(last) && rule != ""
    ensures Balanced(front + [last], rule)
  {
    hide Worth, Lived, End, C.Held, Total, Reported, Accepted, InMemory, Volume.Plus;
    var lives := front + [last];
    assert lives[..|lives| - 1] == front;
    UnfoldLives(lives, rule);
    LifeBalances(last, rule);
    WorthConcat(Reported(front), End(last).reported, rule);
    Regroup(Worth(Reported(front), rule), InMemory(front, rule), Worth(End(last).reported, rule), C.Held(End(last).state, rule));
  }

  lemma Regroup(a: Volume, b: Volume, c: Volume, d: Volume)
    ensures a.Plus(c).Plus(b.Plus(d)) == a.Plus(b).Plus(c.Plus(d))
  {
  }

  lemma UnfoldLives(lives: seq<Life>, rule: string)
    ensures lives == [] ==> Reported(lives) == [] && Accepted(lives, rule) == InMemory(lives, rule) == NOTHING
    ensures lives != [] ==>
              var front, last := lives[..|lives| - 1], lives[|lives| - 1];
              && Reported(lives) == Reported(front) + End(last).reported
              && Accepted(lives, rule) == Accepted(front, rule).Plus(Total(End(last).accepted, rule))
              && InMemory(lives, rule) == InMemory(front, rule).Plus(C.Held(End(last).state, rule))
  {
    hide End, C.Held, Total;
  }

  /**
   End to end: for an assigned rule, whatever the counters of all process lives accepted is
   counted on the server exactly once, waits in the spool, or was still in memory.
   */
  lemma EverythingAcceptedIsAccountedFor(lives: seq<Life>, owned: set<string>, events: seq<D.Event>, rule: string)
    requires rule != "" && rule in owned && forall i :: 0 <= i < |lives| ==> Lived(lives[i])
    requires D.Runnable(D.Init(owned), events)
    requires D.Run(D.Init(owned), events).queued == Reported(lives)
    ensures var s := D.Run(D.Init(owned), events);
            s.ledger.Counter(rule).Plus(D.Outstanding(s, rule)).Plus(InMemory(lives, rule)) == Accepted(lives, rule)
  {
    hide D.Run, D.Runnable, D.Outstanding, Worth, Lived, Accepted, InMemory, Reported;
    D.ExactlyOnceForAssignedRule(owned, events, rule);
    LivesBalance(lives, rule);
  }
}

/**
 Delivery does not get stuck: whatever happened before, two reports that are sent, delivered
 and acknowledged bring everything queued to the server.
 */
module TrafficProgress {
  import opened Text
  import opened Traffic
  import opened TrafficSpool
  import opened TrafficRecorder
  import opened TrafficDelivery

  /** An acknowledgement of the report in flight clears it and leaves the rest waiting. */
  lemma AckClears(s: System, reportID: string, written: bool)
    requires Inv(s) && reportID in s.acks && reportID == Load(s.spool).inFlightID
    ensures var after := Load(Next(s, DeliverAck(reportID, written)).spool);
            after.inFlightID == "" && after.inFlight == [] && after.pending == Load(s.spool).pending
  {
    hide Merge, Clean, Worth, Recoverable, Balanced, TrimSpace, Canonical, Trimmed;
    assert TrimSpace(reportID) == reportID;
  }

  /** An acknowledgement of anything else leaves the report in flight. */
  lemma StrayAckChangesNothing(s: System, reportID: string, written: bool)
    requires Inv(s) && reportID in s.acks && reportID != Load(s.spool).inFlightID
    ensures Load(Next(s, DeliverAck(reportID, written)).spool) == Load(s.spool)
  {
    hide Merge, Clean, Worth, Recoverable, Balanced, TrimSpace, Canonical, Trimmed;
    assert TrimSpace(reportID) == reportID;
  }

  /** What sending puts on the link: the report in flight, or everything pending under the new ID. */
  lemma SendOffers(s: System, freshID: string)
    requires Inv(s) && !s.dirty && Enabled(s, SendReport(freshID, true))
    ensures var t, live := Next(s, SendReport(freshID, true)), Load(s.spool);
            var after := Load(t.spool);
            && !t.dirty && t.ledger == s.ledger && t.queued == s.queued
            && (after.inFlightID != "" ==> Report(after.inFlightID, after.inFlight) in t.reports)
            && (live.inFlightID != "" ==> after.inFlightID == live.inFlightID && after.inFlight == live.inFlight && after.pending == live.pending)
            && (live.inFlightID == "" ==> after.pending == [] && (after.inFlightID == "" <==> live.pending == []))
  {
    hide Merge, Clean, Worth, TrimSpace, Recoverable, Balanced, Canonical;
  }

  lemma DeliverOffered(s: System, report: Report)
    requires Inv(s) && report in s.reports
    ensures var t := Next(s, DeliverReport(report));
            t.spool == s.spool && t.dirty == s.dirty && t.queued == s.queued && t.issued == s.issued && report.id in t.acks
  {
    hide Merge, Clean, Worth, TrimSpace, Recoverable, Balanced, RecordReport, SpoolSound;
  }

  lemma {:induction false} RunConcat(s: System, a: seq<Event>, b: seq<Event>)
    requires Runnable(s, a) && Runnable(Run(s, a), b)
    ensures Runnable(s, a + b) && Run(s, a + b) == Run(Run(s, a), b)
    decreases |a|
  {
    hide Next, Enabled;
    if a == [] {
      assert a + b == b;
    } else {
      assert (a + b)[0] == a[0] && (a + b)[1..] == a[1..] + b;
      RunConcat(Next(s, a[0]), a[1..], b);
    }
  }

  /** Sending, delivering and acknowledging, all written. */
  ghost predicate Handover(events: seq<Event>) {
    forall i :: 0 <= i < |events| ==>
      match events[i]
      case SendReport(_, written) => written
      case DeliverReport(_) => true
      case DeliverAck(_, written) => written
      case _ => false
  }

  lemma OneEvent(s: System, e: Event)
    requires Enabled(s, e)
    ensures Runnable(s, [e]) && Run(s, [e]) == Next(s, e)
  {
    hide Next, Enabled;
    assert [e][1..] == [];
  }

  /** One report there and its acknowledgement back: nothing is in flight, and what was pending before is sent unless something was in flight. */
  lemma Round(s: System, freshID: string) returns (events: seq<Event>)
    requires Inv(s) && !s.dirty && Enabled(s, SendReport(freshID, true))
    ensures Runnable(s, events) && Handover(events) && |events| <= 3
    ensures var t, live := Run(s, events), Load(s.spool);
            && Inv(t) && !t.dirty && t.queued == s.queued && t.issued == s.issued + {freshID}
            && Load(t.spool).inFlightID == ""
            && Load(t.spool).pending == if live.inFlightID == "" then [] else live.pending
  {
    hide Inv, Run, Runnable, Merge, Clean, Worth, TrimSpace, Load, RecordReport;
    var send := SendReport(freshID, true);
    SendOffers(s, freshID);
    StepKeepsInv(s, send);
    OneEvent(s, send);
    var s1 := Next(s, send);
    var after := Load(s1.spool);
    events := [send];
    if after.inFlightID != "" {
      var report := Report(after.inFlightID, after.inFlight);
      var deliver, ack := DeliverReport(report), DeliverAck(report.id, true);
      DeliverOffered(s1, report);
      StepKeepsInv(s1, deliver);
      OneEvent(s1, deliver);
      var s2 := Next(s1, deliver);
      AckClears(s2, report.id, true);
      StepKeepsInv(s2, ack);
      OneEvent(s2, ack);
      RunConcat(s, [send], [deliver]);
      RunConcat(s, [send] + [deliver], [ack]);
      events := [send] + [deliver] + [ack];
    }
  }

  lemma NothingOwed(s: System)
    requires Load(s.spool).inFlightID == "" && Load(s.spool).pending == []
    ensures forall rule :: Outstanding(s, rule) == NOTHING
  {
    hide Worth, Load;
    forall rule
      ensures Outstanding(s, rule) == NOTHING
    {
      WorthEmpty(rule);
    }
  }

  /** Two rounds empty the spool from every reachable state, whatever was pending or in flight. */
  lemma TwoRoundsDrain(s: System, first: string, second: string) returns (events: seq<Event>)
    requires Inv(s) && !s.dirty && first != second
    requires Enabled(s, SendReport(first, true)) && Enabled(s, SendReport(second, true))
    ensures Runnable(s, events) && Handover(events) && |events| <= 6
    ensures var t := Run(s, events);
            && Inv(t) && t.queued == s.queued
            && (forall rule :: Outstanding(t, rule) == NOTHING)
            && (forall rule :: rule != "" ==> t.ledger.Counter(rule).Plus(Worth(t.skipped, rule)) == Worth(s.queued, rule))
  {
    hide Run, Runnable, Merge, Clean, Worth, Load, SpoolSound, NetworkSound, Recoverable;
    var a := Round(s, first);
    var b := Round(Run(s, a), second);
    RunConcat(s, a, b);
    events := a + b;
    NothingOwed(Run(s, events));
  }

  /** After every run: the server can still get to count exactly what was queued for an assigned rule. */
  lemma EverythingArrives(owned: set<string>, events: seq<Event>, rule: string, first: string, second: string) returns (more: seq<Event>)
    requires Runnable(Init(owned), events) && !Run(Init(owned), events).dirty && rule != "" && rule in owned && first != second
    requires Enabled(Run(Init(owned), events), SendReport(first, true)) && Enabled(Run(Init(owned), events), SendReport(second, true))
    ensures Runnable(Init(owned), events + more) && Handover(more) && |more| <= 6
    ensures var t := Run(Init(owned), events + more);
            t.ledger.Counter(rule) == Worth(t.queued, rule) && t.queued == Run(Init(owned), events).queued
  {
    hide Run, Runnable, Worth, Inv, Outstanding, Enabled, Init, Handover;
    InitInv(owned);
    RunKeepsInv(Init(owned), events);
    more := TwoRoundsDrain(Run(Init(owned), events), first, second);
    RunConcat(Init(owned), events, more);
    AllCounted(owned, events + more, rule);
  }

  lemma AllCounted(owned: set<string>, events: seq<Event>, rule: string)
    requires Runnable(Init(owned), events) && rule != "" && rule in owned && Outstanding(Run(Init(owned), events), rule) == NOTHING
    ensures Run(Init(owned), events).ledger.Counter(rule) == Worth(Run(Init(owned), events).queued, rule)
  {
    hide Run, Runnable, Worth, Outstanding, Init;
    ExactlyOnceForAssignedRule(owned, events, rule);
  }
}

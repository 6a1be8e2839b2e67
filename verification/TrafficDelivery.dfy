/**
 Exactly-once delivery of traffic. The agent's spool talks to the recorder over a
 link that may lose, repeat and delay every report and every acknowledgement, and
 the agent may crash between any two steps.
 */
module TrafficDelivery {
  import opened Text
  import opened Traffic
  import opened TrafficSpool
  import opened TrafficRecorder

  /**
   `reports` and `acks` are everything ever sent: a message in them can be delivered
   any number of times, at any later moment, or never. `queued` and `skipped` are
   histories: the deltas the agent accepted, and the deltas the recorder dropped
   because their rule was not assigned to the node. `dirty` says that the last write of
   newly queued deltas or of a new report failed and nothing has been written since.
   */
  datatype System = System(
    spool: Spool,
    reports: set<Report>,
    acks: set<string>,
    ledger: Ledger,
    issued: set<string>,
    queued: seq<Delta>,
    skipped: seq<Delta>,
    dirty: bool)

  datatype Event =
    | QueueDeltas(deltas: seq<Delta>, written: bool)
    | SendReport(freshID: string, written: bool)
    | DeliverReport(report: Report)
    | DeliverAck(reportID: string, written: bool)
    | AssignRules(ruleIDs: seq<string>)
    | CrashAndRestart

  function Init(owned: set<string>): System {
    System(Spool(false, [], "", [], None), {}, {}, Ledger({}, map[], owned), {}, [], [], false)
  }

  /**
   Report IDs are random: never blank, never padded, never seen before. Every write may
   fail; the agent does not crash while a queue or attach write is outstanding.
   */
  predicate Enabled(s: System, e: Event) {
    match e
    case QueueDeltas(_, _) => true
    case SendReport(freshID, _) => freshID != "" && Trimmed(freshID) && freshID !in s.issued
    case DeliverReport(report) => report in s.reports
    case DeliverAck(reportID, _) => reportID in s.acks
    case AssignRules(_) => true
    case CrashAndRestart => !s.dirty
  }

  /** The deltas of a report whose rules the recorder will not credit. */
  function Unowned(ledger: Ledger, deltas: seq<Delta>): seq<Delta> {
    if deltas == [] then []
    else
      var d := deltas[|deltas| - 1];
      Unowned(ledger, deltas[..|deltas| - 1]) + (if TrimSpace(d.ruleID) in ledger.owned then [] else [d])
  }

  /** The pending block is about to become a report. */
  predicate Promotes(spool: Spool) {
    Load(spool).inFlightID == "" && Load(spool).pending != []
  }

  predicate Clears(spool: Spool, reportID: string) {
    TrimSpace(reportID) != "" && TrimSpace(reportID) == Load(spool).inFlightID
  }

  function Next(s: System, e: Event): System {
    match e
    case QueueDeltas(deltas, written) =>
      s.(spool := Queue(s.spool, deltas, written), queued := s.queued + deltas,
         dirty := if Merge(Clean(deltas)) == [] then s.dirty else !written)
    case SendReport(freshID, written) =>
      var spool := Attach(s.spool, freshID, written);
      s.(spool := spool,
         issued := s.issued + {freshID},
         dirty := if Promotes(s.spool) then !written else s.dirty,
         reports := s.reports + (match Attached(spool) case None => {} case Some(report) => {report}))
    case DeliverReport(report) =>
      // The handler ignores a blank report and acknowledges every other one it could record.
      if report.id == "" || report.deltas == [] then s
      else s.(ledger := RecordReport(s.ledger, report.id, report.deltas),
              acks := s.acks + {report.id},
              skipped := s.skipped + (if Recordable(s.ledger, report.id, report.deltas)
                                      then Unowned(s.ledger, report.deltas) else []))
    case DeliverAck(reportID, written) =>
      s.(spool := Acknowledge(s.spool, reportID, written),
         dirty := s.dirty && !(written && Clears(s.spool, reportID)))
    case AssignRules(ruleIDs) =>
      s.(ledger := s.ledger.(owned := Assign(s.ledger.owned, ruleIDs)))
    case CrashAndRestart =>
      s.(spool := Restart(s.spool))
  }

  predicate Runnable(s: System, events: seq<Event>)
    decreases |events|
  {
    events == [] || (Enabled(s, events[0]) && Runnable(Next(s, events[0]), events[1..]))
  }

  function Run(s: System, events: seq<Event>): System
    decreases |events|
  {
    if events == [] then s else Run(Next(s, events[0]), events[1..])
  }

  // ---------- the invariant ----------

  /** Traffic the agent still holds and the recorder has not yet counted. */
  function Outstanding(s: System, rule: string): Volume {
    var spool := Load(s.spool);
    var pending := Worth(spool.pending, rule);
    if spool.inFlightID != "" && spool.inFlightID !in s.ledger.recorded
    then pending.Plus(Worth(spool.inFlight, rule))
    else pending
  }

  ghost predicate SpoolSound(spool: Spool) {
    var live := Load(spool);
    && Canonical(live.pending) && Canonical(live.inFlight)
    && Trimmed(live.inFlightID)
    && (live.inFlightID == "" <==> live.inFlight == [])
    && (!spool.loaded ==> spool.pending == [] && spool.inFlightID == "" && spool.inFlight == [])
  }

  /**
   What a crash brings back: the same spool, or one that still has the last acknowledged
   report in flight because its removal was not written.
   */
  ghost predicate Recoverable(s: System) {
    var live, again := Load(s.spool), Load(Restart(s.spool));
    again == live ||
    (&& live.inFlightID == "" && again.inFlightID in s.ledger.recorded && Canonical(again.inFlight)
     && again == live.(inFlightID := again.inFlightID, inFlight := again.inFlight))
  }

  ghost predicate NetworkSound(s: System) {
    var live := Load(s.spool);
    && s.acks <= s.ledger.recorded <= s.issued
    && (forall id :: id in s.issued ==> id != "" && Trimmed(id))
    && (live.inFlightID == "" || live.inFlightID in s.issued)
    && (forall report :: report in s.reports ==>
          && report.id != "" && Trimmed(report.id) && report.deltas != [] && report.id in s.issued
          && (report.id in s.ledger.recorded || (report.id == live.inFlightID && report.deltas == live.inFlight)))
  }

  ghost predicate Balanced(s: System) {
    forall rule :: rule != "" ==>
      s.ledger.Counter(rule).Plus(Worth(s.skipped, rule)).Plus(Outstanding(s, rule)) == Worth(s.queued, rule)
  }

  ghost predicate Inv(s: System) {
    SpoolSound(s.spool) && NetworkSound(s) && Balanced(s) && (!s.dirty ==> Recoverable(s))
  }

  /** Reloading what was just written gives the same spool back. */
  lemma PersistReload(spool: Spool)
    requires spool.loaded && Canonical(spool.pending) && Canonical(spool.inFlight)
    requires Trimmed(spool.inFlightID) && (spool.inFlightID == "" <==> spool.inFlight == [])
    ensures SpoolSound(Persist(spool, true))
    ensures Load(Restart(Persist(spool, true))) == Persist(spool, true)
  {
    MergeIdempotent(spool.pending);
    MergeIdempotent(spool.inFlight);
  }

  /** A crash after a successful write costs nothing: the new process reloads the same spool. */
  lemma RestartLossless(spool: Spool)
    requires SpoolSound(spool) && Load(spool) == Persist(Load(spool), true)
    ensures Load(Restart(spool)) == Load(spool)
    ensures SpoolSound(Restart(spool))
  {
    if spool.loaded {
      PersistReload(spool);
    }
  }

  lemma WorthMerge(deltas: seq<Delta>, rule: string)
    requires rule != ""
    ensures Worth(Merge(Clean(deltas)), rule) == Worth(deltas, rule)
  {
    MergeCleanCanonical(deltas);
    CanonicalClean(Merge(Clean(deltas)));
    MergeConserves(Clean(deltas), rule);
  }

  lemma {:induction false} UnownedWorth(ledger: Ledger, deltas: seq<Delta>, rule: string)
    ensures Worth(Unowned(ledger, deltas), rule) == if rule in ledger.owned then NOTHING else Worth(deltas, rule)
  {
    hide TrimSpace, Worth;
    WorthEmpty(rule);
    if deltas != [] {
      var front, d := deltas[..|deltas| - 1], deltas[|deltas| - 1];
      var tail := if TrimSpace(d.ruleID) in ledger.owned then [] else [d];
      UnownedWorth(ledger, front, rule);
      WorthConcat(Unowned(ledger, front), tail, rule);
      assert Worth(deltas, rule) == Worth(front, rule).Plus(Worth([d], rule)) by {
        assert deltas == front + [d];
        WorthConcat(front, [d], rule);
      }
      WorthSingle(d, rule);
    }
  }

  lemma WorthEmpty(rule: string)
    ensures Worth([], rule) == NOTHING
  {
    assert Clean([]) == [];
  }

  lemma WorthSingle(d: Delta, rule: string)
    ensures Worth([d], rule) == if TrimSpace(d.ruleID) == rule then d.volume.Clamp() else NOTHING
  {
    var cleaned := Clean([d]);
    assert cleaned == [Normalize(d)];
    assert cleaned[..0] == [];
    assert Total(cleaned, rule) == if TrimSpace(d.ruleID) == rule then NOTHING.Plus(d.volume.Clamp()) else NOTHING;
  }

  // ---------- every step keeps the invariant ----------

  lemma QueueKeepsInv(s: System, deltas: seq<Delta>, written: bool)
    requires Inv(s)
    ensures Inv(Next(s, QueueDeltas(deltas, written)))
  {
    hide TrimSpace, Merge, Clean, Worth;
    forall rule ensures Worth([], rule) == NOTHING { WorthEmpty(rule); }
    var s' := Next(s, QueueDeltas(deltas, written));
    var live, normalized := Load(s.spool), Merge(Clean(deltas));
    forall rule | rule != ""
      ensures Worth(s'.queued, rule) == Worth(s.queued, rule).Plus(Worth(normalized, rule))
    {
      WorthConcat(s.queued, deltas, rule);
      WorthMerge(deltas, rule);
    }
    if normalized != [] {
      var waiting := live.(pending := Merge(Clean(live.pending + normalized)));
      MergeCleanCanonical(live.pending + normalized);
      PersistReload(waiting);
      forall rule | rule != ""
        ensures Worth(waiting.pending, rule) == Worth(live.pending, rule).Plus(Worth(normalized, rule))
      {
        WorthMerge(live.pending + normalized, rule);
        WorthConcat(live.pending, normalized, rule);
      }
    }
  }

  lemma SendKeepsInv(s: System, freshID: string, written: bool)
    requires Inv(s) && Enabled(s, SendReport(freshID, written))
    ensures Inv(Next(s, SendReport(freshID, written)))
  {
    hide TrimSpace, Merge, Clean, Worth;
    forall rule ensures Worth([], rule) == NOTHING { WorthEmpty(rule); }
    var live := Load(s.spool);
    if live.inFlightID == "" && live.pending != [] {
      PersistReload(live.(inFlightID := freshID, inFlight := live.pending, pending := []));
    }
  }

  lemma DeliverReportKeepsInv(s: System, report: Report)
    requires Inv(s) && report in s.reports
    ensures Inv(Next(s, DeliverReport(report)))
  {
    hide TrimSpace, Merge, Clean, Worth;
    var s' := Next(s, DeliverReport(report));
    assert s'.ledger.recorded == s.ledger.recorded + {report.id} by {
      RecordReportEffect(s.ledger, report.id, report.deltas, "any");
    }
    forall rule | rule != ""
      ensures s'.ledger.Counter(rule).Plus(Worth(s'.skipped, rule)).Plus(Outstanding(s', rule)) == Worth(s'.queued, rule)
    {
      RecordReportEffect(s.ledger, report.id, report.deltas, rule);
      UnownedWorth(s.ledger, report.deltas, rule);
      WorthConcat(s.skipped, Unowned(s.ledger, report.deltas), rule);
      assert s.skipped + [] == s.skipped;
    }
  }

  /** Also when the removal is not written: the recorder knows the ID. */
  lemma DeliverAckKeepsInv(s: System, reportID: string, written: bool)
    requires Inv(s) && reportID in s.acks
    ensures Inv(Next(s, DeliverAck(reportID, written)))
  {
    hide Merge, Clean, Worth, TrimSpace, Canonical, Trimmed;
    var live := Load(s.spool);
    var cleared := live.(inFlightID := "", inFlight := []);
    assert TrimSpace(reportID) == reportID;
    EmptyIsCanonical();
    if reportID == live.inFlightID {
      if written {
        PersistReload(cleared);
      } else {
        assert Next(s, DeliverAck(reportID, written)).spool == cleared;
      }
    }
  }

  lemma EmptyIsCanonical()
    ensures Canonical([]) && Trimmed("")
  {
  }

  lemma CrashKeepsInv(s: System)
    requires Inv(s) && !s.dirty
    ensures Inv(Next(s, CrashAndRestart))
  {
    hide Merge, Clean, Worth, TrimSpace;
  }

  lemma AssignKeepsInv(s: System, ruleIDs: seq<string>)
    requires Inv(s)
    ensures Inv(Next(s, AssignRules(ruleIDs)))
  {
    hide Assign, Worth, Load, Restart, Canonical, Trimmed;
  }

  lemma StepKeepsInv(s: System, e: Event)
    requires Inv(s) && Enabled(s, e)
    ensures Inv(Next(s, e))
  {
    hide Inv, Next;
    match e
    case QueueDeltas(deltas, written) => QueueKeepsInv(s, deltas, written);
    case SendReport(freshID, written) => SendKeepsInv(s, freshID, written);
    case DeliverReport(report) => DeliverReportKeepsInv(s, report);
    case DeliverAck(reportID, written) => DeliverAckKeepsInv(s, reportID, written);
    case AssignRules(ruleIDs) => AssignKeepsInv(s, ruleIDs);
    case CrashAndRestart => CrashKeepsInv(s);
  }

  // ---------- what a crash costs after each failed write ----------

  function Counted(s: System, rule: string): Volume {
    s.ledger.Counter(rule).Plus(Worth(s.skipped, rule)).Plus(Outstanding(s, rule))
  }

  lemma CrashKeepsPending(s: System)
    requires Inv(s) && !s.dirty
    ensures Load(Restart(s.spool)).pending == Load(s.spool).pending
    ensures Load(s.spool).inFlightID == "" ==>
              Load(Restart(s.spool)).inFlightID == "" || Load(Restart(s.spool)).inFlightID in s.ledger.recorded
    ensures forall rule :: Outstanding(Next(s, CrashAndRestart), rule) == Outstanding(s, rule)
  {
    hide Merge, Clean, Worth, TrimSpace;
  }

  /** The queueing write: exactly what was queued is missing for good. */
  lemma FailedQueueWriteLoses(s: System, deltas: seq<Delta>, rule: string)
    requires Inv(s) && !s.dirty && rule != ""
    ensures var after := Next(Next(s, QueueDeltas(deltas, false)), CrashAndRestart);
            Counted(after, rule).Plus(Worth(deltas, rule)) == Worth(after.queued, rule)
  {
    hide Merge, Clean, Worth, TrimSpace;
    var queued := Next(s, QueueDeltas(deltas, false));
    assert queued.spool.disk == s.spool.disk;
    assert Restart(queued.spool) == Restart(s.spool);
    CrashKeepsPending(s);
    WorthConcat(s.queued, deltas, rule);
  }

  /** The acknowledging write: nothing. The report comes back in flight under an ID the recorder knows. */
  lemma FailedAckWriteCostsNothing(s: System, reportID: string, rule: string)
    requires Inv(s) && !s.dirty && rule != "" && reportID in s.acks
    ensures var after := Next(Next(s, DeliverAck(reportID, false)), CrashAndRestart);
            Inv(after) && Counted(after, rule) == Worth(after.queued, rule)
  {
    hide Next, Inv;
    AckLeavesClean(s, reportID);
    DeliverAckKeepsInv(s, reportID, false);
    var after := Next(Next(s, DeliverAck(reportID, false)), CrashAndRestart);
    CrashKeepsInv(Next(s, DeliverAck(reportID, false)));
    CountedAll(after, rule);
  }

  lemma AckLeavesClean(s: System, reportID: string)
    requires !s.dirty
    ensures !Next(s, DeliverAck(reportID, false)).dirty
  {
    hide TrimSpace, Load, Acknowledge;
  }

  lemma CountedAll(s: System, rule: string)
    requires Inv(s) && rule != ""
    ensures Counted(s, rule) == Worth(s.queued, rule)
  {
    hide Worth, Outstanding, SpoolSound, NetworkSound, Recoverable;
  }

  /** The attaching write: a report that was delivered comes back as pending and counts twice. */
  lemma FailedAttachWriteDoubles(s: System, freshID: string, rule: string)
    requires Inv(s) && !s.dirty && rule != "" && Enabled(s, SendReport(freshID, false)) && Promotes(s.spool)
    ensures var sent := Next(s, SendReport(freshID, false));
            var report := Report(freshID, Load(s.spool).pending);
            var after := Next(Next(sent, DeliverReport(report)), CrashAndRestart);
            && report in sent.reports
            && Load(after.spool).pending == Load(s.spool).pending
            && Counted(after, rule) == Worth(after.queued, rule).Plus(Worth(report.deltas, rule))
  {
    hide Merge, Clean, Worth, TrimSpace, Recoverable;
    var sent := Next(s, SendReport(freshID, false));
    var report := Report(freshID, Load(s.spool).pending);
    assert report in sent.reports;
    SendKeepsInv(s, freshID, false);
    DeliverReportKeepsInv(sent, report);
    var delivered := Next(sent, DeliverReport(report));
    CrashKeepsPending(s);
    assert Restart(delivered.spool) == Restart(s.spool);
    RecordReportEffect(sent.ledger, report.id, report.deltas, rule);
    AttachedIsOutstanding(s, sent, delivered, freshID, rule);
  }

  lemma AttachedIsOutstanding(s: System, sent: System, delivered: System, freshID: string, rule: string)
    requires Inv(s) && !s.dirty && rule != "" && freshID != "" && Enabled(s, SendReport(freshID, false)) && Promotes(s.spool)
    requires sent == Next(s, SendReport(freshID, false))
    requires delivered == Next(sent, DeliverReport(Report(freshID, Load(s.spool).pending)))
    ensures var after := Next(delivered, CrashAndRestart);
            Outstanding(after, rule) == Outstanding(delivered, rule).Plus(Worth(Load(s.spool).pending, rule))
  {
    hide Inv, Next, Enabled, Merge, Clean, Worth, TrimSpace, RecordReport, Load, Outstanding;
    var live := Load(s.spool);
    SendUnwritten(s, freshID);
    DeliverSent(sent, freshID, live.pending);
    CrashKeepsPending(s);
    RecordedAfter(s, freshID, live.pending, rule);
    assert Restart(delivered.spool) == Restart(s.spool);
    DeliveredOwesNothing(delivered, rule);
    RestartOwesPending(s, delivered, rule);
    assert Next(delivered, CrashAndRestart) == delivered.(spool := Restart(s.spool)) by {
      CrashIsRestart(delivered);
    }
  }

  lemma SendUnwritten(s: System, freshID: string)
    requires Promotes(s.spool)
    ensures var sent := Next(s, SendReport(freshID, false));
            sent.spool == Spool(true, [], freshID, Load(s.spool).pending, s.spool.disk) && sent.ledger == s.ledger
    ensures Load(s.spool).pending != []
  {
    hide Merge, Clean, TrimSpace;
  }

  lemma DeliverSent(s: System, id: string, deltas: seq<Delta>)
    requires id != "" && deltas != []
    ensures var delivered := Next(s, DeliverReport(Report(id, deltas)));
            delivered.spool == s.spool && delivered.ledger == RecordReport(s.ledger, id, deltas)
  {
    hide RecordReport;
  }

  lemma CrashIsRestart(s: System)
    ensures Next(s, CrashAndRestart) == s.(spool := Restart(s.spool))
  {
  }

  lemma RecordedAfter(s: System, freshID: string, deltas: seq<Delta>, rule: string)
    requires Inv(s) && Enabled(s, SendReport(freshID, false)) && rule != "" && deltas != []
    ensures RecordReport(s.ledger, freshID, deltas).recorded == s.ledger.recorded + {freshID}
  {
    hide Merge, Clean, Worth, TrimSpace, RecordReport, Recoverable, Balanced, SpoolSound;
    RecordReportEffect(s.ledger, freshID, deltas, rule);
  }

  lemma DeliveredOwesNothing(s: System, rule: string)
    requires s.spool.loaded && s.spool.pending == [] && s.spool.inFlightID in s.ledger.recorded
    ensures Outstanding(s, rule) == NOTHING
  {
    hide Worth;
    WorthEmpty(rule);
  }

  lemma RestartOwesPending(s: System, delivered: System, rule: string)
    requires Load(Restart(s.spool)).pending == Load(s.spool).pending
    requires Load(Restart(s.spool)).inFlightID == "" || Load(Restart(s.spool)).inFlightID in delivered.ledger.recorded
    ensures Outstanding(delivered.(spool := Restart(s.spool)), rule) == Worth(Load(s.spool).pending, rule)
  {
    hide Worth, Load;
  }

  lemma {:induction false} RunKeepsInv(s: System, events: seq<Event>)
    requires Inv(s) && Runnable(s, events)
    ensures Inv(Run(s, events))
    decreases |events|
  {
    hide Inv, Next, Enabled;
    if events != [] {
      StepKeepsInv(s, events[0]);
      RunKeepsInv(Next(s, events[0]), events[1..]);
    }
  }

  // ---------- main results ----------

  lemma InitInv(owned: set<string>)
    ensures Inv(Init(owned))
  {
    hide TrimSpace, Worth, Clean, Merge, IsSpace;
    forall rule ensures Worth([], rule) == NOTHING { WorthEmpty(rule); }
    var s := Init(owned);
    assert Load(s.spool) == Spool(true, [], "", [], None);
    assert SpoolSound(s.spool);
    assert NetworkSound(s);
    forall rule
      ensures s.ledger.Counter(rule).Plus(Worth(s.skipped, rule)).Plus(Outstanding(s, rule)) == Worth(s.queued, rule)
    {
      assert Outstanding(s, rule) == NOTHING && s.ledger.Counter(rule) == NOTHING;
    }
  }

  /**
   After any run, for every rule: what the server counted, plus what it skipped for
   want of an assignment, plus what is pending, plus the in-flight report unless its
   ID is already recorded, is exactly what was queued.
   */
  lemma ExactlyOnce(owned: set<string>, events: seq<Event>, rule: string)
    requires Runnable(Init(owned), events) && rule != ""
    ensures var s := Run(Init(owned), events);
            s.ledger.Counter(rule).Plus(Worth(s.skipped, rule)).Plus(Outstanding(s, rule)) == Worth(s.queued, rule)
  {
    InitInv(owned);
    RunKeepsInv(Init(owned), events);
  }

  lemma DeliverySkipsNothingOwned(s: System, report: Report, rule: string)
    requires rule != "" && rule in s.ledger.owned && Worth(s.skipped, rule) == NOTHING
    ensures rule in Next(s, DeliverReport(report)).ledger.owned
    ensures Worth(Next(s, DeliverReport(report)).skipped, rule) == NOTHING
  {
    hide TrimSpace, Merge, Clean, Worth, Unowned, RecordReport;
    RecordReportEffect(s.ledger, report.id, report.deltas, rule);
    UnownedWorth(s.ledger, report.deltas, rule);
    WorthConcat(s.skipped, Unowned(s.ledger, report.deltas), rule);
    assert s.skipped + [] == s.skipped;
  }

  lemma StepSkipsNothingOwned(s: System, e: Event, rule: string)
    requires rule != "" && rule in s.ledger.owned && Worth(s.skipped, rule) == NOTHING
    ensures rule in Next(s, e).ledger.owned && Worth(Next(s, e).skipped, rule) == NOTHING
  {
    hide Worth, Queue, Attach, Acknowledge;
    match e
    case DeliverReport(report) => DeliverySkipsNothingOwned(s, report, rule);
    case AssignRules(ruleIDs) => AssignGrows(s.ledger.owned, ruleIDs);
    case _ =>
  }

  lemma {:induction false} AssignGrows(owned: set<string>, ruleIDs: seq<string>)
    ensures owned <= Assign(owned, ruleIDs)
  {
    if ruleIDs != [] {
      AssignGrows(owned, ruleIDs[..|ruleIDs| - 1]);
    }
  }

  lemma {:induction false} RunSkipsNothingOwned(s: System, events: seq<Event>, rule: string)
    requires rule != "" && rule in s.ledger.owned && Worth(s.skipped, rule) == NOTHING
    ensures Worth(Run(s, events).skipped, rule) == NOTHING
    decreases |events|
  {
    hide Worth, Next;
    if events != [] {
      StepSkipsNothingOwned(s, events[0], rule);
      RunSkipsNothingOwned(Next(s, events[0]), events[1..], rule);
    }
  }

  /** For a rule assigned to the node the skipped term is gone: delivery is exactly once. */
  lemma ExactlyOnceForAssignedRule(owned: set<string>, events: seq<Event>, rule: string)
    requires Runnable(Init(owned), events) && rule != "" && rule in owned
    ensures var s := Run(Init(owned), events);
            s.ledger.Counter(rule).Plus(Outstanding(s, rule)) == Worth(s.queued, rule)
  {
    ExactlyOnce(owned, events, rule);
    WorthEmpty(rule);
    RunSkipsNothingOwned(Init(owned), events, rule);
  }
}

/**
 What the accounting comes to, number by number: the same results as sums of plain integers
 over the updates that were made and the deltas that were queued.
 */
module TrafficTotals {
  import opened Text
  import opened Traffic
  import M = MetricsCounter
  import C = CounterConservation
  import S = TrafficSpool
  import D = TrafficDelivery
  import P = TrafficProgress

  datatype Quantity = UploadBytes | DownloadBytes | TcpConnections | UdpPackets

  function Amount(v: Volume, q: Quantity): int {
    match q
    case UploadBytes => v.upload
    case DownloadBytes => v.download
    case TcpConnections => v.tcp
    case UdpPackets => v.udp
  }

  // ---- queued deltas

  /** One number, summed over the deltas whose trimmed rule matches; negative ones count as zero. */
  function Sum(deltas: seq<Delta>, rule: string, q: Quantity): int {
    if deltas == [] then 0
    else
      var last, n := deltas[|deltas| - 1], Amount(deltas[|deltas| - 1].volume, q);
      Sum(deltas[..|deltas| - 1], rule, q) + if TrimSpace(last.ruleID) == rule && n > 0 then n else 0
  }

  lemma {:induction false} WorthIsSum(deltas: seq<Delta>, rule: string, q: Quantity)
    ensures Amount(Worth(deltas, rule), q) == Sum(deltas, rule, q)
  {
    hide Worth, TrimSpace;
    if deltas == [] {
      D.WorthEmpty(rule);
    } else {
      var front, last := deltas[..|deltas| - 1], deltas[|deltas| - 1];
      assert deltas == front + [last];
      WorthConcat(front, [last], rule);
      D.WorthSingle(last, rule);
      WorthIsSum(front, rule, q);
    }
  }

  /** Merging, in the forwarder, the spool or the recorder, keeps every sum. */
  lemma MergeKeepsSums(deltas: seq<Delta>, rule: string, q: Quantity)
    requires rule != ""
    ensures Sum(Merge(Clean(deltas)), rule, q) == Sum(deltas, rule, q)
  {
    hide Merge, Clean, Worth, Sum;
    D.WorthMerge(deltas, rule);
    WorthIsSum(deltas, rule, q);
    WorthIsSum(Merge(Clean(deltas)), rule, q);
  }

  function Queued(events: seq<D.Event>): seq<Delta> {
    if events == [] then []
    else (if events[0].QueueDeltas? then events[0].deltas else []) + Queued(events[1..])
  }

  lemma {:induction false} QueuedIs(s: D.System, events: seq<D.Event>)
    requires D.Runnable(s, events)
    ensures D.Run(s, events).queued == s.queued + Queued(events)
    decreases |events|
  {
    hide D.Next, D.Enabled;
    if events != [] {
      QueuedIs(D.Next(s, events[0]), events[1..]);
      QueuesOne(s, events[0]);
      var first := if events[0].QueueDeltas? then events[0].deltas else [];
      assert s.queued + first + Queued(events[1..]) == s.queued + (first + Queued(events[1..]));
    }
  }

  lemma QueuesOne(s: D.System, e: D.Event)
    ensures D.Next(s, e).queued == s.queued + if e.QueueDeltas? then e.deltas else []
  {
    hide S.Queue, S.Attach, S.Acknowledge, S.Restart, Merge, Clean;
  }

  /** After every run the server can still get to count, number by number, what was queued for an assigned rule. */
  lemma EveryByteArrives(owned: set<string>, events: seq<D.Event>, rule: string, first: string, second: string) returns (more: seq<D.Event>)
    requires var s := D.Run(D.Init(owned), events);
             && D.Runnable(D.Init(owned), events) && !s.dirty && rule != "" && rule in owned && first != second
             && D.Enabled(s, D.SendReport(first, true)) && D.Enabled(s, D.SendReport(second, true))
    ensures D.Runnable(D.Init(owned), events + more) && P.Handover(more) && |more| <= 6
    ensures var t := D.Run(D.Init(owned), events + more);
            forall q :: Amount(t.ledger.Counter(rule), q) == Sum(Queued(events), rule, q)
  {
    hide D.Run, D.Runnable, D.Enabled, D.Init, P.Handover, Sum, Queued, Worth;
    more := P.EverythingArrives(owned, events, rule, first, second);
    QueuedIs(D.Init(owned), events);
    StartsEmpty(owned);
    var queued := D.Run(D.Init(owned), events).queued;
    assert queued == Queued(events);
    forall q ensures Amount(Worth(queued, rule), q) == Sum(queued, rule, q) { WorthIsSum(queued, rule, q); }
  }

  lemma StartsEmpty(owned: set<string>)
    ensures D.Init(owned).queued == []
  {
  }

  // ---- counters

  /** What an update carries. */
  function Carries(change: M.Change, q: Quantity): int {
    match (change, q)
    case (Carry(Upload, amount), UploadBytes) => amount
    case (Carry(Download, amount), DownloadBytes) => amount
    case (Carry(Packets, amount), UdpPackets) => amount
    case (CountTCP(step), TcpConnections) => if step > 0 then step else 0
    case (PromoteTCP, TcpConnections) => 1
    case _ => 0
  }

  /** Traffic counts on a target that has a counter or may get one; a promised connection always counts. */
  predicate Taken(s: M.State, k: M.Key, change: M.Change) {
    change.PromoteTCP? || k in s.targets || !s.activeApplied || k in s.activeTargets
  }

  /** One number, summed over the updates of a run that were taken. */
  function Moved(b: C.Books, events: seq<C.Event>, rule: string, q: Quantity): int
    decreases |events|
  {
    if events == [] then 0
    else
      var e := events[0];
      (if e.Touch? && e.key.ruleID == rule && Taken(b.state, e.key, e.change) then Carries(e.change, q) else 0)
      + Moved(C.Next(b, e), events[1..], rule, q)
  }

  /** What an event adds to the history of accepted updates. */
  function Adds(s: M.State, e: C.Event): seq<Delta> {
    if e.Touch? then C.Accepted(s, e.key, e.change) else []
  }

  lemma NextAdds(b: C.Books, e: C.Event)
    ensures C.Next(b, e).accepted == b.accepted + Adds(b.state, e)
  {
    hide C.Accepted, M.Apply, M.Prune, M.AfterPayload, M.PayloadDeltas, M.SetActive;
  }

  lemma GainedIsCarried(s: M.State, k: M.Key, change: M.Change, q: Quantity)
    ensures (if M.Accepts(s, k, change) then Amount(C.Gained(change), q) else 0) == if Taken(s, k, change) then Carries(change, q) else 0
  {
  }

  lemma AcceptsTaken(b: C.Books, e: C.Event, rule: string, q: Quantity)
    ensures Amount(Total(C.Next(b, e).accepted, rule), q) ==
              Amount(Total(b.accepted, rule), q)
              + if e.Touch? && e.key.ruleID == rule && Taken(b.state, e.key, e.change) then Carries(e.change, q) else 0
  {
    hide C.Next, Total, M.Accepts, C.Gained, C.Accepted, Taken, Carries;
    NextAdds(b, e);
    TotalConcat(b.accepted, Adds(b.state, e), rule);
    if e.Touch? {
      C.TotalAccepted(b.state, e.key, e.change, rule);
      GainedIsCarried(b.state, e.key, e.change, q);
    } else {
      TotalNothing(rule);
    }
  }

  lemma TotalNothing(rule: string)
    ensures Total([], rule) == NOTHING
  {
  }

  lemma {:induction false} AcceptedIsMoved(b: C.Books, events: seq<C.Event>, rule: string, q: Quantity)
    ensures Amount(Total(C.Run(b, events).accepted, rule), q) == Amount(Total(b.accepted, rule), q) + Moved(b, events, rule, q)
    decreases |events|
  {
    hide C.Next, Total, Taken, Carries;
    if events != [] {
      AcceptsTaken(b, events[0], rule, q);
      AcceptedIsMoved(C.Next(b, events[0]), events[1..], rule, q);
    }
  }

  /** A report leaves nothing held back. */
  lemma ReportClears(b: C.Books, now: nat, order: seq<M.Key>, keys: seq<M.Key>, rule: string)
    requires C.Balances(b, rule) && rule != "" && C.Enabled(b.state, C.Report(now, order, keys))
    ensures C.Held(C.Next(b, C.Report(now, order, keys)).state, rule) == NOTHING
  {
    hide M.Prune, M.AfterPayload, M.PayloadDeltas, C.Held, C.Metered;
    C.PruneKeepsHeld(b.state, order, rule);
    M.PruneKeepsOthers(b.state, order);
    C.PruneLeavesNoneDoomed(b.state, order);
    C.BaselineReached(M.Prune(b.state, order), now, rule);
  }

  /**
   Over every run, a report brings what was handed to the spool to exactly what the updates
   carried, number by number, whatever was configured, pruned or reactivated meanwhile.
   */
  lemma ReportedIsMoved(startedAt: nat, events: seq<C.Event>, now: nat, order: seq<M.Key>, keys: seq<M.Key>, rule: string, q: Quantity)
    requires startedAt > 0 && rule != "" && C.Runnable(C.Start(startedAt), events)
    requires C.Enabled(C.Run(C.Start(startedAt), events).state, C.Report(now, order, keys))
    ensures var b := C.Run(C.Start(startedAt), events);
            Amount(Total(C.Next(b, C.Report(now, order, keys)).reported, rule), q) == Moved(C.Start(startedAt), events, rule, q)
  {
    hide C.Run, C.Runnable, C.Enabled, C.Start, Total, Moved, C.Held;
    var b := C.Run(C.Start(startedAt), events);
    C.EveryRunBalances(startedAt, events, rule);
    C.ReportBalances(b, now, order, keys, rule);
    ReportClears(b, now, order, keys, rule);
    AcceptedIsMoved(C.Start(startedAt), events, rule, q);
    NothingAccepted(startedAt, rule);
    ReportAccepts(b, now, order, keys);
    hide C.Next, C.Metered;
  }

  lemma ReportAccepts(b: C.Books, now: nat, order: seq<M.Key>, keys: seq<M.Key>)
    ensures C.Next(b, C.Report(now, order, keys)).accepted == b.accepted
  {
  }

  lemma NothingAccepted(startedAt: nat, rule: string)
    ensures Total(C.Start(startedAt).accepted, rule) == NOTHING
  {
  }

  /** After a configuration, traffic is taken for exactly the targets it names and those still in use. */
  lemma ConfigTakesExactly(s: M.State, active: set<M.Key>, order: seq<M.Key>, k: M.Key, meter: M.Meters, amount: int)
    requires M.Listing(order, s.targets.Keys)
    ensures var after := M.SetActive(s, active, order);
            M.Accepts(after, k, M.Carry(meter, amount)) <==> k in active || (k in s.targets && M.InUse(s.targets[k]) > 0)
  {
    M.ConfigKeepsExactly(s, active, order, k);
    var configured := s.(activeTargets := active, activeApplied := true);
    M.PruneKeepsOthers(configured, order);
    hide M.Prune, M.InUse;
  }
}

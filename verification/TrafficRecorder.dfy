/**
 The control plane's report recorder: a report ID is recorded at most once per
 agent, and only rules assigned to the node earn traffic.
 */
module TrafficRecorder {
  import opened Text
  import opened Traffic

  /** The rows of one node: report IDs seen, all-time counters and rule assignments (owned). */
  datatype Ledger = Ledger(recorded: set<string>, counters: map<string, Volume>, owned: set<string>) {
    function Counter(rule: string): Volume {
      if rule in counters then counters[rule] else NOTHING
    }
  }

  /** Upserts the deltas of assigned rules; the others are skipped. */
  function Credit(ledger: Ledger, deltas: seq<Delta>): Ledger {
    if deltas == [] then ledger
    else CreditOne(Credit(ledger, deltas[..|deltas| - 1]), deltas[|deltas| - 1])
  }

  function CreditOne(ledger: Ledger, d: Delta): Ledger {
    if d.ruleID in ledger.owned
    then ledger.(counters := ledger.counters[d.ruleID := ledger.Counter(d.ruleID).Plus(d.volume)])
    else ledger
  }

  predicate Recordable(ledger: Ledger, reportID: string, deltas: seq<Delta>) {
    TrimSpace(reportID) != "" && deltas != [] && TrimSpace(reportID) !in ledger.recorded
  }

  function RecordReport(ledger: Ledger, reportID: string, deltas: seq<Delta>): Ledger {
    if !Recordable(ledger, reportID, deltas) then ledger
    else Credit(ledger.(recorded := ledger.recorded + {TrimSpace(reportID)}), Merge(Clean(deltas)))
  }

  lemma CreditOneTotal(ledger: Ledger, d: Delta, rule: string)
    ensures CreditOne(ledger, d).recorded == ledger.recorded
    ensures CreditOne(ledger, d).owned == ledger.owned
    ensures CreditOne(ledger, d).Counter(rule) ==
            if d.ruleID == rule && rule in ledger.owned then ledger.Counter(rule).Plus(d.volume) else ledger.Counter(rule)
  {}

  lemma {:induction false} CreditTotal(ledger: Ledger, deltas: seq<Delta>, rule: string)
    ensures Credit(ledger, deltas).recorded == ledger.recorded
    ensures Credit(ledger, deltas).owned == ledger.owned
    ensures Credit(ledger, deltas).Counter(rule) ==
            if rule in ledger.owned then ledger.Counter(rule).Plus(Total(deltas, rule)) else ledger.Counter(rule)
  {
    if deltas != [] {
      var front, d := deltas[..|deltas| - 1], deltas[|deltas| - 1];
      CreditTotal(ledger, front, rule);
      CreditOneTotal(Credit(ledger, front), d, rule);
      assert Credit(ledger, deltas) == CreditOne(Credit(ledger, front), d);
    }
  }

  lemma CreditStep(ledger: Ledger, deltas: seq<Delta>, i: nat)
    requires i < |deltas|
    ensures Credit(ledger, deltas[..i + 1]) == CreditOne(Credit(ledger, deltas[..i]), deltas[i])
  {
    assert deltas[..i + 1][..i] == deltas[..i];
  }

  /**
   A first delivery adds exactly the report's worth to every assigned rule and
   nothing to the others; a repeat adds nothing at all.
   */
  lemma RecordReportEffect(ledger: Ledger, reportID: string, deltas: seq<Delta>, rule: string)
    requires rule != ""
    ensures RecordReport(ledger, reportID, deltas).owned == ledger.owned
    ensures RecordReport(ledger, reportID, deltas).recorded ==
            ledger.recorded + (if Recordable(ledger, reportID, deltas) then {TrimSpace(reportID)} else {})
    ensures RecordReport(ledger, reportID, deltas).Counter(rule) ==
            if Recordable(ledger, reportID, deltas) && rule in ledger.owned
            then ledger.Counter(rule).Plus(Worth(deltas, rule)) else ledger.Counter(rule)
  {
    if Recordable(ledger, reportID, deltas) {
      CreditTotal(ledger.(recorded := ledger.recorded + {TrimSpace(reportID)}), Merge(Clean(deltas)), rule);
      MergeConserves(Clean(deltas), rule);
    }
  }

  function Assign(owned: set<string>, ruleIDs: seq<string>): set<string> {
    if ruleIDs == [] then owned
    else
      var ruleID := TrimSpace(ruleIDs[|ruleIDs| - 1]);
      Assign(owned, ruleIDs[..|ruleIDs| - 1]) + (if ruleID == "" then {} else {ruleID})
  }

  lemma AssignStep(owned: set<string>, ruleIDs: seq<string>, i: nat)
    requires i < |ruleIDs|
    ensures Assign(owned, ruleIDs[..i + 1]) ==
            Assign(owned, ruleIDs[..i]) + (if TrimSpace(ruleIDs[i]) == "" then {} else {TrimSpace(ruleIDs[i])})
  {
    assert ruleIDs[..i + 1][..i] == ruleIDs[..i];
  }

  class RuleTrafficStore {
    var ledger: Ledger

    constructor (owned: set<string>)
      ensures ledger == Ledger({}, map[], owned)
    {
      ledger := Ledger({}, map[], owned);
    }

    /** Rule IDs of a compiled snapshot become assignments of the node; blanks are ignored. */
    method RecordNodeRuleTrafficAssignments(ruleIDs: seq<string>)
      modifies this
      ensures ledger == old(ledger).(owned := Assign(old(ledger).owned, ruleIDs))
    {
      ghost var before := ledger;
      for i := 0 to |ruleIDs|
        invariant ledger == before.(owned := Assign(before.owned, ruleIDs[..i]))
      {
        AssignStep(before.owned, ruleIDs, i);
        var ruleID := TrimSpace(ruleIDs[i]);
        if ruleID != "" {
          ledger := ledger.(owned := ledger.owned + {ruleID});
        }
      }
      assert ruleIDs[..|ruleIDs|] == ruleIDs;
    }

    method RecordRuleTrafficReport(reportID: string, deltas: seq<Delta>) returns (recorded: bool)
      modifies this
      ensures ledger == RecordReport(old(ledger), reportID, deltas)
      ensures recorded == Recordable(old(ledger), reportID, deltas)
    {
      var id := TrimSpace(reportID);
      if id == "" || deltas == [] { return false; }
      if id in ledger.recorded { return false; }
      ledger := ledger.(recorded := ledger.recorded + {id});
      var merged := MergeDeltas(deltas, true);
      ghost var inserted := ledger;
      for i := 0 to |merged|
        invariant ledger == Credit(inserted, merged[..i])
      {
        CreditStep(inserted, merged, i);
        var d := merged[i];
        if d.ruleID in ledger.owned {
          ledger := ledger.(counters := ledger.counters[d.ruleID := ledger.Counter(d.ruleID).Plus(d.volume)]);
        }
      }
      assert merged[..|merged|] == merged;
      return true;
    }
  }

  /** Assigned are the rules that were, and the listed ones once trimmed, blanks aside. */
  lemma {:induction false} AssignExactly(owned: set<string>, ruleIDs: seq<string>, rule: string)
    ensures rule in Assign(owned, ruleIDs) <==> rule in owned || (rule != "" && exists i :: 0 <= i < |ruleIDs| && TrimSpace(ruleIDs[i]) == rule)
  {
    hide TrimSpace;
    if ruleIDs != [] {
      var front := ruleIDs[..|ruleIDs| - 1];
      AssignExactly(owned, front, rule);
      AssignStep(owned, ruleIDs, |ruleIDs| - 1);
      assert ruleIDs[..|ruleIDs| - 1 + 1] == ruleIDs;
      if i :| 0 <= i < |front| && TrimSpace(front[i]) == rule {
        assert TrimSpace(ruleIDs[i]) == rule;
      }
      if i :| 0 <= i < |ruleIDs| && TrimSpace(ruleIDs[i]) == rule {
        assert i < |front| ==> TrimSpace(front[i]) == rule;
      }
    }
  }
}

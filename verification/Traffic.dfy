/**
 Traffic deltas and the merge that every stage of the accounting pipeline applies
 to them: the forwarder before it hands a payload to the agent, the agent's spool,
 and the control plane's report recorder.
 */
module Traffic {
  import opened Text

  datatype Volume = Volume(upload: int, download: int, tcp: int, udp: int) {
    function Plus(other: Volume): Volume {
      Volume(upload + other.upload, download + other.download, tcp + other.tcp, udp + other.udp)
    }

    function Minus(other: Volume): Volume {
      Volume(upload - other.upload, download - other.download, tcp - other.tcp, udp - other.udp)
    }

    predicate IsZero() {
      upload == 0 && download == 0 && tcp == 0 && udp == 0
    }

    predicate NonNegative() {
      upload >= 0 && download >= 0 && tcp >= 0 && udp >= 0
    }

    /** Negative components count as zero. */
    function Clamp(): Volume {
      Volume(Max0(upload), Max0(download), Max0(tcp), Max0(udp))
    }
  }

  const NOTHING := Volume(0, 0, 0, 0)

  datatype Delta = Delta(ruleID: string, volume: Volume)

  function Max0(x: int): int {
    if x < 0 then 0 else x
  }

  // ---------- what a list of deltas is worth ----------

  /** The volume a list carries for one rule. */
  function Total(deltas: seq<Delta>, rule: string): Volume {
    if deltas == [] then NOTHING
    else
      var last := deltas[|deltas| - 1];
      var before := Total(deltas[..|deltas| - 1], rule);
      if last.ruleID == rule then before.Plus(last.volume) else before
  }

  lemma {:induction false} TotalConcat(left: seq<Delta>, right: seq<Delta>, rule: string)
    ensures Total(left + right, rule) == Total(left, rule).Plus(Total(right, rule))
  {
    if right == [] {
      assert left + right == left;
    } else {
      var front := right[..|right| - 1];
      assert (left + right)[..|left + right| - 1] == left + front;
      TotalConcat(left, front, rule);
    }
  }

  // ---------- normalisation of one delta ----------

  function Normalize(d: Delta): Delta {
    Delta(TrimSpace(d.ruleID), d.volume.Clamp())
  }

  function Clean(deltas: seq<Delta>): (r: seq<Delta>)
    ensures |r| == |deltas|
    ensures forall i :: 0 <= i < |deltas| ==> r[i] == Normalize(deltas[i])
  {
    seq(|deltas|, i requires 0 <= i < |deltas| => Normalize(deltas[i]))
  }

  lemma CleanConcat(left: seq<Delta>, right: seq<Delta>)
    ensures Clean(left + right) == Clean(left) + Clean(right)
  {}

  /** The volume queued for a rule, counted the way the agent and the server count it. */
  function Worth(deltas: seq<Delta>, rule: string): Volume {
    Total(Clean(deltas), rule)
  }

  lemma WorthConcat(left: seq<Delta>, right: seq<Delta>, rule: string)
    ensures Worth(left + right, rule) == Worth(left, rule).Plus(Worth(right, rule))
  {
    CleanConcat(left, right);
    TotalConcat(Clean(left), Clean(right), rule);
  }

  // ---------- merging ----------

  function IndexOf(deltas: seq<Delta>, rule: string): (i: nat)
    ensures i <= |deltas|
    ensures i < |deltas| ==> deltas[i].ruleID == rule
    ensures forall j :: 0 <= j < i ==> deltas[j].ruleID != rule
  {
    if deltas == [] then 0
    else if deltas[0].ruleID == rule then 0
    else 1 + IndexOf(deltas[1..], rule)
  }

  /** Adds one delta to a tally that holds one entry per rule, in order of first sight. */
  function Bump(tally: seq<Delta>, d: Delta): seq<Delta> {
    if d.ruleID == "" then tally
    else
      var i := IndexOf(tally, d.ruleID);
      if i < |tally| then tally[i := Delta(d.ruleID, tally[i].volume.Plus(d.volume))]
      else tally + [d]
  }

  function Tally(deltas: seq<Delta>): seq<Delta> {
    if deltas == [] then []
    else Bump(Tally(deltas[..|deltas| - 1]), deltas[|deltas| - 1])
  }

  function DropZero(deltas: seq<Delta>): seq<Delta> {
    if deltas == [] then []
    else
      var front := DropZero(deltas[..|deltas| - 1]);
      if deltas[|deltas| - 1].volume.IsZero() then front else front + [deltas[|deltas| - 1]]
  }

  function Merge(deltas: seq<Delta>): seq<Delta> {
    DropZero(Tally(deltas))
  }

  predicate DistinctRules(deltas: seq<Delta>) {
    forall i, j :: 0 <= i < j < |deltas| ==> deltas[i].ruleID != deltas[j].ruleID
  }

  /** One non-zero, non-negative entry per trimmed non-empty rule ID. */
  predicate Canonical(deltas: seq<Delta>) {
    && DistinctRules(deltas)
    && forall i :: 0 <= i < |deltas| ==>
         && deltas[i].ruleID != "" && Trimmed(deltas[i].ruleID)
         && deltas[i].volume.NonNegative() && !deltas[i].volume.IsZero()
  }

  lemma {:induction false} BumpTotal(tally: seq<Delta>, d: Delta, rule: string)
    requires rule != "" && DistinctRules(tally)
    ensures DistinctRules(Bump(tally, d))
    ensures Total(Bump(tally, d), rule) == Total(tally + [d], rule)
  {
    var i := IndexOf(tally, d.ruleID);
    if d.ruleID == "" {
      assert (tally + [d])[..|tally|] == tally;
    } else if i < |tally| {
      var bumped := Delta(d.ruleID, tally[i].volume.Plus(d.volume));
      var updated := tally[i := bumped];
      assert tally == tally[..i] + [tally[i]] + tally[i + 1..];
      assert updated == tally[..i] + [bumped] + tally[i + 1..];
      TotalConcat(tally[..i] + [tally[i]], tally[i + 1..], rule);
      TotalConcat(tally[..i] + [bumped], tally[i + 1..], rule);
      TotalConcat(tally[..i], [tally[i]], rule);
      TotalConcat(tally[..i], [bumped], rule);
      TotalConcat(tally, [d], rule);
    }
  }

  lemma {:induction false} TallyTotal(deltas: seq<Delta>, rule: string)
    requires rule != ""
    ensures DistinctRules(Tally(deltas))
    ensures Total(Tally(deltas), rule) == Total(deltas, rule)
  {
    if deltas != [] {
      var front := deltas[..|deltas| - 1];
      TallyTotal(front, rule);
      BumpTotal(Tally(front), deltas[|deltas| - 1], rule);
      TotalConcat(Tally(front), [deltas[|deltas| - 1]], rule);
    }
  }

  lemma {:induction false} DropZeroTotal(deltas: seq<Delta>, rule: string)
    ensures Total(DropZero(deltas), rule) == Total(deltas, rule)
  {
    if deltas != [] {
      var front := deltas[..|deltas| - 1];
      DropZeroTotal(front, rule);
      TotalConcat(DropZero(front), [deltas[|deltas| - 1]], rule);
    }
  }

  /** Merging neither creates nor loses traffic of any named rule. */
  lemma MergeConserves(deltas: seq<Delta>, rule: string)
    requires rule != ""
    ensures Total(Merge(deltas), rule) == Total(deltas, rule)
  {
    TallyTotal(deltas, rule);
    DropZeroTotal(Tally(deltas), rule);
  }

  lemma {:induction false} TallyShape(deltas: seq<Delta>)
    requires forall i :: 0 <= i < |deltas| ==> Trimmed(deltas[i].ruleID) && deltas[i].volume.NonNegative()
    ensures DistinctRules(Tally(deltas))
    ensures forall i :: 0 <= i < |Tally(deltas)| ==>
              var d := Tally(deltas)[i];
              d.ruleID != "" && Trimmed(d.ruleID) && d.volume.NonNegative()
  {
    if deltas != [] {
      TallyShape(deltas[..|deltas| - 1]);
    }
  }

  lemma {:induction false} DropZeroShape(deltas: seq<Delta>)
    requires DistinctRules(deltas)
    ensures forall d :: d in DropZero(deltas) <==> d in deltas && !d.volume.IsZero()
    ensures DistinctRules(DropZero(deltas))
  {
    if deltas != [] {
      var front, last := deltas[..|deltas| - 1], deltas[|deltas| - 1];
      DropZeroShape(front);
      assert deltas == front + [last];
      assert forall d :: d in front ==> d.ruleID != last.ruleID;
    }
  }

  lemma MergeCleanCanonical(deltas: seq<Delta>)
    ensures Canonical(Merge(Clean(deltas)))
  {
    var tally := Tally(Clean(deltas));
    TallyShape(Clean(deltas));
    DropZeroShape(tally);
    var merged := DropZero(tally);
    forall i | 0 <= i < |merged|
      ensures merged[i].ruleID != "" && Trimmed(merged[i].ruleID)
      ensures merged[i].volume.NonNegative() && !merged[i].volume.IsZero()
    {
      assert merged[i] in merged;
    }
  }

  lemma ClampNonNegative(v: Volume)
    requires v.NonNegative()
    ensures v.Clamp() == v
  {}

  lemma CanonicalClean(deltas: seq<Delta>)
    requires Canonical(deltas)
    ensures Clean(deltas) == deltas
  {
    forall i | 0 <= i < |deltas|
      ensures Clean(deltas)[i] == deltas[i]
    {
      ClampNonNegative(deltas[i].volume);
    }
  }

  lemma {:induction false} CanonicalFixpoint(deltas: seq<Delta>)
    requires Canonical(deltas)
    ensures Tally(deltas) == deltas && DropZero(deltas) == deltas
  {
    if deltas != [] {
      var front := deltas[..|deltas| - 1];
      CanonicalFixpoint(front);
      assert deltas == front + [deltas[|deltas| - 1]];
    }
  }

  /** Merging a merged list changes nothing, so reloading a spool file is lossless. */
  lemma MergeIdempotent(deltas: seq<Delta>)
    requires Canonical(deltas)
    ensures Merge(Clean(deltas)) == deltas
  {
    CanonicalClean(deltas);
    CanonicalFixpoint(deltas);
  }

  // ---------- the merge loops ----------

  function Prepare(deltas: seq<Delta>, normalize: bool): (r: seq<Delta>)
    ensures |r| == |deltas|
  {
    if normalize then Clean(deltas) else deltas
  }

  /** The accumulator of the merge loop: a map of sums and the order of first sight. */
  ghost predicate Represents(tally: seq<Delta>, byRule: map<string, Volume>, order: seq<string>) {
    && |order| == |tally|
    && DistinctRules(tally)
    && (forall i :: 0 <= i < |tally| ==> order[i] == tally[i].ruleID)
    && (forall i :: 0 <= i < |tally| ==> order[i] in byRule && byRule[order[i]] == tally[i].volume)
    && (forall rule :: rule in byRule ==> rule in order)
  }

  lemma RepresentsOld(tally: seq<Delta>, byRule: map<string, Volume>, order: seq<string>, d: Delta)
    requires Represents(tally, byRule, order) && d.ruleID != "" && d.ruleID in byRule
    ensures Represents(Bump(tally, d), byRule[d.ruleID := byRule[d.ruleID].Plus(d.volume)], order)
  {
    var i := IndexOf(tally, d.ruleID);
    var k :| 0 <= k < |order| && order[k] == d.ruleID;
    assert tally[k].ruleID == d.ruleID;
  }

  lemma RepresentsNew(tally: seq<Delta>, byRule: map<string, Volume>, order: seq<string>, d: Delta)
    requires Represents(tally, byRule, order) && d.ruleID != "" && d.ruleID !in byRule
    ensures Represents(Bump(tally, d), byRule[d.ruleID := d.volume], order + [d.ruleID])
  {
    assert forall i :: 0 <= i < |tally| ==> order[i] in byRule;
    assert IndexOf(tally, d.ruleID) == |tally|;
  }

  lemma TallyStep(deltas: seq<Delta>, i: nat)
    requires i < |deltas|
    ensures Tally(deltas[..i + 1]) == Bump(Tally(deltas[..i]), deltas[i])
  {
    assert deltas[..i + 1][..i] == deltas[..i];
  }

  /** One iteration of the merge loop. */
  method AddDelta(byRule: map<string, Volume>, order: seq<string>, d: Delta, ghost tally: seq<Delta>)
    returns (byRule': map<string, Volume>, order': seq<string>)
    requires Represents(tally, byRule, order)
    ensures Represents(Bump(tally, d), byRule', order')
  {
    byRule', order' := byRule, order;
    if d.ruleID != "" {
      if d.ruleID !in byRule {
        RepresentsNew(tally, byRule, order, d);
        order' := order + [d.ruleID];
        byRule' := byRule[d.ruleID := d.volume];
      } else {
        RepresentsOld(tally, byRule, order, d);
        byRule' := byRule[d.ruleID := byRule[d.ruleID].Plus(d.volume)];
      }
    }
  }

  /** Emits the non-zero sums in order of first sight. */
  method InOrder(byRule: map<string, Volume>, order: seq<string>, ghost tally: seq<Delta>) returns (merged: seq<Delta>)
    requires Represents(tally, byRule, order)
    ensures merged == DropZero(tally)
  {
    merged := [];
    for j := 0 to |order|
      invariant merged == DropZero(tally[..j])
    {
      assert tally[..j + 1][..j] == tally[..j];
      var volume := byRule[order[j]];
      if !volume.IsZero() {
        merged := merged + [Delta(order[j], volume)];
      }
    }
    assert tally[..|order|] == tally;
  }

  /**
   The merge of the three stages. The agent and the server trim rule IDs and clamp
   negative counters (normalize); the forwarder adds up what it is given.
   */
  method MergeDeltas(deltas: seq<Delta>, normalize: bool) returns (merged: seq<Delta>)
    ensures merged == Merge(Prepare(deltas, normalize))
  {
    var byRule: map<string, Volume> := map[];
    var order: seq<string> := [];
    ghost var prepared := Prepare(deltas, normalize);
    ghost var tally: seq<Delta> := [];
    for i := 0 to |deltas|
      invariant tally == Tally(prepared[..i])
      invariant Represents(tally, byRule, order)
    {
      var d := if normalize then Normalize(deltas[i]) else deltas[i];
      byRule, order := AddDelta(byRule, order, d, tally);
      TallyStep(prepared, i);
      tally := Bump(tally, d);
    }
    assert prepared[..|deltas|] == prepared;
    merged := InOrder(byRule, order, tally);
  }
}

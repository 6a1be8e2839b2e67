/**
 Port segments of a forwarding rule: normalisation on input (sort and coalesce) and
 expansion into one listener rule per port.
 */
module PortSegments {
  import opened Listeners

  datatype Segment = Segment(start: int, end: int)

  predicate Holds(segment: Segment, port: int) {
    segment.start <= port <= segment.end
  }

  ghost predicate Covers(segments: seq<Segment>, port: int) {
    exists i :: 0 <= i < |segments| && Holds(segments[i], port)
  }

  /** Ordered, positive, increasing and disjoint. */
  ghost predicate Tidy(segments: seq<Segment>) {
    && (forall i :: 0 <= i < |segments| ==> 0 < segments[i].start <= segments[i].end)
    && (forall i, j :: 0 <= i < j < |segments| ==> segments[i].end < segments[j].start)
  }

  // A missing end port means a single port.
  function Closed(segment: Segment): Segment {
    if segment.end == 0 then segment.(end := segment.start) else segment
  }

  predicate InRange(segment: Segment) {
    1 <= segment.start <= segment.end <= 65535
  }

  ghost predicate AscendingStarts(segments: seq<Segment>) {
    forall i, j :: 0 <= i < j < |segments| ==> segments[i].start <= segments[j].start
  }

  function Insert(segments: seq<Segment>, segment: Segment): (r: seq<Segment>)
    requires AscendingStarts(segments)
    ensures AscendingStarts(r)
    ensures forall s :: s in r <==> s in segments || s == segment
  {
    if segments == [] then [segment]
    else
      var last := |segments| - 1;
      assert segments == segments[..last] + [segments[last]];
      var before := segments[last].start < segment.start
        || (segments[last].start == segment.start && segments[last].end <= segment.end);
      if before then segments + [segment]
      else
        var rest := Insert(segments[..last], segment);
        assert forall i :: 0 <= i < |rest| ==> rest[i] in rest;
        rest + [segments[last]]
  }

  function Sorted(segments: seq<Segment>): (r: seq<Segment>)
    ensures AscendingStarts(r) && forall s :: s in r <==> s in segments
  {
    if segments == [] then []
    else
      var last := |segments| - 1;
      assert segments == segments[..last] + [segments[last]];
      Insert(Sorted(segments[..last]), segments[last])
  }

  lemma SameMembersSameCover(a: seq<Segment>, b: seq<Segment>)
    requires forall s :: s in a <==> s in b
    ensures forall port :: Covers(a, port) <==> Covers(b, port)
  {
    forall port
      ensures Covers(a, port) <==> Covers(b, port)
    {
      if Covers(a, port) {
        var i :| 0 <= i < |a| && Holds(a[i], port);
        assert a[i] in b;
      }
      if Covers(b, port) {
        var i :| 0 <= i < |b| && Holds(b[i], port);
        assert b[i] in a;
      }
    }
  }

  /** Merging a segment that starts no earlier into the last one, or appending it. */
  function Coalesce(result: seq<Segment>, segment: Segment): seq<Segment> {
    if result == [] || segment.start > result[|result| - 1].end + 1 then result + [segment]
    else if segment.end > result[|result| - 1].end then
      result[..|result| - 1] + [result[|result| - 1].(end := segment.end)]
    else result
  }

  lemma CoalesceTidy(result: seq<Segment>, segment: Segment)
    requires Tidy(result) && 0 < segment.start <= segment.end
    requires result != [] ==> result[|result| - 1].start <= segment.start
    ensures Tidy(Coalesce(result, segment)) && Coalesce(result, segment) != []
    ensures Coalesce(result, segment)[|Coalesce(result, segment)| - 1].start <= segment.start
  {
  }

  lemma CoalesceCovers(result: seq<Segment>, segment: Segment, port: int)
    requires Tidy(result)
    requires result != [] ==> result[|result| - 1].start <= segment.start
    ensures Covers(Coalesce(result, segment), port) <==> Covers(result, port) || Holds(segment, port)
  {
    var after := Coalesce(result, segment);
    if Covers(result, port) {
      var i :| 0 <= i < |result| && Holds(result[i], port);
      assert Holds(after[i], port);
    }
    if Holds(segment, port) {
      assert Holds(after[|after| - 1], port) || Covers(result, port);
    }
    if Covers(after, port) {
      var i :| 0 <= i < |after| && Holds(after[i], port);
      if i < |result| {
        assert Holds(result[i], port) || Holds(segment, port);
      }
    }
  }

  /** An empty result stands for an invalid input. */
  method NormalizeRulePortSegments(port: int, values: seq<Segment>) returns (result: seq<Segment>)
    ensures Tidy(result)
    ensures result == [] <==> if values == [] then !(1 <= port <= 65535) else exists i :: 0 <= i < |values| && !InRange(Closed(values[i]))
    ensures values != [] && result != [] ==>
              forall p :: Covers(result, p) <==> exists i :: 0 <= i < |values| && Holds(Closed(values[i]), p)
    ensures values == [] && result != [] ==> result == [Segment(port, port)]
  {
    hide Sorted, Coalesce;
    if values == [] {
      return if port < 1 || port > 65535 then [] else [Segment(port, port)];
    }
    var segments: seq<Segment> := [];
    for i := 0 to |values|
      invariant |segments| == i
      invariant forall k :: 0 <= k < i ==> segments[k] == Closed(values[k]) && InRange(segments[k])
    {
      if !InRange(Closed(values[i])) { return []; }
      segments := segments + [Closed(values[i])];
    }
    var sorted := Sorted(segments);
    SameMembersSameCover(sorted, segments);
    assert segments[0] in sorted;
    result := [];
    for i := 0 to |sorted|
      invariant Tidy(result) && (i > 0 ==> result != [])
      invariant result != [] && i < |sorted| ==> result[|result| - 1].start <= sorted[i].start
      invariant forall p :: Covers(result, p) <==> Covers(sorted[..i], p)
    {
      assert sorted[i] in segments;
      CoalesceTidy(result, sorted[i]);
      CoverStep(result, sorted, i);
      result := Coalesce(result, sorted[i]);
    }
    assert sorted[..|sorted|] == sorted;
    CoverClosed(values, segments);
  }

  lemma CoverClosed(values: seq<Segment>, segments: seq<Segment>)
    requires |segments| == |values| && forall k :: 0 <= k < |values| ==> segments[k] == Closed(values[k])
    ensures forall p :: Covers(segments, p) <==> exists i :: 0 <= i < |values| && Holds(Closed(values[i]), p)
  {
    forall p
      ensures Covers(segments, p) <==> exists i :: 0 <= i < |values| && Holds(Closed(values[i]), p)
    {
      if Covers(segments, p) {
        var i :| 0 <= i < |segments| && Holds(segments[i], p);
        assert Holds(Closed(values[i]), p);
      }
      if i :| 0 <= i < |values| && Holds(Closed(values[i]), p) {
        assert Holds(segments[i], p);
      }
    }
  }

  lemma CoverStep(result: seq<Segment>, sorted: seq<Segment>, i: nat)
    requires i < |sorted| && Tidy(result)
    requires result != [] ==> result[|result| - 1].start <= sorted[i].start
    requires forall p :: Covers(result, p) <==> Covers(sorted[..i], p)
    ensures forall p :: Covers(Coalesce(result, sorted[i]), p) <==> Covers(sorted[..i + 1], p)
  {
    hide Coalesce;
    forall p
      ensures Covers(Coalesce(result, sorted[i]), p) <==> Covers(sorted[..i + 1], p)
    {
      CoalesceCovers(result, sorted[i], p);
      CoverPrefix(sorted, i, p);
    }
  }

  lemma CoverPrefix(segments: seq<Segment>, i: nat, p: int)
    requires i < |segments|
    ensures Covers(segments[..i + 1], p) <==> Covers(segments[..i], p) || Holds(segments[i], p)
  {
    var longer, shorter := segments[..i + 1], segments[..i];
    if Covers(shorter, p) {
      var k :| 0 <= k < |shorter| && Holds(shorter[k], p);
      assert Holds(longer[k], p);
    }
    if Covers(longer, p) {
      var k :| 0 <= k < |longer| && Holds(longer[k], p);
      assert k < i ==> Holds(shorter[k], p);
    }
    assert longer[i] == segments[i];
  }

  function PortsBetween(rule: Rule, low: int, high: int): seq<Rule>
    decreases high - low
  {
    if low > high then [] else PortsBetween(rule, low, high - 1) + [rule.(port := high)]
  }

  // Segments with a non-positive port are skipped, reversed ones are turned around.
  function ExpandSegment(rule: Rule, segment: Segment): seq<Rule> {
    if segment.start <= 0 || segment.end <= 0 then []
    else if segment.end < segment.start then PortsBetween(rule, segment.end, segment.start)
    else PortsBetween(rule, segment.start, segment.end)
  }

  function ExpandSegments(rule: Rule, segments: seq<Segment>): seq<Rule> {
    if segments == [] then []
    else ExpandSegments(rule, segments[..|segments| - 1]) + ExpandSegment(rule, segments[|segments| - 1])
  }

  function Expanded(rule: Rule, segments: seq<Segment>): seq<Rule> {
    var expanded := ExpandSegments(rule, segments);
    if expanded == [] then [rule] else expanded
  }

  lemma ExpandOneMore(rule: Rule, segments: seq<Segment>, i: nat)
    requires i < |segments|
    ensures ExpandSegments(rule, segments[..i + 1]) == ExpandSegments(rule, segments[..i]) + ExpandSegment(rule, segments[i])
  {
    hide ExpandSegment;
    assert segments[..i + 1][..i] == segments[..i];
  }

  method ExpandRulePortSegments(rule: Rule, segments: seq<Segment>) returns (result: seq<Rule>)
    ensures result == Expanded(rule, segments)
  {
    if segments == [] { return [rule]; }
    result := [];
    for i := 0 to |segments|
      invariant result == ExpandSegments(rule, segments[..i])
    {
      ExpandOneMore(rule, segments, i);
      hide ExpandSegments;
      var start, end := segments[i].start, segments[i].end;
      if start <= 0 || end <= 0 { continue; }
      if end < start { start, end := end, start; }
      ghost var before := result;
      for port := start to end + 1
        invariant result == before + PortsBetween(rule, start, port - 1)
      {
        result := result + [rule.(port := port)];
      }
    }
    assert segments[..|segments|] == segments;
    if result == [] { return [rule]; }
  }

  ghost predicate Increasing(rules: seq<Rule>) {
    forall i, j :: 0 <= i < j < |rules| ==> rules[i].port < rules[j].port
  }

  lemma {:induction false} PortsBetweenAre(rule: Rule, low: int, high: int)
    ensures Increasing(PortsBetween(rule, low, high))
    ensures forall r :: r in PortsBetween(rule, low, high) <==> low <= r.port <= high && r == rule.(port := r.port)
    decreases high - low
  {
    if low <= high {
      PortsBetweenAre(rule, low, high - 1);
      var before := PortsBetween(rule, low, high - 1);
      assert forall i :: 0 <= i < |before| ==> before[i] in before;
    }
  }

  /** One listener rule per covered port, each port once, in order. */
  ghost predicate OnePerPort(rules: seq<Rule>, rule: Rule, segments: seq<Segment>) {
    && Increasing(rules)
    && forall r :: r in rules <==> Covers(segments, r.port) && r == rule.(port := r.port)
  }

  lemma {:induction false} ExpandedExactly(rule: Rule, segments: seq<Segment>)
    requires Tidy(segments)
    ensures OnePerPort(ExpandSegments(rule, segments), rule, segments)
    ensures segments != [] ==> Expanded(rule, segments) == ExpandSegments(rule, segments) != []
  {
    hide Covers, Holds, PortsBetween, Increasing, OnePerPort, Tidy;
    if segments == [] {
      NothingCovered(rule);
    } else {
      var last := |segments| - 1;
      var front, segment := segments[..last], segments[last];
      TidyFront(segments);
      ExpandedExactly(rule, front);
      assert segments == front + [segment];
      AppendSegment(ExpandSegments(rule, front), rule, front, segment);
    }
  }

  lemma TidyFront(segments: seq<Segment>)
    requires Tidy(segments) && segments != []
    ensures Tidy(segments[..|segments| - 1])
    ensures 0 < segments[|segments| - 1].start <= segments[|segments| - 1].end
  {
  }

  lemma AppendSegment(before: seq<Rule>, rule: Rule, front: seq<Segment>, segment: Segment)
    requires Tidy(front + [segment]) && OnePerPort(before, rule, front) && segment.start <= segment.end
    ensures OnePerPort(before + PortsBetween(rule, segment.start, segment.end), rule, front + [segment])
    ensures PortsBetween(rule, segment.start, segment.end) != []
  {
    hide Covers, Tidy, Increasing;
    var segments, after := front + [segment], PortsBetween(rule, segment.start, segment.end);
    PortsBetweenAre(rule, segment.start, segment.end);
    CoversBelow(front, segment);
    IncreasingJoin(before, after, segment.start);
    assert segments[..|front| + 1] == segments && segments[..|front|] == front;
    forall p
      ensures Covers(segments, p) <==> Covers(front, p) || Holds(segment, p)
    {
      CoverPrefix(segments, |front|, p);
    }
  }

  lemma NothingCovered(rule: Rule)
    ensures OnePerPort([], rule, [])
  {
  }

  lemma IncreasingJoin(before: seq<Rule>, after: seq<Rule>, bound: int)
    requires Increasing(before) && Increasing(after)
    requires forall r :: r in before ==> r.port < bound
    requires forall r :: r in after ==> r.port >= bound
    ensures Increasing(before + after)
  {
    var all := before + after;
    forall i, j | 0 <= i < j < |all|
      ensures all[i].port < all[j].port
    {
      if i < |before| <= j {
        assert all[i] in before && all[j] in after;
      }
    }
  }

  lemma CoversBelow(front: seq<Segment>, segment: Segment)
    requires Tidy(front + [segment])
    ensures forall p :: Covers(front, p) ==> p < segment.start
  {
    forall p | Covers(front, p)
      ensures p < segment.start
    {
      var i :| 0 <= i < |front| && Holds(front[i], p);
      assert (front + [segment])[i] == front[i] && (front + [segment])[|front|] == segment;
    }
  }

  /** What a submitted segment asks for: one port when it has no end, and valid from 1 to 65535. */
  lemma SegmentMeans(segment: Segment, port: int)
    ensures Holds(Closed(segment), port) <==> segment.start <= port && port <= if segment.end == 0 then segment.start else segment.end
    ensures InRange(Closed(segment)) <==> 1 <= segment.start <= 65535 && (segment.end == 0 || segment.start <= segment.end <= 65535)
  {
  }

  /** A reversed segment expands like the one turned around, one with a non-positive port to nothing. */
  lemma ReversedExpandsAlike(rule: Rule, a: int, b: int)
    ensures ExpandSegment(rule, Segment(a, b)) == ExpandSegment(rule, Segment(b, a))
    ensures a <= 0 || b <= 0 ==> ExpandSegment(rule, Segment(a, b)) == []
  {
  }
}

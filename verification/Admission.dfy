/**
 Admitting forwarding rules on the control plane: each rule's bindings are checked
 against those of every other enabled rule before it is stored.
 */
module Admission {
  import opened Text
  import opened Listeners
  import opened PortSegments

  /** Address parsing, simple case folding, lower- and upper-casing, as Go's libraries have them. */
  datatype Texts = Texts(parse: Parser, fold: string -> string, lower: string -> string, upper: string -> string)

  datatype Binding = Binding(
    nodeID: string, listenIP: string, protocol: Protocol, port: int, startPort: int, endPort: int,
    matchType: MatchType, sni: string, proxyProtocolIn: string)

  /** A stored rule with its segments, its node group, and the nodes now in that group. */
  datatype ForwardRule = ForwardRule(rule: Rule, segments: seq<Segment>, group: string, nodes: seq<string>)

  datatype Node = Node(listenIPs: seq<string>, groups: set<string>)

  datatype Verdict = Accepted | InvalidInput | ValidationFailed | PortConflict | DuplicateSNI

  function Bare(value: string): string {
    TrimBrackets(TrimSpace(value))
  }

  predicate BareWildcard(parse: Parser, value: string) {
    value == "" || Unspecified(parse, value)
  }

  predicate AddressesOverlap(parse: Parser, left: string, right: string) {
    Bare(left) == Bare(right) || BareWildcard(parse, Bare(left)) || BareWildcard(parse, Bare(right))
  }

  predicate ProtocolsOverlap(left: Protocol, right: Protocol) {
    || left == right
    || (left == TCPUDP && right in {TCP, UDP})
    || (right == TCPUDP && left in {TCP, UDP})
  }

  function StartPort(b: Binding): int {
    if b.startPort == 0 then b.port else b.startPort
  }

  function EndPort(b: Binding): int {
    if b.endPort == 0 then StartPort(b) else b.endPort
  }

  predicate SameEndpoint(parse: Parser, left: Binding, right: Binding) {
    && left.nodeID == right.nodeID
    && AddressesOverlap(parse, left.listenIP, right.listenIP)
    && ProtocolsOverlap(left.protocol, right.protocol)
    && StartPort(left) <= EndPort(right) && StartPort(right) <= EndPort(left)
  }

  function NormalizeProxyProtocol(texts: Texts, value: string): string {
    var upper := TrimSpace(texts.upper(value));
    if upper == "NONE" then "" else upper
  }

  predicate EqualFold(texts: Texts, left: string, right: string) {
    texts.fold(left) == texts.fold(right)
  }

  function Shape(matchType: MatchType, protocol: Protocol, sni: string): Verdict {
    if matchType == TlsSni && protocol != TCP then ValidationFailed
    else if protocol == TCPUDP && matchType != AnyInbound then ValidationFailed
    else if matchType == TlsSni && TrimSpace(sni) == "" then ValidationFailed
    else if matchType == Feature then ValidationFailed
    else Accepted
  }

  function Clash(texts: Texts, binding: Binding, candidate: Binding): Verdict {
    if !SameEndpoint(texts.parse, binding, candidate) then Accepted
    else if binding.matchType == AnyInbound || candidate.matchType == AnyInbound then PortConflict
    else if binding.matchType != TlsSni || candidate.matchType != TlsSni then PortConflict
    else if Bare(binding.listenIP) != Bare(candidate.listenIP) then PortConflict
    else if NormalizeProxyProtocol(texts, binding.proxyProtocolIn) != NormalizeProxyProtocol(texts, candidate.proxyProtocolIn) then PortConflict
    else if EqualFold(texts, binding.sni, candidate.sni) then DuplicateSNI
    else Accepted
  }

  lemma ClashSymmetric(texts: Texts, a: Binding, b: Binding)
    ensures Clash(texts, a, b) == Clash(texts, b, a)
  {
    hide TrimSpace, TrimBrackets;
  }

  method ValidateInboundBindingConflict(texts: Texts, existing: seq<Binding>, candidate: Binding) returns (verdict: Verdict)
    ensures verdict == Accepted <==>
              Shape(candidate.matchType, candidate.protocol, candidate.sni) == Accepted
              && forall b :: b in existing ==> Clash(texts, b, candidate) == Accepted
    ensures Shape(candidate.matchType, candidate.protocol, candidate.sni) != Accepted <==> verdict == ValidationFailed
    ensures verdict != InvalidInput
    ensures verdict !in {Accepted, ValidationFailed} ==>
              exists i :: 0 <= i < |existing| && verdict == Clash(texts, existing[i], candidate)
                          && forall k :: 0 <= k < i ==> Clash(texts, existing[k], candidate) == Accepted
  {
    hide Clash;
    verdict := Shape(candidate.matchType, candidate.protocol, candidate.sni);
    if verdict != Accepted { return; }
    for i := 0 to |existing|
      invariant forall k :: 0 <= k < i ==> Clash(texts, existing[k], candidate) == Accepted
    {
      if Clash(texts, existing[i], candidate) != Accepted {
        ClashIsConflict(texts, existing[i], candidate);
        return Clash(texts, existing[i], candidate);
      }
    }
  }

  lemma ClashIsConflict(texts: Texts, a: Binding, b: Binding)
    ensures Clash(texts, a, b) in {Accepted, PortConflict, DuplicateSNI}
  {
  }

  function BindingOf(r: ForwardRule, node: string, segment: Segment): Binding {
    Binding(node, r.rule.listenIP, r.rule.protocol, segment.start, segment.start, segment.end,
            r.rule.matchType, r.rule.sniHostname, r.rule.proxyProtocolIn)
  }

  /** Every segment on every node. */
  method BindingsForNodes(r: ForwardRule) returns (bindings: seq<Binding>)
    ensures forall b :: b in bindings <==> BindingIn(r, b)
  {
    bindings := [];
    for n := 0 to |r.nodes|
      invariant forall b :: b in bindings <==> b.nodeID in r.nodes[..n] && exists i :: 0 <= i < |r.segments| && b == BindingOf(r, b.nodeID, r.segments[i])
    {
      assert r.nodes[..n + 1] == r.nodes[..n] + [r.nodes[n]];
      ghost var before := bindings;
      for s := 0 to |r.segments|
        invariant forall b :: b in bindings <==> b in before || exists i :: 0 <= i < s && b == BindingOf(r, r.nodes[n], r.segments[i])
      {
        bindings := bindings + [BindingOf(r, r.nodes[n], r.segments[s])];
      }
    }
    assert r.nodes[..|r.nodes|] == r.nodes;
  }

  ghost predicate BindingIn(r: ForwardRule, b: Binding) {
    b.nodeID in r.nodes && exists i :: 0 <= i < |r.segments| && b == BindingOf(r, b.nodeID, r.segments[i])
  }

  ghost predicate Coexist(texts: Texts, r: ForwardRule, s: ForwardRule) {
    forall b, c :: BindingIn(r, b) && BindingIn(s, c) ==> Clash(texts, b, c) == Accepted
  }

  predicate ShapeOk(r: ForwardRule) {
    Shape(r.rule.matchType, r.rule.protocol, r.rule.sniHostname) == Accepted
  }

  // ---- the form in which rules are stored

  /** Fields in the form the input validation leaves them. */
  predicate Canonical(texts: Texts, rule: Rule) {
    && rule.enabled && Direct(rule)
    && TrimSpace(rule.listenIP) == rule.listenIP && TrimBrackets(rule.listenIP) == rule.listenIP
    && texts.lower(TrimSpace(rule.sniHostname)) == rule.sniHostname
    && rule.proxyProtocolIn != "" && TrimSpace(texts.upper(rule.proxyProtocolIn)) == rule.proxyProtocolIn
  }

  /**
   What is used of Go's libraries: net.ParseIP takes no brackets, lower-casing a trimmed name
   twice changes nothing more, and the PROXY settings are upper case as they stand.
   */
  ghost predicate LibrariesBehave(texts: Texts) {
    && (forall s :: texts.parse(s).Some? ==> TrimBrackets(s) == s)
    && texts.parse("0.0.0.0").Some?
    && (forall s :: LowerTrimmed(texts, LowerTrimmed(texts, s)) == LowerTrimmed(texts, s))
    && LowerTrimmed(texts, "") == ""
    && (forall s :: s in {"NONE", "V1", "V2"} ==> texts.upper(s) == s)
  }

  function LowerTrimmed(texts: Texts, s: string): string {
    texts.lower(TrimSpace(s))
  }

  /** A rule as a client submits it. */
  datatype RuleInput = RuleInput(
    id: string, listenIP: string, protocol: Protocol, port: int, segments: seq<Segment>,
    forwardingType: string, matchType: MatchType, sniHostname: string, proxyProtocolIn: string)

  function DefaultForwardingType(texts: Texts, value: string): string {
    var upper := texts.upper(TrimSpace(value));
    if upper == "" then "DIRECT" else upper
  }

  /** The rule to store, unless the input is refused; the segments are normalised separately. */
  function ValidateRuleMutationInput(texts: Texts, input: RuleInput): (r: Option<Rule>)
    ensures r.Some? ==> r.value.id == input.id && r.value.port == input.port && r.value.protocol == input.protocol
  {
    var listenIP := TrimSpace(input.listenIP);
    var sni := LowerTrimmed(texts, input.sniHostname);
    var proxy := texts.upper(TrimSpace(input.proxyProtocolIn));
    if listenIP == "" || DefaultForwardingType(texts, input.forwardingType) != "DIRECT" then None
    else if input.protocol !in {TCP, UDP, TCPUDP} || input.matchType !in {AnyInbound, TlsSni} then None
    else if input.protocol != TCP && input.matchType != AnyInbound then None
    else if input.matchType == TlsSni && sni == "" then None
    else if proxy !in {"", "NONE", "V1", "V2"} then None
    else if input.protocol == UDP && proxy !in {"", "NONE"} then None
    else
      var stored := if proxy == "" then "NONE" else proxy;
      Some(Rule(input.id, true, "DIRECT", input.protocol, listenIP, input.port, input.matchType,
                if input.matchType == AnyInbound then "" else sni, stored))
  }

  /** A validated rule on a literal address is in canonical form. */
  lemma ValidatedIsCanonical(texts: Texts, input: RuleInput)
    requires LibrariesBehave(texts)
    ensures var r := ValidateRuleMutationInput(texts, input);
            r.Some? && texts.parse(r.value.listenIP).Some? ==> Canonical(texts, r.value)
  {
    hide TrimSpace, TrimBrackets;
    var r := ValidateRuleMutationInput(texts, input);
    ProxySettingsAreTrimmed();
    if r.Some? {
      SniIsCanonical(texts, input);
      assert r.value.proxyProtocolIn in {"NONE", "V1", "V2"};
    }
  }

  lemma SniIsCanonical(texts: Texts, input: RuleInput)
    requires LibrariesBehave(texts) && ValidateRuleMutationInput(texts, input).Some?
    ensures var sni := ValidateRuleMutationInput(texts, input).value.sniHostname;
            LowerTrimmed(texts, sni) == sni
  {
    hide TrimSpace, TrimBrackets, LowerTrimmed;
  }

  lemma ProxySettingsAreTrimmed()
    ensures TrimSpace("NONE") == "NONE" && TrimSpace("V1") == "V1" && TrimSpace("V2") == "V2"
  {
    hide TrimSpace;
    assert Trimmed("NONE") && Trimmed("V1") && Trimmed("V2");
  }

  /** Not a literal, or given twice. */
  ghost predicate BadAddress(texts: Texts, values: seq<string>, i: nat)
    requires i < |values|
  {
    var value := TrimSpace(values[i]);
    value != "" && (texts.parse(value).None? || exists j :: 0 <= j < i && TrimSpace(values[j]) == value)
  }

  /** The listen addresses of a node: trimmed, distinct literals, or the default one. */
  method ValidateListenIPs(texts: Texts, values: seq<string>) returns (normalized: Option<seq<string>>)
    requires LibrariesBehave(texts)
    ensures normalized.Some? ==> forall ip :: ip in normalized.value ==> texts.parse(ip).Some?
    ensures normalized.Some? ==> normalized.value != [] && forall i, j :: 0 <= i < j < |normalized.value| ==> normalized.value[i] != normalized.value[j]
    ensures normalized.None? <==> exists i :: 0 <= i < |values| && BadAddress(texts, values, i)
    ensures normalized.Some? ==> forall i :: 0 <= i < |values| && TrimSpace(values[i]) != "" ==> TrimSpace(values[i]) in normalized.value
    ensures normalized.Some? ==> forall ip :: ip in normalized.value ==>
              (exists i :: 0 <= i < |values| && TrimSpace(values[i]) == ip) || (ip == "0.0.0.0" && forall i :: 0 <= i < |values| ==> TrimSpace(values[i]) == "")
  {
    hide TrimSpace, TrimBrackets;
    var result: seq<string> := [];
    for i := 0 to |values|
      invariant forall ip :: ip in result ==> texts.parse(ip).Some?
      invariant forall ip :: ip in result <==> ip != "" && exists j :: 0 <= j < i && TrimSpace(values[j]) == ip
      invariant forall k :: 0 <= k < i ==> !BadAddress(texts, values, k)
      invariant forall a, b :: 0 <= a < b < |result| ==> result[a] != result[b]
    {
      var value := TrimSpace(values[i]);
      assert BadAddress(texts, values, i) <==> value != "" && (texts.parse(value).None? || value in result);
      if value == "" { continue; }
      if texts.parse(value).None? || value in result { return None; }
      result := result + [value];
    }
    return Some(if result == [] then ["0.0.0.0"] else result);
  }

  /** The stored rules: canonical fields, tidy segments, sensible shapes, and any two of them coexist. */
  ghost predicate Sound(texts: Texts, rules: map<string, ForwardRule>) {
    && (forall id :: id in rules ==> rules[id].segments != [] && Tidy(rules[id].segments) && ShapeOk(rules[id]))
    && (forall id :: id in rules ==> Canonical(texts, rules[id].rule))
    && (forall a, b :: a in rules && b in rules && a != b ==> Coexist(texts, rules[a], rules[b]))
  }

  lemma CoexistSymmetric(texts: Texts, r: ForwardRule, s: ForwardRule)
    requires Coexist(texts, r, s)
    ensures Coexist(texts, s, r)
  {
    hide BindingIn, Clash;
    forall b, c | BindingIn(s, b) && BindingIn(r, c)
      ensures Clash(texts, b, c) == Accepted
    {
      ClashSymmetric(texts, c, b);
    }
  }

  lemma StoreKeepsSound(texts: Texts, rules: map<string, ForwardRule>, id: string, r: ForwardRule)
    requires Sound(texts, rules) && r.segments != [] && Tidy(r.segments) && ShapeOk(r) && Canonical(texts, r.rule)
    requires forall other :: other in rules && other != id ==> Coexist(texts, rules[other], r)
    ensures Sound(texts, rules[id := r])
  {
    hide Coexist, Tidy, ShapeOk, Canonical;
    forall other | other in rules && other != id
      ensures Coexist(texts, r, rules[other])
    {
      CoexistSymmetric(texts, rules[other], r);
    }
  }

  // ---- nodes and their groups

  ghost predicate Literal(texts: Texts, nodes: map<string, Node>) {
    forall n, ip :: n in nodes && ip in nodes[n].listenIPs ==> texts.parse(ip).Some?
  }

  ghost predicate InGroup(nodes: map<string, Node>, group: string, members: seq<string>) {
    forall n :: n in members <==> n in nodes && group in nodes[n].groups
  }

  /** Every rule is bound on exactly the nodes of its group. */
  ghost predicate Grouped(nodes: map<string, Node>, rules: map<string, ForwardRule>) {
    forall id :: id in rules ==> InGroup(nodes, rules[id].group, rules[id].nodes)
  }

  predicate SameRule(r: ForwardRule, s: ForwardRule) {
    s == r.(nodes := s.nodes)
  }

  ghost predicate SameRules(before: map<string, ForwardRule>, after: map<string, ForwardRule>) {
    before.Keys == after.Keys && forall id :: id in before ==> SameRule(before[id], after[id])
  }

  /** The nodes of a group, in any order. */
  method NodesInGroup(nodes: map<string, Node>, group: string) returns (members: seq<string>)
    ensures InGroup(nodes, group, members)
  {
    members := [];
    var rest := nodes.Keys;
    while rest != {}
      invariant rest <= nodes.Keys
      invariant forall n :: n in members <==> n in nodes && n !in rest && group in nodes[n].groups
      decreases rest
    {
      var n :| n in rest;
      rest := rest - {n};
      if group in nodes[n].groups { members := members + [n]; }
    }
  }

  /** There are nodes, and every one of them listens on that very address. */
  method NodesCoverListenIP(nodes: map<string, Node>, members: seq<string>, listenIP: string) returns (covered: bool)
    ensures covered <==> members != [] && forall n :: n in members ==> n in nodes && listenIP in nodes[n].listenIPs
  {
    if members == [] { return false; }
    for i := 0 to |members|
      invariant forall k :: 0 <= k < i ==> members[k] in nodes && listenIP in nodes[members[k]].listenIPs
    {
      if members[i] !in nodes || listenIP !in nodes[members[i]].listenIPs { return false; }
    }
    return true;
  }

  lemma MovedKeepsShape(r: ForwardRule, members: seq<string>)
    ensures ShapeOk(r.(nodes := members)) <==> ShapeOk(r)
  {
  }

  lemma AllCoexist(texts: Texts, rules: map<string, ForwardRule>, seen: seq<Binding>, r: ForwardRule, bindings: seq<Binding>)
    requires forall id, b :: id in rules && BindingIn(rules[id], b) ==> b in seen
    requires forall b :: BindingIn(r, b) ==> b in bindings
    requires forall k, b :: 0 <= k < |bindings| && b in seen ==> Clash(texts, b, bindings[k]) == Accepted
    ensures forall id :: id in rules ==> Coexist(texts, rules[id], r)
  {
    hide Clash, BindingIn;
    forall id, b, c | id in rules && BindingIn(rules[id], b) && BindingIn(r, c)
      ensures Clash(texts, b, c) == Accepted
    {
      var k :| 0 <= k < |bindings| && bindings[k] == c;
      assert b in seen;
    }
  }

  method BindingsFit(texts: Texts, seen: seq<Binding>, bindings: seq<Binding>) returns (ok: bool)
    ensures ok ==> forall k, b :: 0 <= k < |bindings| && b in seen ==> Clash(texts, b, bindings[k]) == Accepted
  {
    hide Clash, Shape;
    for i := 0 to |bindings|
      invariant forall k, b :: 0 <= k < i && b in seen ==> Clash(texts, b, bindings[k]) == Accepted
    {
      var verdict := ValidateInboundBindingConflict(texts, seen, bindings[i]);
      if verdict != Accepted { return false; }
    }
    return true;
  }

  /** Part of the rules, moved to the candidate nodes: sound, covered, and their bindings all seen. */
  ghost predicate Rechecked(texts: Texts, candidate: map<string, Node>, rules: map<string, ForwardRule>, updated: map<string, ForwardRule>, seen: seq<Binding>) {
    && Sound(texts, updated) && Grouped(candidate, updated) && updated.Keys <= rules.Keys
    && (forall id :: id in updated ==> SameRule(rules[id], updated[id]))
    && (forall id, n :: id in updated && n in updated[id].nodes ==> n in candidate && updated[id].rule.listenIP in candidate[n].listenIPs)
    && (forall id, b :: id in updated && BindingIn(updated[id], b) ==> b in seen)
  }

  lemma NothingRechecked(texts: Texts, candidate: map<string, Node>, rules: map<string, ForwardRule>)
    ensures Rechecked(texts, candidate, rules, map[], [])
  {
  }

  lemma RecheckedAll(texts: Texts, candidate: map<string, Node>, rules: map<string, ForwardRule>, updated: map<string, ForwardRule>, seen: seq<Binding>)
    requires Rechecked(texts, candidate, rules, updated, seen) && updated.Keys == rules.Keys
    ensures Sound(texts, updated) && Grouped(candidate, updated) && SameRules(rules, updated)
    ensures forall id, n :: id in updated && n in updated[id].nodes ==> n in candidate && updated[id].rule.listenIP in candidate[n].listenIPs
  {
    hide Sound, InGroup;
  }

  lemma RecheckOne(texts: Texts, candidate: map<string, Node>, rules: map<string, ForwardRule>, updated: map<string, ForwardRule>, seen: seq<Binding>, id: string, moved: ForwardRule, bindings: seq<Binding>)
    requires Sound(texts, rules) && Rechecked(texts, candidate, rules, updated, seen) && id in rules && id !in updated
    requires SameRule(rules[id], moved) && InGroup(candidate, moved.group, moved.nodes)
    requires forall n :: n in moved.nodes ==> n in candidate && moved.rule.listenIP in candidate[n].listenIPs
    requires forall b :: BindingIn(moved, b) ==> b in bindings
    requires forall k, b :: 0 <= k < |bindings| && b in seen ==> Clash(texts, b, bindings[k]) == Accepted
    ensures Rechecked(texts, candidate, rules, updated[id := moved], seen + bindings)
  {
    hide Clash, BindingIn, Canonical, Coexist, Tidy, InGroup, ShapeOk;
    MovedKeepsShape(rules[id], moved.nodes);
    AllCoexist(texts, updated, seen, moved, bindings);
    StoreKeepsSound(texts, updated, id, moved);
    hide Sound;
  }

  lemma NothingStored(texts: Texts)
    ensures Sound(texts, map[]) && Literal(texts, map[]) && Grouped(map[], map[])
  {
  }

  class RuleStore {
    const texts: Texts
    var rules: map<string, ForwardRule>
    var nodes: map<string, Node>

    /** Node addresses are literals, rules know their group's nodes, and the stored rules are sound. */
    ghost predicate Valid()
      reads this
    {
      LibrariesBehave(texts) && Sound(texts, rules) && Literal(texts, nodes) && Grouped(nodes, rules)
    }

    constructor (texts: Texts)
      requires LibrariesBehave(texts)
      ensures Valid() && rules == map[] && nodes == map[] && this.texts == texts
    {
      hide LibrariesBehave, Sound, Literal, Grouped;
      this.texts, rules, nodes := texts, map[], map[];
      NothingStored(texts);
    }

    /** Create or update a node with its enabled listen addresses and its groups. */
    method SaveNode(node: string, values: seq<string>, groups: set<string>) returns (ok: bool)
      requires Valid()
      modifies this
      ensures Valid() && SameRules(old(rules), rules)
      ensures !ok ==> nodes == old(nodes) && rules == old(rules)
      ensures ok ==> node in nodes && nodes == old(nodes)[node := nodes[node]] && nodes[node].groups == groups
    {
      hide Sound, LibrariesBehave, Grouped;
      var normalized := ValidateListenIPs(texts, values);
      if normalized.None? { return false; }
      var candidate := nodes[node := Node(normalized.value, groups)];
      var updated;
      ok, updated := ValidateEnabledRulesForNodeSet(candidate);
      if ok { nodes, rules := candidate, updated; }
    }

    method DeleteNode(node: string) returns (ok: bool)
      requires Valid()
      modifies this
      ensures Valid() && SameRules(old(rules), rules)
      ensures nodes == if ok then old(nodes) - {node} else old(nodes)
      ensures !ok ==> rules == old(rules)
    {
      hide Sound, LibrariesBehave, Grouped;
      var candidate := nodes - {node};
      var updated;
      ok, updated := ValidateEnabledRulesForNodeSet(candidate);
      if ok { nodes, rules := candidate, updated; }
    }

    /**
     Every enabled rule is checked again on the nodes its group would have: they listen on its
     address, and its bindings clash with none of the rules before it.
     */
    method ValidateEnabledRulesForNodeSet(candidate: map<string, Node>) returns (ok: bool, updated: map<string, ForwardRule>)
      requires Valid()
      ensures ok ==> Sound(texts, updated) && Grouped(candidate, updated) && SameRules(rules, updated)
      ensures ok ==> forall id, n :: id in updated && n in updated[id].nodes ==> n in candidate && updated[id].rule.listenIP in candidate[n].listenIPs
    {
      hide Clash, BindingIn, Canonical, LibrariesBehave, Rechecked, Sound, InGroup;
      updated := map[];
      var seen: seq<Binding> := [];
      var rest := rules.Keys;
      NothingRechecked(texts, candidate, rules);
      while rest != {}
        invariant rest <= rules.Keys && updated.Keys == rules.Keys - rest
        invariant Rechecked(texts, candidate, rules, updated, seen)
        decreases rest
      {
        var id :| id in rest;
        rest := rest - {id};
        var members := NodesInGroup(candidate, rules[id].group);
        var covered := NodesCoverListenIP(candidate, members, rules[id].rule.listenIP);
        if !covered { return false, rules; }
        var moved := rules[id].(nodes := members);
        var bindings := BindingsForNodes(moved);
        var fit := BindingsFit(texts, seen, bindings);
        if !fit { return false, rules; }
        RecheckOne(texts, candidate, rules, updated, seen, id, moved, bindings);
        updated := updated[id := moved];
        seen := seen + bindings;
      }
      RecheckedAll(texts, candidate, rules, updated, seen);
      return true, updated;
    }

    method EnsureNoRuleConflicts(candidate: ForwardRule) returns (verdict: Verdict)
      requires ShapeOk(candidate)
      ensures verdict == Accepted <==> forall id :: id in rules && id != candidate.rule.id ==> Coexist(texts, rules[id], candidate)
      ensures verdict !in {InvalidInput, ValidationFailed}
    {
      hide Clash, BindingIn, Tidy, Shape;
      var candidates := BindingsForNodes(candidate);
      var rest := rules.Keys;
      while rest != {}
        invariant rest <= rules.Keys
        invariant forall id :: id in rules && id !in rest && id != candidate.rule.id ==> Coexist(texts, rules[id], candidate)
        decreases rest
      {
        var id :| id in rest;
        rest := rest - {id};
        if id == candidate.rule.id { continue; }
        var existing := BindingsForNodes(rules[id]);
        for i := 0 to |candidates|
          invariant forall k, b :: 0 <= k < i && b in existing ==> Clash(texts, b, candidates[k]) == Accepted
        {
          assert candidates[i] in candidates;
          CandidateShape(candidate, candidates[i]);
          verdict := ValidateInboundBindingConflict(texts, existing, candidates[i]);
          if verdict != Accepted { return; }
        }
      }
      return Accepted;
    }

    /** Create or replace an enabled rule of a node group. */
    method Save(input: RuleInput, group: string) returns (verdict: Verdict)
      requires Valid()
      modifies this`rules
      ensures Valid()
      ensures verdict != Accepted ==> rules == old(rules)
      ensures verdict == Accepted ==>
                ValidateRuleMutationInput(texts, input).Some?
                && exists stored, members :: Tidy(stored) && InGroup(nodes, group, members)
                     && rules == old(rules)[input.id := ForwardRule(ValidateRuleMutationInput(texts, input).value, stored, group, members)]
                     && (input.segments != [] ==> forall p :: Covers(stored, p) <==> exists i :: 0 <= i < |input.segments| && Holds(Closed(input.segments[i]), p))
                     && (input.segments == [] ==> forall p :: Covers(stored, p) <==> p == input.port)
    {
      hide Tidy, Shape, Coexist, Sound, Canonical, ValidateRuleMutationInput, LibrariesBehave;
      var rule := ValidateRuleMutationInput(texts, input);
      var stored := NormalizeRulePortSegments(input.port, input.segments);
      if rule.None? || stored == [] { return InvalidInput; }
      var members := NodesInGroup(nodes, group);
      var candidate := ForwardRule(rule.value, stored, group, members);
      if !ShapeOk(candidate) { return ValidationFailed; }
      var covered := NodesCoverListenIP(nodes, members, rule.value.listenIP);
      if !covered { return ValidationFailed; }
      assert members[0] in members;
      ValidatedIsCanonical(texts, input);
      verdict := EnsureNoRuleConflicts(candidate);
      if verdict == Accepted {
        StoreKeepsSound(texts, rules, input.id, candidate);
        OnePort(input.port);
        rules := rules[input.id := candidate];
      }
    }

    /** Disable or delete a rule. */
    method Remove(id: string)
      requires Valid()
      modifies this`rules
      ensures Valid() && rules == old(rules) - {id}
    {
      hide Tidy, Coexist, Canonical, LibrariesBehave;
      rules := rules - {id};
    }
  }

  lemma OnePort(port: int)
    ensures forall p :: Covers([Segment(port, port)], p) <==> p == port
  {
    assert [Segment(port, port)][0] == Segment(port, port);
  }

  lemma CandidateShape(r: ForwardRule, b: Binding)
    requires ShapeOk(r) && BindingIn(r, b)
    ensures Shape(b.matchType, b.protocol, b.sni) == Accepted
  {
  }

  // ---- from admitted rules to listener rules that can run side by side

  /** Two listener rules want the same traffic. */
  predicate Contend(texts: Texts, x: Rule, y: Rule) {
    x.port == y.port && ProtocolsOverlap(x.protocol, y.protocol) && AddressesOverlap(texts.parse, x.listenIP, y.listenIP)
  }

  /** They may only when they share one TCP listener and are told apart by host name. */
  predicate Compatible(texts: Texts, x: Rule, y: Rule) {
    Contend(texts, x, y) ==>
      && x.matchType == y.matchType == TlsSni && x.protocol == y.protocol == TCP
      && x.listenIP == y.listenIP && x.proxyProtocolIn == y.proxyProtocolIn && !EqualFold(texts, x.sniHostname, y.sniHostname)
  }

  ghost predicate AllCompatible(texts: Texts, rules: seq<Rule>) {
    forall i, j :: 0 <= i < j < |rules| ==> Compatible(texts, rules[i], rules[j])
  }

  /** A listener rule of an admitted rule. */
  ghost predicate RuleOf(r: ForwardRule, x: Rule) {
    Covers(r.segments, x.port) && x == r.rule.(port := x.port)
  }

  lemma SharedPort(r: ForwardRule, x: Rule, node: string) returns (segment: Segment)
    requires RuleOf(r, x) && Tidy(r.segments) && node in r.nodes
    ensures BindingIn(r, BindingOf(r, node, segment)) && 0 < segment.start <= x.port <= segment.end
  {
    var i :| 0 <= i < |r.segments| && Holds(r.segments[i], x.port);
    segment := r.segments[i];
    assert BindingOf(r, node, segment) == BindingOf(r, node, r.segments[i]);
  }

  lemma CrossCompatible(texts: Texts, r: ForwardRule, s: ForwardRule, node: string, x: Rule, y: Rule)
    requires Coexist(texts, r, s) && ShapeOk(r) && ShapeOk(s) && Tidy(r.segments) && Tidy(s.segments)
    requires node in r.nodes && node in s.nodes && RuleOf(r, x) && RuleOf(s, y)
    requires Canonical(texts, r.rule) && Canonical(texts, s.rule)
    ensures Compatible(texts, x, y)
  {
    hide TrimSpace, TrimBrackets, BindingIn, Covers, Tidy, Unspecified;
    if Contend(texts, x, y) {
      var p := SharedPort(r, x, node);
      var q := SharedPort(s, y, node);
      var b, c := BindingOf(r, node, p), BindingOf(s, node, q);
      assert SameEndpoint(texts.parse, b, c);
      assert Clash(texts, b, c) == Accepted;
    }
  }

  /** The listener rules a node receives for the listed rules. */
  function Compile(rules: map<string, ForwardRule>, ids: seq<string>): seq<Rule>
    requires forall id :: id in ids ==> id in rules
  {
    if ids == [] then []
    else
      var last := |ids| - 1;
      assert ids[last] in ids;
      Compile(rules, ids[..last]) + Expanded(rules[ids[last]].rule, rules[ids[last]].segments)
  }

  ghost predicate OnNode(rules: map<string, ForwardRule>, ids: seq<string>, node: string) {
    && (forall id :: id in ids ==> id in rules && node in rules[id].nodes)
    && (forall i, j :: 0 <= i < j < |ids| ==> ids[i] != ids[j])
  }

  ghost predicate ComesFrom(rules: map<string, ForwardRule>, ids: seq<string>, x: Rule) {
    exists id :: id in ids && id in rules && RuleOf(rules[id], x)
  }

  lemma {:induction false} CompileOrigins(texts: Texts, rules: map<string, ForwardRule>, ids: seq<string>, node: string)
    requires Sound(texts, rules) && OnNode(rules, ids, node)
    ensures forall x :: x in Compile(rules, ids) ==> ComesFrom(rules, ids, x)
  {
    hide Coexist, Covers, Tidy, ShapeOk, Increasing, Expanded, ExpandSegments, Canonical;
    if ids != [] {
      var last := |ids| - 1;
      var id, front := ids[last], ids[..last];
      assert id in ids;
      CompileOrigins(texts, rules, front, node);
      ExpandedExactly(rules[id].rule, rules[id].segments);
      forall x | x in Compile(rules, ids)
        ensures ComesFrom(rules, ids, x)
      {
        if x in Compile(rules, front) {
          var other :| other in front && other in rules && RuleOf(rules[other], x);
          assert other in ids;
        } else {
          assert RuleOf(rules[id], x);
        }
      }
    }
  }

  /** Whatever was admitted compiles, for every node, to pairwise compatible listener rules. */
  lemma {:induction false} CompileCompatible(texts: Texts, rules: map<string, ForwardRule>, ids: seq<string>, node: string)
    requires Sound(texts, rules) && OnNode(rules, ids, node)
    ensures AllCompatible(texts, Compile(rules, ids))
  {
    hide Coexist, Covers, Tidy, ShapeOk, Expanded, ExpandSegments, Compatible, Canonical;
    if ids != [] {
      var last := |ids| - 1;
      var id, front := ids[last], ids[..last];
      assert id in ids;
      CompileCompatible(texts, rules, front, node);
      CompileOrigins(texts, rules, front, node);
      var before, after := Compile(rules, front), Expanded(rules[id].rule, rules[id].segments);
      ExpandedExactly(rules[id].rule, rules[id].segments);
      SamePortFree(texts, after);
      forall x, y | x in before && y in after
        ensures Compatible(texts, x, y)
      {
        var other :| other in front && other in rules && RuleOf(rules[other], x);
        var k :| 0 <= k < |front| && front[k] == other;
        assert ids[k] == other && ids[last] == id && other in ids;
        CrossCompatible(texts, rules[other], rules[id], node, x, y);
      }
      JoinCompatible(texts, before, after);
    }
  }

  lemma SamePortFree(texts: Texts, rules: seq<Rule>)
    requires Increasing(rules)
    ensures AllCompatible(texts, rules)
  {
    hide ProtocolsOverlap, AddressesOverlap, EqualFold;
  }

  lemma JoinCompatible(texts: Texts, before: seq<Rule>, after: seq<Rule>)
    requires AllCompatible(texts, before) && AllCompatible(texts, after)
    requires forall x, y :: x in before && y in after ==> Compatible(texts, x, y)
    ensures AllCompatible(texts, before + after)
  {
    hide Compatible;
    var all := before + after;
    forall i, j | 0 <= i < j < |all|
      ensures Compatible(texts, all[i], all[j])
    {
      if i < |before| <= j {
        assert all[i] in before && all[j] in after;
      }
    }
  }

  lemma {:induction false} CompileCanonical(texts: Texts, rules: map<string, ForwardRule>, ids: seq<string>, node: string)
    requires Sound(texts, rules) && OnNode(rules, ids, node)
    ensures forall x :: x in Compile(rules, ids) ==> Canonical(texts, x)
  {
    hide Coexist, Covers, Tidy, ShapeOk, Compile, TrimSpace, TrimBrackets;
    CompileOrigins(texts, rules, ids, node);
  }

  // ---- what validation stores

  /** Exactly the well-formed inputs are taken. */
  lemma ValidatedIff(texts: Texts, input: RuleInput)
    ensures ValidateRuleMutationInput(texts, input).Some? <==>
              && TrimSpace(input.listenIP) != ""
              && (texts.upper(TrimSpace(input.forwardingType)) == "" || texts.upper(TrimSpace(input.forwardingType)) == "DIRECT")
              && texts.upper(TrimSpace(input.proxyProtocolIn)) in {"", "NONE", "V1", "V2"}
              && (|| (input.matchType == AnyInbound && input.protocol in {TCP, TCPUDP})
                  || (input.matchType == AnyInbound && input.protocol == UDP && texts.upper(TrimSpace(input.proxyProtocolIn)) in {"", "NONE"})
                  || (input.matchType == TlsSni && input.protocol == TCP && texts.lower(TrimSpace(input.sniHostname)) != ""))
  {
    hide TrimSpace;
  }

  /** And stored as given, up to trimming, case and the PROXY default. */
  lemma ValidatedFields(texts: Texts, input: RuleInput)
    requires ValidateRuleMutationInput(texts, input).Some?
    ensures var rule := ValidateRuleMutationInput(texts, input).value;
            && rule.id == input.id && rule.enabled && rule.forwardingType == "DIRECT"
            && rule.protocol == input.protocol && rule.port == input.port && rule.matchType == input.matchType
            && rule.listenIP == TrimSpace(input.listenIP)
            && rule.sniHostname == (if input.matchType == TlsSni then texts.lower(TrimSpace(input.sniHostname)) else "")
            && rule.proxyProtocolIn == (if texts.upper(TrimSpace(input.proxyProtocolIn)) == "" then "NONE" else texts.upper(TrimSpace(input.proxyProtocolIn)))
  {
    hide TrimSpace;
  }

  /** Which shapes a binding may have. */
  lemma ShapeIff(matchType: MatchType, protocol: Protocol, sni: string)
    ensures Shape(matchType, protocol, sni) == Accepted <==>
              || matchType == AnyInbound
              || (matchType == TlsSni && protocol == TCP && TrimSpace(sni) != "")
              || (matchType.OtherMatch? && protocol != TCPUDP)
  {
    hide TrimSpace;
  }

  /** NONE and an empty setting are one and the same to admission. */
  lemma NoneIsEmpty(texts: Texts)
    requires LibrariesBehave(texts)
    ensures NormalizeProxyProtocol(texts, "NONE") == "" && NormalizeProxyProtocol(texts, "V1") == "V1" && NormalizeProxyProtocol(texts, "V2") == "V2"
  {
    hide TrimSpace, TrimBrackets, LowerTrimmed;
    ProxySettingsAreTrimmed();
  }

  /** Rules with no node, no protocol or no port in common always coexist. */
  lemma DisjointRulesCoexist(texts: Texts, r: ForwardRule, s: ForwardRule)
    requires Tidy(r.segments) && Tidy(s.segments)
    requires || (forall n :: !(n in r.nodes && n in s.nodes))
             || !ProtocolsOverlap(r.rule.protocol, s.rule.protocol)
             || (forall p :: !(Covers(r.segments, p) && Covers(s.segments, p)))
    ensures Coexist(texts, r, s)
  {
    hide TrimSpace, TrimBrackets, AddressesOverlap, NormalizeProxyProtocol, EqualFold, Covers, Tidy;
    forall b, c | BindingIn(r, b) && BindingIn(s, c)
      ensures Clash(texts, b, c) == Accepted
    {
      if SameEndpoint(texts.parse, b, c) {
        var i :| 0 <= i < |r.segments| && b == BindingOf(r, b.nodeID, r.segments[i]);
        var j :| 0 <= j < |s.segments| && c == BindingOf(s, c.nodeID, s.segments[j]);
        var p := if b.startPort <= c.startPort then c.startPort else b.startPort;
        SegmentCovers(r.segments, i, p);
        SegmentCovers(s.segments, j, p);
      }
    }
  }

  lemma SegmentCovers(segments: seq<Segment>, i: nat, p: int)
    requires Tidy(segments) && i < |segments|
    ensures 0 < segments[i].start <= segments[i].end
    ensures segments[i].start <= p <= segments[i].end ==> Covers(segments, p)
  {
    if segments[i].start <= p <= segments[i].end { assert Holds(segments[i], p); }
  }
}

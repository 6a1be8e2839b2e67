/**
 What a node listens on: rules, the listener keys they occupy, and when two keys
 compete for the same socket.
 */
module Listeners {
  import opened Text

  datatype Protocol = TCP | UDP | TCPUDP | OtherProtocol(name: string)

  datatype MatchType = AnyInbound | TlsSni | Feature | OtherMatch(name: string)

  datatype Rule = Rule(
    id: string, enabled: bool, forwardingType: string, protocol: Protocol, listenIP: string, port: int,
    matchType: MatchType, sniHostname: string, proxyProtocolIn: string)

  datatype Key = Key(listenIP: string, protocol: Protocol, port: int)

  /** What net.ParseIP makes of a literal: a family and a number; zero is the unspecified address. */
  datatype Address = Address(v4: bool, value: nat)

  type Parser = string -> Option<Address>

  function TrimBracketsLeft(s: string): string {
    if s != [] && s[0] in "[]" then TrimBracketsLeft(s[1..]) else s
  }

  function TrimBracketsRight(s: string): string {
    if s != [] && s[|s| - 1] in "[]" then TrimBracketsRight(s[..|s| - 1]) else s
  }

  function TrimBrackets(s: string): string {
    TrimBracketsRight(TrimBracketsLeft(s))
  }

  predicate Unspecified(parse: Parser, value: string) {
    parse(value).Some? && parse(value).value.value == 0
  }

  predicate Wildcard(parse: Parser, value: string) {
    var bare := TrimBrackets(TrimSpace(value));
    bare == "" || Unspecified(parse, bare)
  }

  predicate IPsOverlap(parse: Parser, left: string, right: string) {
    left == right || Wildcard(parse, left) || Wildcard(parse, right)
  }

  /** The forwarder's own test, which lets a wildcard of either family cover every address. */
  predicate Overlap(parse: Parser, left: Key, right: Key) {
    left.protocol == right.protocol && left.port == right.port && IPsOverlap(parse, left.listenIP, right.listenIP)
  }

  ghost predicate Safe(parse: Parser, keys: set<Key>) {
    forall a, b :: a in keys && b in keys && a != b ==> !Overlap(parse, a, b)
  }

  function Protocols(protocol: Protocol): seq<Protocol> {
    if protocol == TCPUDP then [TCP, UDP] else [protocol]
  }

  predicate Direct(rule: Rule) {
    rule.forwardingType == "" || rule.forwardingType == "DIRECT"
  }

  predicate Serves(rule: Rule, key: Key) {
    rule.enabled && rule.listenIP == key.listenIP && rule.port == key.port && key.protocol in Protocols(rule.protocol)
  }

  /** The enabled rules of a listener, in configuration order. */
  function Serving(rules: seq<Rule>, key: Key): seq<Rule> {
    if rules == [] then []
    else Serving(rules[..|rules| - 1], key) + (if Serves(rules[|rules| - 1], key) then [rules[|rules| - 1]] else [])
  }

  /** Which rules serve a listener: enabled, on its very address and port, for its protocol or for both. */
  lemma {:induction false} ServingIff(rules: seq<Rule>, key: Key, rule: Rule)
    ensures rule in Serving(rules, key) <==>
              && rule in rules && rule.enabled && rule.listenIP == key.listenIP && rule.port == key.port
              && ((rule.protocol == key.protocol != TCPUDP) || (rule.protocol == TCPUDP && key.protocol in {TCP, UDP}))
  {
    if rules != [] {
      var front, last := rules[..|rules| - 1], rules[|rules| - 1];
      assert rules == front + [last];
      ServingIff(front, key, rule);
    }
  }

  /** A listener exists exactly when some enabled rule is served by it, and it has exactly those rules. */
  ghost predicate GroupsExactly(grouped: map<Key, seq<Rule>>, rules: seq<Rule>) {
    && (forall key :: key in grouped <==> Serving(rules, key) != [])
    && (forall key :: key in grouped ==> grouped[key] == Serving(rules, key))
  }

  function AddRule(grouped: map<Key, seq<Rule>>, key: Key, rule: Rule): map<Key, seq<Rule>> {
    grouped[key := (if key in grouped then grouped[key] else []) + [rule]]
  }

  lemma NothingGrouped()
    ensures GroupsExactly(map[], [])
  {
  }

  lemma GroupStep(before: map<Key, seq<Rule>>, after: map<Key, seq<Rule>>, rules: seq<Rule>, rule: Rule)
    requires GroupsExactly(before, rules)
    requires forall key :: key in after <==> key in before || Serves(rule, key)
    requires forall key :: key in after ==>
               after[key] == (if key in before then before[key] else []) + (if Serves(rule, key) then [rule] else [])
    ensures GroupsExactly(after, rules + [rule])
  {
    hide Serves;
    forall key
      ensures key in after <==> Serving(rules + [rule], key) != []
      ensures key in after ==> after[key] == Serving(rules + [rule], key)
    {
      assert (rules + [rule])[..|rules|] == rules;
    }
  }

  method GroupRulesByListener(rules: seq<Rule>) returns (grouped: Option<map<Key, seq<Rule>>>)
    ensures grouped.None? <==> exists i :: 0 <= i < |rules| && rules[i].enabled && !Direct(rules[i])
    ensures grouped.None? <==> exists i :: 0 <= i < |rules| && rules[i].enabled && rules[i].forwardingType !in {"", "DIRECT"}
    ensures grouped.Some? ==> GroupsExactly(grouped.value, rules)
  {
    hide GroupsExactly, Serving;
    var result: map<Key, seq<Rule>> := map[];
    NothingGrouped();
    for i := 0 to |rules|
      invariant GroupsExactly(result, rules[..i])
      invariant forall k :: 0 <= k < i && rules[k].enabled ==> Direct(rules[k])
    {
      var rule := rules[i];
      assert rules[..i + 1] == rules[..i] + [rule];
      ghost var before := result;
      if rule.enabled {
        if !Direct(rule) { return None; }
        var protocols := Protocols(rule.protocol);
        for p := 0 to |protocols|
          invariant forall key :: key in result <==> key in before || (Serves(rule, key) && key.protocol in protocols[..p])
          invariant forall key :: key in result ==>
            result[key] == (if key in before then before[key] else [])
              + (if Serves(rule, key) && key.protocol in protocols[..p] then [rule] else [])
        {
          assert protocols[..p + 1] == protocols[..p] + [protocols[p]];
          assert protocols[p] !in protocols[..p];
          result := AddRule(result, Key(rule.listenIP, protocols[p], rule.port), rule);
        }
        assert protocols[..|protocols|] == protocols;
      }
      GroupStep(before, result, rules[..i], rule);
    }
    assert rules[..|rules|] == rules;
    return Some(result);
  }

  predicate Bracket(c: char) {
    c == '[' || c == ']'
  }

  /** Brackets around an address are dropped, and nothing else is. */
  lemma {:induction false} TrimBracketsIs(open: string, core: string, close: string)
    requires (forall i :: 0 <= i < |open| ==> Bracket(open[i])) && (forall i :: 0 <= i < |close| ==> Bracket(close[i]))
    requires core != [] && !Bracket(core[0]) && !Bracket(core[|core| - 1])
    ensures TrimBrackets(open + core + close) == core
  {
    DropLeft(open, core + close);
    assert open + (core + close) == open + core + close;
    DropRight(core, close);
  }

  lemma {:induction false} DropLeft(open: string, rest: string)
    requires (forall i :: 0 <= i < |open| ==> Bracket(open[i])) && rest != [] && !Bracket(rest[0])
    ensures TrimBracketsLeft(open + rest) == rest
  {
    if open == [] {
      assert open + rest == rest;
    } else {
      assert (open + rest)[1..] == open[1..] + rest;
      DropLeft(open[1..], rest);
    }
  }

  lemma {:induction false} DropRight(rest: string, close: string)
    requires (forall i :: 0 <= i < |close| ==> Bracket(close[i])) && rest != [] && !Bracket(rest[|rest| - 1])
    ensures TrimBracketsRight(rest + close) == rest
  {
    var s := rest + close;
    if close == [] {
      assert s == rest;
    } else {
      assert s[..|s| - 1] == rest + close[..|close| - 1];
      DropRight(rest, close[..|close| - 1]);
    }
  }
}

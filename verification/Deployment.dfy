/**
 What the agent does with the compiled rules: conflict detection before a dataplane is
 configured, the forwarder's own overlap check, and picking the rule for a connection.
 Rules the control plane admitted pass all of it.
 */
module Deployment {
  import opened Text
  import opened Listeners
  import opened Admission
  import S = Supervisor
  import PS = PortSegments

  // ---- the order in which rules are compiled does not matter

  lemma CompatibleSymmetric(texts: Texts, x: Rule, y: Rule)
    requires Compatible(texts, x, y)
    ensures Compatible(texts, y, x)
  {
    hide TrimSpace, TrimBrackets;
  }

  lemma {:induction false} Occurs<T>(s: seq<T>, x: T, i: nat) returns (j: nat)
    requires i < |s| && s[i] == x && multiset(s)[x] >= 2
    ensures j < |s| && j != i && s[j] == x
  {
    var before, after := s[..i], s[i + 1..];
    assert s == before + [x] + after;
    assert multiset(s)[x] == multiset(before)[x] + 1 + multiset(after)[x];
    if x in multiset(before) {
      j :| 0 <= j < |before| && before[j] == x;
    } else {
      assert x in after;
      var k :| 0 <= k < |after| && after[k] == x;
      j := i + 1 + k;
    }
  }

  lemma TwoPlaces(a: seq<Rule>, b: seq<Rule>, i: nat, j: nat) returns (k: nat, l: nat)
    requires multiset(a) == multiset(b) && i < j < |b|
    ensures k < |a| && l < |a| && k != l && a[k] == b[i] && a[l] == b[j]
  {
    assert b[i] in multiset(b) && b[j] in multiset(b);
    assert b[i] in a && b[j] in a;
    k :| 0 <= k < |a| && a[k] == b[i];
    if b[i] != b[j] {
      l :| 0 <= l < |a| && a[l] == b[j];
    } else {
      assert b == b[..i] + [b[i]] + b[i + 1..j] + [b[j]] + b[j + 1..];
      assert multiset(b)[b[i]] >= 2;
      l := Occurs(a, b[i], k);
    }
  }

  lemma ReorderCompatible(texts: Texts, a: seq<Rule>, b: seq<Rule>)
    requires AllCompatible(texts, a) && multiset(a) == multiset(b)
    ensures AllCompatible(texts, b)
  {
    hide Compatible;
    forall i, j | 0 <= i < j < |b|
      ensures Compatible(texts, b[i], b[j])
    {
      var k, l := TwoPlaces(a, b, i, j);
      if l < k { CompatibleSymmetric(texts, a[l], a[k]); }
    }
  }

  // ---- the forwarder

  lemma SharedProtocol(p: Protocol, q: Protocol, shared: Protocol)
    requires shared in Protocols(p) && shared in Protocols(q)
    ensures ProtocolsOverlap(p, q)
  {
  }

  lemma OverlapContends(texts: Texts, x: Rule, y: Rule, k: Key, l: Key)
    requires Canonical(texts, x) && Canonical(texts, y) && Serves(x, k) && Serves(y, l) && Overlap(texts.parse, k, l)
    ensures Contend(texts, x, y)
  {
    hide TrimSpace, TrimBrackets;
    SharedProtocol(x.protocol, y.protocol, k.protocol);
  }

  ghost predicate CanonicalRules(texts: Texts, rules: seq<Rule>) {
    forall x :: x in rules ==> Canonical(texts, x)
  }

  /** The forwarder accepts the configuration: nothing malformed, no two overlapping listeners. */
  lemma ForwarderAccepts(texts: Texts, rules: seq<Rule>)
    requires AllCompatible(texts, rules) && CanonicalRules(texts, rules)
    ensures !S.Malformed(rules) && Safe(texts.parse, S.Occupied(rules))
  {
    hide Compatible, TrimSpace, TrimBrackets, Overlap;
    forall i | 0 <= i < |rules|
      ensures Direct(rules[i])
    {
      assert rules[i] in rules;
    }
    var keys := S.Occupied(rules);
    forall k, l | k in keys && l in keys && k != l
      ensures !Overlap(texts.parse, k, l)
    {
      var i :| 0 <= i < |rules| && Serves(rules[i], k);
      var j :| 0 <= j < |rules| && Serves(rules[j], l);
      if Overlap(texts.parse, k, l) {
        assert rules[i] in rules && rules[j] in rules;
        if i == j {
          OverlapOne(texts, rules[i], k, l);
        } else if i < j {
          CompatibleShares(texts, rules[i], rules[j], k, l);
        } else {
          CompatibleSymmetric(texts, rules[j], rules[i]);
          CompatibleShares(texts, rules[i], rules[j], k, l);
        }
      }
    }
  }

  lemma OverlapOne(texts: Texts, x: Rule, k: Key, l: Key)
    requires Serves(x, k) && Serves(x, l) && Overlap(texts.parse, k, l)
    ensures k == l
  {
  }

  lemma CompatibleShares(texts: Texts, x: Rule, y: Rule, k: Key, l: Key)
    requires Canonical(texts, x) && Canonical(texts, y) && Serves(x, k) && Serves(y, l)
    requires Overlap(texts.parse, k, l) && Compatible(texts, x, y)
    ensures k == l
  {
    hide TrimSpace, TrimBrackets, Contend;
    OverlapContends(texts, x, y, k, l);
  }

  // ---- choosing the rule for a connection

  predicate Matches(texts: Texts, rule: Rule, hostname: string) {
    rule.matchType == TlsSni && EqualFold(texts, rule.sniHostname, hostname)
  }

  method SelectSNIRule(texts: Texts, rules: seq<Rule>, hostname: string) returns (rule: Option<Rule>)
    ensures rule.None? <==> forall r :: r in rules ==> !Matches(texts, r, hostname)
    ensures rule.Some? ==> exists i :: 0 <= i < |rules| && rule == Some(rules[i]) && Matches(texts, rules[i], hostname)
                                       && forall k :: 0 <= k < i ==> !Matches(texts, rules[k], hostname)
    ensures rule.Some? ==> rule.value.matchType == TlsSni && texts.fold(rule.value.sniHostname) == texts.fold(hostname)
    ensures rule.None? ==> forall r :: r in rules && r.matchType == TlsSni ==> texts.fold(r.sniHostname) != texts.fold(hostname)
  {
    for i := 0 to |rules|
      invariant forall k :: 0 <= k < i ==> !Matches(texts, rules[k], hostname)
    {
      if Matches(texts, rules[i], hostname) { return Some(rules[i]); }
    }
    return None;
  }

  function NormalizedProxyProtocol(version: string): string {
    if version == "NONE" then "" else version
  }

  /** The PROXY version all SNI rules of a listener agree on. */
  method SniInboundProxyProtocol(rules: seq<Rule>) returns (version: Option<string>)
    ensures version.Some? <==>
              && (exists i :: 0 <= i < |rules| && rules[i].matchType == TlsSni)
              && (forall i, j :: 0 <= i < |rules| && 0 <= j < |rules| && rules[i].matchType == rules[j].matchType == TlsSni ==>
                    NormalizedProxyProtocol(rules[i].proxyProtocolIn) == NormalizedProxyProtocol(rules[j].proxyProtocolIn))
    ensures version.Some? ==> forall i :: 0 <= i < |rules| && rules[i].matchType == TlsSni ==>
              NormalizedProxyProtocol(rules[i].proxyProtocolIn) == version.value
    ensures version.Some? && version.value != "" ==>
              forall r :: r in rules && r.matchType == TlsSni ==> r.proxyProtocolIn == version.value
    ensures version.Some? && version.value == "" ==>
              forall r :: r in rules && r.matchType == TlsSni ==> r.proxyProtocolIn == "" || r.proxyProtocolIn == "NONE"
  {
    version := None;
    for i := 0 to |rules|
      invariant version.Some? <==> exists k :: 0 <= k < i && rules[k].matchType == TlsSni
      invariant version.Some? ==> forall k :: 0 <= k < i && rules[k].matchType == TlsSni ==>
        NormalizedProxyProtocol(rules[k].proxyProtocolIn) == version.value
    {
      if rules[i].matchType == TlsSni {
        var current := NormalizedProxyProtocol(rules[i].proxyProtocolIn);
        if version.None? {
          version := Some(current);
        } else if current != version.value {
          return None;
        }
      }
    }
  }

  lemma {:induction false} ServingCompatible(texts: Texts, rules: seq<Rule>, key: Key)
    requires AllCompatible(texts, rules)
    ensures AllCompatible(texts, Serving(rules, key))
    ensures forall r :: r in Serving(rules, key) <==> r in rules && Serves(r, key)
  {
    hide Compatible, Serves;
    if rules != [] {
      var front, last := rules[..|rules| - 1], rules[|rules| - 1];
      assert rules == front + [last];
      ServingCompatible(texts, front, key);
      forall r | r in Serving(front, key)
        ensures Compatible(texts, r, last)
      {
        var i :| 0 <= i < |front| && front[i] == r;
        assert rules[i] == r;
      }
      assert AllCompatible(texts, [last]);
      assert forall x, y :: x in Serving(front, key) && y in [last] ==> Compatible(texts, x, y);
      assert Serving(front, key) + [] == Serving(front, key);
      JoinCompatible(texts, Serving(front, key), [last]);
    }
  }

  lemma ServeContend(texts: Texts, x: Rule, y: Rule, key: Key)
    requires Serves(x, key) && Serves(y, key)
    ensures Contend(texts, x, y)
  {
    hide TrimSpace, TrimBrackets;
    SharedProtocol(x.protocol, y.protocol, key.protocol);
  }

  /**
   A listener has one rule, or only SNI rules with one PROXY setting, of which at most one
   matches any given host name.
   */
  ghost predicate WellServed(texts: Texts, rules: seq<Rule>) {
    |rules| == 1 ||
    (&& (forall r :: r in rules ==> r.matchType == TlsSni)
     && (forall r, q :: r in rules && q in rules ==> r.proxyProtocolIn == q.proxyProtocolIn)
     && (forall i, j, hostname :: 0 <= i < j < |rules| ==> !(Matches(texts, rules[i], hostname) && Matches(texts, rules[j], hostname))))
  }

  lemma ListenersWellServed(texts: Texts, rules: seq<Rule>, key: Key)
    requires AllCompatible(texts, rules)
    ensures WellServed(texts, Serving(rules, key))
  {
    hide Serving, Contend;
    ServingCompatible(texts, rules, key);
    var served := Serving(rules, key);
    forall i, j | 0 <= i < j < |served|
      ensures served[i].matchType == served[j].matchType == TlsSni && served[i].proxyProtocolIn == served[j].proxyProtocolIn
      ensures !EqualFold(texts, served[i].sniHostname, served[j].sniHostname)
    {
      assert served[i] in served && served[j] in served;
      ServeContend(texts, served[i], served[j], key);
      assert Compatible(texts, served[i], served[j]);
    }
    if |served| > 1 {
      forall r | r in served
        ensures r.matchType == TlsSni && r.proxyProtocolIn == served[0].proxyProtocolIn
      {
        var i :| 0 <= i < |served| && served[i] == r;
        assert i == 0 ==> served[0].matchType == served[1].matchType == TlsSni;
        assert i > 0 ==> served[0].matchType == served[i].matchType == TlsSni;
      }
    }
  }

  // ---- the dataplane manager

  datatype Planned = Planned(rule: Rule, dataplane: string)

  datatype Reason = MixedDataplanes | SameSNI | AnyShared | MixedProxyProtocol

  function NormalizeListenIP(value: string): string {
    if TrimSpace(value) == "" then "0.0.0.0" else TrimSpace(value)
  }

  predicate DataplaneIPsOverlap(parse: Parser, left: string, right: string) {
    var l, r := NormalizeListenIP(left), NormalizeListenIP(right);
    l == r ||
    var a, b := parse(TrimBrackets(l)), parse(TrimBrackets(r));
    a.Some? && b.Some? && a.value.v4 == b.value.v4 && (a.value.value == 0 || b.value.value == 0)
  }

  predicate DataplaneOverlap(parse: Parser, k: Key, l: Key) {
    k.protocol == l.protocol && k.port == l.port && DataplaneIPsOverlap(parse, k.listenIP, l.listenIP)
  }

  predicate PlannedFor(entry: Planned, key: Key) {
    key.listenIP == NormalizeListenIP(entry.rule.listenIP) && key.port == entry.rule.port && key.protocol in Protocols(entry.rule.protocol)
  }

  function Entries(planned: seq<Planned>, key: Key): seq<Planned> {
    if planned == [] then []
    else Entries(planned[..|planned| - 1], key) + (if PlannedFor(planned[|planned| - 1], key) then [planned[|planned| - 1]] else [])
  }

  function PlannedKeys(planned: seq<Planned>): set<Key> {
    set entry, protocol | entry in planned && protocol in Protocols(entry.rule.protocol) ::
      Key(NormalizeListenIP(entry.rule.listenIP), protocol, entry.rule.port)
  }

  function SniKey(texts: Texts, rule: Rule): string {
    texts.lower(TrimSpace(rule.sniHostname))
  }

  ghost predicate TwoRulesOneSNI(texts: Texts, entries: seq<Planned>) {
    exists i, j :: 0 <= i < j < |entries| && entries[i].rule.matchType == entries[j].rule.matchType == TlsSni
                   && entries[i].rule.id != entries[j].rule.id && SniKey(texts, entries[i].rule) == SniKey(texts, entries[j].rule)
  }

  ghost predicate Conflict(texts: Texts, entries: seq<Planned>) {
    && |entries| > 1
    && (|| (exists i :: 0 <= i < |entries| && entries[i].dataplane != entries[0].dataplane)
        || TwoRulesOneSNI(texts, entries)
        || (exists i :: 0 <= i < |entries| && entries[i].rule.matchType == AnyInbound)
        || (exists i :: 0 <= i < |entries| && TrimSpace(entries[i].rule.proxyProtocolIn) != TrimSpace(entries[0].rule.proxyProtocolIn)))
  }

  method ListenerConflictDetail(texts: Texts, entries: seq<Planned>) returns (reason: Option<Reason>)
    ensures reason.Some? <==> Conflict(texts, entries)
  {
    hide TrimSpace;
    if |entries| <= 1 { return None; }
    var hasAny := false;
    var sniByValue: map<string, string> := map[];
    for i := 0 to |entries|
      invariant forall k :: 0 <= k < i ==> entries[k].dataplane == entries[0].dataplane
      invariant hasAny <==> exists k :: 0 <= k < i && entries[k].rule.matchType == AnyInbound
      invariant forall k :: 0 <= k < i && entries[k].rule.matchType == TlsSni ==>
        SniKey(texts, entries[k].rule) in sniByValue && sniByValue[SniKey(texts, entries[k].rule)] == entries[k].rule.id
      invariant forall sni :: sni in sniByValue ==>
        exists k :: 0 <= k < i && entries[k].rule.matchType == TlsSni && SniKey(texts, entries[k].rule) == sni && entries[k].rule.id == sniByValue[sni]
    {
      if entries[i].dataplane != entries[0].dataplane { return Some(MixedDataplanes); }
      if entries[i].rule.matchType == AnyInbound { hasAny := true; }
      if entries[i].rule.matchType == TlsSni {
        var sni := SniKey(texts, entries[i].rule);
        if sni in sniByValue && sniByValue[sni] != entries[i].rule.id { return Some(SameSNI); }
        sniByValue := sniByValue[sni := entries[i].rule.id];
      }
    }
    if hasAny { return Some(AnyShared); }
    for i := 0 to |entries|
      invariant forall k :: 0 <= k < i ==> TrimSpace(entries[k].rule.proxyProtocolIn) == TrimSpace(entries[0].rule.proxyProtocolIn)
    {
      if TrimSpace(entries[i].rule.proxyProtocolIn) != TrimSpace(entries[0].rule.proxyProtocolIn) { return Some(MixedProxyProtocol); }
    }
    return None;
  }

  /** Two rules that cannot share a listener, whoever else is on it. */
  predicate CannotShare(texts: Texts, x: Planned, y: Planned) {
    || x.dataplane != y.dataplane
    || x.rule.matchType == AnyInbound || y.rule.matchType == AnyInbound
    || TrimSpace(x.rule.proxyProtocolIn) != TrimSpace(y.rule.proxyProtocolIn)
    || (&& x.rule.matchType == y.rule.matchType == TlsSni && x.rule.id != y.rule.id
        && texts.lower(TrimSpace(x.rule.sniHostname)) == texts.lower(TrimSpace(y.rule.sniHostname)))
  }

  /** Comparing with the first entry and collecting names finds a conflict exactly when some two entries cannot share. */
  lemma ConflictIffPair(texts: Texts, entries: seq<Planned>)
    ensures Conflict(texts, entries) <==> exists i, j :: 0 <= i < j < |entries| && CannotShare(texts, entries[i], entries[j])
  {
    hide TrimSpace;
    if i, j :| 0 <= i < j < |entries| && CannotShare(texts, entries[i], entries[j]) {
      assert entries[i] in entries && entries[j] in entries;
    }
    if |entries| > 1 && entries[0].rule.matchType == AnyInbound {
      assert CannotShare(texts, entries[0], entries[1]);
    }
  }

  ghost predicate PairConflict(texts: Texts, planned: seq<Planned>, k: Key, l: Key) {
    DataplaneOverlap(texts.parse, k, l) && Conflict(texts, Entries(planned, k) + Entries(planned, l))
  }

  /** No key and no two overlapping keys are in conflict. */
  ghost predicate Silent(texts: Texts, planned: seq<Planned>) {
    && (forall k, l :: k in PlannedKeys(planned) && l in PlannedKeys(planned) && k != l ==> !PairConflict(texts, planned, k, l))
    && (forall k :: k in PlannedKeys(planned) ==> !Conflict(texts, Entries(planned, k)))
  }

  /** The sorted keys pair up once; `keys` is any listing of them. */
  method DetectListenerConflicts(texts: Texts, planned: seq<Planned>, keys: seq<Key>) returns (details: seq<(Key, Reason)>)
    requires forall key :: key in keys <==> key in PlannedKeys(planned)
    requires forall i, j :: 0 <= i < j < |keys| ==> keys[i] != keys[j]
    ensures details == [] <==>
              && (forall i, j :: 0 <= i < j < |keys| ==> !PairConflict(texts, planned, keys[i], keys[j]))
              && (forall i :: 0 <= i < |keys| ==> !Conflict(texts, Entries(planned, keys[i])))
    ensures Silent(texts, planned) ==> details == []
  {
    hide Entries, Conflict, DataplaneOverlap, PlannedKeys;
    details := [];
    for i := 0 to |keys|
      invariant details == [] <==> forall a, b :: 0 <= a < i && a < b < |keys| ==> !PairConflict(texts, planned, keys[a], keys[b])
    {
      for j := i + 1 to |keys|
        invariant details == [] <==>
          && (forall a, b :: 0 <= a < i && a < b < |keys| ==> !PairConflict(texts, planned, keys[a], keys[b]))
          && (forall b :: i < b < j ==> !PairConflict(texts, planned, keys[i], keys[b]))
      {
        if DataplaneOverlap(texts.parse, keys[i], keys[j]) {
          var reason := ListenerConflictDetail(texts, Entries(planned, keys[i]) + Entries(planned, keys[j]));
          if reason.Some? { details := details + [(keys[i], reason.value)]; }
        }
      }
    }
    for i := 0 to |keys|
      invariant details == [] <==>
        && (forall a, b :: 0 <= a < b < |keys| ==> !PairConflict(texts, planned, keys[a], keys[b]))
        && (forall a :: 0 <= a < i ==> !Conflict(texts, Entries(planned, keys[a])))
    {
      var reason := ListenerConflictDetail(texts, Entries(planned, keys[i]));
      if reason.Some? { details := details + [(keys[i], reason.value)]; }
    }
  }

  // ---- admitted rules pass conflict detection

  function Rules(planned: seq<Planned>): (r: seq<Rule>)
    ensures |r| == |planned| && forall i :: 0 <= i < |r| ==> r[i] == planned[i].rule
  {
    seq(|planned|, i requires 0 <= i < |planned| => planned[i].rule)
  }

  lemma DataplaneContends(texts: Texts, x: Planned, y: Planned, k: Key, l: Key)
    requires Canonical(texts, x.rule) && Canonical(texts, y.rule)
    requires PlannedFor(x, k) && PlannedFor(y, l) && DataplaneOverlap(texts.parse, k, l)
    ensures Contend(texts, x.rule, y.rule)
  {
    hide TrimSpace, TrimBrackets, Unspecified, NormalizeListenIP, AddressesOverlap;
    SharedProtocol(x.rule.protocol, y.rule.protocol, k.protocol);
    NormalizeTwice(x.rule.listenIP);
    NormalizeTwice(y.rule.listenIP);
    DataplaneAddresses(texts.parse, x.rule.listenIP, y.rule.listenIP);
  }

  lemma NormalizeTwice(value: string)
    ensures NormalizeListenIP(NormalizeListenIP(value)) == NormalizeListenIP(value)
  {
    hide IsSpace;
    assert Trimmed("0.0.0.0") by {
      ZeroIsTrimmed();
    }
  }

  lemma ZeroIsTrimmed()
    ensures Trimmed("0.0.0.0")
  {
  }

  lemma DataplaneAddresses(parse: Parser, left: string, right: string)
    requires TrimSpace(left) == left == TrimBrackets(left) && TrimSpace(right) == right == TrimBrackets(right)
    requires DataplaneIPsOverlap(parse, left, right)
    ensures AddressesOverlap(parse, left, right)
  {
    hide TrimSpace, TrimBrackets;
  }

  ghost predicate Ready(texts: Texts, planned: seq<Planned>) {
    && AllCompatible(texts, Rules(planned))
    && (forall i :: 0 <= i < |planned| ==> Canonical(texts, planned[i].rule))
    && (forall i, j :: 0 <= i < |planned| && 0 <= j < |planned| ==> planned[i].dataplane == planned[j].dataplane)
  }

  /** Entries of one key keep their pairwise compatibility. */
  lemma {:induction false} EntriesReady(texts: Texts, planned: seq<Planned>, key: Key)
    requires Ready(texts, planned)
    ensures Ready(texts, Entries(planned, key))
    ensures forall e :: e in Entries(planned, key) <==> e in planned && PlannedFor(e, key)
  {
    hide Compatible, Canonical, PlannedFor, Ready, AllCompatible;
    if planned == [] {
      assert Entries(planned, key) == planned;
    } else {
      var last := |planned| - 1;
      var front, entry := planned[..last], planned[last];
      assert planned == front + [entry];
      ReadyFront(texts, planned);
      EntriesReady(texts, front, key);
      var kept := Entries(front, key);
      forall i | 0 <= i < |kept|
        ensures Compatible(texts, kept[i].rule, entry.rule) && kept[i].dataplane == entry.dataplane
      {
        assert kept[i] in kept;
        assert kept[i] in front;
      }
      ReadyAppend(texts, kept, entry);
      assert kept + [] == kept;
    }
  }

  lemma ReadyFront(texts: Texts, planned: seq<Planned>)
    requires Ready(texts, planned) && planned != []
    ensures Ready(texts, planned[..|planned| - 1]) && Canonical(texts, planned[|planned| - 1].rule)
    ensures forall e :: e in planned[..|planned| - 1] ==>
              Compatible(texts, e.rule, planned[|planned| - 1].rule) && e.dataplane == planned[|planned| - 1].dataplane
  {
    hide Compatible, Canonical;
    var front := planned[..|planned| - 1];
    assert forall i :: 0 <= i < |front| ==> Rules(planned)[i] == Rules(front)[i];
    forall e | e in front
      ensures Compatible(texts, e.rule, planned[|front|].rule) && e.dataplane == planned[|front|].dataplane
    {
      var k :| 0 <= k < |front| && front[k] == e;
      assert Rules(planned)[k] == e.rule && Rules(planned)[|front|] == planned[|front|].rule;
    }
  }

  lemma ReadyAppend(texts: Texts, kept: seq<Planned>, entry: Planned)
    requires Ready(texts, kept) && Canonical(texts, entry.rule)
    requires forall i :: 0 <= i < |kept| ==> Compatible(texts, kept[i].rule, entry.rule) && kept[i].dataplane == entry.dataplane
    ensures Ready(texts, kept + [entry])
  {
    hide Compatible, Canonical;
    var all := kept + [entry];
    forall i, j | 0 <= i < j < |all|
      ensures Compatible(texts, Rules(all)[i], Rules(all)[j])
    {
      if j < |kept| {
        assert Rules(kept)[i] == all[i].rule && Rules(kept)[j] == all[j].rule;
      }
    }
  }

  lemma EntryPair(texts: Texts, planned: seq<Planned>, key: Key, i: nat, j: nat)
    requires Ready(texts, planned) && i < j < |Entries(planned, key)|
    ensures var x, y := Entries(planned, key)[i].rule, Entries(planned, key)[j].rule;
            x.matchType == y.matchType == TlsSni && x.proxyProtocolIn == y.proxyProtocolIn && SniKey(texts, x) != SniKey(texts, y)
  {
    hide Entries, TrimSpace, TrimBrackets, PlannedFor, Contend, DataplaneIPsOverlap;
    EntriesReady(texts, planned, key);
    var entries := Entries(planned, key);
    var x, y := entries[i], entries[j];
    assert x in entries && y in entries;
    OverlapsItself(texts.parse, key);
    DataplaneContends(texts, x, y, key, key);
    assert Compatible(texts, Rules(entries)[i], Rules(entries)[j]);
  }

  lemma OverlapsItself(parse: Parser, key: Key)
    ensures DataplaneOverlap(parse, key, key)
  {
  }

  lemma NoConflictOnKey(texts: Texts, planned: seq<Planned>, key: Key)
    requires Ready(texts, planned)
    ensures !Conflict(texts, Entries(planned, key))
  {
    hide Entries, TrimSpace, PlannedFor, Canonical, Compatible, SniKey;
    var entries := Entries(planned, key);
    EntriesReady(texts, planned, key);
    forall i, j | 0 <= i < j < |entries|
      ensures entries[i].rule.matchType == entries[j].rule.matchType == TlsSni
      ensures entries[i].rule.proxyProtocolIn == entries[j].rule.proxyProtocolIn
      ensures SniKey(texts, entries[i].rule) != SniKey(texts, entries[j].rule)
    {
      EntryPair(texts, planned, key, i, j);
    }
    if |entries| > 1 {
      forall i | 0 <= i < |entries|
        ensures entries[i].rule.matchType == TlsSni && entries[i].rule.proxyProtocolIn == entries[0].rule.proxyProtocolIn
      {
        assert i == 0 ==> entries[0].rule.matchType == entries[1].rule.matchType == TlsSni;
        assert i > 0 ==> entries[0].rule.matchType == entries[i].rule.matchType == TlsSni;
      }
    }
  }

  lemma DistinctKeysApart(texts: Texts, planned: seq<Planned>, k: Key, l: Key)
    requires Ready(texts, planned) && k in PlannedKeys(planned) && l in PlannedKeys(planned) && k != l
    ensures !DataplaneOverlap(texts.parse, k, l)
  {
    hide TrimSpace, TrimBrackets, Compatible, Canonical, DataplaneIPsOverlap;
    if DataplaneOverlap(texts.parse, k, l) {
      var i :| 0 <= i < |planned| && PlannedFor(planned[i], k);
      var j :| 0 <= j < |planned| && PlannedFor(planned[j], l);
      DataplaneContends(texts, planned[i], planned[j], k, l);
      if i != j {
        PlannedCompatible(texts, planned, i, j);
        ContendersShare(texts, planned[i], planned[j], k, l);
      }
      assert false;
    }
  }

  lemma PlannedCompatible(texts: Texts, planned: seq<Planned>, i: nat, j: nat)
    requires Ready(texts, planned) && i < |planned| && j < |planned| && i != j
    ensures Compatible(texts, planned[i].rule, planned[j].rule)
  {
    hide Compatible, Canonical;
    if i < j {
      assert Compatible(texts, Rules(planned)[i], Rules(planned)[j]);
    } else {
      assert Compatible(texts, Rules(planned)[j], Rules(planned)[i]);
      CompatibleSymmetric(texts, planned[j].rule, planned[i].rule);
    }
  }

  lemma ContendersShare(texts: Texts, x: Planned, y: Planned, k: Key, l: Key)
    requires Contend(texts, x.rule, y.rule) && Compatible(texts, x.rule, y.rule) && PlannedFor(x, k) && PlannedFor(y, l)
    ensures k == l
  {
    hide TrimSpace, AddressesOverlap;
  }

  /** The dataplane manager finds nothing to report. */
  lemma DataplaneAccepts(texts: Texts, planned: seq<Planned>)
    requires Ready(texts, planned)
    ensures Silent(texts, planned)
  {
    hide Entries, PlannedKeys, Conflict, Ready, DataplaneOverlap;
    forall k, l | k in PlannedKeys(planned) && l in PlannedKeys(planned) && k != l
      ensures !PairConflict(texts, planned, k, l)
    {
      DistinctKeysApart(texts, planned, k, l);
    }
    forall k | k in PlannedKeys(planned)
      ensures !Conflict(texts, Entries(planned, k))
    {
      NoConflictOnKey(texts, planned, k);
    }
  }

  function OnDataplane(rules: seq<Rule>, dataplane: string): (planned: seq<Planned>)
    ensures |planned| == |rules| && forall i :: 0 <= i < |rules| ==> planned[i] == Planned(rules[i], dataplane)
  {
    seq(|rules|, i requires 0 <= i < |rules| => Planned(rules[i], dataplane))
  }

  lemma DeployedCompatible(texts: Texts, rules: map<string, ForwardRule>, ids: seq<string>, node: string, deployed: seq<Rule>)
    requires Sound(texts, rules) && OnNode(rules, ids, node)
    requires multiset(deployed) == multiset(Compile(rules, ids))
    ensures AllCompatible(texts, deployed) && CanonicalRules(texts, deployed)
  {
    hide Sound, Compatible, Canonical, Compile, AllCompatible;
    CompileCompatible(texts, rules, ids, node);
    CompileCanonical(texts, rules, ids, node);
    ReorderCompatible(texts, Compile(rules, ids), deployed);
    forall x | x in deployed
      ensures Canonical(texts, x)
    {
      assert x in multiset(deployed);
      assert x in Compile(rules, ids);
    }
  }

  lemma PlannedReady(texts: Texts, deployed: seq<Rule>, dataplane: string)
    requires AllCompatible(texts, deployed) && CanonicalRules(texts, deployed)
    ensures Ready(texts, OnDataplane(deployed, dataplane))
  {
    hide Compatible, Canonical;
    var planned := OnDataplane(deployed, dataplane);
    assert Rules(planned) == deployed;
    assert forall i :: 0 <= i < |planned| ==> planned[i].rule in deployed;
  }

  /**
   Admission implies deployability: for every node and every order in which its admitted
   rules are compiled, the forwarder accepts them, every listener is unambiguous and, on
   one dataplane, conflict detection is silent.
   */
  lemma AdmittedRulesDeploy(texts: Texts, rules: map<string, ForwardRule>, ids: seq<string>, node: string, deployed: seq<Rule>, dataplane: string)
    requires Sound(texts, rules) && OnNode(rules, ids, node)
    requires multiset(deployed) == multiset(Compile(rules, ids))
    ensures !S.Malformed(deployed) && Safe(texts.parse, S.Occupied(deployed))
    ensures forall key :: WellServed(texts, Serving(deployed, key))
    ensures Silent(texts, OnDataplane(deployed, dataplane))
  {
    hide Sound, AllCompatible, CanonicalRules, Compile, Serving, WellServed, Safe, Ready, Silent;
    hide S.Malformed, S.Occupied, OnDataplane;
    DeployedCompatible(texts, rules, ids, node, deployed);
    ForwarderAccepts(texts, deployed);
    forall key
      ensures WellServed(texts, Serving(deployed, key))
    {
      ListenersWellServed(texts, deployed, key);
    }
    PlannedReady(texts, deployed, dataplane);
    DataplaneAccepts(texts, OnDataplane(deployed, dataplane));
  }

  // ---- why the stored form matters: facts about the bare functions

  /** A pair of SNI rules that meet at one port and that admission accepts, however they are spelled. */
  ghost predicate AdmittedPair(texts: Texts, x: Rule, y: Rule) {
    && x.matchType == y.matchType == TlsSni && x.protocol == y.protocol == TCP && Contend(texts, x, y)
    && Bare(x.listenIP) == Bare(y.listenIP) && !EqualFold(texts, x.sniHostname, y.sniHostname)
    && NormalizeProxyProtocol(texts, x.proxyProtocolIn) == NormalizeProxyProtocol(texts, y.proxyProtocolIn)
  }

  lemma AdmittedPairIff(texts: Texts, x: Rule, y: Rule, node: string)
    requires x.matchType == y.matchType == TlsSni && x.protocol == y.protocol == TCP && Contend(texts, x, y) && x.port != 0
    ensures AdmittedPair(texts, x, y) <==>
              Clash(texts, BindingOf(ForwardRule(x, [], "", []), node, PS.Segment(x.port, x.port)),
                    BindingOf(ForwardRule(y, [], "", []), node, PS.Segment(y.port, y.port))) == Accepted
  {
    hide TrimSpace, TrimBrackets, Unspecified, NormalizeProxyProtocol, EqualFold;
  }

  /** The forwarder finds their listeners overlapping but different exactly for two spellings of a wildcard. */
  lemma OverlapWithoutEqualityIff(texts: Texts, x: Rule, y: Rule)
    requires AdmittedPair(texts, x, y)
    ensures var k, l := Key(x.listenIP, TCP, x.port), Key(y.listenIP, TCP, y.port);
            Overlap(texts.parse, k, l) && k != l <==> x.listenIP != y.listenIP && Wildcard(texts.parse, x.listenIP)
  {
    hide TrimSpace, TrimBrackets, Unspecified;
  }

  /** The dataplane objects exactly when the trimmed PROXY settings differ or the lower-cased names of two rules agree. */
  lemma ConflictIffSpelling(texts: Texts, x: Rule, y: Rule, dataplane: string)
    requires AdmittedPair(texts, x, y)
    ensures Conflict(texts, [Planned(x, dataplane), Planned(y, dataplane)]) <==>
              TrimSpace(x.proxyProtocolIn) != TrimSpace(y.proxyProtocolIn)
              || (x.id != y.id && SniKey(texts, x) == SniKey(texts, y))
  {
    hide TrimSpace, TrimBrackets, Unspecified, Contend;
    var entries := [Planned(x, dataplane), Planned(y, dataplane)];
    assert entries[0] == Planned(x, dataplane) && entries[1] == Planned(y, dataplane);
    if x.id != y.id && SniKey(texts, x) == SniKey(texts, y) {
      assert TwoRulesOneSNI(texts, entries);
    }
  }
}

/**
 What overlap means: listeners compete when there is a socket that both take. An unspecified
 address takes every address of its family at the dataplane, and of both families in the
 forwarder. The code compares spellings, so it misses exactly two spellings of one address.
 */
module Sockets {
  import opened Text
  import opened Listeners
  import A = Admission
  import D = Deployment
  import L = ListenerLocks
  import H = ListenerHolding

  datatype Socket = Socket(address: Address, protocol: Protocol, port: int)

  // ---- the dataplane and the lock files

  function DataplaneAddress(parse: Parser, listenIP: string): Option<Address> {
    var trimmed := TrimSpace(listenIP);
    parse(TrimBrackets(if trimmed == "" then "0.0.0.0" else trimmed))
  }

  predicate Takes(parse: Parser, key: Key, socket: Socket) {
    && key.protocol == socket.protocol && key.port == socket.port
    && var a := DataplaneAddress(parse, key.listenIP);
       a.Some? && a.value.v4 == socket.address.v4 && (a.value.value == 0 || a.value == socket.address)
  }

  ghost predicate ShareSocket(parse: Parser, k: Key, l: Key) {
    exists socket :: Takes(parse, k, socket) && Takes(parse, l, socket)
  }

  predicate Literal(parse: Parser, key: Key) {
    DataplaneAddress(parse, key.listenIP).Some?
  }

  /** The same address, not the unspecified one, written in two ways. */
  predicate TwoSpellings(parse: Parser, k: Key, l: Key) {
    && k.protocol == l.protocol && k.port == l.port
    && DataplaneAddress(parse, k.listenIP) == DataplaneAddress(parse, l.listenIP)
    && DataplaneAddress(parse, k.listenIP).Some? && DataplaneAddress(parse, k.listenIP).value.value != 0
    && D.NormalizeListenIP(k.listenIP) != D.NormalizeListenIP(l.listenIP)
  }

  /** The dataplane's test finds every shared socket but those of two spellings, and nothing else. */
  lemma OverlapIffShare(parse: Parser, k: Key, l: Key)
    requires Literal(parse, k) && Literal(parse, l)
    ensures D.DataplaneOverlap(parse, k, l) <==> ShareSocket(parse, k, l) && !TwoSpellings(parse, k, l)
  {
    hide TrimSpace, TrimBrackets;
    var a, b := DataplaneAddress(parse, k.listenIP).value, DataplaneAddress(parse, l.listenIP).value;
    if D.DataplaneOverlap(parse, k, l) || TwoSpellings(parse, k, l) {
      var socket := Socket(if a.value == 0 then b else a, k.protocol, k.port);
      assert Takes(parse, k, socket) && Takes(parse, l, socket);
    }
    if ShareSocket(parse, k, l) {
      var socket :| Takes(parse, k, socket) && Takes(parse, l, socket);
      assert a.v4 == b.v4 && (a.value == 0 || b.value == 0 || a == b);
    }
  }

  /** Over every run: lock files of two live processes share a socket only through two spellings of an address. */
  lemma LockFilesShareNoSocket(site: L.Site, s: L.State, events: seq<L.Event>, a: string, b: string)
    requires L.Initial(s) && L.Runnable(site, s, events)
    requires var t := L.Run(site, s, events);
             L.HeldBy(t, a) && L.HeldBy(t, b) && t.files[a].owner != t.files[b].owner
             && Literal(site.parse, t.files[a].key) && Literal(site.parse, t.files[b].key)
    ensures var t := L.Run(site, s, events);
            ShareSocket(site.parse, t.files[a].key, t.files[b].key) ==> TwoSpellings(site.parse, t.files[a].key, t.files[b].key)
  {
    hide L.Run, L.Runnable, D.DataplaneOverlap, ShareSocket, TwoSpellings, Literal;
    L.LockFilesNeverCompete(site, s, events);
    var t := L.Run(site, s, events);
    OverlapIffShare(site.parse, t.files[a].key, t.files[b].key);
  }

  /** The same for the listeners two live processes have acquired, in considerate runs. */
  lemma AcquiredShareNoSocket(site: L.Site, s: L.State, events: seq<L.Event>, p: L.Proc, q: L.Proc, k: Key, l: Key)
    requires L.Initial(s) && L.Runnable(site, s, events) && H.Considerate(site, s, events) && H.HarmlessFailures(site, s, events)
    requires var t := L.Run(site, s, events);
             p in t.live && q in t.live && p != q && k in t.live[p].acquired && l in t.live[q].acquired
    requires Literal(site.parse, k) && Literal(site.parse, l)
    ensures ShareSocket(site.parse, k, l) ==> TwoSpellings(site.parse, k, l)
  {
    hide L.Run, L.Runnable, H.Considerate, H.HarmlessFailures, D.DataplaneOverlap, ShareSocket, TwoSpellings, Literal;
    H.AcquiredLocksAreExclusive(site, s, events, p, q, k, l);
    OverlapIffShare(site.parse, k, l);
  }

  // ---- conflict detection

  lemma {:induction false} EntriesHas(planned: seq<D.Planned>, key: Key, entry: D.Planned)
    requires entry in planned && D.PlannedFor(entry, key)
    ensures entry in D.Entries(planned, key)
  {
    hide D.PlannedFor;
    var front, last := planned[..|planned| - 1], planned[|planned| - 1];
    assert planned == front + [last];
    if entry != last { EntriesHas(front, key, entry); }
  }

  lemma AnyConflicts(texts: A.Texts, entries: seq<D.Planned>, x: D.Planned, y: D.Planned)
    requires x in entries && y in entries && x != y && x.rule.matchType == AnyInbound
    ensures D.Conflict(texts, entries)
  {
    hide TrimSpace, D.TwoRulesOneSNI;
    var i :| 0 <= i < |entries| && entries[i] == x;
    var j :| 0 <= j < |entries| && entries[j] == y;
  }

  /**
   Two planned rules whose listeners share a socket, one of them taking all traffic, are always
   reported, unless the address is spelled in two ways.
   */
  lemma SharedSocketIsReported(texts: A.Texts, planned: seq<D.Planned>, keys: seq<Key>, x: D.Planned, y: D.Planned, k: Key, l: Key)
    requires x in planned && y in planned && x != y && x.rule.matchType == AnyInbound && D.PlannedFor(x, k) && D.PlannedFor(y, l)
    requires Literal(texts.parse, k) && Literal(texts.parse, l) && ShareSocket(texts.parse, k, l) && !TwoSpellings(texts.parse, k, l)
    requires k in keys && l in keys
    ensures (exists i, j :: 0 <= i < j < |keys| && D.PairConflict(texts, planned, keys[i], keys[j]))
            || (exists i :: 0 <= i < |keys| && D.Conflict(texts, D.Entries(planned, keys[i])))
  {
    hide D.Entries, D.Conflict, D.PlannedFor, D.DataplaneOverlap, ShareSocket, TwoSpellings, Literal;
    OverlapIffShare(texts.parse, k, l);
    EntriesHas(planned, k, x);
    EntriesHas(planned, l, y);
    var a, b := D.Entries(planned, k), D.Entries(planned, l);
    var i :| 0 <= i < |keys| && keys[i] == k;
    if k == l {
      AnyConflicts(texts, a, x, y);
    } else {
      var j :| 0 <= j < |keys| && keys[j] == l;
      AnyConflicts(texts, a + b, x, y);
      AnyConflicts(texts, b + a, x, y);
      L.OverlapSymmetric(texts.parse, k, l);
      assert D.PairConflict(texts, planned, k, l) && D.PairConflict(texts, planned, l, k);
      assert i < j || j < i;
    }
  }

  // ---- the forwarder and admission

  /** In the forwarder an unspecified or missing address takes both families. */
  predicate TakesAddress(parse: Parser, listenIP: string, address: Address) {
    var bare := TrimBrackets(TrimSpace(listenIP));
    bare == "" || (parse(bare).Some? && (parse(bare).value.value == 0 || parse(bare).value == address))
  }

  predicate Readable(parse: Parser, listenIP: string) {
    var bare := TrimBrackets(TrimSpace(listenIP));
    bare == "" || parse(bare).Some?
  }

  ghost predicate ShareAddress(parse: Parser, left: string, right: string) {
    exists address :: TakesAddress(parse, left, address) && TakesAddress(parse, right, address)
  }

  /** One address, not the unspecified one, read from two strings. */
  predicate SameAddress(parse: Parser, left: string, right: string) {
    var a, b := TrimBrackets(TrimSpace(left)), TrimBrackets(TrimSpace(right));
    a != "" && b != "" && parse(a).Some? && parse(a) == parse(b) && parse(a).value.value != 0
  }

  lemma AddressesShareIff(parse: Parser, left: string, right: string)
    requires Readable(parse, left) && Readable(parse, right)
    ensures ShareAddress(parse, left, right) <==>
              SameAddress(parse, left, right) || Wildcard(parse, left) || Wildcard(parse, right)
  {
    hide TrimSpace, TrimBrackets;
    var a, b := TrimBrackets(TrimSpace(left)), TrimBrackets(TrimSpace(right));
    if ShareAddress(parse, left, right) {
      var address :| TakesAddress(parse, left, address) && TakesAddress(parse, right, address);
    }
    var zero := Address(true, 0);
    var some := if a == "" || parse(a).value.value == 0 then (if b == "" then zero else parse(b).value) else parse(a).value;
    if SameAddress(parse, left, right) || Wildcard(parse, left) || Wildcard(parse, right) {
      assert TakesAddress(parse, left, some) && TakesAddress(parse, right, some);
    }
  }

  predicate TakesForward(parse: Parser, key: Key, socket: Socket) {
    key.protocol == socket.protocol && key.port == socket.port && TakesAddress(parse, key.listenIP, socket.address)
  }

  ghost predicate ShareForward(parse: Parser, k: Key, l: Key) {
    exists socket :: TakesForward(parse, k, socket) && TakesForward(parse, l, socket)
  }

  /** The forwarder's test finds every shared socket but those of two spellings, and nothing else. */
  lemma ForwardOverlapIffShare(parse: Parser, k: Key, l: Key)
    requires Readable(parse, k.listenIP) && Readable(parse, l.listenIP)
    ensures Overlap(parse, k, l) <==>
              ShareForward(parse, k, l) && (k.listenIP == l.listenIP || !SameAddress(parse, k.listenIP, l.listenIP))
  {
    hide TrimSpace, TrimBrackets, Wildcard, TakesAddress;
    AddressesShareIff(parse, k.listenIP, l.listenIP);
    SpellingFacts(parse, k.listenIP, l.listenIP);
    if ShareForward(parse, k, l) {
      var socket :| TakesForward(parse, k, socket) && TakesForward(parse, l, socket);
      assert ShareAddress(parse, k.listenIP, l.listenIP);
    }
    if ShareAddress(parse, k.listenIP, l.listenIP) && k.protocol == l.protocol && k.port == l.port {
      var address :| TakesAddress(parse, k.listenIP, address) && TakesAddress(parse, l.listenIP, address);
      assert TakesForward(parse, k, Socket(address, k.protocol, k.port)) && TakesForward(parse, l, Socket(address, k.protocol, k.port));
    }
  }

  lemma SpellingFacts(parse: Parser, left: string, right: string)
    requires Readable(parse, left) && Readable(parse, right)
    ensures left == right ==> SameAddress(parse, left, right) || Wildcard(parse, left)
    ensures SameAddress(parse, left, right) ==> !Wildcard(parse, left) && !Wildcard(parse, right)
  {
    hide TrimSpace, TrimBrackets;
  }

  /** A safe set of listeners: two of them take one socket only through two spellings of an address. */
  lemma SafeIffNoSharedSocket(parse: Parser, keys: set<Key>)
    requires forall k :: k in keys ==> Readable(parse, k.listenIP)
    ensures Safe(parse, keys) <==>
              forall k, l :: k in keys && l in keys && k != l && ShareForward(parse, k, l) ==>
                k.listenIP != l.listenIP && SameAddress(parse, k.listenIP, l.listenIP)
  {
    hide Overlap, ShareForward, SameAddress, Readable;
    forall k, l | k in keys && l in keys
      ensures Overlap(parse, k, l) <==> ShareForward(parse, k, l) && (k.listenIP == l.listenIP || !SameAddress(parse, k.listenIP, l.listenIP))
    {
      ForwardOverlapIffShare(parse, k, l);
    }
  }

  /** What a binding takes on its node. */
  predicate Binds(parse: Parser, b: A.Binding, socket: Socket) {
    b.startPort <= socket.port <= b.endPort && socket.protocol in Protocols(b.protocol) && TakesAddress(parse, b.listenIP, socket.address)
  }

  predicate Ordered(b: A.Binding) {
    0 < b.startPort <= b.endPort
  }

  ghost predicate ShareBinding(parse: Parser, a: A.Binding, b: A.Binding) {
    exists socket :: Binds(parse, a, socket) && Binds(parse, b, socket)
  }

  lemma ProtocolsShareIff(p: Protocol, q: Protocol)
    ensures A.ProtocolsOverlap(p, q) <==> exists r :: r in Protocols(p) && r in Protocols(q)
  {
    if A.ProtocolsOverlap(p, q) {
      var r := if p == TCPUDP then Protocols(q)[0] else Protocols(p)[0];
      assert r in Protocols(p) && r in Protocols(q);
    }
  }

  /** Admission takes two bindings for one endpoint exactly when they share a socket on a node, two spellings apart. */
  lemma EndpointIffShare(parse: Parser, a: A.Binding, b: A.Binding)
    requires Ordered(a) && Ordered(b) && Readable(parse, a.listenIP) && Readable(parse, b.listenIP)
    ensures A.SameEndpoint(parse, a, b) <==>
              a.nodeID == b.nodeID && ShareBinding(parse, a, b)
              && (A.Bare(a.listenIP) == A.Bare(b.listenIP) || !SameAddress(parse, a.listenIP, b.listenIP))
  {
    hide TrimSpace, TrimBrackets, TakesAddress, Protocols;
    AddressesShareIff(parse, a.listenIP, b.listenIP);
    ProtocolsShareIff(a.protocol, b.protocol);
    BareFacts(parse, a.listenIP, b.listenIP);
    if ShareBinding(parse, a, b) {
      var socket :| Binds(parse, a, socket) && Binds(parse, b, socket);
      assert ShareAddress(parse, a.listenIP, b.listenIP);
    }
    if ShareAddress(parse, a.listenIP, b.listenIP) && A.ProtocolsOverlap(a.protocol, b.protocol)
       && a.startPort <= b.endPort && b.startPort <= a.endPort {
      var address :| TakesAddress(parse, a.listenIP, address) && TakesAddress(parse, b.listenIP, address);
      var r :| r in Protocols(a.protocol) && r in Protocols(b.protocol);
      var socket := Socket(address, r, if a.startPort <= b.startPort then b.startPort else a.startPort);
      assert Binds(parse, a, socket) && Binds(parse, b, socket);
    }
  }

  lemma BareFacts(parse: Parser, left: string, right: string)
    requires Readable(parse, left) && Readable(parse, right)
    ensures A.AddressesOverlap(parse, left, right) <==>
              A.Bare(left) == A.Bare(right) || Wildcard(parse, left) || Wildcard(parse, right)
    ensures A.Bare(left) == A.Bare(right) ==> SameAddress(parse, left, right) || Wildcard(parse, left)
    ensures SameAddress(parse, left, right) ==> !Wildcard(parse, left) && !Wildcard(parse, right)
  {
    hide TrimSpace, TrimBrackets;
  }

  /** The verdict on two bindings, told from what they take. */
  lemma ClashMeans(texts: A.Texts, a: A.Binding, b: A.Binding)
    ensures !A.SameEndpoint(texts.parse, a, b) ==> A.Clash(texts, a, b) == A.Accepted
    ensures A.SameEndpoint(texts.parse, a, b) && !(a.matchType == b.matchType == TlsSni) ==> A.Clash(texts, a, b) == A.PortConflict
    ensures A.SameEndpoint(texts.parse, a, b) && a.matchType == b.matchType == TlsSni && A.Bare(a.listenIP) == A.Bare(b.listenIP)
            && A.NormalizeProxyProtocol(texts, a.proxyProtocolIn) == A.NormalizeProxyProtocol(texts, b.proxyProtocolIn) ==>
              A.Clash(texts, a, b) == if texts.fold(a.sni) == texts.fold(b.sni) then A.DuplicateSNI else A.Accepted
  {
    hide A.SameEndpoint, TrimSpace, TrimBrackets;
  }

  /** Two spellings of one address: both rules are admitted and both listeners pass, though they take one socket. */
  lemma SpellingsGoUnnoticed(texts: A.Texts, a: A.Binding, b: A.Binding)
    requires SameAddress(texts.parse, a.listenIP, b.listenIP) && A.Bare(a.listenIP) != A.Bare(b.listenIP)
    ensures A.Clash(texts, a, b) == A.Accepted
    ensures forall protocol, port :: !Overlap(texts.parse, Key(a.listenIP, protocol, port), Key(b.listenIP, protocol, port))
  {
    hide TrimSpace, TrimBrackets;
  }
}

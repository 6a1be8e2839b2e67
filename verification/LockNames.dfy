/**
 The file names of listener locks. Every character but letters and digits becomes an
 underscore, so an address written with dots and one written with colons can share a file.
 */
module LockNames {
  import opened Text
  import opened Listeners

  predicate Letter(c: char) {
    'a' <= c <= 'z' || 'A' <= c <= 'Z'
  }

  predicate Digit(c: char) {
    '0' <= c <= '9'
  }

  function Decimal(n: nat): (s: string)
    ensures s != [] && forall i :: 0 <= i < |s| ==> Digit(s[i])
    ensures |s| == 1 <==> n < 10
    ensures (n < 100 ==> |s| <= 2) && (n < 1000 ==> |s| <= 3) && (n < 10000 ==> |s| <= 4) && (n < 100000 ==> |s| <= 5)
  {
    if n < 10 then ['0' + n as char] else Decimal(n / 10) + ['0' + (n % 10) as char]
  }

  lemma {:induction false} DecimalInjective(n: nat, m: nat)
    requires Decimal(n) == Decimal(m)
    ensures n == m
  {
    if n >= 10 {
      var a, b := Decimal(n), Decimal(m);
      assert |b| > 1 && m >= 10;
      assert a[..|a| - 1] == Decimal(n / 10) && b[..|b| - 1] == Decimal(m / 10);
      assert a[|a| - 1] == '0' + (n % 10) as char && b[|b| - 1] == '0' + (m % 10) as char;
      DecimalInjective(n / 10, m / 10);
    } else {
      assert Decimal(n) == ['0' + n as char] && Decimal(m) == ['0' + m as char];
    }
  }

  // ---- sanitising

  /** Any character that is not a letter or a digit, underscored. */
  function Blur(s: string): (r: string)
    ensures |r| == |s| && forall i :: 0 <= i < |s| ==> r[i] == if Letter(s[i]) || Digit(s[i]) then s[i] else '_'
  {
    seq(|s|, i requires 0 <= i < |s| => if Letter(s[i]) || Digit(s[i]) then s[i] else '_')
  }

  function TrimUnderscores(s: string): (r: string)
    ensures s != [] && s[0] != '_' && s[|s| - 1] != '_' ==> r == s
  {
    if s == [] then []
    else if s[0] == '_' then TrimUnderscores(s[1..])
    else if s[|s| - 1] == '_' then TrimUnderscores(s[..|s| - 1])
    else s
  }

  function SanitizeName(value: string): string {
    var trimmed := TrimSpace(value);
    if trimmed == "" then "default"
    else
      var result := TrimUnderscores(Blur(trimmed));
      if result == "" then "default" else if |result| > 60 then result[..60] else result
  }

  function ProtocolName(protocol: Protocol): string {
    match protocol
    case TCP => "TCP"
    case UDP => "UDP"
    case TCPUDP => "TCP_UDP"
    case OtherProtocol(name) => name
  }

  function KeyString(key: Key): string
    requires key.port >= 0
  {
    ProtocolName(key.protocol) + "/" + key.listenIP + ":" + Decimal(key.port)
  }

  function LockName(key: Key): string
    requires key.port >= 0
  {
    SanitizeName(KeyString(key)) + ".lock"
  }

  // ---- when two listeners share a file

  /** A TCP or UDP listener on a short address. */
  predicate Ordinary(key: Key) {
    key.protocol in {TCP, UDP} && key.port >= 0 && |KeyString(key)| <= 60
  }

  lemma BlurConcat(a: string, b: string)
    ensures Blur(a + b) == Blur(a) + Blur(b)
  {
  }

  lemma DigitsStay(s: string)
    requires forall i :: 0 <= i < |s| ==> Digit(s[i])
    ensures Blur(s) == s
  {
  }

  lemma NameOfOrdinary(key: Key)
    requires Ordinary(key)
    ensures LockName(key) == ProtocolName(key.protocol) + "_" + Blur(key.listenIP) + "_" + Decimal(key.port) + ".lock"
  {
    hide TrimSpace, TrimUnderscores, Decimal;
    var name, port := ProtocolName(key.protocol), Decimal(key.port);
    var s := KeyString(key);
    BlurConcat(name + "/" + key.listenIP + ":", port);
    BlurConcat(name + "/" + key.listenIP, ":");
    BlurConcat(name + "/", key.listenIP);
    DigitsStay(port);
    assert Blur(name + "/") == name + "_" && Blur(":") == "_";
    var blurred := Blur(s);
    assert blurred == name + "_" + Blur(key.listenIP) + "_" + port;
    assert s[0] in "TU" && Digit(s[|s| - 1]);
    assert !IsSpace(s[0]) && !IsSpace(s[|s| - 1]);
    assert TrimSpace(s) == s;
    assert blurred[0] == s[0] != '_' && blurred[|blurred| - 1] == s[|s| - 1] != '_';
  }

  /** Cutting at the last underscore is unambiguous. */
  lemma CutAtPort(a: string, p: string, b: string, q: string)
    requires a + "_" + p == b + "_" + q
    requires (forall i :: 0 <= i < |p| ==> Digit(p[i])) && (forall i :: 0 <= i < |q| ==> Digit(q[i]))
    ensures a == b && p == q
  {
    NotShorter(a, p, b, q);
    NotShorter(b, q, a, p);
    var s, t := a + "_" + p, b + "_" + q;
    assert s[..|a|] == a && t[..|b|] == b && s[|a| + 1..] == p && t[|b| + 1..] == q;
  }

  lemma NotShorter(a: string, p: string, b: string, q: string)
    requires a + "_" + p == b + "_" + q && forall i :: 0 <= i < |q| ==> Digit(q[i])
    ensures |a| <= |b|
  {
    var s, t := a + "_" + p, b + "_" + q;
    assert s[|a|] == '_';
    assert forall i :: |b| < i < |t| ==> t[i] == q[i - |b| - 1] && Digit(t[i]);
  }

  /** Two listeners share a lock file if and only if they differ in nothing but punctuation of the address. */
  lemma SameNameIff(k: Key, l: Key)
    requires Ordinary(k) && Ordinary(l)
    ensures LockName(k) == LockName(l) <==> k.protocol == l.protocol && k.port == l.port && Blur(k.listenIP) == Blur(l.listenIP)
  {
    hide LockName, Decimal, Blur, KeyString;
    NameOfOrdinary(k);
    NameOfOrdinary(l);
    if LockName(k) == LockName(l) {
      var a, b := ProtocolName(k.protocol) + "_" + Blur(k.listenIP), ProtocolName(l.protocol) + "_" + Blur(l.listenIP);
      var p, q := Decimal(k.port), Decimal(l.port);
      SameBeforeSuffix(a + "_" + p, b + "_" + q);
      CutAtPort(a, p, b, q);
      DecimalInjective(k.port, l.port);
      assert a[..3] == ProtocolName(k.protocol) && b[..3] == ProtocolName(l.protocol);
      assert a[0] == b[0];
      assert a[4..] == Blur(k.listenIP) && b[4..] == Blur(l.listenIP);
    }
  }

  lemma SameBeforeSuffix(a: string, b: string)
    requires a + ".lock" == b + ".lock"
    ensures a == b
  {
    assert (a + ".lock")[..|a|] == a && (b + ".lock")[..|b|] == b;
  }

  /** Two different addresses that do. */
  lemma AddressesCollide(protocol: Protocol, port: nat)
    requires protocol in {TCP, UDP} && port <= 65535
    ensures LockName(Key("::ffff:1.2.3.4", protocol, port)) == LockName(Key("::ffff:1:2:3:4", protocol, port))
  {
    hide LockName, TrimSpace;
    var k, l := Key("::ffff:1.2.3.4", protocol, port), Key("::ffff:1:2:3:4", protocol, port);
    hide Decimal;
    assert Blur(k.listenIP) == Blur(l.listenIP);
    SameNameIff(k, l);
  }
}

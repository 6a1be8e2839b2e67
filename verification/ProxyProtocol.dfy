/**
 The PROXY protocol, versions 1 (text) and 2 (binary), sections 2.1 and 2.2 of the
 HAProxy PROXY protocol specification: parsing, building, and reading a header off a stream.
 */
module ProxyProtocol {
  import opened Text
  import opened Bytes
  import opened ProxyText

  datatype Version = NoProxy | V1 | V2

  /** Addresses of 4 or 16 bytes. */
  datatype Info = Info(version: Version, source: seq<byte>, destination: seq<byte>, sourcePort: int, destinationPort: int)

  datatype Result = Parsed(info: Info, rest: seq<byte>) | Rejected

  /** Textual IPv6 addresses are read by a library; any reading will do. */
  type Parser6 = seq<byte> -> Option<seq<byte>>

  /** "PROXY ", "PROXY", "TCP4", "TCP6" */
  const PROXY: seq<byte> := [80, 82, 79, 88, 89]
  const TCP4: seq<byte> := [84, 67, 80, 52]
  const TCP6: seq<byte> := [84, 67, 80, 54]

  const Signature: seq<byte> := [0x0d, 0x0a, 0x0d, 0x0a, 0x00, 0x0d, 0x0a, 0x51, 0x55, 0x49, 0x54, 0x0a]

  const NoInfo: Info := Info(NoProxy, [], [], 0, 0)

  // ---- addresses

  const MappedPrefix: seq<byte> := [0, 0, 0, 0, 0, 0, 0, 0, 0, 0, 255, 255]

  function To4(ip: seq<byte>): Option<seq<byte>> {
    if |ip| == 4 then Some(ip)
    else if |ip| == 16 && ip[..12] == MappedPrefix then Some(ip[12..])
    else None
  }

  /** The first dot or colon tells the family; a zone is refused. */
  function ReadIP(parse6: Parser6, s: seq<byte>, k: nat): Option<seq<byte>>
    requires k <= |s|
    decreases |s| - k
  {
    if k == |s| then None
    else if s[k] == 46 then ReadQuad(s)
    else if s[k] == 58 then parse6(s)
    else if s[k] == 37 then None
    else ReadIP(parse6, s, k + 1)
  }

  function ReadAddress(parse6: Parser6, protocol: seq<byte>, value: seq<byte>): Option<seq<byte>> {
    match ReadIP(parse6, value, 0)
    case None => None
    case Some(ip) =>
      if protocol == TCP4 then To4(ip)
      else if To4(ip).Some? || |ip| != 16 then None
      else Some(ip)
  }

  // ---- version 1

  /** Where the first CR LF is. */
  function LineEnd(data: seq<byte>): (r: Option<nat>)
    ensures r.Some? ==> r.value + 2 <= |data| && data[r.value] == 13 && data[r.value + 1] == 10
    ensures r.Some? ==> forall k :: 0 <= k < r.value ==> !(data[k] == 13 && data[k + 1] == 10)
    ensures r.None? ==> forall k :: 0 <= k < |data| - 1 ==> !(data[k] == 13 && data[k + 1] == 10)
  {
    if |data| < 2 then None
    else if data[0] == 13 && data[1] == 10 then Some(0)
    else
      var later := LineEnd(data[1..]);
      if later.None? then
        assert forall k :: 1 <= k < |data| - 1 ==> data[k] == data[1..][k - 1] && data[k + 1] == data[1..][k];
        None
      else
        assert forall k :: 1 <= k <= later.value + 1 ==> data[k] == data[1..][k - 1] && data[k + 1] == data[1..][k];
        Some(later.value + 1)
  }

  function ReadLine(parse6: Parser6, line: seq<byte>): Option<Info> {
    var fields := Fields(line);
    if |fields| != 6 || fields[0] != PROXY || fields[1] !in {TCP4, TCP6} then None
    else
      var sourcePort, destinationPort := ReadPort(fields[4]), ReadPort(fields[5]);
      var source, destination := ReadAddress(parse6, fields[1], fields[2]), ReadAddress(parse6, fields[1], fields[3]);
      if sourcePort.None? || destinationPort.None? || source.None? || destination.None? then None
      else Some(Info(V1, source.value, destination.value, sourcePort.value, destinationPort.value))
  }

  function ParseV1(parse6: Parser6, data: seq<byte>): Result {
    match LineEnd(data)
    case None => Rejected
    case Some(index) =>
      match ReadLine(parse6, data[..index])
      case None => Rejected
      case Some(info) => Parsed(info, data[index + 2..])
  }

  function WriteLine(source: seq<byte>, destination: seq<byte>, sourcePort: int, destinationPort: int): seq<byte>
    requires |source| == 4 && |destination| == 4
  {
    LineWith(32, source, destination, sourcePort, destinationPort)
  }

  /** The line with any byte between the protocol and the addresses. */
  function LineWith(blank: byte, source: seq<byte>, destination: seq<byte>, sourcePort: int, destinationPort: int): seq<byte>
    requires |source| == 4 && |destination| == 4
  {
    PROXY + [32] + (TCP4 + [blank] + (WriteQuad(source) + [32] + (WriteQuad(destination) + [32] + (Signed(sourcePort) + [32] + Signed(destinationPort)))))
  }

  function BuildV1(info: Info): Option<seq<byte>> {
    var source, destination := To4(info.source), To4(info.destination);
    if source.None? || destination.None? then None
    else Some(WriteLine(source.value, destination.value, info.sourcePort, info.destinationPort) + [13, 10])
  }

  /** Go prints a negative port with its sign. */
  function Signed(n: int): seq<byte> {
    if n < 0 then [45] + Decimal(-n) else Decimal(n)
  }

  // ---- version 2

  function ParseV2(data: seq<byte>): Result {
    if |data| < 16 then Rejected
    else
      var length := U16(data[14], data[15]);
      if data[12] != 0x21 || |data| < 16 + length then Rejected
      else if data[13] == 0x11 && length >= 12 then
        Parsed(Info(V2, MappedPrefix + data[16..20], MappedPrefix + data[20..24], U16(data[24], data[25]), U16(data[26], data[27])), data[16 + length..])
      else if data[13] == 0x21 && length >= 36 then
        Parsed(Info(V2, data[16..32], data[32..48], U16(data[48], data[49]), U16(data[50], data[51])), data[16 + length..])
      else Rejected
  }

  /** A port is cut down to sixteen bits. */
  function Low16(n: int): nat {
    n % 65536
  }

  method Copy(header: array<byte>, at: nat, bytes: seq<byte>)
    requires at + |bytes| <= header.Length
    modifies header
    ensures header[..] == old(header[..at]) + bytes + old(header[at + |bytes|..])
  {
    for i := 0 to |bytes|
      invariant header[at..at + i] == bytes[..i]
      invariant header[..at] == old(header[..at])
      invariant header[at + i..] == old(header[at + i..])
    {
      header[at + i] := bytes[i];
    }
    assert header[..] == header[..at] + header[at..at + |bytes|] + header[at + |bytes|..];
  }

  /** The 28 bytes of a version 2 header for IPv4 over TCP. */
  function WriteV2(source: seq<byte>, destination: seq<byte>, sourcePort: nat, destinationPort: nat): seq<byte>
    requires |source| == 4 && |destination| == 4 && sourcePort < 65536 && destinationPort < 65536
  {
    Signature + [0x21, 0x11] + E16(12) + source + destination + E16(sourcePort) + E16(destinationPort)
  }

  function BuildV2(info: Info): Option<seq<byte>> {
    var source, destination := To4(info.source), To4(info.destination);
    if source.None? || destination.None? then None
    else Some(WriteV2(source.value, destination.value, Low16(info.sourcePort), Low16(info.destinationPort)))
  }

  method BuildProxyV2(info: Info) returns (r: Option<seq<byte>>)
    ensures r == BuildV2(info)
  {
    var source, destination := To4(info.source), To4(info.destination);
    if source.None? || destination.None? { return None; }
    var header := new byte[28](i => 0);
    Copy(header, 0, Signature);
    header[12] := 0x21;
    header[13] := 0x11;
    assert header[..14] == Signature + [0x21, 0x11];
    Copy(header, 14, E16(12));
    assert header[..16] == Signature + [0x21, 0x11] + E16(12);
    Copy(header, 16, source.value);
    assert header[..20] == Signature + [0x21, 0x11] + E16(12) + source.value;
    Copy(header, 20, destination.value);
    assert header[..24] == Signature + [0x21, 0x11] + E16(12) + source.value + destination.value;
    Copy(header, 24, E16(Low16(info.sourcePort)));
    assert header[..26] == Signature + [0x21, 0x11] + E16(12) + source.value + destination.value + E16(Low16(info.sourcePort));
    Copy(header, 26, E16(Low16(info.destinationPort)));
    assert header[..] == WriteV2(source.value, destination.value, Low16(info.sourcePort), Low16(info.destinationPort));
    return Some(header[..]);
  }

  // ---- both versions

  function ParseProxyHeader(parse6: Parser6, data: seq<byte>): Result {
    if PROXY + [32] <= data then ParseV1(parse6, data)
    else if Signature <= data then ParseV2(data)
    else Parsed(NoInfo, data)
  }

  function BuildProxyHeader(info: Info): Option<seq<byte>> {
    match info.version
    case V1 => BuildV1(info)
    case V2 => BuildV2(info)
    case NoProxy => None
  }

  ghost predicate Describes(info: Info) {
    info.version != NoProxy && To4(info.source).Some? && To4(info.destination).Some?
    && 0 <= info.sourcePort <= 65535 && 0 <= info.destinationPort <= 65535
  }

  /** The same endpoints; a 4-byte address and its mapped 16-byte form are one. */
  ghost predicate SameEndpoints(a: Info, b: Info) {
    && a.version == b.version && To4(a.source) == To4(b.source) && To4(a.destination) == To4(b.destination)
    && a.sourcePort == b.sourcePort && a.destinationPort == b.destinationPort
  }

  lemma QuadIsSolid(ip: seq<byte>)
    requires |ip| == 4
    ensures Solid(WriteQuad(ip)) && |WriteQuad(ip)| <= 15
    ensures forall i :: 0 <= i < |WriteQuad(ip)| ==> Digit(WriteQuad(ip)[i]) || WriteQuad(ip)[i] == 46
  {
    hide Decimal;
  }

  lemma DecimalIsSolid(n: nat)
    ensures Solid(Decimal(n))
  {
    hide Decimal;
  }

  lemma KeywordsAreSolid()
    ensures Solid(PROXY) && Solid(TCP4) && Solid(TCP6)
  {
  }

  lemma LineFields(blank: byte, source: seq<byte>, destination: seq<byte>, sourcePort: nat, destinationPort: nat)
    requires |source| == 4 && |destination| == 4 && Blank(blank)
    ensures Fields(LineWith(blank, source, destination, sourcePort, destinationPort)) ==
              [PROXY, TCP4, WriteQuad(source), WriteQuad(destination), Decimal(sourcePort), Decimal(destinationPort)]
  {
    hide Fields, WriteQuad, Decimal, Solid;
    var f := Decimal(destinationPort);
    var e := Decimal(sourcePort) + [32] + f;
    var d := WriteQuad(destination) + [32] + e;
    var c := WriteQuad(source) + [32] + d;
    var b := TCP4 + [blank] + c;
    KeywordsAreSolid();
    QuadIsSolid(source);
    QuadIsSolid(destination);
    DecimalIsSolid(sourcePort);
    DecimalIsSolid(destinationPort);
    FieldThenBlank(PROXY, 32, b);
    FieldThenBlank(TCP4, blank, c);
    FieldThenBlank(WriteQuad(source), 32, d);
    FieldThenBlank(WriteQuad(destination), 32, e);
    FieldThenBlank(Decimal(sourcePort), 32, f);
    LastField(f);
  }

  /** Plain text: printable, so no CR or LF inside. */
  ghost predicate Printable(s: seq<byte>) {
    forall i :: 0 <= i < |s| ==> s[i] >= 32
  }

  lemma LineIsPrintable(source: seq<byte>, destination: seq<byte>, sourcePort: nat, destinationPort: nat)
    requires |source| == 4 && |destination| == 4
    ensures Printable(WriteLine(source, destination, sourcePort, destinationPort))
    ensures sourcePort <= 65535 && destinationPort <= 65535 ==> |WriteLine(source, destination, sourcePort, destinationPort)| <= 54
  {
    hide WriteQuad, Decimal;
    QuadIsSolid(source);
    QuadIsSolid(destination);
  }

  lemma {:induction false} QuadReads(parse6: Parser6, ip: seq<byte>)
    requires |ip| == 4
    ensures ReadAddress(parse6, TCP4, WriteQuad(ip)) == Some(ip)
  {
    hide ReadQuad, Decimal;
    QuadRoundTrip(ip);
    var s, n := WriteQuad(ip), |Decimal(ip[0])|;
    assert s[n] == 46;
    assert forall k :: 0 <= k < n ==> s[k] == Decimal(ip[0])[k] && Digit(s[k]);
    hide WriteQuad;
    ReadIPReaches(parse6, s, 0, n);
  }

  lemma {:induction false} ReadIPReaches(parse6: Parser6, s: seq<byte>, k: nat, n: nat)
    requires k <= n < |s| && s[n] == 46 && forall i :: k <= i < n ==> Digit(s[i])
    ensures ReadIP(parse6, s, k) == ReadQuad(s)
    decreases n - k
  {
    hide ReadQuad;
    if k < n {
      assert Digit(s[k]);
      ReadIPReaches(parse6, s, k + 1, n);
    }
  }

  lemma LineRoundTrip(parse6: Parser6, blank: byte, source: seq<byte>, destination: seq<byte>, sourcePort: nat, destinationPort: nat)
    requires |source| == 4 && |destination| == 4 && sourcePort <= 65535 && destinationPort <= 65535 && Blank(blank)
    ensures ReadLine(parse6, LineWith(blank, source, destination, sourcePort, destinationPort)) ==
              Some(Info(V1, source, destination, sourcePort, destinationPort))
  {
    hide Fields, WriteQuad, Decimal, LineWith, ReadAddress, ReadPort;
    LineFields(blank, source, destination, sourcePort, destinationPort);
    QuadReads(parse6, source);
    QuadReads(parse6, destination);
    PortRoundTrip(sourcePort);
    PortRoundTrip(destinationPort);
  }

  lemma LineEndsThere(line: seq<byte>, rest: seq<byte>)
    requires Printable(line)
    ensures LineEnd(line + [13, 10] + rest) == Some(|line|)
  {
    hide LineEnd;
    var data := line + [13, 10] + rest;
    assert data[|line|] == 13 && data[|line| + 1] == 10;
    assert forall k :: 0 <= k < |line| ==> data[k] == line[k];
  }

  lemma V1RoundTrip(parse6: Parser6, info: Info, rest: seq<byte>)
    requires Describes(info) && info.version == V1
    ensures BuildV1(info).Some? && |BuildV1(info).value| <= 56
    ensures ParseProxyHeader(parse6, BuildV1(info).value + rest) ==
              Parsed(Info(V1, To4(info.source).value, To4(info.destination).value, info.sourcePort, info.destinationPort), rest)
  {
    hide LineWith, LineEnd, ReadLine, To4;
    ToFour(info.source);
    ToFour(info.destination);
    var source, destination := To4(info.source).value, To4(info.destination).value;
    var line := WriteLine(source, destination, info.sourcePort, info.destinationPort);
    LineIsPrintable(source, destination, info.sourcePort, info.destinationPort);
    LineRoundTrip(parse6, 32, source, destination, info.sourcePort, info.destinationPort);
    LineEndsThere(line, rest);
    var data := line + [13, 10] + rest;
    assert data[..|line|] == line && data[|line| + 2..] == rest;
    LineStarts(source, destination, info.sourcePort, info.destinationPort);
    PrefixStays(PROXY + [32], line, [13, 10] + rest);
    assert line + ([13, 10] + rest) == data;
  }

  lemma ToFour(ip: seq<byte>)
    ensures To4(ip).Some? ==> |To4(ip).value| == 4
  {
  }

  lemma PrefixStays(p: seq<byte>, s: seq<byte>, rest: seq<byte>)
    requires p <= s
    ensures p <= s + rest
  {
  }

  lemma LineStarts(source: seq<byte>, destination: seq<byte>, sourcePort: nat, destinationPort: nat)
    requires |source| == 4 && |destination| == 4
    ensures PROXY + [32] <= WriteLine(source, destination, sourcePort, destinationPort)
  {
    hide WriteQuad, Decimal;
  }

  /** A version 2 header whose block carries `tlvs` after the addresses. */
  function WithTLVs(source: seq<byte>, destination: seq<byte>, sourcePort: nat, destinationPort: nat, tlvs: seq<byte>): seq<byte>
    requires |source| == |destination| && |source| in {4, 16} && sourcePort < 65536 && destinationPort < 65536
    requires 2 * |source| + 4 + |tlvs| < 65536
  {
    Signature + [0x21, if |source| == 4 then 0x11 else 0x21] + E16(2 * |source| + 4 + |tlvs|)
    + source + destination + E16(sourcePort) + E16(destinationPort) + tlvs
  }

  /** Exactly the declared block is skipped, whatever the TLVs hold, for both families. */
  lemma TLVsAreSkipped(parse6: Parser6, source: seq<byte>, destination: seq<byte>, sourcePort: nat, destinationPort: nat, tlvs: seq<byte>, rest: seq<byte>)
    requires |source| == |destination| && |source| in {4, 16} && sourcePort < 65536 && destinationPort < 65536
    requires 2 * |source| + 4 + |tlvs| < 65536
    ensures var mapped := if |source| == 4 then MappedPrefix else [];
            ParseProxyHeader(parse6, WithTLVs(source, destination, sourcePort, destinationPort, tlvs) + rest) ==
              Parsed(Info(V2, mapped + source, mapped + destination, sourcePort, destinationPort), rest)
  {
    hide U16, ParseV1;
    var n := |source|;
    var length, sp, dp := E16(2 * n + 4 + |tlvs|), E16(sourcePort), E16(destinationPort);
    var data := WithTLVs(source, destination, sourcePort, destinationPort, tlvs) + rest;
    var front := Signature + [0x21, if n == 4 then 0x11 else 0x21];
    assert data == front + length + source + destination + sp + dp + tlvs + rest;
    Layout(front, length, source, destination, sp, dp, tlvs, rest);
    assert data[0] == front[0] == 0x0d && data[12] == front[12] == 0x21;
    assert !(PROXY + [32] <= data);
    assert Signature <= data;
    assert [] + source == source && [] + destination == destination;
  }

  lemma Layout(front: seq<byte>, length: seq<byte>, source: seq<byte>, destination: seq<byte>, sp: seq<byte>, dp: seq<byte>, tlvs: seq<byte>, rest: seq<byte>)
    requires |front| == 14 && |length| == |sp| == |dp| == 2 && |destination| == |source|
    ensures var n := |source|;
            var data := front + length + source + destination + sp + dp + tlvs + rest;
            && data[..14] == front && data[14] == length[0] && data[15] == length[1]
            && data[16..16 + n] == source && data[16 + n..16 + 2 * n] == destination
            && data[16 + 2 * n] == sp[0] && data[17 + 2 * n] == sp[1] && data[18 + 2 * n] == dp[0] && data[19 + 2 * n] == dp[1]
            && data[20 + 2 * n + |tlvs|..] == rest
  {
    var n := |source|;
    var data := front + length + source + destination + sp + dp + tlvs + rest;
    Middle(front + length, source, destination + sp + dp + tlvs + rest);
    assert data == front + length + source + (destination + sp + dp + tlvs + rest);
    Middle(front + length + source, destination, sp + dp + tlvs + rest);
    assert data == front + length + source + destination + (sp + dp + tlvs + rest);
    assert data[..14] == front;
    assert data[20 + 2 * n + |tlvs|..] == rest;
  }

  lemma Middle(a: seq<byte>, b: seq<byte>, c: seq<byte>)
    ensures (a + b + c)[|a|..|a| + |b|] == b
  {
  }

  lemma V2RoundTrip(parse6: Parser6, info: Info, rest: seq<byte>)
    requires Describes(info) && info.version == V2
    ensures BuildV2(info).Some? && |BuildV2(info).value| == 28
    ensures ParseProxyHeader(parse6, BuildV2(info).value + rest) ==
              Parsed(Info(V2, MappedPrefix + To4(info.source).value, MappedPrefix + To4(info.destination).value, info.sourcePort, info.destinationPort), rest)
  {
    hide ParseProxyHeader, To4, U16;
    ToFour(info.source);
    ToFour(info.destination);
    var source, destination := To4(info.source).value, To4(info.destination).value;
    TLVsAreSkipped(parse6, source, destination, info.sourcePort, info.destinationPort, [], rest);
    assert BuildV2(info).value == WithTLVs(source, destination, info.sourcePort, info.destinationPort, []);
  }

  /** Where the fields of a built version 2 header are: source first, then destination, ports in network byte order. */
  lemma V2Fields(info: Info)
    requires BuildV2(info).Some?
    ensures var header := BuildV2(info).value;
            && |header| == 28 && header[..12] == [0x0d, 0x0a, 0x0d, 0x0a, 0x00, 0x0d, 0x0a, 0x51, 0x55, 0x49, 0x54, 0x0a]
            && header[12] == 0x21 && header[13] == 0x11 && header[14] == 0 && header[15] == 12
            && To4(info.source) == Some(header[16..20]) && To4(info.destination) == Some(header[20..24])
            && U16(header[24], header[25]) == info.sourcePort % 65536
            && U16(header[26], header[27]) == info.destinationPort % 65536
  {
    var source, destination := To4(info.source).value, To4(info.destination).value;
    hide To4;
    var sp, dp := Low16(info.sourcePort), Low16(info.destinationPort);
    Layout(Signature + [0x21, 0x11], E16(12), source, destination, E16(sp), E16(dp), [], []);
    var header := BuildV2(info).value;
    assert header == Signature + [0x21, 0x11] + E16(12) + source + destination + E16(sp) + E16(dp) + [] + [];
    assert header[..12] == header[..14][..12] == Signature;
  }

  lemma MappedIsFour(ip: seq<byte>)
    requires |ip| == 4
    ensures To4(MappedPrefix + ip) == Some(ip)
  {
    assert (MappedPrefix + ip)[..12] == MappedPrefix && (MappedPrefix + ip)[12..] == ip;
  }

  /** Parsing what was built gives back the endpoints and exactly the rest, for both versions. */
  lemma HeaderRoundTrip(parse6: Parser6, info: Info, rest: seq<byte>)
    requires Describes(info)
    ensures BuildProxyHeader(info).Some?
    ensures var r := ParseProxyHeader(parse6, BuildProxyHeader(info).value + rest);
            r.Parsed? && SameEndpoints(r.info, info) && r.rest == rest
  {
    hide ParseProxyHeader, BuildV1, BuildV2, To4;
    ToFour(info.source);
    ToFour(info.destination);
    var source, destination := To4(info.source).value, To4(info.destination).value;
    if info.version == V1 {
      V1RoundTrip(parse6, info, rest);
      FourIsFour(source);
      FourIsFour(destination);
    } else {
      V2RoundTrip(parse6, info, rest);
      MappedIsFour(source);
      MappedIsFour(destination);
    }
  }

  lemma FourIsFour(ip: seq<byte>)
    requires |ip| == 4
    ensures To4(ip) == Some(ip)
  {
  }

  // ---- reading a header off a stream

  const MaxLine: nat := 107

  /** One byte at a time up to and including the first LF, at most 107 bytes. */
  method ReadProxyProtocolV1Line(reader: ByteReader) returns (line: Option<seq<byte>>)
    requires reader.Valid()
    modifies reader
    ensures reader.Valid() && old(reader.pos) <= reader.pos
    ensures line.Some? <==> FirstLF(reader.data[old(reader.pos)..]).Some? && FirstLF(reader.data[old(reader.pos)..]).value < 107
    ensures line.Some? ==> line.value == reader.data[old(reader.pos)..reader.pos]
                           && |line.value| == FirstLF(reader.data[old(reader.pos)..]).value + 1
  {
    ghost var start := reader.pos;
    ghost var stream := reader.data[start..];
    var bytes: seq<byte> := [];
    while true
      invariant reader.Valid() && reader.pos == start + |bytes| && |bytes| <= MaxLine
      invariant bytes == reader.data[start..reader.pos]
      invariant forall k :: 0 <= k < |bytes| ==> stream[k] != 10
      decreases MaxLine - |bytes|
    {
      FirstLFIs(stream);
      if |bytes| >= MaxLine { return None; }
      var next := reader.ReadFull(1);
      if next.None? { return None; }
      assert next.value[0] == stream[|bytes|];
      bytes := bytes + next.value;
      if next.value[0] == 10 { return Some(bytes); }
    }
  }

  function FirstLF(data: seq<byte>): Option<nat> {
    if data == [] then None
    else if data[0] == 10 then Some(0)
    else match FirstLF(data[1..])
      case None => None
      case Some(k) => Some(k + 1)
  }

  lemma {:induction false} FirstLFIs(data: seq<byte>)
    ensures FirstLF(data).Some? ==> FirstLF(data).value < |data| && data[FirstLF(data).value] == 10
    ensures FirstLF(data).Some? ==> forall k :: 0 <= k < FirstLF(data).value ==> data[k] != 10
    ensures FirstLF(data).None? ==> forall k :: 0 <= k < |data| ==> data[k] != 10
  {
    if data != [] {
      FirstLFIs(data[1..]);
      assert forall k :: 1 <= k < |data| ==> data[k] == data[1..][k - 1];
    }
  }

  /** The header of the wanted version at the front of `stream`, and how long it is. */
  ghost function Header(parse6: Parser6, version: Version, stream: seq<byte>): Option<(Info, nat)> {
    match ParseProxyHeader(parse6, stream)
    case Rejected => None
    case Parsed(info, rest) =>
      if version == NoProxy || info.version != version || |rest| > |stream| then None
      else
        var length := |stream| - |rest|;
        if version == V1 && !(length <= 107 && FirstLF(stream) == Some(length - 1)) then None
        else Some((info, length))
  }

  /** A V1 line ends at its first LF, so the line alone and the whole stream parse alike. */
  lemma LineDecides(parse6: Parser6, stream: seq<byte>, line: seq<byte>)
    requires line <= stream && FirstLF(stream) == Some(|line| - 1) && |line| <= MaxLine
    ensures Header(parse6, V1, stream) ==
              match ParseProxyHeader(parse6, line)
              case Rejected => None
              case Parsed(info, _) => if info.version == V1 then Some((info, |line|)) else None
  {
    hide ReadLine, FirstLF, LineEnd, ParseV2;
    FirstLFIs(stream);
    assert line == stream[..|line|];
    PrefixesAgree(PROXY + [32], line, stream);
    var inLine, inStream := LineEnd(line), LineEnd(stream);
    if inLine.Some? {
      assert stream[inLine.value + 1] == 10;
      assert inLine.value == |line| - 2;
      assert stream[inLine.value] == 13;
      assert inStream == inLine;
      assert line[..inLine.value] == stream[..inLine.value];
      assert line[|line|..] == [];
    } else if inStream.Some? {
      assert inStream.value + 1 != |line| - 1;
    }
    V2IsNotV1(stream);
    V2IsNotV1(line);
  }

  lemma V2IsNotV1(data: seq<byte>)
    ensures ParseV2(data).Parsed? ==> ParseV2(data).info.version == V2
  {
  }

  lemma PrefixesAgree(p: seq<byte>, line: seq<byte>, stream: seq<byte>)
    requires line <= stream && 10 in line && 10 !in p
    requires forall k :: 0 <= k < |line| - 1 ==> line[k] != 10
    ensures p <= line <==> p <= stream
  {
    assert line[|line| - 1] == 10;
  }

  lemma BlockDecides(parse6: Parser6, stream: seq<byte>)
    ensures |stream| < 16 || |stream| < 16 + U16(stream[14], stream[15]) ==> Header(parse6, V2, stream) == None
    ensures |stream| >= 16 && |stream| >= 16 + U16(stream[14], stream[15]) ==>
              var block := stream[..16 + U16(stream[14], stream[15])];
              Header(parse6, V2, stream) ==
                match ParseProxyHeader(parse6, block)
                case Rejected => None
                case Parsed(info, _) => if info.version == V2 then Some((info, |block|)) else None
  {
    hide U16, ReadLine, LineEnd, FirstLF;
    V1IsNotV2(parse6, stream);
    if |stream| >= 16 && |stream| >= 16 + U16(stream[14], stream[15]) {
      var block := stream[..16 + U16(stream[14], stream[15])];
      V1IsNotV2(parse6, block);
      SamePrefix(PROXY + [32], block, stream);
      SamePrefix(Signature, block, stream);
      BlockParses(stream);
    }
  }

  lemma SamePrefix(p: seq<byte>, block: seq<byte>, stream: seq<byte>)
    requires block <= stream && |p| <= |block|
    ensures p <= block <==> p <= stream
  {
  }

  /** Nothing beyond the declared block influences the parse. */
  lemma BlockParses(stream: seq<byte>)
    requires |stream| >= 16 && |stream| >= 16 + U16(stream[14], stream[15])
    ensures var length := U16(stream[14], stream[15]);
            ParseV2(stream) == match ParseV2(stream[..16 + length])
                               case Rejected => Rejected
                               case Parsed(info, _) => Parsed(info, stream[16 + length..])
    ensures ParseV2(stream).Parsed? ==> ParseV2(stream).info.version == V2
  {
    hide U16;
    var length := U16(stream[14], stream[15]);
    var block := stream[..16 + length];
    assert forall i :: 0 <= i < |block| ==> block[i] == stream[i];
    if length >= 12 {
      assert block[16..20] == stream[16..20] && block[20..24] == stream[20..24];
    }
    if length >= 36 {
      assert block[16..32] == stream[16..32] && block[32..48] == stream[32..48];
    }
  }

  lemma V1IsNotV2(parse6: Parser6, data: seq<byte>)
    ensures ParseV1(parse6, data).Parsed? ==> ParseV1(parse6, data).info.version == V1
  {
  }

  /** Succeeds exactly on a header of that version and leaves the stream right behind it. */
  method ConsumeInboundProxyHeader(parse6: Parser6, reader: ByteReader, version: Version) returns (r: Option<Info>)
    requires reader.Valid()
    modifies reader
    ensures reader.Valid() && old(reader.pos) <= reader.pos
    ensures r.Some? <==> Header(parse6, version, reader.data[old(reader.pos)..]).Some?
    ensures r.Some? ==> (r.value, reader.pos - old(reader.pos)) == Header(parse6, version, reader.data[old(reader.pos)..]).value
  {
    hide ParseProxyHeader, Header, FirstLF, U16;
    ghost var stream := reader.data[reader.pos..];
    HeaderNeeds(parse6, version, stream);
    if version == V1 {
      var line := ReadProxyProtocolV1Line(reader);
      if line.None? { return None; }
      assert line.value == stream[..|line.value|];
      LineDecides(parse6, stream, line.value);
      var parsed := ParseProxyHeader(parse6, line.value);
      if parsed.Rejected? || parsed.info.version != V1 { return None; }
      return Some(parsed.info);
    } else if version == V2 {
      BlockDecides(parse6, stream);
      var header := reader.ReadFull(16);
      if header.None? { return None; }
      var length := U16(header.value[14], header.value[15]);
      var body := reader.ReadFull(length);
      if body.None? { return None; }
      assert header.value + body.value == stream[..16 + length];
      var parsed := ParseProxyHeader(parse6, header.value + body.value);
      if parsed.Rejected? || parsed.info.version != V2 { return None; }
      return Some(parsed.info);
    } else {
      return None;
    }
  }

  lemma HeaderNeeds(parse6: Parser6, version: Version, stream: seq<byte>)
    ensures version == NoProxy ==> Header(parse6, version, stream) == None
    ensures version == V1 && (FirstLF(stream).None? || FirstLF(stream).value >= MaxLine) ==> Header(parse6, version, stream) == None
  {
    hide ParseProxyHeader, FirstLF;
  }

  /** A built header is consumed to its last byte, whatever follows. */
  lemma BuiltHeaderIsConsumed(parse6: Parser6, info: Info, rest: seq<byte>)
    requires Describes(info)
    ensures BuildProxyHeader(info).Some?
    ensures var built := BuildProxyHeader(info).value;
            var header := Header(parse6, info.version, built + rest);
            header.Some? && SameEndpoints(header.value.0, info) && header.value.1 == |built|
  {
    hide ParseProxyHeader, BuildV2, To4, FirstLF, WriteLine;
    HeaderRoundTrip(parse6, info, rest);
    if info.version == V1 {
      V1RoundTrip(parse6, info, rest);
      ToFour(info.source);
      ToFour(info.destination);
      var line := WriteLine(To4(info.source).value, To4(info.destination).value, info.sourcePort, info.destinationPort);
      LineIsPrintable(To4(info.source).value, To4(info.destination).value, info.sourcePort, info.destinationPort);
      LFAfter(line, rest);
    }
  }

  lemma LFAfter(line: seq<byte>, rest: seq<byte>)
    requires Printable(line)
    ensures FirstLF(line + [13, 10] + rest) == Some(|line| + 1)
  {
    hide FirstLF;
    var data := line + [13, 10] + rest;
    FirstLFIs(data);
    assert data[|line|] == 13 && data[|line| + 1] == 10;
    assert forall k :: 0 <= k < |line| ==> data[k] == line[k];
  }

  /** A line with a bare line feed in place of a blank. */
  function SplitLine(source: seq<byte>, destination: seq<byte>, sourcePort: nat, destinationPort: nat): seq<byte>
    requires |source| == 4 && |destination| == 4
  {
    LineWith(10, source, destination, sourcePort, destinationPort) + [13, 10]
  }

  /** The parser takes such a line, line feeds being blanks to it; the reader stops early and refuses it. */
  lemma BareLineFeedIsRefused(parse6: Parser6, source: seq<byte>, destination: seq<byte>, sourcePort: nat, destinationPort: nat, rest: seq<byte>)
    requires |source| == 4 && |destination| == 4 && sourcePort <= 65535 && destinationPort <= 65535
    ensures var stream := SplitLine(source, destination, sourcePort, destinationPort) + rest;
            && ParseProxyHeader(parse6, stream) == Parsed(Info(V1, source, destination, sourcePort, destinationPort), rest)
            && Header(parse6, V1, stream) == None
  {
    hide LineWith, LineEnd, ReadLine, FirstLF, ParseV2;
    var line := LineWith(10, source, destination, sourcePort, destinationPort);
    var stream := line + [13, 10] + rest;
    LineRoundTrip(parse6, 10, source, destination, sourcePort, destinationPort);
    SplitLineShape(source, destination, sourcePort, destinationPort);
    PrefixStays(PROXY + [32], line, [13, 10] + rest);
    assert line + ([13, 10] + rest) == stream;
    EndAfter(line, rest);
    assert stream[..|line|] == line && stream[|line| + 2..] == rest;
    FirstLFIs(stream);
    assert stream[10] == line[10] == 10;
  }

  lemma EndAfter(line: seq<byte>, rest: seq<byte>)
    requires 13 !in line
    ensures LineEnd(line + [13, 10] + rest) == Some(|line|)
  {
    hide LineEnd;
    var data := line + [13, 10] + rest;
    assert data[|line|] == 13 && data[|line| + 1] == 10;
    assert forall k :: 0 <= k < |line| ==> data[k] == line[k] && line[k] in line;
  }

  lemma SplitLineShape(source: seq<byte>, destination: seq<byte>, sourcePort: nat, destinationPort: nat)
    requires |source| == 4 && |destination| == 4
    ensures var line := LineWith(10, source, destination, sourcePort, destinationPort);
            |line| > 10 && line[10] == 10 && 13 !in line && PROXY + [32] <= line
  {
    hide WriteQuad, Decimal;
    QuadIsSolid(source);
    QuadIsSolid(destination);
  }

  // ---- version 1 for IPv6

  /** The text is a printed form of an IPv6 address that the library reads back. */
  ghost predicate Prints6(parse6: Parser6, text: seq<byte>, ip: seq<byte>) {
    && Solid(text) && Printable(text) && |ip| == 16 && To4(ip).None? && parse6(text) == Some(ip)
    && exists n :: 0 <= n < |text| && ColonFirst(text, n)
  }

  predicate ColonFirst(text: seq<byte>, n: nat)
    requires n < |text|
  {
    text[n] == 58 && forall i :: 0 <= i < n ==> text[i] !in {46, 58, 37}
  }

  function SixLine(source: seq<byte>, destination: seq<byte>, sourcePort: nat, destinationPort: nat): seq<byte> {
    PROXY + [32] + (TCP6 + [32] + (source + [32] + (destination + [32] + (Decimal(sourcePort) + [32] + Decimal(destinationPort)))))
  }

  lemma {:induction false} ReadIPColon(parse6: Parser6, s: seq<byte>, k: nat, n: nat)
    requires k <= n < |s| && ColonFirst(s, n)
    ensures ReadIP(parse6, s, k) == parse6(s)
    decreases n - k
  {
    if k < n { ReadIPColon(parse6, s, k + 1, n); }
  }

  lemma SixReads(parse6: Parser6, text: seq<byte>, ip: seq<byte>)
    requires Prints6(parse6, text, ip)
    ensures ReadAddress(parse6, TCP6, text) == Some(ip)
  {
    hide To4;
    var n :| 0 <= n < |text| && ColonFirst(text, n);
    ReadIPColon(parse6, text, 0, n);
    assert TCP6[3] != TCP4[3];
  }

  lemma SixFields(source: seq<byte>, destination: seq<byte>, sourcePort: nat, destinationPort: nat)
    requires Solid(source) && Solid(destination)
    ensures Fields(SixLine(source, destination, sourcePort, destinationPort)) ==
              [PROXY, TCP6, source, destination, Decimal(sourcePort), Decimal(destinationPort)]
  {
    hide Fields, Decimal, Solid;
    KeywordsAreSolid();
    var f := Decimal(destinationPort);
    var e := Decimal(sourcePort) + [32] + f;
    var d := destination + [32] + e;
    var c := source + [32] + d;
    var b := TCP6 + [32] + c;
    DecimalIsSolid(sourcePort);
    DecimalIsSolid(destinationPort);
    FieldThenBlank(PROXY, 32, b);
    FieldThenBlank(TCP6, 32, c);
    FieldThenBlank(source, 32, d);
    FieldThenBlank(destination, 32, e);
    FieldThenBlank(Decimal(sourcePort), 32, f);
    LastField(f);
  }

  lemma SixLineShape(source: seq<byte>, destination: seq<byte>, sourcePort: nat, destinationPort: nat)
    requires Printable(source) && Printable(destination)
    ensures var line := SixLine(source, destination, sourcePort, destinationPort);
            Printable(line) && PROXY + [32] <= line
  {
    hide Decimal;
  }

  lemma SixReadsLine(parse6: Parser6, source: seq<byte>, destination: seq<byte>, a: seq<byte>, b: seq<byte>, sourcePort: nat, destinationPort: nat)
    requires Prints6(parse6, source, a) && Prints6(parse6, destination, b) && sourcePort <= 65535 && destinationPort <= 65535
    ensures ReadLine(parse6, SixLine(source, destination, sourcePort, destinationPort)) == Some(Info(V1, a, b, sourcePort, destinationPort))
  {
    SixFields(source, destination, sourcePort, destinationPort);
    SixReads(parse6, source, a);
    SixReads(parse6, destination, b);
    PortRoundTrip(sourcePort);
    PortRoundTrip(destinationPort);
    hide Fields, Decimal, SixLine, ReadAddress, ReadPort, Prints6;
  }

  /** A TCP6 line gives back its addresses, ports and the rest, for any printing the library reads back. */
  lemma SixRoundTrip(parse6: Parser6, source: seq<byte>, destination: seq<byte>, a: seq<byte>, b: seq<byte>, sourcePort: nat, destinationPort: nat, rest: seq<byte>)
    requires Prints6(parse6, source, a) && Prints6(parse6, destination, b) && sourcePort <= 65535 && destinationPort <= 65535
    ensures ParseProxyHeader(parse6, SixLine(source, destination, sourcePort, destinationPort) + [13, 10] + rest) ==
              Parsed(Info(V1, a, b, sourcePort, destinationPort), rest)
  {
    SixLineShape(source, destination, sourcePort, destinationPort);
    SixReadsLine(parse6, source, destination, a, b, sourcePort, destinationPort);
    hide SixLine, LineEnd, ReadLine, Prints6;
    var line := SixLine(source, destination, sourcePort, destinationPort);
    LineEndsThere(line, rest);
    var data := line + [13, 10] + rest;
    assert data[..|line|] == line && data[|line| + 2..] == rest;
    PrefixStays(PROXY + [32], line, [13, 10] + rest);
    assert line + ([13, 10] + rest) == data;
  }

  /** An IPv4-mapped address is not taken for TCP6, and an IPv6 address not for TCP4. */
  lemma FamiliesAreChecked(parse6: Parser6, text: seq<byte>)
    requires ReadIP(parse6, text, 0).Some?
    ensures ReadAddress(parse6, TCP4, text) == To4(ReadIP(parse6, text, 0).value)
    ensures To4(ReadIP(parse6, text, 0).value).Some? ==> ReadAddress(parse6, TCP6, text) == None
  {
    hide To4, ReadIP;
    assert TCP6[3] != TCP4[3];
  }

  // ---- what is refused

  /** A version 2 header is a PROXY command over TCP whose whole block is there. */
  lemma V2Needs(data: seq<byte>)
    requires ParseV2(data).Parsed?
    ensures |data| >= 16 && data[12] == 0x21 && |data| >= 16 + U16(data[14], data[15])
    ensures (data[13] == 0x11 && U16(data[14], data[15]) >= 12) || (data[13] == 0x21 && U16(data[14], data[15]) >= 36)
  {
  }

  /** A version 1 line has its six fields, and ports and addresses of its family. */
  lemma V1Needs(parse6: Parser6, line: seq<byte>)
    requires ReadLine(parse6, line).Some?
    ensures var fields, info := Fields(line), ReadLine(parse6, line).value;
            && |fields| == 6 && fields[0] == PROXY && (fields[1] == TCP4 || fields[1] == TCP6) && info.version == V1
            && ReadPort(fields[4]) == Some(info.sourcePort) && ReadPort(fields[5]) == Some(info.destinationPort)
            && ReadAddress(parse6, fields[1], fields[2]) == Some(info.source)
            && ReadAddress(parse6, fields[1], fields[3]) == Some(info.destination)
  {
    hide Fields, ReadPort, ReadAddress;
  }

  /** A stream with neither prefix carries no header and loses nothing. */
  lemma PlainStreamPasses(parse6: Parser6, data: seq<byte>)
    requires !(PROXY + [32] <= data) && !(Signature <= data)
    ensures ParseProxyHeader(parse6, data) == Parsed(NoInfo, data)
  {
  }
}

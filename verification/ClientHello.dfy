/**
 The server name of a TLS ClientHello (section 4.1.2 of RFC 8446, section 3 of RFC 6066):
 a cursor over the bytes, and the serialisation it inverts.
 */
module ClientHello {
  import opened Bytes

  datatype ParseError = NotClientHello | Truncated | MissingServerName | MissingHostName

  datatype Parsed = Ok(hostname: seq<byte>) | Err(error: ParseError)

  // ---- what is read: suffixes instead of a cursor

  function ReadNames(rest: seq<byte>): Parsed {
    if |rest| < 3 then Err(MissingHostName)
    else
      var length := U16(rest[1], rest[2]);
      if 3 + length > |rest| then Err(Truncated)
      else if rest[0] == 0 then Ok(rest[3..3 + length])
      else ReadNames(rest[3 + length..])
  }

  function ReadServerName(data: seq<byte>): Parsed {
    if |data| < 2 then Err(Truncated)
    else
      var length := U16(data[0], data[1]);
      if 2 + length > |data| then Err(Truncated) else ReadNames(data[2..2 + length])
  }

  function ReadExtensions(rest: seq<byte>): Parsed {
    if |rest| < 4 then Err(MissingServerName)
    else
      var length := U16(rest[2], rest[3]);
      if 4 + length > |rest| then Err(Truncated)
      else if U16(rest[0], rest[1]) == 0 then ReadServerName(rest[4..4 + length])
      else ReadExtensions(rest[4 + length..])
  }

  method ParseSNIExtension(data: seq<byte>) returns (r: Parsed)
    ensures r == ReadServerName(data)
  {
    if |data| < 2 { return Err(Truncated); }
    var listLength := U16(data[0], data[1]);
    var cursor := 2;
    if cursor + listLength > |data| { return Err(Truncated); }
    var end := cursor + listLength;
    while cursor + 3 <= end
      invariant 2 <= cursor <= end
      invariant ReadServerName(data) == ReadNames(data[cursor..end])
      decreases end - cursor
    {
      var nameType, nameLength := data[cursor], U16(data[cursor + 1], data[cursor + 2]);
      ghost var rest := data[cursor..end];
      cursor := cursor + 3;
      if cursor + nameLength > end { return Err(Truncated); }
      if nameType == 0 {
        SliceOfSlice(data, cursor - 3, end, 3, 3 + nameLength);
        return Ok(data[cursor..cursor + nameLength]);
      }
      cursor := cursor + nameLength;
      SliceOfSlice(data, cursor - 3 - nameLength, end, 3 + nameLength, |rest|);
    }
    return Err(MissingHostName);
  }

  /** Where the extension block starts and ends, if all that precedes it is there. */
  function ExtensionBlock(handshake: seq<byte>): (r: (nat, nat))
    ensures r.0 <= r.1 <= |handshake|
    ensures r.1 != 0 ==> r.0 >= 4
  {
    if |handshake| < 39 then (0, 0)
    else
      var session := handshake[38];
      if 39 + session + 2 > |handshake| then (0, 0)
      else
        var afterSession := 39 + session;
        var ciphers := U16(handshake[afterSession], handshake[afterSession + 1]);
        if afterSession + 2 + ciphers + 1 > |handshake| then (0, 0)
        else
          var afterCiphers := afterSession + 2 + ciphers;
          var compression := handshake[afterCiphers];
          if afterCiphers + 1 + compression + 2 > |handshake| then (0, 0)
          else
            var afterCompression := afterCiphers + 1 + compression;
            var extensions := U16(handshake[afterCompression], handshake[afterCompression + 1]);
            if afterCompression + 2 + extensions > |handshake| then (0, 0)
            else (afterCompression + 2, afterCompression + 2 + extensions)
  }

  function ReadHello(handshake: seq<byte>): Parsed {
    if |handshake| < 4 || handshake[0] != 1 then Err(NotClientHello)
    else if U24(handshake[1], handshake[2], handshake[3]) > |handshake| - 4 then Err(Truncated)
    else
      var block := ExtensionBlock(handshake);
      if block.1 == 0 then Err(Truncated) else ReadExtensions(handshake[block.0..block.1])
  }

  lemma SliceOfSlice(s: seq<byte>, from: nat, to: nat, i: nat, j: nat)
    requires from <= to <= |s| && i <= j <= to - from
    ensures s[from..to][i..j] == s[from + i..from + j]
  {
    var a, b := s[from..to][i..j], s[from + i..from + j];
    assert |a| == |b| && forall k :: 0 <= k < |a| ==> a[k] == b[k];
  }

  /** The extension loop, from a cursor to the end of the block. */
  method ScanExtensions(handshake: seq<byte>, start: nat, extensionsEnd: nat) returns (r: Parsed)
    requires start <= extensionsEnd <= |handshake|
    ensures r == ReadExtensions(handshake[start..extensionsEnd])
  {
    hide ReadServerName, U16;
    var cursor := start;
    while cursor + 4 <= extensionsEnd
      invariant start <= cursor <= extensionsEnd
      invariant ReadExtensions(handshake[start..extensionsEnd]) == ReadExtensions(handshake[cursor..extensionsEnd])
      decreases extensionsEnd - cursor
    {
      var extensionType := U16(handshake[cursor], handshake[cursor + 1]);
      var extensionLength := U16(handshake[cursor + 2], handshake[cursor + 3]);
      cursor := cursor + 4;
      if cursor + extensionLength > extensionsEnd { return Err(Truncated); }
      SliceOfSlice(handshake, cursor - 4, extensionsEnd, 4, 4 + extensionLength);
      if extensionType == 0 {
        r := ParseSNIExtension(handshake[cursor..cursor + extensionLength]);
        return;
      }
      SliceOfSlice(handshake, cursor - 4, extensionsEnd, 4 + extensionLength, extensionsEnd - (cursor - 4));
      cursor := cursor + extensionLength;
    }
    return Err(MissingServerName);
  }

  /** Total on arbitrary bytes: every index stays within the handshake. */
  method ParseClientHelloSNI(handshake: seq<byte>) returns (r: Parsed)
    ensures r == ReadHello(handshake)
  {
    if |handshake| < 4 || handshake[0] != 1 { return Err(NotClientHello); }
    var handshakeLength := U24(handshake[1], handshake[2], handshake[3]);
    if handshakeLength > |handshake| - 4 { return Err(Truncated); }
    var cursor := 4;
    if cursor + 2 + 32 > |handshake| { return Err(Truncated); }
    cursor := cursor + 2 + 32;
    if cursor + 1 > |handshake| { return Err(Truncated); }
    var sessionIDLength := handshake[cursor];
    cursor := cursor + 1;
    if cursor + sessionIDLength + 2 > |handshake| { return Err(Truncated); }
    cursor := cursor + sessionIDLength;
    var cipherSuiteLength := U16(handshake[cursor], handshake[cursor + 1]);
    cursor := cursor + 2;
    if cursor + cipherSuiteLength + 1 > |handshake| { return Err(Truncated); }
    cursor := cursor + cipherSuiteLength;
    var compressionMethodsLength := handshake[cursor];
    cursor := cursor + 1;
    if cursor + compressionMethodsLength + 2 > |handshake| { return Err(Truncated); }
    cursor := cursor + compressionMethodsLength;
    var extensionsLength := U16(handshake[cursor], handshake[cursor + 1]);
    cursor := cursor + 2;
    if cursor + extensionsLength > |handshake| { return Err(Truncated); }
    var extensionsEnd := cursor + extensionsLength;
    assert ExtensionBlock(handshake) == (cursor, extensionsEnd);
    r := ScanExtensions(handshake, cursor, extensionsEnd);
  }

  // ---- what a client writes

  datatype Name = Name(kind: byte, value: seq<byte>)

  datatype Extension = ServerNames(names: seq<Name>) | Other(kind: nat, body: seq<byte>)

  datatype Hello = Hello(
    version: seq<byte>, random: seq<byte>, sessionID: seq<byte>, cipherSuites: seq<byte>,
    compressionMethods: seq<byte>, extensions: seq<Extension>)

  predicate FitsName(name: Name) {
    |name.value| < 65536
  }

  ghost predicate FitNames(names: seq<Name>) {
    forall i :: 0 <= i < |names| ==> FitsName(names[i])
  }

  function WriteNames(names: seq<Name>): seq<byte>
    requires FitNames(names)
  {
    if names == [] then []
    else [names[0].kind] + E16(|names[0].value|) + names[0].value + WriteNames(names[1..])
  }

  ghost predicate FitsExtension(e: Extension) {
    match e
    case ServerNames(names) => FitNames(names) && |WriteNames(names)| + 2 < 65536
    case Other(kind, body) => 0 < kind < 65536 && |body| < 65536
  }

  ghost predicate FitExtensions(extensions: seq<Extension>) {
    forall i :: 0 <= i < |extensions| ==> FitsExtension(extensions[i])
  }

  ghost function Body(e: Extension): seq<byte>
    requires FitsExtension(e)
  {
    if e.ServerNames? then E16(|WriteNames(e.names)|) + WriteNames(e.names) else e.body
  }

  ghost function Kind(e: Extension): nat {
    if e.ServerNames? then 0 else e.kind
  }

  ghost function WriteExtension(e: Extension): seq<byte>
    requires FitsExtension(e)
  {
    E16(Kind(e)) + E16(|Body(e)|) + Body(e)
  }

  ghost function WriteExtensions(extensions: seq<Extension>): seq<byte>
    requires FitExtensions(extensions)
  {
    if extensions == [] then [] else WriteExtension(extensions[0]) + WriteExtensions(extensions[1..])
  }

  ghost predicate WellFormed(h: Hello) {
    && |h.version| == 2 && |h.random| == 32 && |h.sessionID| < 256 && |h.cipherSuites| < 65536 && |h.compressionMethods| < 256
    && FitExtensions(h.extensions) && |WriteExtensions(h.extensions)| < 65536
  }

  ghost function Fields(h: Hello): seq<byte>
    requires WellFormed(h)
  {
    h.version + h.random + [|h.sessionID|] + h.sessionID + E16(|h.cipherSuites|) + h.cipherSuites
    + [|h.compressionMethods|] + h.compressionMethods + E16(|WriteExtensions(h.extensions)|) + WriteExtensions(h.extensions)
  }

  ghost function Write(h: Hello): seq<byte>
    requires WellFormed(h)
  {
    [1] + E24(|Fields(h)|) + Fields(h)
  }

  // ---- which name that is

  function FirstHostName(names: seq<Name>): Parsed {
    if names == [] then Err(MissingHostName)
    else if names[0].kind == 0 then Ok(names[0].value)
    else FirstHostName(names[1..])
  }

  function FirstServerName(extensions: seq<Extension>): Parsed {
    if extensions == [] then Err(MissingServerName)
    else if extensions[0].ServerNames? then FirstHostName(extensions[0].names)
    else FirstServerName(extensions[1..])
  }

  lemma {:induction false} NamesRoundTrip(names: seq<Name>)
    requires FitNames(names)
    ensures ReadNames(WriteNames(names)) == FirstHostName(names)
  {
    if names != [] {
      var bytes, value, tail := WriteNames(names), names[0].value, WriteNames(names[1..]);
      assert bytes[1..3] == E16(|value|);
      assert bytes[1] == E16(|value|)[0] && bytes[2] == E16(|value|)[1];
      assert bytes[3..3 + |value|] == value;
      assert bytes[3 + |value|..] == tail;
      NamesRoundTrip(names[1..]);
    }
  }

  lemma ServerNameRoundTrip(names: seq<Name>)
    requires FitsExtension(ServerNames(names))
    ensures ReadServerName(Body(ServerNames(names))) == FirstHostName(names)
  {
    hide ReadNames, WriteNames, FirstHostName;
    var body, list := Body(ServerNames(names)), WriteNames(names);
    assert body[0] == E16(|list|)[0] && body[1] == E16(|list|)[1];
    assert body[2..2 + |list|] == list;
    NamesRoundTrip(names);
  }

  lemma ExtensionPrefix(e: Extension, tail: seq<byte>)
    requires FitsExtension(e)
    ensures var bytes := WriteExtension(e) + tail;
            && |bytes| >= 4 + |Body(e)| && U16(bytes[0], bytes[1]) == Kind(e) && U16(bytes[2], bytes[3]) == |Body(e)|
            && bytes[4..4 + |Body(e)|] == Body(e) && bytes[4 + |Body(e)|..] == tail
  {
    hide U16, WriteNames, FitNames;
    var bytes, body := WriteExtension(e) + tail, Body(e);
    var kind, length := E16(Kind(e)), E16(|body|);
    assert bytes == kind + length + body + tail;
    assert bytes[0] == kind[0] && bytes[1] == kind[1] && bytes[2] == length[0] && bytes[3] == length[1];
  }

  lemma {:induction false} ExtensionsRoundTrip(extensions: seq<Extension>)
    requires FitExtensions(extensions)
    ensures ReadExtensions(WriteExtensions(extensions)) == FirstServerName(extensions)
  {
    hide ReadServerName, WriteExtension, Body, FirstHostName;
    if extensions != [] {
      var e, tail := extensions[0], WriteExtensions(extensions[1..]);
      ExtensionPrefix(e, tail);
      if e.ServerNames? {
        ServerNameRoundTrip(e.names);
      } else {
        ExtensionsRoundTrip(extensions[1..]);
      }
    }
  }

  lemma WrittenBlock(h: Hello)
    requires WellFormed(h)
    ensures var bytes, block := Write(h), ExtensionBlock(Write(h));
            block.1 != 0 && bytes[block.0..block.1] == WriteExtensions(h.extensions)
  {
    hide U16, WriteExtensions, FitExtensions;
    var bytes, extensions := Write(h), WriteExtensions(h.extensions);
    var e24, ciphers, tail := E24(|Fields(h)|), E16(|h.cipherSuites|), E16(|extensions|);
    var p0 := [1] + e24 + h.version + h.random;
    var p1 := p0 + [|h.sessionID|] + h.sessionID;
    var p2 := p1 + ciphers + h.cipherSuites;
    var p3 := p2 + [|h.compressionMethods|] + h.compressionMethods;
    assert bytes == p3 + tail + extensions;
    assert |p0| == 38 && bytes[38] == |h.sessionID|;
    assert bytes[|p1|] == ciphers[0] && bytes[|p1| + 1] == ciphers[1];
    assert bytes[|p2|] == |h.compressionMethods|;
    assert bytes[|p3|] == tail[0] && bytes[|p3| + 1] == tail[1];
    assert ExtensionBlock(bytes) == (|p3| + 2, |bytes|);
    assert bytes[|p3| + 2..] == extensions;
  }

  /** Parsing inverts writing: the first host_name of the first server_name extension, or the right refusal. */
  lemma HelloRoundTrip(h: Hello)
    requires WellFormed(h)
    ensures ReadHello(Write(h)) == FirstServerName(h.extensions)
  {
    hide ReadExtensions, WriteExtensions, FitExtensions, ExtensionBlock, FirstServerName, Fields;
    var bytes, length := Write(h), E24(FieldsFit(h));
    assert bytes[1] == length[0] && bytes[2] == length[1] && bytes[3] == length[2];
    WrittenBlock(h);
    ExtensionsRoundTrip(h.extensions);
  }

  ghost function FieldsFit(h: Hello): (n: nat)
    requires WellFormed(h)
    ensures n < 16777216 && n == |Fields(h)|
  {
    |Fields(h)|
  }

  // ---- what a success rests on

  lemma {:induction false} NameFromRest(rest: seq<byte>) returns (i: nat)
    requires ReadNames(rest).Ok?
    ensures i + |ReadNames(rest).hostname| <= |rest| && ReadNames(rest).hostname == rest[i..i + |ReadNames(rest).hostname|]
    ensures i >= 3 && rest[i - 3] == 0 && U16(rest[i - 2], rest[i - 1]) == |ReadNames(rest).hostname|
    decreases |rest|
  {
    hide U16;
    var length := U16(rest[1], rest[2]);
    if rest[0] == 0 {
      i := 3;
    } else {
      var tail := rest[3 + length..];
      var j := NameFromRest(tail);
      i := 3 + length + j;
      var name := ReadNames(tail).hostname;
      assert tail[j..j + |name|] == rest[i..i + |name|];
    }
  }

  /** A reported name comes from a complete ClientHello message. */
  lemma NameNeedsHello(handshake: seq<byte>)
    requires ReadHello(handshake).Ok?
    ensures |handshake| >= 41 && handshake[0] == 1 && 4 + U24(handshake[1], handshake[2], handshake[3]) <= |handshake|
  {
    hide U16, U24, ReadExtensions;
  }
}

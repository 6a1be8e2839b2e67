/**
 Reading a ClientHello off a connection before its backend is known: handshake records
 (section 5.1 of RFC 8446) are reassembled within 8192 bytes and kept for replay.
 */
module HelloReader {
  import opened Text
  import opened Bytes
  import opened ClientHello

  const MaxBytes: nat := 8192

  datatype Refusal = EndOfStream | NotHandshake | TooLarge | NotAClientHello | Malformed(error: ParseError)

  /** `consumed` counts the stream bytes used up to and including the last record. */
  datatype Outcome = Found(hostname: seq<byte>, consumed: nat) | Refused(why: Refusal)

  function Expected(handshake: seq<byte>): nat
    requires |handshake| >= 4
  {
    4 + U24(handshake[1], handshake[2], handshake[3])
  }

  /** One more record arrived: a verdict, or none yet. */
  function Judge(handshake: seq<byte>, used: nat): Option<Outcome> {
    if |handshake| < 4 then None
    else if handshake[0] != 1 then Some(Refused(NotAClientHello))
    else if Expected(handshake) > MaxBytes then Some(Refused(TooLarge))
    else if |handshake| < Expected(handshake) then None
    else match ReadHello(handshake[..Expected(handshake)])
      case Ok(hostname) => Some(Found(hostname, used))
      case Err(error) => Some(Refused(Malformed(error)))
  }

  function Reassemble(data: seq<byte>, used: nat, handshake: seq<byte>): Outcome
    decreases |data|
  {
    if used >= MaxBytes then Refused(TooLarge)
    else if |data| < 5 then Refused(EndOfStream)
    else if data[0] != 0x16 then Refused(NotHandshake)
    else
      var length := U16(data[3], data[4]);
      if length == 0 || used + 5 + length > MaxBytes then Refused(TooLarge)
      else if |data| < 5 + length then Refused(EndOfStream)
      else
        var joined := handshake + data[5..5 + length];
        var verdict := Judge(joined, used + 5 + length);
        if verdict.Some? then verdict.value else Reassemble(data[5 + length..], used + 5 + length, joined)
  }

  /** The record length is decided once, when the first four handshake bytes are in. */
  predicate Pending(handshake: seq<byte>, expected: nat) {
    if |handshake| < 4 then expected == 0
    else handshake[0] == 1 && expected == Expected(handshake) <= MaxBytes && |handshake| < expected
  }

  lemma EmptyPending()
    ensures Pending([], 0)
  {
  }

  /** After each record: is the message complete, and what does it say? */
  method Decide(handshake: seq<byte>, known: nat, used: nat, ghost before: seq<byte>) returns (verdict: Option<Outcome>, expected: nat)
    requires Pending(before, known) && before <= handshake
    ensures verdict == Judge(handshake, used)
    ensures verdict.None? ==> Pending(handshake, expected)
    ensures verdict.Some? && verdict.value.Found? ==> verdict.value.consumed == used
  {
    hide U24, ReadHello;
    expected := known;
    if |handshake| >= 4 && expected == 0 {
      if handshake[0] != 1 { return Some(Refused(NotAClientHello)), expected; }
      expected := 4 + U24(handshake[1], handshake[2], handshake[3]);
      if expected > MaxBytes { return Some(Refused(TooLarge)), expected; }
    }
    if expected > 0 && |handshake| >= expected {
      var parsed := ParseClientHelloSNI(handshake[..expected]);
      match parsed {
        case Ok(hostname) => { return Some(Found(hostname, used)), expected; }
        case Err(error) => { return Some(Refused(Malformed(error))), expected; }
      }
    }
    return None, expected;
  }

  /** One round of reading, at offset `used` of the whole stream. */
  lemma Round(stream: seq<byte>, used: nat, handshake: seq<byte>)
    requires used < MaxBytes && used <= |stream|
    ensures var outcome := Reassemble(stream[used..], used, handshake);
            if used + 5 > |stream| then outcome == Refused(EndOfStream)
            else if stream[used] != 0x16 then outcome == Refused(NotHandshake)
            else
              var length := U16(stream[used + 3], stream[used + 4]);
              if length == 0 || used + 5 + length > MaxBytes then outcome == Refused(TooLarge)
              else if used + 5 + length > |stream| then outcome == Refused(EndOfStream)
              else
                var joined := handshake + stream[used + 5..used + 5 + length];
                var verdict := Judge(joined, used + 5 + length);
                outcome == if verdict.Some? then verdict.value else Reassemble(stream[used + 5 + length..], used + 5 + length, joined)
  {
    hide Judge, U16;
    var rest := stream[used..];
    if |rest| >= 5 {
      var length := U16(rest[3], rest[4]);
      if |rest| >= 5 + length {
        SliceOfSlice(stream, used, |stream|, 5, 5 + length);
        SliceOfSlice(stream, used, |stream|, 5 + length, |rest|);
        assert stream[used..|stream|] == rest && rest[5 + length..|rest|] == rest[5 + length..];
      }
    }
  }

  method ReadTLSClientHelloSNI(reader: ByteReader) returns (preface: seq<byte>, outcome: Outcome)
    requires reader.Valid()
    modifies reader
    ensures reader.Valid() && old(reader.pos) <= reader.pos
    ensures outcome == Reassemble(reader.data[old(reader.pos)..], 0, [])
    ensures preface <= reader.data[old(reader.pos)..]
    ensures outcome.Found? ==> preface == reader.data[old(reader.pos)..reader.pos] && |preface| == outcome.consumed <= 8192
  {
    hide Judge, U16, Pending, Reassemble;
    EmptyPending();
    ghost var start := reader.pos;
    ghost var stream := reader.data[start..];
    preface := [];
    var handshake: seq<byte> := [];
    var expected: nat := 0;
    assert stream[0..] == stream;
    while |preface| < MaxBytes
      invariant reader.Valid() && reader.pos == start + |preface|
      invariant preface <= stream && |preface| <= MaxBytes
      invariant Pending(handshake, expected)
      invariant Reassemble(stream, 0, []) == Reassemble(stream[|preface|..], |preface|, handshake)
      decreases MaxBytes - |preface|
    {
      Round(stream, |preface|, handshake);
      var header := reader.ReadFull(5);
      if header.None? { return preface, Refused(EndOfStream); }
      ghost var used := |preface|;
      Extend(stream, preface, header.value);
      preface := preface + header.value;
      if header.value[0] != 0x16 { return preface, Refused(NotHandshake); }
      var length := U16(header.value[3], header.value[4]);
      if length <= 0 || |preface| + length > MaxBytes { return preface, Refused(TooLarge); }
      var body := reader.ReadFull(length);
      if body.None? { return preface, Refused(EndOfStream); }
      assert body.value == stream[used + 5..used + 5 + length];
      Extend(stream, preface, body.value);
      preface := preface + body.value;
      ghost var before := handshake;
      handshake := handshake + body.value;
      var verdict;
      verdict, expected := Decide(handshake, expected, |preface|, before);
      if verdict.Some? { return preface, verdict.value; }
    }
    NoRoom(stream[|preface|..], |preface|, handshake);
    return preface, Refused(TooLarge);
  }

  lemma NoRoom(data: seq<byte>, used: nat, handshake: seq<byte>)
    requires used >= MaxBytes
    ensures Reassemble(data, used, handshake) == Refused(TooLarge)
  {
  }

  lemma Extend(stream: seq<byte>, prefix: seq<byte>, more: seq<byte>)
    requires prefix <= stream && |prefix| + |more| <= |stream| && more == stream[|prefix|..|prefix| + |more|]
    ensures prefix + more <= stream
  {
  }

  // ---- any split into records

  /** A handshake record: two version bytes and a body. */
  datatype Record = Record(major: byte, minor: byte, body: seq<byte>)

  predicate Carries(r: Record) {
    0 < |r.body| < 65536
  }

  function WriteRecord(r: Record): seq<byte>
    requires Carries(r)
  {
    [0x16, r.major, r.minor] + E16(|r.body|) + r.body
  }

  function Wire(records: seq<Record>): seq<byte>
    requires forall i :: 0 <= i < |records| ==> Carries(records[i])
  {
    if records == [] then [] else WriteRecord(records[0]) + Wire(records[1..])
  }

  function Joined(records: seq<Record>): seq<byte> {
    if records == [] then [] else records[0].body + Joined(records[1..])
  }

  /** A complete ClientHello handshake message. */
  predicate Complete(hello: seq<byte>) {
    |hello| >= 4 && hello[0] == 1 && |hello| == Expected(hello)
  }

  /** What the unsplit parse says. */
  function Unsplit(hello: seq<byte>, consumed: nat): Outcome {
    match ReadHello(hello)
    case Ok(hostname) => Found(hostname, consumed)
    case Err(error) => Refused(Malformed(error))
  }

  lemma RecordPrefix(r: Record, tail: seq<byte>)
    requires Carries(r)
    ensures var bytes := WriteRecord(r) + tail;
            && |bytes| >= 5 + |r.body| && bytes[0] == 0x16 && U16(bytes[3], bytes[4]) == |r.body|
            && bytes[5..5 + |r.body|] == r.body && bytes[5 + |r.body|..] == tail
  {
    hide U16;
    var bytes, length := WriteRecord(r) + tail, E16(|r.body|);
    assert bytes == [0x16, r.major, r.minor] + length + r.body + tail;
    assert bytes[3] == length[0] && bytes[4] == length[1];
  }

  lemma JudgePrefix(joined: seq<byte>, hello: seq<byte>, used: nat)
    requires Complete(hello) && |hello| <= MaxBytes && joined <= hello && |joined| < |hello|
    ensures Judge(joined, used) == None
  {
  }

  lemma JudgeWhole(joined: seq<byte>, hello: seq<byte>, used: nat)
    requires Complete(hello) && |hello| <= MaxBytes && hello <= joined
    ensures Judge(joined, used) == Some(Unsplit(hello, used))
  {
    assert joined[..|hello|] == hello;
  }

  /**
   Reading on after part of the hello: `extra` follows it inside the last record, `rest`
   on the stream.
   */
  lemma {:induction false} Resume(records: seq<Record>, used: nat, handshake: seq<byte>, hello: seq<byte>, extra: seq<byte>, rest: seq<byte>)
    requires records != [] && forall i :: 0 <= i < |records| ==> Carries(records[i])
    requires Complete(hello) && handshake + Joined(records) == hello + extra
    requires |handshake + Joined(records[..|records| - 1])| < |hello|
    requires |hello| <= MaxBytes && used + |Wire(records)| <= MaxBytes
    ensures Reassemble(Wire(records) + rest, used, handshake) == Unsplit(hello, used + |Wire(records)|)
    decreases |records|
  {
    hide Judge, Unsplit, WriteRecord, Reassemble, Complete, Wire, Joined;
    var r, later := records[0], records[1..];
    var joined, now := handshake + r.body, used + 5 + |r.body|;
    FirstRecord(records, handshake, rest);
    OneRecord(r, used, handshake, Wire(later) + rest);
    if later == [] {
      JudgeWhole(joined, hello, now);
    } else {
      FrontSplits(records, handshake);
      PrefixOf(joined, Joined(later), hello, extra);
      JudgePrefix(joined, hello, now);
      Resume(later, now, joined, hello, extra, rest);
    }
  }

  lemma FirstRecord(records: seq<Record>, handshake: seq<byte>, rest: seq<byte>)
    requires records != [] && forall i :: 0 <= i < |records| ==> Carries(records[i])
    ensures var r, later := records[0], records[1..];
            && Wire(records) + rest == WriteRecord(r) + (Wire(later) + rest)
            && |Wire(records)| == 5 + |r.body| + |Wire(later)|
            && handshake + Joined(records) == handshake + r.body + Joined(later)
            && (later == [] ==> Wire(later) == [] && Joined(later) == [] && handshake + r.body + Joined(later) == handshake + r.body)
  {
    hide WriteRecord;
    RecordSize(records[0]);
  }

  lemma PrefixOf(a: seq<byte>, b: seq<byte>, hello: seq<byte>, extra: seq<byte>)
    requires a + b == hello + extra && |a| <= |hello|
    ensures a <= hello
  {
    assert a == (a + b)[..|a|];
  }

  lemma FrontSplits(records: seq<Record>, handshake: seq<byte>)
    requires |records| > 1
    ensures var front := handshake + Joined(records[..|records| - 1]);
            var later := records[1..];
            front == handshake + records[0].body + Joined(later[..|later| - 1])
  {
    var front, later := records[..|records| - 1], records[1..];
    assert front[0] == records[0] && front[1..] == later[..|later| - 1];
  }

  lemma OneRecord(r: Record, used: nat, handshake: seq<byte>, tail: seq<byte>)
    requires Carries(r) && used + 5 + |r.body| <= MaxBytes
    ensures Reassemble(WriteRecord(r) + tail, used, handshake) ==
              var verdict := Judge(handshake + r.body, used + 5 + |r.body|);
              if verdict.Some? then verdict.value else Reassemble(tail, used + 5 + |r.body|, handshake + r.body)
  {
    hide Judge, U16, WriteRecord;
    RecordPrefix(r, tail);
  }

  lemma RecordSize(r: Record)
    requires Carries(r)
    ensures |WriteRecord(r)| == 5 + |r.body|
  {
  }

  /** However a ClientHello is cut into records, reading it gives what parsing it whole gives. */
  lemma SplitDoesNotMatter(records: seq<Record>, hello: seq<byte>, extra: seq<byte>, rest: seq<byte>)
    requires forall i :: 0 <= i < |records| ==> Carries(records[i])
    requires Complete(hello) && Joined(records) == hello + extra
    requires records != [] && |Joined(records[..|records| - 1])| < |hello|
    requires |Wire(records)| <= 8192
    ensures Reassemble(Wire(records) + rest, 0, []) == Unsplit(hello, |Wire(records)|)
  {
    WireLonger(records);
    assert [] + Joined(records) == Joined(records);
    assert [] + Joined(records[..|records| - 1]) == Joined(records[..|records| - 1]);
    Resume(records, 0, [], hello, extra, rest);
  }

  lemma {:induction false} WireLonger(records: seq<Record>)
    requires forall i :: 0 <= i < |records| ==> Carries(records[i])
    ensures |Joined(records)| <= |Wire(records)|
  {
    if records != [] { WireLonger(records[1..]); }
  }

  /** Serialise, cut, send, reassemble, parse: the first host name comes back. */
  lemma WrittenHelloIsFound(h: Hello, records: seq<Record>, rest: seq<byte>)
    requires WellFormed(h) && forall i :: 0 <= i < |records| ==> Carries(records[i])
    requires Joined(records) == Write(h) && |Wire(records)| <= 8192
    ensures Reassemble(Wire(records) + rest, 0, []) ==
              match FirstServerName(h.extensions)
              case Ok(hostname) => Found(hostname, |Wire(records)|)
              case Err(error) => Refused(Malformed(error))
  {
    hide WellFormed, Reassemble, ReadHello, FirstServerName, Wire;
    HelloRoundTrip(h);
    WrittenIsComplete(h);
    assert Write(h) + [] == Write(h);
    LastIsNeeded(records);
    SplitDoesNotMatter(records, Write(h), [], rest);
  }

  lemma WrittenIsComplete(h: Hello)
    requires WellFormed(h)
    ensures Complete(Write(h))
  {
    hide Fields, WellFormed, U24;
    var bytes, length := Write(h), E24(FieldsFit(h));
    assert bytes[1] == length[0] && bytes[2] == length[1] && bytes[3] == length[2];
  }

  lemma {:induction false} LastIsNeeded(records: seq<Record>)
    requires records != [] && forall i :: 0 <= i < |records| ==> Carries(records[i])
    ensures |Joined(records[..|records| - 1])| < |Joined(records)|
  {
    if |records| > 1 {
      LastIsNeeded(records[1..]);
      assert records[..|records| - 1][1..] == records[1..][..|records| - 2];
    }
  }

  /** For every stream: a host name is only reported from at most 8192 consumed bytes. */
  lemma {:induction false} FoundWithinLimit(data: seq<byte>, used: nat, handshake: seq<byte>)
    requires Reassemble(data, used, handshake).Found?
    ensures used < Reassemble(data, used, handshake).consumed <= 8192
    ensures Reassemble(data, used, handshake).consumed - used <= |data|
    decreases |data|
  {
    hide U16, U24, ReadHello;
    var length := U16(data[3], data[4]);
    var joined := handshake + data[5..5 + length];
    if Judge(joined, used + 5 + length).None? {
      FoundWithinLimit(data[5 + length..], used + 5 + length, joined);
    }
  }

  /** A reported name comes from a stream that starts with a non-empty handshake record. */
  lemma NameNeedsHandshakeRecord(data: seq<byte>, used: nat, handshake: seq<byte>)
    requires Reassemble(data, used, handshake).Found?
    ensures |data| >= 6 && data[0] == 0x16 && U16(data[3], data[4]) > 0
  {
    hide Judge, U16;
  }

  /** Records of another type, empty records and oversized ones are refused at once. */
  lemma BadRecordIsRefused(data: seq<byte>, used: nat, handshake: seq<byte>)
    requires used < 8192 && |data| >= 5
    ensures data[0] != 0x16 ==> Reassemble(data, used, handshake) == Refused(NotHandshake)
    ensures data[0] == 0x16 && (U16(data[3], data[4]) == 0 || used + 5 + U16(data[3], data[4]) > 8192) ==>
              Reassemble(data, used, handshake) == Refused(TooLarge)
  {
    hide Judge, U16;
  }
}

/** Decimal numbers, dotted quads and blank-separated fields as the PROXY protocol's text form uses them. */
module ProxyText {
  import opened Text
  import opened Bytes

  predicate Digit(c: byte) {
    '0' as int <= c <= '9' as int
  }

  predicate Blank(c: byte) {
    9 <= c <= 13 || c == 32
  }

  ghost predicate AllDigits(s: seq<byte>) {
    forall i :: 0 <= i < |s| ==> Digit(s[i])
  }

  // ---- decimal numbers

  function Decimal(n: nat): (r: seq<byte>)
    ensures r != [] && AllDigits(r)
    ensures |r| > 1 ==> r[0] != 48
    ensures n > 0 ==> r[0] != 48
    ensures n < 10 ==> |r| == 1
    ensures n < 1000 ==> |r| <= 3
    ensures n < 65536 ==> |r| <= 5
  {
    if n < 10 then [48 + n] else Decimal(n / 10) + [48 + n % 10]
  }

  /** The value of a digit string; none for the empty string or a foreign character. */
  function Value(s: seq<byte>): Option<nat> {
    if s == [] then None
    else if !Digit(s[|s| - 1]) then None
    else if |s| == 1 then Some(s[0] - 48)
    else
      var front := Value(s[..|s| - 1]);
      if front.None? then None else Some(front.value * 10 + (s[|s| - 1] - 48))
  }

  lemma {:induction false} DecimalRoundTrip(n: nat)
    ensures Value(Decimal(n)) == Some(n)
  {
    if n >= 10 {
      DecimalRoundTrip(n / 10);
      var s := Decimal(n);
      assert s[..|s| - 1] == Decimal(n / 10);
    }
  }

  /** strconv.Atoi with the range check: an optional sign, digits, 0 to 65535. */
  function ReadPort(s: seq<byte>): Option<nat> {
    var negative := s != [] && s[0] == 45;
    var digits := if s != [] && s[0] in {43, 45} then s[1..] else s;
    match Value(digits)
    case None => None
    case Some(n) => if n > 65535 || (negative && n != 0) then None else Some(n)
  }

  lemma PortRoundTrip(n: nat)
    requires n <= 65535
    ensures ReadPort(Decimal(n)) == Some(n)
  {
    hide Value, Decimal;
    DecimalRoundTrip(n);
    assert Digit(Decimal(n)[0]);
  }

  // ---- dotted quads

  function SplitDots(s: seq<byte>): (parts: seq<seq<byte>>)
    ensures parts != []
  {
    if s == [] then [[]]
    else if s[0] == 46 then [[]] + SplitDots(s[1..])
    else
      var rest := SplitDots(s[1..]);
      [[s[0]] + rest[0]] + rest[1..]
  }

  /** One to three digits up to 255, without a leading zero. */
  function ReadOctet(s: seq<byte>): Option<byte> {
    if |s| > 1 && s[0] == 48 then None
    else match Value(s)
      case None => None
      case Some(n) => if n > 255 then None else Some(n)
  }

  function ReadQuad(s: seq<byte>): Option<seq<byte>> {
    var parts := SplitDots(s);
    if |parts| != 4 then None
    else
      var a, b, c, d := ReadOctet(parts[0]), ReadOctet(parts[1]), ReadOctet(parts[2]), ReadOctet(parts[3]);
      if a.None? || b.None? || c.None? || d.None? then None else Some([a.value, b.value, c.value, d.value])
  }

  function WriteQuad(ip: seq<byte>): seq<byte>
    requires |ip| == 4
  {
    Decimal(ip[0]) + [46] + Decimal(ip[1]) + [46] + Decimal(ip[2]) + [46] + Decimal(ip[3])
  }

  lemma {:induction false} SplitWord(word: seq<byte>, rest: seq<byte>)
    requires AllDigits(word)
    ensures SplitDots(word + [46] + rest) == [word] + SplitDots(rest)
    decreases |word|
  {
    var s := word + [46] + rest;
    if word == [] {
      assert s[0] == 46 && s[1..] == rest;
    } else {
      SplitWord(word[1..], rest);
      assert Digit(word[0]);
      assert s[1..] == word[1..] + [46] + rest;
      assert word == [word[0]] + word[1..];
    }
  }

  lemma {:induction false} SplitLast(word: seq<byte>)
    requires AllDigits(word)
    ensures SplitDots(word) == [word]
  {
    if word != [] {
      assert Digit(word[0]);
      SplitLast(word[1..]);
      assert word == [word[0]] + word[1..];
    }
  }

  lemma OctetRoundTrip(n: byte)
    ensures ReadOctet(Decimal(n)) == Some(n)
  {
    hide Value, Decimal;
    DecimalRoundTrip(n);
  }

  lemma QuadRoundTrip(ip: seq<byte>)
    requires |ip| == 4
    ensures ReadQuad(WriteQuad(ip)) == Some(ip)
  {
    hide Value, Decimal, SplitDots, ReadOctet;
    var a, b, c, d := Decimal(ip[0]), Decimal(ip[1]), Decimal(ip[2]), Decimal(ip[3]);
    var cd := c + [46] + d;
    var bcd := b + [46] + cd;
    assert WriteQuad(ip) == a + [46] + bcd;
    SplitWord(a, bcd);
    SplitWord(b, cd);
    SplitWord(c, d);
    SplitLast(d);
    assert SplitDots(WriteQuad(ip)) == [a, b, c, d];
    forall k | 0 <= k < 4
      ensures ReadOctet(Decimal(ip[k])) == Some(ip[k])
    {
      OctetRoundTrip(ip[k]);
    }
    assert ip == [ip[0], ip[1], ip[2], ip[3]];
  }

  // ---- fields

  function Word(s: seq<byte>): (w: seq<byte>)
    ensures |w| <= |s| && w == s[..|w|]
    ensures s != [] && !Blank(s[0]) ==> w != []
  {
    if s == [] || Blank(s[0]) then [] else [s[0]] + Word(s[1..])
  }

  function Fields(s: seq<byte>): seq<seq<byte>>
    decreases |s|
  {
    if s == [] then []
    else if Blank(s[0]) then Fields(s[1..])
    else [Word(s)] + Fields(s[|Word(s)|..])
  }

  /** A printable field: something, without blanks. */
  ghost predicate Solid(w: seq<byte>) {
    w != [] && forall i :: 0 <= i < |w| ==> !Blank(w[i])
  }

  lemma {:induction false} WordStops(w: seq<byte>, rest: seq<byte>)
    requires forall i :: 0 <= i < |w| ==> !Blank(w[i])
    requires rest == [] || Blank(rest[0])
    ensures Word(w + rest) == w
  {
    if w == [] {
      assert w + rest == rest;
    } else {
      WordStops(w[1..], rest);
      assert (w + rest)[1..] == w[1..] + rest;
    }
  }

  lemma FieldThenBlank(w: seq<byte>, blank: byte, rest: seq<byte>)
    requires Solid(w) && Blank(blank)
    ensures Fields(w + [blank] + rest) == [w] + Fields(rest)
  {
    hide Word;
    WordStops(w, [blank] + rest);
    var s := w + [blank] + rest;
    assert s == w + ([blank] + rest);
    assert s[|w|..] == [blank] + rest;
    assert ([blank] + rest)[1..] == rest;
    assert Fields([blank] + rest) == Fields(rest);
  }

  lemma LastField(w: seq<byte>)
    requires Solid(w)
    ensures Fields(w) == [w]
  {
    WordStops(w, []);
    assert w + [] == w;
    assert w[|w|..] == [];
  }

  // ---- and nothing else is taken

  lemma {:induction false} PositiveValue(s: seq<byte>)
    requires Value(s).Some? && s[0] != 48
    ensures Value(s).value > 0
  {
    if |s| > 1 {
      assert s[..|s| - 1][0] == s[0];
      PositiveValue(s[..|s| - 1]);
    }
  }

  /** A number without a leading zero is spelled in one way. */
  lemma {:induction false} OneSpelling(s: seq<byte>)
    requires Value(s).Some? && (|s| == 1 || s[0] != 48)
    ensures s == Decimal(Value(s).value)
  {
    if |s| > 1 {
      var front, n := s[..|s| - 1], Value(s).value;
      assert front[0] == s[0];
      PositiveValue(front);
      OneSpelling(front);
      var m := Value(front).value;
      assert n == m * 10 + (s[|s| - 1] - 48) && n / 10 == m && n % 10 == s[|s| - 1] - 48;
      assert s == front + [s[|s| - 1]];
    }
  }

  lemma OctetOnlyDecimal(s: seq<byte>)
    requires ReadOctet(s).Some?
    ensures s == Decimal(ReadOctet(s).value)
  {
    hide Decimal;
    OneSpelling(s);
  }

  function JoinDots(parts: seq<seq<byte>>): seq<byte> {
    if parts == [] then [] else if |parts| == 1 then parts[0] else parts[0] + [46] + JoinDots(parts[1..])
  }

  lemma {:induction false} JoinSplit(s: seq<byte>)
    ensures JoinDots(SplitDots(s)) == s
  {
    if s != [] {
      JoinSplit(s[1..]);
      var rest := SplitDots(s[1..]);
      if s[0] == 46 {
        assert ([[]] + rest)[1..] == rest;
        assert [] + [46] + s[1..] == s;
      } else {
        var parts := [[s[0]] + rest[0]] + rest[1..];
        assert parts[1..] == rest[1..];
        if |rest| == 1 {
          assert [s[0]] + s[1..] == s;
        } else {
          assert [s[0]] + rest[0] + [46] + JoinDots(rest[1..]) == [s[0]] + (rest[0] + [46] + JoinDots(rest[1..]));
          assert [s[0]] + s[1..] == s;
        }
      }
    }
  }

  /** Only the printed form of an IPv4 address is read as one: no leading zeros, no missing or extra parts. */
  lemma QuadOnlyPrinted(s: seq<byte>)
    requires ReadQuad(s).Some?
    ensures |ReadQuad(s).value| == 4 && s == WriteQuad(ReadQuad(s).value)
  {
    hide Decimal, ReadOctet, SplitDots, JoinDots;
    var parts, ip := SplitDots(s), ReadQuad(s).value;
    forall i | 0 <= i < 4
      ensures ReadOctet(parts[i]).Some? && ip[i] == ReadOctet(parts[i]).value && parts[i] == Decimal(ip[i])
    {
      OctetOnlyDecimal(parts[i]);
    }
    JoinSplit(s);
    JoinFour(parts);
  }

  lemma JoinFour(parts: seq<seq<byte>>)
    requires |parts| == 4
    ensures JoinDots(parts) == parts[0] + [46] + parts[1] + [46] + parts[2] + [46] + parts[3]
  {
    var b, c, d := parts[1..], parts[1..][1..], parts[1..][1..][1..];
    assert |b| == 3 && |c| == 2 && |d| == 1 && b[0] == parts[1] && c[0] == parts[2] && d[0] == parts[3];
    assert JoinDots(c) == parts[2] + [46] + parts[3];
    assert JoinDots(b) == parts[1] + [46] + (parts[2] + [46] + parts[3]);
    assert JoinDots(parts) == parts[0] + [46] + (parts[1] + [46] + (parts[2] + [46] + parts[3]));
  }

  /** A sign is allowed; a negative or too large number is not a port. */
  lemma SignedPorts(n: nat)
    ensures ReadPort([43] + Decimal(n)) == if n <= 65535 then Some(n) else None
    ensures ReadPort([45] + Decimal(n)) == if n == 0 then Some(0) else None
    ensures ReadPort(Decimal(n)) == if n <= 65535 then Some(n) else None
  {
    hide Value, Decimal;
    DecimalRoundTrip(n);
    assert Digit(Decimal(n)[0]);
    assert ([43] + Decimal(n))[1..] == Decimal(n) && ([45] + Decimal(n))[1..] == Decimal(n);
  }
}

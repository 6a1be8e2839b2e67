/**
 Rewriting `?` placeholders to PostgreSQL's `$1`, `$2`, … without touching quoted text
 and comments.
 */
module Placeholders {

  datatype Region = Code | LineComment | BlockComment | SingleQuoted | DoubleQuoted

  /** One or two characters read together, and the region they were read in. */
  datatype Token = Token(text: string, region: Region)

  const Placeholder := Token("?", Code)

  // ---- the lexer

  predicate Pair(region: Region, a: char, b: char) {
    match region
    case Code => (a == '-' && b == '-') || (a == '/' && b == '*')
    case LineComment => false
    case BlockComment => a == '*' && b == '/'
    case SingleQuoted => a == '\'' && b == '\''
    case DoubleQuoted => a == '"' && b == '"'
  }

  function Length(s: string, region: Region): (n: nat)
    requires s != []
    ensures 1 <= n <= 2 && n <= |s|
  {
    if |s| >= 2 && Pair(region, s[0], s[1]) then 2 else 1
  }

  function After(text: string, region: Region): Region
    requires text != []
  {
    match region
    case LineComment => if text[0] == '\n' then Code else LineComment
    case BlockComment => if |text| == 2 then Code else BlockComment
    case SingleQuoted => if |text| == 1 && text[0] == '\'' then Code else SingleQuoted
    case DoubleQuoted => if |text| == 1 && text[0] == '"' then Code else DoubleQuoted
    case Code =>
      if |text| == 2 then (if text[0] == '-' then LineComment else BlockComment)
      else if text[0] == '\'' then SingleQuoted
      else if text[0] == '"' then DoubleQuoted
      else Code
  }

  function Lex(s: string, region: Region): seq<Token>
    decreases |s|
  {
    if s == [] then []
    else
      var n := Length(s, region);
      [Token(s[..n], region)] + Lex(s[n..], After(s[..n], region))
  }

  function Unlex(tokens: seq<Token>): string {
    if tokens == [] then [] else tokens[0].text + Unlex(tokens[1..])
  }

  // ---- what rebinding means

  predicate Harmless(c: char) {
    c !in "-/'\"?"
  }

  ghost predicate AllHarmless(s: string) {
    forall i :: 0 <= i < |s| ==> Harmless(s[i])
  }

  function Decimal(n: nat): (s: string)
    ensures s != [] && AllHarmless(s)
  {
    if n < 10 then ["0123456789"[n]] else Decimal(n / 10) + ["0123456789"[n % 10]]
  }

  function Numbered(k: nat): (s: string)
    ensures |s| >= 2 && s[0] == '$' && AllHarmless(s)
  {
    ['$'] + Decimal(k)
  }

  /** The placeholders of a token list become `$k`, `$k+1`, …; every other token stays. */
  function Number(tokens: seq<Token>, k: nat): seq<Token> {
    if tokens == [] then []
    else if tokens[0] == Placeholder then [Token(Numbered(k), Code)] + Number(tokens[1..], k + 1)
    else [tokens[0]] + Number(tokens[1..], k)
  }

  function Rebound(s: string): string {
    Unlex(Number(Lex(s, Code), 1))
  }

  // ---- the loop

  function RegionOf(line: bool, block: bool, single: bool, double: bool): Region {
    if line then LineComment else if block then BlockComment else if single then SingleQuoted else if double then DoubleQuoted else Code
  }

  /** What remains to be written from position `i` on. */
  ghost function Remaining(s: string, i: nat, region: Region, k: nat): string
    requires i <= |s|
  {
    Unlex(Number(Lex(s[i..], region), k))
  }

  lemma Advance(s: string, i: nat, region: Region, k: nat)
    requires i < |s|
    ensures var n := Length(s[i..], region);
            if region == Code && s[i] == '?' then n == 1 && Remaining(s, i, region, k) == Numbered(k) + Remaining(s, i + 1, Code, k + 1)
            else Remaining(s, i, region, k) == s[i..i + n] + Remaining(s, i + n, After(s[i..i + n], region), k)
  {
    hide After, Numbered;
    var rest := s[i..];
    var n := Length(rest, region);
    assert rest[..n] == s[i..i + n] && rest[n..] == s[i + n..];
    var tokens := Lex(rest, region);
    assert tokens[1..] == Lex(s[i + n..], After(s[i..i + n], region));
    if region == Code && s[i] == '?' {
      assert tokens[0].text == "?";
      AfterPlaceholder();
      assert Number(tokens, k)[1..] == Number(tokens[1..], k + 1);
    } else {
      assert tokens[0] != Placeholder;
      assert Number(tokens, k)[1..] == Number(tokens[1..], k);
    }
  }

  lemma AfterPlaceholder()
    ensures After("?", Code) == Code
  {
  }

  predicate AtMostOne(line: bool, block: bool, single: bool, double: bool) {
    !(line && (block || single || double)) && !(block && (single || double)) && !(single && double)
  }

  /** The body of the loop: what one rune, with its successor, writes and how it moves the flags. */
  method Scan(query: string, i: nat, line: bool, block: bool, single: bool, double: bool, index: nat)
    returns (piece: string, step: nat, line': bool, block': bool, single': bool, double': bool)
    requires i < |query| && AtMostOne(line, block, single, double)
    ensures AtMostOne(line', block', single', double')
    ensures step == Length(query[i..], RegionOf(line, block, single, double))
    ensures RegionOf(line', block', single', double') == After(query[i..i + step], RegionOf(line, block, single, double))
    ensures piece == if RegionOf(line, block, single, double) == Code && query[i] == '?' then Numbered(index) else query[i..i + step]
  {
    hide Numbered;
    var r := query[i];
    var next := if i + 1 < |query| then query[i + 1] else '\0';
    piece, step := [r], 1;
    line', block', single', double' := line, block, single, double;
    if line {
      if r == '\n' { line' := false; }
    } else if block {
      if r == '*' && next == '/' {
        piece, step := [r, next], 2;
        block' := false;
      }
    } else if single {
      if r == '\'' {
        if next == '\'' {
          piece, step := [r, next], 2;
        } else {
          single' := false;
        }
      }
    } else if double {
      if r == '"' {
        if next == '"' {
          piece, step := [r, next], 2;
        } else {
          double' := false;
        }
      }
    } else if r == '-' && next == '-' {
      piece, step := [r, next], 2;
      line' := true;
    } else if r == '/' && next == '*' {
      piece, step := [r, next], 2;
      block' := true;
    } else if r == '\'' {
      single' := true;
    } else if r == '"' {
      double' := true;
    } else if r == '?' {
      piece := Numbered(index);
    }
  }

  method RebindPostgresPlaceholders(query: string) returns (builder: string)
    ensures builder == Rebound(query)
  {
    hide Lex, Number, Unlex, Numbered, After, Length, AtMostOne, Remaining;
    if '?' !in query {
      Untouched(query, Code, 1);
      return query;
    }
    builder := "";
    var index := 1;
    var line, block, single, double := false, false, false, false;
    NoFlags();
    var i := 0;
    RemainingAtStart(query);
    while i < |query|
      invariant 0 <= i <= |query| && index >= 1
      invariant AtMostOne(line, block, single, double)
      invariant builder + Remaining(query, i, RegionOf(line, block, single, double), index) == Rebound(query)
      decreases |query| - i
    {
      ghost var region, written := RegionOf(line, block, single, double), builder;
      Advance(query, i, region, index);
      AfterPlaceholder();
      var piece, step;
      var placeholder := !line && !block && !single && !double && query[i] == '?';
      piece, step, line, block, single, double := Scan(query, i, line, block, single, double, index);
      assert placeholder ==> query[i..i + step] == "?";
      if placeholder { index := index + 1; }
      builder := builder + piece;
      i := i + step;
      Glue(written, piece, Remaining(query, i, RegionOf(line, block, single, double), index));
    }
    NothingLeft(query, RegionOf(line, block, single, double), index);
  }

  lemma Glue(a: string, b: string, c: string)
    ensures a + (b + c) == (a + b) + c
  {
  }

  lemma NoFlags()
    ensures AtMostOne(false, false, false, false)
  {
  }

  lemma RemainingAtStart(s: string)
    ensures Remaining(s, 0, Code, 1) == Rebound(s)
  {
    hide Lex, Number, Unlex;
    assert s[0..] == s;
  }

  lemma NothingLeft(s: string, region: Region, k: nat)
    ensures Remaining(s, |s|, region, k) == []
  {
    assert s[|s|..] == [];
  }

  // ---- nothing else changes

  lemma {:induction false} UnlexLex(s: string, region: Region)
    ensures Unlex(Lex(s, region)) == s
    decreases |s|
  {
    hide After, Length, Unlex;
    if s == [] {
      UnlexCons(Placeholder, []);
    } else {
      var n := Length(s, region);
      var rest := Lex(s[n..], After(s[..n], region));
      UnlexLex(s[n..], After(s[..n], region));
      UnlexCons(Token(s[..n], region), rest);
      assert s == s[..n] + s[n..];
    }
  }

  lemma UnlexCons(token: Token, rest: seq<Token>)
    ensures Unlex([token] + rest) == token.text + Unlex(rest)
    ensures Unlex([]) == []
  {
    assert ([token] + rest)[1..] == rest;
  }

  lemma {:induction false} NumberWithout(tokens: seq<Token>, k: nat)
    requires Placeholder !in tokens
    ensures Number(tokens, k) == tokens
  {
    if tokens != [] {
      assert tokens[0] in tokens;
      NumberWithout(tokens[1..], k);
    }
  }

  lemma {:induction false} LexWithout(s: string, region: Region)
    requires '?' !in s
    ensures Placeholder !in Lex(s, region)
    decreases |s|
  {
    hide After, Pair;
    if s != [] {
      var n := Length(s, region);
      LexWithout(s[n..], After(s[..n], region));
      assert s[..n][0] in s;
    }
  }

  lemma Untouched(s: string, region: Region, k: nat)
    requires '?' !in s
    ensures Unlex(Number(Lex(s, region), k)) == s
  {
    LexWithout(s, region);
    NumberWithout(Lex(s, region), k);
    UnlexLex(s, region);
  }

  /** Tokens one character each. */
  function Letters(s: string): seq<Token> {
    if s == [] then [] else [Token([s[0]], Code)] + Letters(s[1..])
  }

  /** `$k` reads as its characters, in code. */
  function Reread(tokens: seq<Token>, k: nat): seq<Token> {
    if tokens == [] then []
    else if tokens[0] == Placeholder then Letters(Numbered(k)) + Reread(tokens[1..], k + 1)
    else [tokens[0]] + Reread(tokens[1..], k)
  }

  lemma {:induction false} LexHarmless(w: string, rest: string)
    requires AllHarmless(w)
    ensures Lex(w + rest, Code) == Letters(w) + Lex(rest, Code)
    decreases |w|
  {
    hide After, Pair;
    if w == [] {
      assert w + rest == rest;
    } else {
      var s := w + rest;
      assert Harmless(w[0]);
      HarmlessStep(s);
      assert s[..1] == [w[0]] && s[1..] == w[1..] + rest;
      LexHarmless(w[1..], rest);
      assert (Letters(w[1..]) + Lex(rest, Code)) == Lex(s[1..], Code);
      assert [Token([w[0]], Code)] + (Letters(w[1..]) + Lex(rest, Code)) == Letters(w) + Lex(rest, Code);
    }
  }

  lemma HarmlessStep(s: string)
    requires s != [] && Harmless(s[0])
    ensures Length(s, Code) == 1 && After(s[..1], Code) == Code
  {
  }

  /** What the rewritten text starts with: the same character, or the dollar of a placeholder. */
  lemma Head(s: string, region: Region, k: nat)
    requires s != []
    ensures var out := Remaining(s, 0, region, k);
            out != [] && out[0] == if region == Code && s[0] == '?' then '$' else s[0]
  {
    hide Lex, Number, Unlex, After, Pair;
    Advance(s, 0, region, k);
    assert s[0..] == s;
  }

  lemma SameLength(s: string, region: Region, k: nat, n: nat)
    requires s != [] && n == Length(s, region) && !(region == Code && s[0] == '?')
    ensures var out := s[..n] + Remaining(s, n, After(s[..n], region), k);
            Length(out, region) == n && out[..n] == s[..n] && out[n..] == Remaining(s, n, After(s[..n], region), k)
  {
    hide After, Lex, Number, Unlex;
    if n == 1 && |s| > 1 {
      var next := After(s[..1], region);
      Head(s[1..], next, k);
      assert s[1..][0..] == s[1..];
      assert Remaining(s[1..], 0, next, k) == Remaining(s, 1, next, k);
    } else if n == 1 {
      NothingLeft(s, After(s[..n], region), k);
    }
  }

  /** Rebinding preserves lexing: every other token reads the same, in the same region. */
  lemma {:induction false} LexRemaining(s: string, region: Region, k: nat)
    ensures Lex(Remaining(s, 0, region, k), region) == Reread(Lex(s, region), k)
    decreases |s|
  {
    hide After, Numbered, Unlex, Number, Pair;
    assert s[0..] == s;
    if s == [] {
      NothingLeft(s, region, k);
    } else {
      Advance(s, 0, region, k);
      var n := Length(s, region);
      var next := After(s[..n], region);
      assert s[n..][0..] == s[n..];
      assert Lex(s, region)[1..] == Lex(s[n..], next);
      if region == Code && s[0] == '?' {
        assert s[..1] == "?";
        AfterPlaceholder();
        LexHarmless(Numbered(k), Remaining(s, 1, Code, k + 1));
        LexRemaining(s[1..], Code, k + 1);
      } else {
        SameLength(s, region, k, n);
        LexRemaining(s[n..], next, k);
      }
    }
  }

  lemma {:induction false} LettersHaveNone(w: string)
    requires AllHarmless(w)
    ensures Placeholder !in Letters(w)
  {
    if w != [] {
      assert Harmless(w[0]);
      LettersHaveNone(w[1..]);
    }
  }

  lemma {:induction false} RereadHasNone(tokens: seq<Token>, k: nat)
    ensures Placeholder !in Reread(tokens, k)
  {
    if tokens != [] {
      if tokens[0] == Placeholder {
        LettersHaveNone(Numbered(k));
        RereadHasNone(tokens[1..], k + 1);
      } else {
        RereadHasNone(tokens[1..], k);
      }
    }
  }

  /** The rewritten query reads token by token like the original, with `$k` for the k-th placeholder. */
  lemma RebindPreservesLexing(s: string)
    ensures Lex(Rebound(s), Code) == Reread(Lex(s, Code), 1)
    ensures Placeholder !in Lex(Rebound(s), Code)
  {
    hide Lex, Reread, Unlex, Number;
    LexRemaining(s, Code, 1);
    assert s[0..] == s;
    RereadHasNone(Lex(s, Code), 1);
  }

  lemma RebindIdempotent(s: string)
    ensures Rebound(Rebound(s)) == Rebound(s)
  {
    hide Lex, Unlex, Number;
    RebindPreservesLexing(s);
    NumberWithout(Lex(Rebound(s), Code), 1);
    UnlexLex(Rebound(s), Code);
  }

  function Count(tokens: seq<Token>): nat {
    if tokens == [] then 0 else (if tokens[0] == Placeholder then 1 else 0) + Count(tokens[1..])
  }

  /** Position by position: the placeholder with `m` placeholders before it becomes `$(m+1)`. */
  lemma {:induction false} NumberAt(tokens: seq<Token>, k: nat, i: nat)
    requires i < |tokens|
    ensures |Number(tokens, k)| == |tokens|
    ensures Number(tokens, k)[i] ==
              if tokens[i] == Placeholder then Token(Numbered(k + Count(tokens[..i])), Code) else tokens[i]
  {
    hide Numbered;
    if |tokens| > 1 || i > 0 {
      var k' := if tokens[0] == Placeholder then k + 1 else k;
      NumberAt(tokens[1..], k', if i > 0 then i - 1 else 0);
      if i > 0 {
        assert tokens[..i][0] == tokens[0] && tokens[..i][1..] == tokens[1..][..i - 1];
      }
    }
  }

  // ---- the numbers are numbers

  /** The value of a digit string. */
  function ReadDigits(s: string): int {
    if s == [] then 0 else ReadDigits(s[..|s| - 1]) * 10 + (s[|s| - 1] as int - '0' as int)
  }

  predicate AllDigits(s: string) {
    forall i :: 0 <= i < |s| ==> '0' <= s[i] <= '9'
  }

  /** `$k` spells k: a dollar and the digits of k. */
  lemma {:induction false} DecimalSpells(k: nat)
    ensures AllDigits(Decimal(k)) && ReadDigits(Decimal(k)) == k
  {
    if k >= 10 {
      DecimalSpells(k / 10);
      var s := Decimal(k);
      assert s[..|s| - 1] == Decimal(k / 10);
    } else {
      assert Decimal(k)[..0] == [];
    }
  }

  lemma NumberedSpells(k: nat)
    ensures Numbered(k)[0] == '$' && AllDigits(Numbered(k)[1..]) && ReadDigits(Numbered(k)[1..]) == k
  {
    DecimalSpells(k);
  }

  lemma NumberedInjective(k: nat, m: nat)
    requires Numbered(k) == Numbered(m)
    ensures k == m
  {
    hide Numbered;
    NumberedSpells(k);
    NumberedSpells(m);
  }

  // ---- the regions are what SQL says they are

  /** Rewriting from code on, starting with placeholder number `k`. */
  ghost function Rest(s: string, k: nat): string {
    Unlex(Number(Lex(s, Code), k))
  }

  /** From inside a region: the text up to its end is copied, and what follows is code again. */
  lemma {:induction false} CopiesRegion(region: Region, w: string, close: string, rest: string, k: nat)
    requires region != Code && close != []
    requires var t := w + close + rest; forall i :: 0 <= i < |w| ==> !Pair(region, t[i], t[i + 1]) && After([t[i]], region) == region
    requires Length(close + rest, region) == |close| && After(close, region) == Code
    ensures Unlex(Number(Lex(w + close + rest, region), k)) == w + close + Rest(rest, k)
    decreases |w|
  {
    hide Lex, Number, Unlex, After;
    var t := w + close + rest;
    Advance(t, 0, region, k);
    assert t[0..] == t;
    if w == [] {
      assert t == close + rest && t[..|close|] == close && t[|close|..] == rest;
      assert Rest(rest, k) == Remaining(t, |close|, Code, k);
    } else {
      var u := w[1..] + close + rest;
      assert t[1..] == u && t[..1] == [w[0]];
      forall i | 0 <= i < |w[1..]|
        ensures !Pair(region, u[i], u[i + 1]) && After([u[i]], region) == region
      {
        assert u[i] == t[i + 1] && u[i + 1] == t[i + 2];
      }
      CopiesRegion(region, w[1..], close, rest, k);
      assert Remaining(t, 1, region, k) == w[1..] + close + Rest(rest, k);
      assert [w[0]] + (w[1..] + close + Rest(rest, k)) == w + close + Rest(rest, k);
    }
  }

  /** Entering a region copies the opening characters. */
  lemma OpensRegion(open: string, region: Region, tail: string, k: nat)
    requires open != [] && Length(open + tail, Code) == |open| && After(open, Code) == region && open[0] != '?'
    ensures Rest(open + tail, k) == open + Unlex(Number(Lex(tail, region), k))
  {
    hide Lex, Number, Unlex, After;
    var s := open + tail;
    Advance(s, 0, Code, k);
    assert s[0..] == s && s[..|open|] == open && s[|open|..] == tail;
  }

  lemma CopiesWhole(open: string, region: Region, w: string, close: string, rest: string, k: nat)
    requires open != [] && close != [] && region != Code && open[0] != '?'
    requires Length(open + (w + close + rest), Code) == |open| && After(open, Code) == region
    requires var t := w + close + rest; forall i :: 0 <= i < |w| ==> !Pair(region, t[i], t[i + 1]) && After([t[i]], region) == region
    requires Length(close + rest, region) == |close| && After(close, region) == Code
    ensures Rest(open + w + close + rest, k) == open + w + close + Rest(rest, k)
  {
    hide Rest, Lex, Number, Unlex, After, Length, Pair;
    OpensRegion(open, region, w + close + rest, k);
    CopiesRegion(region, w, close, rest, k);
    assert open + (w + close + rest) == open + w + close + rest;
    assert open + (w + close + Rest(rest, k)) == open + w + close + Rest(rest, k);
  }

  /** A quoted string, without quotes inside, is copied, question marks and all. */
  lemma SingleQuotedIsCopied(w: string, rest: string, k: nat)
    requires '\'' !in w && (rest == [] || rest[0] != '\'')
    ensures Rest("'" + w + "'" + rest, k) == "'" + w + "'" + Rest(rest, k)
  {
    hide Rest;
    assert forall i :: 0 <= i < |w| ==> (w + "'" + rest)[i] == w[i] && w[i] in w;
    CopiesWhole("'", SingleQuoted, w, "'", rest, k);
  }

  lemma DoubleQuotedIsCopied(w: string, rest: string, k: nat)
    requires '"' !in w && (rest == [] || rest[0] != '"')
    ensures Rest("\"" + w + "\"" + rest, k) == "\"" + w + "\"" + Rest(rest, k)
  {
    hide Rest;
    assert forall i :: 0 <= i < |w| ==> (w + "\"" + rest)[i] == w[i] && w[i] in w;
    CopiesWhole("\"", DoubleQuoted, w, "\"", rest, k);
  }

  /** A line comment is copied up to its newline. */
  lemma LineCommentIsCopied(w: string, rest: string, k: nat)
    requires '\n' !in w
    ensures Rest("--" + w + "\n" + rest, k) == "--" + w + "\n" + Rest(rest, k)
  {
    hide Rest;
    assert forall i :: 0 <= i < |w| ==> (w + "\n" + rest)[i] == w[i] && w[i] in w;
    CopiesWhole("--", LineComment, w, "\n", rest, k);
  }

  /** A block comment is copied up to the first star and slash. */
  lemma BlockCommentIsCopied(w: string, rest: string, k: nat)
    requires forall i :: 0 <= i < |w| ==> !(w[i] == '*' && (w + "*/")[i + 1] == '/')
    ensures Rest("/*" + w + "*/" + rest, k) == "/*" + w + "*/" + Rest(rest, k)
  {
    hide Rest;
    var t := w + "*/" + rest;
    forall i | 0 <= i < |w|
      ensures !Pair(BlockComment, t[i], t[i + 1]) && After([t[i]], BlockComment) == BlockComment
    {
      assert t[i] == w[i] && t[i + 1] == (w + "*/")[i + 1];
    }
    CopiesWhole("/*", BlockComment, w, "*/", rest, k);
  }

  /** A doubled quote does not end the string. */
  lemma DoubledQuoteStaysInside(v: string, w: string, rest: string, k: nat)
    requires '\'' !in v && '\'' !in w && (rest == [] || rest[0] != '\'')
    ensures Unlex(Number(Lex(v + "''" + w + "'" + rest, SingleQuoted), k)) == v + "''" + w + "'" + Rest(rest, k)
    decreases |v|
  {
    hide Rest, Lex, Number, Unlex, Length, After;
    if v == [] {
      var u := w + "'" + rest;
      assert v + "''" + w + "'" + rest == "''" + u;
      QuotedStep("''", u, k);
      QuoteCloses(w, rest, k);
      assert "''" + (w + "'" + Rest(rest, k)) == v + "''" + w + "'" + Rest(rest, k);
    } else {
      var u := v[1..] + "''" + w + "'" + rest;
      assert v[0] in v && v + "''" + w + "'" + rest == [v[0]] + u;
      QuotedStep([v[0]], u, k);
      DoubledQuoteStaysInside(v[1..], w, rest, k);
      assert [v[0]] + (v[1..] + "''" + w + "'" + Rest(rest, k)) == v + "''" + w + "'" + Rest(rest, k);
    }
  }

  /** Inside a string, a doubled quote or any other character is one token and stays inside. */
  lemma QuotedStep(token: string, rest: string, k: nat)
    requires token == "''" || (|token| == 1 && token[0] != '\'')
    ensures Unlex(Number(Lex(token + rest, SingleQuoted), k)) == token + Unlex(Number(Lex(rest, SingleQuoted), k))
  {
    hide Lex, Number, Unlex;
    var s := token + rest;
    assert s[0..] == s && s[..|token|] == token && s[|token|..] == rest;
    Advance(s, 0, SingleQuoted, k);
  }

  lemma QuoteCloses(w: string, rest: string, k: nat)
    requires '\'' !in w && (rest == [] || rest[0] != '\'')
    ensures Unlex(Number(Lex(w + "'" + rest, SingleQuoted), k)) == w + "'" + Rest(rest, k)
  {
    hide Lex, Number, Unlex, Rest;
    assert forall i :: 0 <= i < |w| ==> (w + "'" + rest)[i] == w[i] && w[i] in w;
    CopiesRegion(SingleQuoted, w, "'", rest, k);
  }

  /** In code a question mark is a placeholder, and a harmless character is copied. */
  lemma CodeStep(c: char, rest: string, k: nat)
    requires Harmless(c) || c == '?'
    ensures Rest([c] + rest, k) == if c == '?' then Numbered(k) + Rest(rest, k + 1) else [c] + Rest(rest, k)
  {
    hide Lex, Number, Unlex, Numbered;
    var s := [c] + rest;
    assert s[0..] == s && s[1..] == rest && s[..1] == [c];
    Advance(s, 0, Code, k);
    AfterPlaceholder();
  }
}

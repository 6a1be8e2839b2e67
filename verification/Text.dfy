/**
 Whitespace handling shared by the agent and the control plane: both sides pass
 identifiers through Go's strings.TrimSpace before comparing them.
 */
module Text {

  datatype Option<+T> = None | Some(value: T)

  /** The code points of Go's unicode.IsSpace. */
  predicate IsSpace(c: char) {
    || '\t' <= c <= '\r' || c == ' '
    || c as int in {0x85, 0xA0, 0x1680, 0x2028, 0x2029, 0x202F, 0x205F, 0x3000}
    || 0x2000 <= c as int <= 0x200A
  }

  predicate Trimmed(s: string) {
    s == [] || (!IsSpace(s[0]) && !IsSpace(s[|s| - 1]))
  }

  function TrimLeft(s: string): (r: string)
    ensures r == [] || !IsSpace(r[0])
    ensures |r| <= |s| && r == s[|s| - |r|..]
  {
    if s != [] && IsSpace(s[0]) then TrimLeft(s[1..]) else s
  }

  function TrimRight(s: string): (r: string)
    ensures r == [] || !IsSpace(r[|r| - 1])
    ensures r <= s
  {
    if s != [] && IsSpace(s[|s| - 1]) then TrimRight(s[..|s| - 1]) else s
  }

  function TrimSpace(s: string): (r: string)
    ensures Trimmed(r)
    ensures Trimmed(s) ==> r == s
  {
    TrimRight(TrimLeft(s))
  }

  /** Trimming takes off exactly the white space at both ends. */
  lemma {:induction false} TrimSpaceIs(pre: string, core: string, post: string)
    requires (forall i :: 0 <= i < |pre| ==> IsSpace(pre[i])) && (forall i :: 0 <= i < |post| ==> IsSpace(post[i]))
    requires Trimmed(core)
    ensures TrimSpace(pre + core + post) == core
  {
    hide IsSpace, TrimLeft, TrimRight;
    if core != [] {
      LeftIs(pre, core + post);
      assert pre + (core + post) == pre + core + post;
      RightIs(core, post);
    } else {
      AllSpace(pre + post);
      assert pre + core + post == pre + post;
    }
  }

  lemma AllSpace(s: string)
    requires forall i :: 0 <= i < |s| ==> IsSpace(s[i])
    ensures TrimSpace(s) == []
  {
    hide IsSpace;
    LeftIs(s, []);
    assert s + [] == s;
  }

  lemma {:induction false} LeftIs(pre: string, rest: string)
    requires (forall i :: 0 <= i < |pre| ==> IsSpace(pre[i])) && (rest == [] || !IsSpace(rest[0]))
    ensures TrimLeft(pre + rest) == rest
  {
    hide IsSpace;
    if pre == [] {
      assert pre + rest == rest;
    } else {
      assert (pre + rest)[1..] == pre[1..] + rest;
      LeftIs(pre[1..], rest);
    }
  }

  lemma {:induction false} RightIs(rest: string, post: string)
    requires (forall i :: 0 <= i < |post| ==> IsSpace(post[i])) && rest != [] && !IsSpace(rest[|rest| - 1])
    ensures TrimRight(rest + post) == rest
  {
    hide IsSpace;
    if post == [] {
      assert rest + post == rest;
    } else {
      var s := rest + post;
      assert s[..|s| - 1] == rest + post[..|post| - 1];
      RightIs(rest, post[..|post| - 1]);
    }
  }
}

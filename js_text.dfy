/** The string primitives the client code uses: `trim`, the regular-expression
    class `\s`, `toLowerCase` and `includes`. */
module JsText {

  /** The characters `trim` removes and `\s` matches: ECMAScript's WhiteSpace
      and LineTerminator code points. */
  predicate IsSpace(c: char) {
    var n := c as int;
    (9 <= n <= 13) || n == 0x20 || n == 0xA0 || n == 0x1680 || (0x2000 <= n <= 0x200A)
    || n == 0x2028 || n == 0x2029 || n == 0x202F || n == 0x205F || n == 0x3000 || n == 0xFEFF
  }

  predicate Blank(s: string) {
    forall i :: 0 <= i < |s| ==> IsSpace(s[i])
  }

  /** The number of white-space characters `s` starts with. */
  function Leading(s: string): (n: nat)
    ensures n <= |s|
    ensures forall i :: 0 <= i < n ==> IsSpace(s[i])
    ensures n < |s| ==> !IsSpace(s[n])
  {
    if s == [] || !IsSpace(s[0]) then 0
    else
      var n := Leading(s[1..]);
      assert forall i :: 1 <= i < n + 1 ==> s[i] == s[1..][i - 1];
      n + 1
  }

  /** The number of white-space characters `s` ends with. */
  function Trailing(s: string): (n: nat)
    ensures n <= |s|
    ensures forall i :: |s| - n <= i < |s| ==> IsSpace(s[i])
    ensures n < |s| ==> !IsSpace(s[|s| - 1 - n])
  {
    if s == [] || !IsSpace(s[|s| - 1]) then 0
    else
      var n := Trailing(s[..|s| - 1]);
      assert forall i :: |s| - 1 - n <= i < |s| - 1 ==> s[i] == s[..|s| - 1][i];
      n + 1
  }

  /** `sub` occurs in `s` at offset `i`. */
  predicate SliceAt(s: string, sub: string, i: int) {
    0 <= i <= |s| - |sub| && s[i..i + |sub|] == sub
  }

  /** `s.trim()`: the slice of `s` left once the white space at both ends is
      dropped, so it neither starts nor ends with white space, and is empty
      exactly when `s` is blank. */
  function Trim(s: string): (r: string)
    ensures exists i :: SliceAt(s, r, i) && Blank(s[..i]) && Blank(s[i + |r|..])
    ensures r != [] ==> !IsSpace(r[0]) && !IsSpace(r[|r| - 1])
    ensures r == [] <==> Blank(s)
  {
    var a := Leading(s);
    var head := s[a..];
    var r := head[..|head| - Trailing(head)];
    TrimFacts(s, a, head, r);
    r
  }

  lemma TrimFacts(s: string, a: nat, head: string, r: string)
    requires a == Leading(s) && head == s[a..] && r == head[..|head| - Trailing(head)]
    ensures SliceAt(s, r, a) && Blank(s[..a]) && Blank(s[a + |r|..])
    ensures r != [] ==> !IsSpace(r[0]) && !IsSpace(r[|r| - 1])
    ensures r == [] <==> Blank(s)
  {
    var t := Trailing(head);
    assert s[a..a + |r|] == r;
    var front := s[..a];
    forall k | 0 <= k < a
      ensures IsSpace(front[k])
    {
      assert front[k] == s[k];
    }
    var back := s[a + |r|..];
    assert back == head[|head| - t..];
    forall k | 0 <= k < |back|
      ensures IsSpace(back[k])
    {
      assert back[k] == head[|head| - t + k];
    }
    if a < |s| {
      assert head[0] == s[a];
      assert t < |head|;
      assert r[0] == head[0] && r[|r| - 1] == head[|head| - 1 - t];
      assert !Blank(s);
    }
  }

  /** Text without white space is its own trim. */
  lemma TrimNoSpace(s: string)
    requires forall k :: 0 <= k < |s| ==> !IsSpace(s[k])
    ensures Trim(s) == s
  {
    if s != [] {
      assert !IsSpace(s[0]) && !IsSpace(s[|s| - 1]);
      assert Leading(s) == 0;
      assert s[0..] == s;
      assert Trailing(s) == 0;
    }
  }

  function LowerChar(c: char): char {
    if 'A' <= c <= 'Z' then (c as int + 32) as char else c
  }

  /** `s.toLowerCase()` on the ASCII letters. */
  function Lower(s: string): (r: string)
    ensures |r| == |s|
    ensures forall i :: 0 <= i < |s| ==> r[i] == LowerChar(s[i])
  {
    if s == [] then [] else [LowerChar(s[0])] + Lower(s[1..])
  }

  /** `s.includes(sub)`, scanning from the left. */
  function Contains(s: string, sub: string): bool
    decreases |s|
  {
    if |sub| > |s| then false
    else if s[..|sub|] == sub then true
    else Contains(s[1..], sub)
  }

  /** `Contains` finds `sub` exactly when it occurs at some offset. */
  lemma {:induction false} ContainsIff(s: string, sub: string)
    ensures Contains(s, sub) <==> exists i :: SliceAt(s, sub, i)
    decreases |s|
  {
    if |sub| > |s| {
    } else if s[..|sub|] == sub {
      assert SliceAt(s, sub, 0);
    } else {
      ContainsIff(s[1..], sub);
      if exists i :: SliceAt(s, sub, i) {
        var i :| SliceAt(s, sub, i);
        assert i != 0;
        assert s[1..][i - 1..i - 1 + |sub|] == s[i..i + |sub|];
        assert SliceAt(s[1..], sub, i - 1);
      }
      if Contains(s[1..], sub) {
        var i :| SliceAt(s[1..], sub, i);
        assert s[1..][i..i + |sub|] == s[i + 1..i + 1 + |sub|];
        assert SliceAt(s, sub, i + 1);
      }
    }
  }

  /** An occurrence at a known offset is found. */
  lemma ContainsAt(s: string, sub: string, i: nat)
    requires SliceAt(s, sub, i)
    ensures Contains(s, sub)
  {
    ContainsIff(s, sub);
  }

  /** A needle with a character the text lacks is not found. */
  lemma MissingChar(s: string, sub: string, c: char)
    requires c in sub && c !in s
    ensures !Contains(s, sub)
  {
    ContainsIff(s, sub);
    var k :| 0 <= k < |sub| && sub[k] == c;
    forall i | 0 <= i <= |s| - |sub|
      ensures !SliceAt(s, sub, i)
    {
      assert s[i + k] != c;
      assert s[i..i + |sub|][k] == s[i + k];
    }
  }
}

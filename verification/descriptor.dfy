/**
 * The volume-descriptor rewrite of load_image: the base volume's XML with
 * every `<name>OLD</name>` replaced by `<name>VMID</name>` (str.replace: left
 * to right, non-overlapping), then every `<group>D</group>` and every
 * `<owner>D</owner>` whose content D is one or more digits and dots deleted
 * (re.sub: one left-to-right pass, no rescan of the text it produces).
 */
module Descriptor {

  /** The text replaces every non-overlapping occurrence of `pat`, scanning left to right. */
  function ReplaceAll(s: string, pat: string, rep: string): string
    requires pat != []
    decreases |s|
  {
    if |s| < |pat| then s
    else if s[..|pat|] == pat then rep + ReplaceAll(s[|pat|..], pat, rep)
    else [s[0]] + ReplaceAll(s[1..], pat, rep)
  }

  /** `pat` occurs in `s` starting at position `k`. */
  predicate OccursAt(s: string, pat: string, k: int)
  {
    0 <= k && k + |pat| <= |s| && s[k..k + |pat|] == pat
  }

  lemma OccursShift(s: string, pat: string, k: nat)
    requires s != []
    ensures OccursAt(s[1..], pat, k) <==> OccursAt(s, pat, k + 1)
  {
    if k + 1 + |pat| <= |s| {
      assert s[1..][k..k + |pat|] == s[k + 1..k + 1 + |pat|];
    }
  }

  /** Without an occurrence of the pattern, str.replace leaves the text as it is. */
  lemma {:induction false} ReplaceNoOccurrence(s: string, pat: string, rep: string)
    requires pat != []
    requires forall k :: 0 <= k < |s| ==> !OccursAt(s, pat, k)
    ensures ReplaceAll(s, pat, rep) == s
    decreases |s|
  {
    if |s| >= |pat| {
      assert !OccursAt(s, pat, 0);
      forall k | 0 <= k < |s[1..]|
        ensures !OccursAt(s[1..], pat, k)
      {
        assert !OccursAt(s, pat, k + 1);
        OccursShift(s, pat, k);
      }
      ReplaceNoOccurrence(s[1..], pat, rep);
    }
  }

  /**
   * The first occurrence is replaced and the scan goes on after it: when no
   * occurrence starts inside `a`, replacing in a + pat + b gives a + rep
   * followed by the replacement in `b`.
   */
  lemma {:induction false} ReplaceFirst(a: string, b: string, pat: string, rep: string)
    requires pat != []
    requires forall k :: 0 <= k < |a| ==> !OccursAt(a + pat + b, pat, k)
    ensures ReplaceAll(a + pat + b, pat, rep) == a + rep + ReplaceAll(b, pat, rep)
    decreases |a|
  {
    if a == [] {
      assert a + pat + b == pat + b;
      ReplaceAtStart(pat, b, rep);
      JoinEmpty(a, rep);
    } else {
      ReplaceStep(a, b, pat, rep);
      ReplaceFirst(a[1..], b, pat, rep);
      Prepend(ReplaceAll(a + pat + b, pat, rep), a, ReplaceAll(a[1..] + pat + b, pat, rep), rep + ReplaceAll(b, pat, rep));
    }
  }

  /** An occurrence at the start is replaced, and the scan goes on after it. */
  lemma ReplaceAtStart(pat: string, b: string, rep: string)
    requires pat != []
    ensures ReplaceAll(pat + b, pat, rep) == rep + ReplaceAll(b, pat, rep)
  {
    var s := pat + b;
    assert s[..|pat|] == pat;
    assert s[|pat|..] == b;
  }

  /** Where no occurrence starts, str.replace keeps the first character and goes on after it. */
  lemma ReplaceStep(a: string, b: string, pat: string, rep: string)
    requires pat != [] && a != []
    requires forall k :: 0 <= k < |a| ==> !OccursAt(a + pat + b, pat, k)
    ensures ReplaceAll(a + pat + b, pat, rep) == [a[0]] + ReplaceAll(a[1..] + pat + b, pat, rep)
    ensures forall k :: 0 <= k < |a[1..]| ==> !OccursAt(a[1..] + pat + b, pat, k)
  {
    var s, t := a + pat + b, a[1..] + pat + b;
    assert s[1..] == t;
    assert ReplaceAll(s, pat, rep) == [a[0]] + ReplaceAll(t, pat, rep) by {
      assert !OccursAt(s, pat, 0);
      assert s[..|pat|] != pat;
    }
    forall k | 0 <= k < |a[1..]|
      ensures !OccursAt(t, pat, k)
    {
      assert !OccursAt(s, pat, k + 1);
      OccursShift(s, pat, k);
    }
  }

  lemma Prepend(x: string, a: string, y: string, r: string)
    requires a != [] && x == [a[0]] + y && y == a[1..] + r
    ensures x == a + r
  {
    assert a == [a[0]] + a[1..];
  }

  predicate IsDigitOrDot(c: char)
  {
    '0' <= c <= '9' || c == '.'
  }

  /** `<tag>` */
  function Open(tag: string): string { "<" + tag + ">" }

  /** `</tag>` */
  function Close(tag: string): string { "</" + tag + ">" }

  /** `w` is exactly one element the pattern <tag>[0-9\.]+</tag> matches. */
  ghost predicate IsElement(w: string, tag: string)
  {
    var o, c := Open(tag), Close(tag);
    |o| + |c| < |w|
    && w[..|o|] == o
    && w[|w| - |c|..] == c
    && forall k :: |o| <= k < |w| - |c| ==> IsDigitOrDot(w[k])
  }

  /** The length of the longest run of digits and dots at the start of `s` (the greedy [0-9\.]+). */
  function RunLen(s: string): (n: nat)
    ensures n <= |s|
    ensures forall k :: 0 <= k < n ==> IsDigitOrDot(s[k])
    ensures n < |s| ==> !IsDigitOrDot(s[n])
  {
    if s == [] || !IsDigitOrDot(s[0]) then 0 else 1 + RunLen(s[1..])
  }

  /**
   * The length of the match of <tag>[0-9\.]+</tag> at the start of `s`, or 0
   * when the pattern does not match there.
   */
  function MatchLen(s: string, tag: string): (n: nat)
    ensures n <= |s|
    ensures n == 0 || |Open(tag)| + |Close(tag)| < n
  {
    var o, c := Open(tag), Close(tag);
    if |o| <= |s| && s[..|o|] == o then
      var d := RunLen(s[|o|..]);
      var e := |o| + d;
      if 0 < d && e + |c| <= |s| && s[e..e + |c|] == c then e + |c| else 0
    else 0
  }

  /**
   * The match, when there is one, is an element of the pattern, and it is the
   * only prefix of `s` that is one; when there is none, no prefix of `s` is.
   */
  lemma MatchLenSpec(s: string, tag: string)
    ensures forall m :: 0 <= m <= |s| ==> (IsElement(s[..m], tag) <==> 0 < MatchLen(s, tag) && m == MatchLen(s, tag))
  {
    forall m | 0 <= m <= |s|
      ensures IsElement(s[..m], tag) <==> 0 < MatchLen(s, tag) && m == MatchLen(s, tag)
    {
      if IsElement(s[..m], tag) {
        ElementPrefixLength(s, tag, m);
      }
      if 0 < MatchLen(s, tag) && m == MatchLen(s, tag) {
        MatchSound(s, tag);
      }
    }
  }

  /** The text the match covers is an element. */
  lemma MatchSound(s: string, tag: string)
    requires 0 < MatchLen(s, tag)
    ensures IsElement(s[..MatchLen(s, tag)], tag)
  {
    var o, c := Open(tag), Close(tag);
    var d := RunLen(s[|o|..]);
    var w := s[..MatchLen(s, tag)];
    assert |w| == |o| + d + |c|;
    assert w[..|o|] == s[..|o|];
    assert w[|w| - |c|..] == s[|o| + d..|o| + d + |c|];
    forall k | |o| <= k < |w| - |c|
      ensures IsDigitOrDot(w[k])
    {
      assert w[k] == s[|o|..][k - |o|];
    }
  }

  /** Any element that is a prefix of `s` is the one the greedy run finds. */
  lemma ElementPrefixLength(s: string, tag: string, m: nat)
    requires m <= |s| && IsElement(s[..m], tag)
    ensures MatchLen(s, tag) == m
  {
    var o, c := Open(tag), Close(tag);
    var w := s[..m];
    assert s[..|o|] == w[..|o|];
    var t := s[|o|..];
    var want := m - |o| - |c|;
    forall k | 0 <= k < want
      ensures IsDigitOrDot(t[k])
    {
      assert t[k] == w[k + |o|];
    }
    assert t[want] == w[m - |c|] == c[0] == '<';
    assert RunLen(t) == want;
    assert s[|o| + want..m] == w[|w| - |c|..];
  }

  /** re.sub(r'<tag>[0-9\.]+</tag>', '', s) */
  function Strip(s: string, tag: string): string
    decreases |s|
  {
    if s == [] then []
    else
      var n := MatchLen(s, tag);
      if n > 0 then Strip(s[n..], tag) else [s[0]] + Strip(s[1..], tag)
  }

  /** `t` is `s` with some characters deleted: what is left keeps its order. */
  ghost predicate IsSubsequence(t: string, s: string)
    decreases |s|
  {
    if t == [] then true
    else if s == [] then false
    else if t[0] == s[0] then IsSubsequence(t[1..], s[1..])
    else IsSubsequence(t, s[1..])
  }

  lemma {:induction false} SubsequenceDrop(t: string, s: string, n: nat)
    requires n <= |s| && IsSubsequence(t, s[n..])
    ensures IsSubsequence(t, s)
    decreases n
  {
    if n > 0 {
      assert s[1..][n - 1..] == s[n..];
      SubsequenceDrop(t, s[1..], n - 1);
      if t != [] && t[0] == s[0] {
        SubsequenceWeaken(t, s[1..]);
      }
    }
  }

  lemma {:induction false} SubsequenceWeaken(t: string, s: string)
    requires t != [] && IsSubsequence(t, s)
    ensures IsSubsequence(t[1..], s)
    decreases |s|, 1
  {
    if t[0] == s[0] {
      SubsequenceTail(t[1..], s);
    } else {
      SubsequenceWeaken(t, s[1..]);
      SubsequenceTail(t[1..], s);
    }
  }

  lemma {:induction false} SubsequenceTail(t: string, s: string)
    requires s != [] && IsSubsequence(t, s[1..])
    ensures IsSubsequence(t, s)
    decreases |s|, 0
  {
    if t != [] && t[0] == s[0] {
      SubsequenceWeaken(t, s[1..]);
    }
  }

  /** The deletion keeps every other character, in order. */
  lemma {:induction false} StripKeepsOrder(s: string, tag: string)
    ensures IsSubsequence(Strip(s, tag), s)
    decreases |s|
  {
    if s != [] {
      var n := MatchLen(s, tag);
      if n > 0 {
        StripKeepsOrder(s[n..], tag);
        SubsequenceDrop(Strip(s[n..], tag), s, n);
      } else {
        StripKeepsOrder(s[1..], tag);
      }
    }
  }

  /** The first position of `s` at which the pattern matches, or |s| when it matches nowhere. */
  function FirstMatch(s: string, tag: string): (k: nat)
    ensures k <= |s|
    decreases |s|
  {
    if s == [] || MatchLen(s, tag) > 0 then 0 else 1 + FirstMatch(s[1..], tag)
  }

  /** The pattern matches at no position before FirstMatch, and does match at it when it is inside `s`. */
  lemma {:induction false} FirstMatchSpec(s: string, tag: string)
    ensures forall k :: 0 <= k < FirstMatch(s, tag) ==> MatchLen(s[k..], tag) == 0
    ensures FirstMatch(s, tag) < |s| ==> MatchLen(s[FirstMatch(s, tag)..], tag) > 0
    decreases |s|
  {
    if s != [] && MatchLen(s, tag) == 0 {
      FirstMatchSpec(s[1..], tag);
      forall k | 0 <= k < FirstMatch(s, tag)
        ensures MatchLen(s[k..], tag) == 0
      {
        if k > 0 {
          assert s[k..] == s[1..][k - 1..];
        } else {
          assert s[0..] == s;
        }
      }
      assert s[FirstMatch(s, tag)..] == s[1..][FirstMatch(s[1..], tag)..];
    } else if s != [] {
      assert s[0..] == s;
    }
  }

  /** Text before the first match passes through unchanged: p + r becomes p followed by the deletion in r. */
  lemma {:induction false} StripPrefix(p: string, r: string, tag: string)
    requires |p| <= FirstMatch(p + r, tag)
    ensures Strip(p + r, tag) == p + Strip(r, tag)
    decreases |p|
  {
    if p == [] {
      assert p + r == r;
      JoinEmpty(p, Strip(r, tag));
    } else {
      var s := p + r;
      assert s[1..] == p[1..] + r;
      StripStep(s, tag);
      StripPrefix(p[1..], r, tag);
      Prepend(Strip(s, tag), p, Strip(p[1..] + r, tag), Strip(r, tag));
    }
  }

  lemma JoinEmpty(p: string, r: string)
    requires p == []
    ensures p + r == r
  {
  }

  /** Before the first match, the scan keeps one character and moves on. */
  lemma StripStep(s: string, tag: string)
    requires 0 < FirstMatch(s, tag)
    ensures Strip(s, tag) == [s[0]] + Strip(s[1..], tag)
    ensures FirstMatch(s[1..], tag) == FirstMatch(s, tag) - 1
  {
  }

  /** An element at the scan position is deleted whole. */
  lemma StripElement(e: string, b: string, tag: string)
    requires IsElement(e, tag)
    ensures Strip(e + b, tag) == Strip(b, tag)
  {
    var s := e + b;
    assert s[..|e|] == e;
    MatchLenSpec(s, tag);
    assert MatchLen(s, tag) == |e|;
    assert s[|e|..] == b;
  }

  /**
   * Deleting one element: when no element starts before it, the text before
   * the element is kept, the element disappears, and the scan goes on after it.
   */
  lemma StripFirstElement(a: string, e: string, b: string, tag: string)
    requires IsElement(e, tag) && |a| <= FirstMatch(a + e + b, tag)
    ensures Strip(a + e + b, tag) == a + Strip(b, tag)
  {
    Assoc(a, e, b);
    StripPrefix(a, e + b, tag);
    StripElement(e, b, tag);
  }

  lemma Assoc(a: string, e: string, b: string)
    ensures a + e + b == a + (e + b)
  {
  }

  /** Without any element, the text is unchanged. */
  lemma StripNothing(s: string, tag: string)
    requires FirstMatch(s, tag) == |s|
    ensures Strip(s, tag) == s
  {
    assert s + [] == s;
    StripPrefix(s, [], tag);
  }

  /** `<name>n</name>`: the element str.replace searches for, with the name read back between its tags. */
  function NameElement(n: string): (r: string)
    ensures |r| == |n| + 13 && r[6..|r| - 7] == n
  {
    "<name>" + n + "</name>"
  }

  /** Different names give different elements, so the rename targets only the Image's own name. */
  lemma NameElementInjective(a: string, b: string)
    requires a != b
    ensures NameElement(a) != NameElement(b)
  {
  }

  /** The descriptor of the host-local copy, from the base volume's descriptor. */
  function Rewrite(xml: string, oldName: string, vmId: string): string
  {
    var renamed := ReplaceAll(xml, NameElement(oldName), NameElement(vmId));
    Strip(Strip(renamed, "group"), "owner")
  }

  /**
   * The deletions only remove text: the rewritten descriptor keeps the
   * renamed descriptor's characters in order.
   */
  lemma RewriteKeepsOrder(xml: string, oldName: string, vmId: string)
    ensures IsSubsequence(Rewrite(xml, oldName, vmId),
                          ReplaceAll(xml, NameElement(oldName), NameElement(vmId)))
  {
    var renamed := ReplaceAll(xml, NameElement(oldName), NameElement(vmId));
    var g := Strip(renamed, "group");
    StripKeepsOrder(renamed, "group");
    StripKeepsOrder(g, "owner");
    SubsequenceTrans(Strip(g, "owner"), g, renamed);
  }

  lemma {:induction false} SubsequenceTrans(t: string, u: string, s: string)
    requires IsSubsequence(t, u) && IsSubsequence(u, s)
    ensures IsSubsequence(t, s)
    decreases |s|
  {
    if t != [] && s != [] {
      if u[0] == s[0] {
        if t[0] == u[0] {
          SubsequenceTrans(t[1..], u[1..], s[1..]);
        } else {
          SubsequenceTrans(t, u[1..], s[1..]);
          SubsequenceTail(t, s);
        }
      } else {
        SubsequenceTrans(t, u, s[1..]);
        SubsequenceTail(t, s);
      }
    }
  }
}

/**
 The three Python `str` operations the inference adapter relies on, with
 their CPython semantics: `startswith`, `replace(old, "")` and `strip()`.
 Strings are sequences of Unicode scalar values.
 */
module PyStr {

  /** `str.isspace` for a single character: the code points CPython treats as
      whitespace (bidirectional class WS, B or S, or category Zs). */
  predicate IsSpace(c: char) {
    var n := c as int;
    || (0x09 <= n <= 0x0D)
    || (0x1C <= n <= 0x20)
    || n == 0x85 || n == 0xA0 || n == 0x1680
    || (0x2000 <= n <= 0x200A)
    || n == 0x2028 || n == 0x2029 || n == 0x202F || n == 0x205F || n == 0x3000
  }

  predicate AllSpace(s: string) {
    forall k :: 0 <= k < |s| ==> IsSpace(s[k])
  }

  /** Neither the first nor the last character is whitespace. */
  predicate NoEdgeSpace(s: string) {
    |s| == 0 || (!IsSpace(s[0]) && !IsSpace(s[|s| - 1]))
  }

  /** `s.startswith(p)`. */
  predicate StartsWith(s: string, p: string) {
    |p| <= |s| && s[..|p|] == p
  }

  /** `t` occurs in `s` starting at index `i`. */
  predicate OccursAt(s: string, t: string, i: nat) {
    i + |t| <= |s| && s[i..i + |t|] == t
  }

  /** `t in s`. */
  predicate Contains(s: string, t: string) {
    exists i: nat | i <= |s| :: OccursAt(s, t, i)
  }

  /** `s.replace(t, "")`: scanning left to right, every non-overlapping
      occurrence of `t` is deleted; the text left behind is never re-scanned.
      Python returns `s` itself when `t` is empty. */
  function RemoveAll(s: string, t: string): (r: string)
    ensures |r| <= |s|
  {
    if |t| == 0 then s else RemoveFrom(s, t, 0)
  }

  /** The deletion scan of `RemoveAll` resumed at index `k`: what it emits
      for `s[k..]`. */
  function RemoveFrom(s: string, t: string, k: nat): (r: string)
    requires |t| > 0 && k <= |s|
    ensures |r| <= |s| - k
    decreases |s| - k
  {
    if |s| - k < |t| then s[k..]
    else if OccursAt(s, t, k) then RemoveFrom(s, t, k + |t|)
    else [s[k]] + RemoveFrom(s, t, k + 1)
  }

  lemma {:induction false} RemoveFromUnchangedIff(s: string, t: string, k: nat)
    requires |t| > 0 && k <= |s|
    ensures RemoveFrom(s, t, k) == s[k..] <==> forall j: nat :: k <= j ==> !OccursAt(s, t, j)
    decreases |s| - k
  {
    if |s| - k < |t| {
      RemoveFromTail(s, t, k);
    } else if OccursAt(s, t, k) {
      RemoveFromHit(s, t, k);
    } else {
      RemoveFromMiss(s, t, k);
      RemoveFromUnchangedIff(s, t, k + 1);
      var r := RemoveFrom(s, t, k + 1);
      assert s[k..] == [s[k]] + s[k + 1..];
      assert ([s[k]] + r)[1..] == r;
    }
  }

  lemma RemoveFromTail(s: string, t: string, k: nat)
    requires |t| > 0 && k <= |s| && |s| - k < |t|
    ensures RemoveFrom(s, t, k) == s[k..]
  {
  }

  lemma RemoveFromHit(s: string, t: string, k: nat)
    requires |t| > 0 && OccursAt(s, t, k)
    ensures RemoveFrom(s, t, k) == RemoveFrom(s, t, k + |t|)
  {
  }

  /** The deleted text leaves `s` unchanged exactly when `t` does not occur
      in it (for a non-empty `t`). */
  lemma RemoveAllUnchangedIff(s: string, t: string)
    requires |t| > 0
    ensures RemoveAll(s, t) == s <==> !Contains(s, t)
  {
    RemoveFromUnchangedIff(s, t, 0);
    assert s[0..] == s;
  }

  lemma {:induction false} RemoveFromLeftmost(s: string, t: string, k: nat, i: nat)
    requires |t| > 0 && k <= i
    requires OccursAt(s, t, i)
    requires forall j: nat :: k <= j < i ==> !OccursAt(s, t, j)
    ensures RemoveFrom(s, t, k) == s[k..i] + RemoveFrom(s, t, i + |t|)
    decreases i - k
  {
    if k < i {
      RemoveFromMiss(s, t, k);
      RemoveFromLeftmost(s, t, k + 1, i);
      ConsSlice(s, k, i, RemoveFrom(s, t, i + |t|));
    }
  }

  lemma RemoveFromMiss(s: string, t: string, k: nat)
    requires |t| > 0 && k + |t| <= |s| && !OccursAt(s, t, k)
    ensures RemoveFrom(s, t, k) == [s[k]] + RemoveFrom(s, t, k + 1)
  {
  }

  lemma ConsSlice(s: string, k: nat, i: nat, rest: string)
    requires k < i <= |s|
    ensures [s[k]] + (s[k + 1..i] + rest) == s[k..i] + rest
  {
    assert s[k..i] == [s[k]] + s[k + 1..i];
  }

  /** Left-to-right without re-scan: the leftmost occurrence is deleted, the
      text before it is kept verbatim, and the scan resumes right after it. */
  lemma RemoveAllLeftmost(s: string, t: string, i: nat)
    requires |t| > 0
    requires OccursAt(s, t, i)
    requires forall j: nat :: j < i ==> !OccursAt(s, t, j)
    ensures RemoveAll(s, t) == s[..i] + RemoveFrom(s, t, i + |t|)
  {
    RemoveFromLeftmost(s, t, 0, i);
    assert s[0..i] == s[..i];
  }

  /** Deleting "ab" from "aabb" leaves "ab": the removal does not re-scan. */
  lemma RemoveAllNoRescan()
    ensures RemoveAll("aabb", "ab") == "ab"
    ensures Contains(RemoveAll("aabb", "ab"), "ab")
  {
    var s := "aabb";
    assert s[0..2][1] == 'a';
    assert !OccursAt(s, "ab", 0);
    assert s[1..3] == "ab";
    RemoveAllLeftmost(s, "ab", 1);
    assert s[3..] == "b";
    assert OccursAt("ab", "ab", 0);
  }

  /** Every character before index `a` is whitespace. */
  predicate SpaceBefore(s: string, a: nat) {
    a <= |s| && forall k :: 0 <= k < a ==> IsSpace(s[k])
  }

  /** Every character from index `b` on is whitespace. */
  predicate SpaceFrom(s: string, b: nat) {
    b <= |s| && forall k :: b <= k < |s| ==> IsSpace(s[k])
  }

  /** The left scan of `strip()`, resumed at `k`: the index of the first
      character that is not whitespace, or `|s|`. */
  function LeadEnd(s: string, k: nat): (a: nat)
    requires SpaceBefore(s, k)
    ensures k <= a <= |s| && SpaceBefore(s, a)
    ensures a == |s| || !IsSpace(s[a])
    decreases |s| - k
  {
    if k < |s| && IsSpace(s[k]) then LeadEnd(s, k + 1) else k
  }

  /** The right scan of `strip()`, resumed at `b` and not passing `a`: the
      index just after the last character that is not whitespace, or `a`. */
  function TrailStart(s: string, a: nat, b: nat): (e: nat)
    requires a <= b && SpaceFrom(s, b)
    ensures a <= e <= b && SpaceFrom(s, e)
    ensures e == a || !IsSpace(s[e - 1])
    decreases b
  {
    if a < b && IsSpace(s[b - 1]) then TrailStart(s, a, b - 1) else b
  }

  /** `r` sits at offset `a` of `s` with only whitespace around it. */
  predicate Frames(s: string, r: string, a: nat) {
    a + |r| <= |s| && r == s[a..a + |r|] && SpaceBefore(s, a) && SpaceFrom(s, a + |r|)
  }

  /** `s.strip()`: the part of `s` between its leading and trailing
      whitespace runs. */
  function Strip(s: string): (r: string)
    ensures exists a: nat :: Frames(s, r, a)
    ensures NoEdgeSpace(r)
  {
    var a := LeadEnd(s, 0);
    var e := TrailStart(s, a, |s|);
    assert Frames(s, s[a..e], a);
    s[a..e]
  }

  /** Two framed windows without edge whitespace are the same window. */
  lemma FramesUnique(s: string, r: string, a: nat, q: string, b: nat)
    requires Frames(s, r, a) && NoEdgeSpace(r)
    requires Frames(s, q, b) && NoEdgeSpace(q)
    ensures r == q
  {
    assert |r| > 0 ==> s[a] == r[0] && s[a + |r| - 1] == r[|r| - 1];
    assert |q| > 0 ==> s[b] == q[0] && s[b + |q| - 1] == q[|q| - 1];
  }

  /** A framed window without edge whitespace is what `strip()` returns. */
  lemma StripUnique(s: string, r: string, a: nat)
    requires Frames(s, r, a)
    requires NoEdgeSpace(r)
    ensures Strip(s) == r
  {
    var q := Strip(s);
    var b: nat :| Frames(s, q, b);
    FramesUnique(s, r, a, q, b);
  }

  /** `strip()` is idempotent. */
  lemma StripIdempotent(s: string)
    ensures Strip(Strip(s)) == Strip(s)
  {
    var r := Strip(s);
    assert Frames(r, r, 0);
    StripUnique(r, r, 0);
  }

  /** Text without edge whitespace is a fixed point of `strip()`, and only
      such text is. */
  lemma StripFixedPointIff(s: string)
    ensures Strip(s) == s <==> NoEdgeSpace(s)
  {
    if NoEdgeSpace(s) {
      assert Frames(s, s, 0);
      StripUnique(s, s, 0);
    }
  }
}

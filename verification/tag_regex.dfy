/**
 `re.sub(r"<.*?>", "", s, count=1)` under Python's `re` semantics.

 `.` matches any character except a newline and `*?` is lazy, so the pattern
 matches `s[i..j+1]` exactly when `s[i]` is `<`, `s[j]` is `>` and no newline
 lies strictly between them. The search is not anchored: the leftmost start
 that admits a match wins, and among its ends the lazy quantifier takes the
 nearest one. With `count=1` only that one match is deleted.
 */
module TagRegex {
  import opened Outcomes

  /** `<.*?>` can match the characters `s[i..j+1]`. */
  predicate TagSpan(s: string, i: nat, j: nat) {
    i < j < |s| && s[i] == '<' && s[j] == '>' && forall k :: i < k < j ==> s[k] != '\n'
  }

  /** Somewhere in `s` the pattern matches. */
  ghost predicate HasTag(s: string) {
    exists i: nat, j: nat :: TagSpan(s, i, j)
  }

  /** `s[i..j+1]` is the match `re` reports: no match starts further left, and
      no shorter match starts at `i`. */
  ghost predicate FirstMatch(s: string, i: nat, j: nat) {
    && TagSpan(s, i, j)
    && (forall i': nat, j': nat :: i' < i ==> !TagSpan(s, i', j'))
    && (forall j': nat :: j' < j ==> !TagSpan(s, i, j'))
  }

  datatype Span = Span(start: nat, close: nat)

  /** The lazy `.*?>` tail for an opening `<` at `open`, resumed at `k`: the
      first `>` after it, unless a newline comes first. */
  function CloseFrom(s: string, open: nat, k: nat): (r: Option<nat>)
    requires open < k <= |s| && s[open] == '<'
    requires forall m :: open < m < k ==> s[m] != '\n' && s[m] != '>'
    ensures r.Some? ==> TagSpan(s, open, r.value)
    ensures r.Some? ==> forall j: nat :: j < r.value ==> !TagSpan(s, open, j)
    ensures r.None? ==> forall j: nat :: !TagSpan(s, open, j)
    decreases |s| - k
  {
    if k == |s| then None
    else if s[k] == '>' then Some(k)
    else if s[k] == '\n' then None
    else CloseFrom(s, open, k + 1)
  }

  /** The search proper, trying start positions from `i` on. */
  function FindFrom(s: string, i: nat): (r: Option<Span>)
    requires i <= |s|
    requires forall i': nat, j: nat :: i' < i ==> !TagSpan(s, i', j)
    ensures r.Some? ==> FirstMatch(s, r.value.start, r.value.close)
    ensures r.None? ==> !HasTag(s)
    decreases |s| - i
  {
    if i == |s| then None
    else if s[i] == '<' then
      match CloseFrom(s, i, i + 1)
      case Some(j) => Some(Span(i, j))
      case None => FindFrom(s, i + 1)
    else FindFrom(s, i + 1)
  }

  /** `re.search(r"<.*?>", s)`, as the span it reports. */
  function FindTag(s: string): (r: Option<Span>)
    ensures r.Some? ==> FirstMatch(s, r.value.start, r.value.close)
    ensures r.None? <==> !HasTag(s)
  {
    FindFrom(s, 0)
  }

  /** There is only one first match. */
  lemma FirstMatchUnique(s: string, i: nat, j: nat, i': nat, j': nat)
    requires FirstMatch(s, i, j) && FirstMatch(s, i', j')
    ensures i == i' && j == j'
  {
  }

  /** `re.sub(r"<.*?>", "", s, count=1)`. */
  function SubFirstTag(s: string): (r: string)
    ensures !HasTag(s) ==> r == s
    ensures forall i: nat, j: nat :: FirstMatch(s, i, j) ==> r == s[..i] + s[j + 1..]
    ensures |r| <= |s|
  {
    match FindTag(s)
    case None => s
    case Some(sp) =>
      assert forall i: nat, j: nat :: FirstMatch(s, i, j) ==> i == sp.start && j == sp.close by {
        forall i: nat, j: nat | FirstMatch(s, i, j)
          ensures i == sp.start && j == sp.close
        {
          FirstMatchUnique(s, i, j, sp.start, sp.close);
        }
      }
      s[..sp.start] + s[sp.close + 1..]
  }

  /** The substitution changes the text exactly when the pattern matches,
      and then removes at least the two delimiters. */
  lemma SubFirstTagChangesIff(s: string)
    ensures SubFirstTag(s) == s <==> !HasTag(s)
    ensures HasTag(s) ==> |SubFirstTag(s)| + 2 <= |s|
  {
    var f := FindTag(s);
    if f.Some? {
      assert FirstMatch(s, f.value.start, f.value.close);
    }
  }

  /** The match need not start the text, and only the first one goes. */
  lemma SubFirstTagNotAnchored()
    ensures SubFirstTag("ab<x>c<y>") == "abc<y>"
  {
    var s := "ab<x>c<y>";
    assert TagSpan(s, 2, 4);
    assert FirstMatch(s, 2, 4);
    assert s[..2] + s[5..] == "abc<y>";
  }

  /** A newline between `<` and `>` blocks that match; the search moves on. */
  lemma SubFirstTagSkipsNewline()
    ensures SubFirstTag("a<b\n>c<d>") == "a<b\n>c"
  {
    var s := "a<b\n>c<d>";
    assert TagSpan(s, 6, 8);
    forall i': nat, j': nat | i' < 6
      ensures !TagSpan(s, i', j')
    {
      if i' == 1 && 3 < j' < |s| {
        assert s[3] == '\n';
      }
    }
    assert FirstMatch(s, 6, 8);
    assert s[..6] + s[9..] == "a<b\n>c";
  }
}

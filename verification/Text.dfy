/** Substring search as the standard library does it, and facts about occurrences. */
module Text {

  /** `sub` occurs in `s` at position `i`. */
  predicate At(s: string, sub: string, i: int) {
    0 <= i <= |s| - |sub| && s[i..i + |sub|] == sub
  }

  ghost predicate Contains(s: string, sub: string) {
    exists i :: At(s, sub, i)
  }

  predicate HasPrefix(s: string, p: string) {
    p <= s
  }

  /** The first occurrence, or -1. */
  function Index(s: string, sub: string): (r: int)
    ensures r == -1 ==> forall i :: !At(s, sub, i)
    ensures r != -1 ==> At(s, sub, r) && forall i :: i < r ==> !At(s, sub, i)
  {
    IndexFrom(s, sub, 0)
  }

  function IndexFrom(s: string, sub: string, from: nat): (r: int)
    requires from <= |s|
    ensures r == -1 ==> forall i :: from <= i ==> !At(s, sub, i)
    ensures r != -1 ==> from <= r && At(s, sub, r) && forall i :: from <= i < r ==> !At(s, sub, i)
    decreases |s| - from
  {
    if At(s, sub, from) then from
    else if from == |s| then -1
    else IndexFrom(s, sub, from + 1)
  }

  /** The last occurrence, or -1. */
  function LastIndex(s: string, sub: string): (r: int)
    ensures r == -1 ==> forall i :: !At(s, sub, i)
    ensures r != -1 ==> At(s, sub, r) && forall i :: r < i ==> !At(s, sub, i)
  {
    LastIndexTo(s, sub, |s|)
  }

  function LastIndexTo(s: string, sub: string, to: nat): (r: int)
    requires to <= |s|
    ensures r == -1 ==> forall i :: i <= to ==> !At(s, sub, i)
    ensures r != -1 ==> r <= to && At(s, sub, r) && forall i :: r < i <= to ==> !At(s, sub, i)
  {
    if At(s, sub, to) then to
    else if to == 0 then -1
    else LastIndexTo(s, sub, to - 1)
  }

  /** An occurrence inside the tail of a concatenation. */
  lemma AtRight(a: string, b: string, sub: string, i: int)
    requires |a| <= i
    ensures At(a + b, sub, i) <==> At(b, sub, i - |a|)
  {
    if 0 <= i <= |a| + |b| - |sub| {
      assert (a + b)[i..i + |sub|] == b[i - |a|..i - |a| + |sub|];
    }
  }

  lemma AtLeft(a: string, b: string, sub: string, i: int)
    requires i + |sub| <= |a|
    ensures At(a + b, sub, i) <==> At(a, sub, i)
  {
    if 0 <= i {
      assert (a + b)[i..i + |sub|] == a[i..i + |sub|];
    }
  }

  /** The character at offset `k` of an occurrence. */
  lemma AtChar(s: string, sub: string, i: int, k: int)
    requires At(s, sub, i) && 0 <= k < |sub|
    ensures s[i + k] == sub[k]
  {
    assert s[i..i + |sub|][k] == sub[k];
  }
}

/**
 Scrubbing a secret reference out of an error message: the whole reference and
 every tail of it after a colon, longest first, each by a replace-all pass over
 what the passes before it produced.
 */
module Scrub {
  import opened Text

  const PLACEHOLDER := "[REDACTED REF]"

  /** Every non-overlapping occurrence from the left; an empty pattern matches around each character. */
  function ReplaceAll(s: string, sub: string, with: string): string {
    if sub == "" then (if s == "" then with else with + [s[0]] + ReplaceAll(s[1..], sub, with))
    else if sub <= s then with + ReplaceAll(s[|sub|..], sub, with)
    else if s == "" then ""
    else [s[0]] + ReplaceAll(s[1..], sub, with)
  }

  /** The tails after each colon, up to the last non-empty one before an empty one. */
  function ColonTails(rest: string): seq<string> {
    var i := Index(rest, ":");
    if i < 0 || rest[i + 1..] == "" then [] else [rest[i + 1..]] + ColonTails(rest[i + 1..])
  }

  function Targets(ref: string): (ts: seq<string>)
    ensures ts != []
  {
    [ref] + ColonTails(ref)
  }

  function ReplaceEach(msg: string, targets: seq<string>): string
    decreases targets
  {
    if targets == [] then msg else ReplaceEach(ReplaceAll(msg, targets[0], PLACEHOLDER), targets[1..])
  }

  method ScrubRef(text: string, ref: string) returns (msg: string)
    ensures msg == ReplaceEach(text, Targets(ref))
  {
    msg := ReplaceAll(text, ref, PLACEHOLDER);
    var rest := ref;
    ghost var goal := ReplaceEach(msg, ColonTails(ref));
    assert Targets(ref)[1..] == ColonTails(ref);
    while true
      invariant goal == ReplaceEach(msg, ColonTails(rest))
      decreases |rest|
    {
      var i := Index(rest, ":");
      if i < 0 {
        break;
      }
      ghost var tails := ColonTails(rest);
      rest := rest[i + 1..];
      if rest == "" {
        break;
      }
      assert tails[1..] == ColonTails(rest);
      msg := ReplaceAll(msg, rest, PLACEHOLDER);
    }
  }

  // --------------------------------------------------------------------
  // How an inserted placeholder can spell a string again
  // --------------------------------------------------------------------

  /** A placeholder that starts at offset `a` of `s` overlaps it and agrees with it there. */
  predicate Meets(s: string, a: int) {
    -|PLACEHOLDER| < a < |s| && forall j :: 0 <= j < |s| && a <= j < a + |PLACEHOLDER| ==> s[j] == PLACEHOLDER[j - a]
  }

  /** `s` repeats itself at distance `a`. */
  predicate Shifts(s: string, a: nat) {
    forall j :: a <= j < |s| ==> s[j] == s[j - a]
  }

  /** Replacing some occurrence of `s` puts a placeholder where it completes `s`. */
  predicate Revives(s: string, a: int) {
    Meets(s, a) && (a <= 0 || !Shifts(s, a))
  }

  /** A tail that does not begin with a bracket is revived by any overlap at all. */
  lemma OverlapRevives(s: string, a: int)
    requires s != "" && s[0] != PLACEHOLDER[0]
    ensures Revives(s, a) <==> Meets(s, a)
  {
    if Meets(s, a) && a > 0 {
      assert s[a] == PLACEHOLDER[0];
    }
  }

  predicate NoBracket(s: string) {
    '[' !in s && ']' !in s
  }

  lemma EdgesAreBrackets(s: string, a: int)
    requires Meets(s, a)
    ensures a > 0 ==> '[' in s
    ensures a + |PLACEHOLDER| < |s| ==> ']' in s
  {
    var n := |PLACEHOLDER|;
    if a > 0 {
      assert s[a] == PLACEHOLDER[0];
    }
    if a + n < |s| {
      assert s[a + n - 1] == PLACEHOLDER[n - 1];
    }
  }

  /** Without brackets only a substring of the placeholder is revived. */
  lemma BracketFreeRevives(s: string)
    requires s != "" && NoBracket(s)
    ensures (exists a :: Revives(s, a)) <==> Contains(PLACEHOLDER, s)
  {
    var n := |PLACEHOLDER|;
    if a :| Revives(s, a) {
      EdgesAreBrackets(s, a);
      assert a <= 0 && a + n >= |s|;
      assert PLACEHOLDER[-a..-a + |s|] == s;
      assert At(PLACEHOLDER, s, -a);
    }
    if i :| At(PLACEHOLDER, s, i) {
      forall j | 0 <= j < |s| ensures s[j] == PLACEHOLDER[i + j] {
        AtChar(PLACEHOLDER, s, i, j);
      }
      assert Revives(s, -i);
    }
  }

  // --------------------------------------------------------------------
  // One pass
  // --------------------------------------------------------------------

  function Join(parts: seq<string>, with: string): string
    requires parts != []
  {
    if |parts| == 1 then parts[0] else parts[0] + with + Join(parts[1..], with)
  }

  /** A pass keeps everything between the occurrences it replaces, in place, and leaves none out. */
  lemma {:induction false} PassKeepsTheRest(s: string, sub: string, with: string) returns (parts: seq<string>)
    requires sub != ""
    ensures parts != [] && s == Join(parts, sub) && ReplaceAll(s, sub, with) == Join(parts, with)
    ensures forall part :: part in parts ==> !Contains(part, sub)
    ensures parts[0] <= s
    decreases |s|
  {
    if sub <= s {
      var rest := PassKeepsTheRest(s[|sub|..], sub, with);
      assert s == sub + s[|sub|..] && ReplaceAll(s, sub, with) == with + ReplaceAll(s[|sub|..], sub, with);
      hide ReplaceAll, Contains;
      assert !Contains("", sub) by {
        NothingContains(sub);
      }
      parts := [""] + rest;
      NothingFirst(rest, sub);
      NothingFirst(rest, with);
    } else if s == "" {
      parts := [""];
      NothingContains(sub);
    } else {
      var rest := PassKeepsTheRest(s[1..], sub, with);
      assert s == [s[0]] + s[1..] && ReplaceAll(s, sub, with) == [s[0]] + ReplaceAll(s[1..], sub, with);
      hide ReplaceAll, Contains, Join;
      parts := [[s[0]] + rest[0]] + rest[1..];
      OneCharMore(s[0], rest, sub);
      OneCharMore(s[0], rest, with);
      NotBefore(s, rest[0], sub);
    }
  }

  lemma NothingContains(sub: string)
    requires sub != ""
    ensures !Contains("", sub)
  {
  }

  lemma NothingFirst(parts: seq<string>, with: string)
    requires parts != []
    ensures Join([""] + parts, with) == with + Join(parts, with)
  {
    assert ([""] + parts)[1..] == parts;
  }

  lemma OneCharMore(c: char, parts: seq<string>, with: string)
    requires parts != []
    ensures Join([[c] + parts[0]] + parts[1..], with) == [c] + Join(parts, with)
  {
    var more := [[c] + parts[0]] + parts[1..];
    assert more[1..] == parts[1..];
    if |parts| > 1 {
      assert ([c] + parts[0]) + with + Join(parts[1..], with) == [c] + (parts[0] + with + Join(parts[1..], with));
    }
  }

  lemma NotBefore(s: string, part: string, sub: string)
    requires s != "" && !(sub <= s) && part <= s[1..] && !Contains(part, sub)
    ensures !Contains([s[0]] + part, sub)
  {
    var t := [s[0]] + part;
    assert t <= s && (|sub| <= |t| ==> t[0..0 + |sub|] == s[..|sub|]);
    assert !At(t, sub, 0);
    forall i ensures !At(t, sub, i) {
      assert i != 0 ==> !At(part, sub, i - 1);
      assert 0 < i <= |t| - |sub| ==> t[i..i + |sub|] == part[i - 1..i - 1 + |sub|];
    }
  }

  /** How far the beginning `w` of the output was copied before a placeholder went in; -1 if none did. */
  predicate CopiedTo(s: string, sub: string, w: string, q: int) {
    if q < 0 then w <= s
    else
      && q < |w| && q <= |s| && sub <= s[q..]
      && (forall j :: 0 <= j < q ==> w[j] == s[j])
      && (forall j :: q <= j < |w| && j < q + |PLACEHOLDER| ==> w[j] == PLACEHOLDER[j - q])
  }

  lemma CopiedOneMore(s: string, sub: string, w: string, q: int)
    requires s != "" && w != "" && w[0] == s[0] && CopiedTo(s[1..], sub, w[1..], q)
    ensures CopiedTo(s, sub, w, if q < 0 then -1 else q + 1)
  {
    assert w == [w[0]] + w[1..] && s == [s[0]] + s[1..];
    if q >= 0 {
      assert s[q + 1..] == s[1..][q..];
    }
  }

  lemma {:induction false} Copied(s: string, sub: string, w: string) returns (q: int)
    requires sub != "" && w <= ReplaceAll(s, sub, PLACEHOLDER)
    ensures CopiedTo(s, sub, w, q)
    decreases |s|
  {
    var out := ReplaceAll(s, sub, PLACEHOLDER);
    if w == "" {
      q := -1;
    } else if sub <= s {
      q := 0;
      assert s[0..] == s;
      assert forall j :: 0 <= j < |PLACEHOLDER| ==> out[j] == PLACEHOLDER[j];
    } else {
      assert w[0] == out[0] == s[0] && out[1..] == ReplaceAll(s[1..], sub, PLACEHOLDER);
      assert w[1..] <= out[1..];
      hide ReplaceAll, CopiedTo;
      q := Copied(s[1..], sub, w[1..]);
      CopiedOneMore(s, sub, w, q);
      q := if q < 0 then -1 else q + 1;
    }
  }

  lemma ShiftedPrefix(s: string, sub: string, q: nat)
    requires q > 0 && CopiedTo(s, sub, sub, q) && Shifts(sub, q)
    ensures sub <= s
  {
    forall j | 0 <= j < |sub| ensures j < |s| && s[j] == sub[j] {
      if j >= q {
        assert s[q..][j - q] == sub[j - q];
      }
    }
    assert sub == s[..|sub|];
  }

  /** If the output begins with `sub` and the input did not, a placeholder completed it. */
  lemma FrontRevives(s: string, sub: string)
    requires sub != "" && !(sub <= s) && sub <= ReplaceAll(s, sub, PLACEHOLDER)
    ensures exists a :: Revives(sub, a)
  {
    var q := Copied(s, sub, sub);
    hide ReplaceAll;
    assert q > 0 by {
      assert s[0..] == s;
    }
    if Shifts(sub, q) {
      ShiftedPrefix(s, sub, q);
    }
    assert Revives(sub, q);
  }

  /** An occurrence of what a pass replaced, in its output, was revived. */
  lemma {:induction false} OccurrenceRevived(s: string, sub: string, i: int)
    requires sub != "" && At(ReplaceAll(s, sub, PLACEHOLDER), sub, i)
    ensures exists a :: Revives(sub, a)
    decreases |s|
  {
    var out := ReplaceAll(s, sub, PLACEHOLDER);
    if sub <= s {
      var rest := ReplaceAll(s[|sub|..], sub, PLACEHOLDER);
      if i < |PLACEHOLDER| {
        forall j | 0 <= j < |sub| && -i <= j < -i + |PLACEHOLDER| ensures sub[j] == PLACEHOLDER[j + i] {
          AtChar(out, sub, i, j);
        }
        assert Revives(sub, -i);
      } else {
        AtRight(PLACEHOLDER, rest, sub, i);
        OccurrenceRevived(s[|sub|..], sub, i - |PLACEHOLDER|);
      }
    } else if i == 0 {
      FrontRevives(s, sub);
    } else {
      AtRight([s[0]], ReplaceAll(s[1..], sub, PLACEHOLDER), sub, i);
      OccurrenceRevived(s[1..], sub, i - 1);
    }
  }

  /** One pass leaves no occurrence of what it replaced, unless the text it inserts revives it. */
  lemma PassRemoves(s: string, sub: string, i: int)
    requires sub != "" && forall a :: !Revives(sub, a)
    ensures !At(ReplaceAll(s, sub, PLACEHOLDER), sub, i)
  {
    if At(ReplaceAll(s, sub, PLACEHOLDER), sub, i) {
      OccurrenceRevived(s, sub, i);
    }
  }

  lemma {:induction false} PassKeeps(s: string, sub: string, with: string)
    requires sub != "" && !Contains(s, sub)
    ensures ReplaceAll(s, sub, with) == s
    decreases |s|
  {
    if s != "" {
      assert sub <= s ==> At(s, sub, 0);
      forall i ensures !At(s[1..], sub, i) {
        assert [s[0]] + s[1..] == s;
        if i >= 0 {
          AtRight([s[0]], s[1..], sub, i + 1);
        }
      }
      PassKeeps(s[1..], sub, with);
    }
  }

  lemma OneFurther(s: string, sub: string, i: nat)
    requires s != ""
    ensures At(s, sub, i + 1) <==> At(s[1..], sub, i)
  {
    assert [s[0]] + s[1..] == s;
    AtRight([s[0]], s[1..], sub, i + 1);
  }

  predicate FirstAt(s: string, sub: string, k: nat) {
    At(s, sub, k) && forall i :: 0 <= i < k ==> !At(s, sub, i)
  }

  lemma FirstFurther(s: string, sub: string, k: nat)
    requires sub != "" && FirstAt(s, sub, k)
    ensures k + |sub| <= |s| && (sub <= s <==> k == 0)
    ensures k > 0 ==> FirstAt(s[1..], sub, k - 1)
  {
    if sub <= s {
      assert At(s, sub, 0);
    }
    if k > 0 {
      OneFurther(s, sub, k - 1);
      forall i | 0 <= i < k - 1 ensures !At(s[1..], sub, i) {
        OneFurther(s, sub, i);
      }
    }
  }

  lemma Steps(s: string, sub: string, with: string)
    requires sub != "" && s != ""
    ensures ReplaceAll(s, sub, with) ==
            if sub <= s then with + ReplaceAll(s[|sub|..], sub, with) else [s[0]] + ReplaceAll(s[1..], sub, with)
  {
  }

  lemma TooShort(s: string, sub: string, with: string)
    requires |s| < |sub|
    ensures ReplaceAll(s, sub, with) == s
  {
    PassKeeps(s, sub, with);
  }

  /** A pass over a text whose first occurrence is at `k`, with too little text behind it for another. */
  lemma {:induction false} PassOnce(s: string, sub: string, with: string, k: nat)
    requires sub != "" && FirstAt(s, sub, k) && |s| - k - |sub| < |sub|
    ensures k + |sub| <= |s| && ReplaceAll(s, sub, with) == s[..k] + with + s[k + |sub|..]
    decreases k
  {
    hide *;
    FirstFurther(s, sub, k);
    Steps(s, sub, with);
    if k == 0 {
      TooShort(s[|sub|..], sub, with);
      assert s[..0] + with == with;
    } else {
      PassOnce(s[1..], sub, with, k - 1);
      FrontBack(s, with, k, |sub|);
    }
  }

  lemma FrontBack(s: string, with: string, k: nat, n: nat)
    requires 0 < k && k + n <= |s|
    ensures [s[0]] + (s[1..][..k - 1] + with + s[1..][k - 1 + n..]) == s[..k] + with + s[k + n..]
  {
    assert s[1..][k - 1 + n..] == s[k + n..] && [s[0]] + s[1..][..k - 1] == s[..k];
  }

  // --------------------------------------------------------------------
  // A text that one pass revives
  // --------------------------------------------------------------------

  function Before(s: string, a: int): string
    requires a < |s|
  {
    if a > 0 then s[..a] else ""
  }

  function Behind(s: string, a: int): string
    requires -|PLACEHOLDER| < a
  {
    if a + |PLACEHOLDER| < |s| then s[a + |PLACEHOLDER|..] else ""
  }

  /** `s` with, around it, the parts of `s` that stick out of a placeholder at offset `a`. */
  function Revival(s: string, a: int): string
    requires Meets(s, a)
  {
    Before(s, a) + s + Behind(s, a)
  }

  /** Repeating at distance `p`, and at distance `i` up to `i + p`, is repeating at distance `i`. */
  lemma {:induction false} ShiftSplits(s: string, p: nat, i: nat, x: nat)
    requires 0 < p && i <= x < |s| && Shifts(s, p)
    requires forall y :: i <= y < i + p && y < |s| ==> s[y] == s[y - i]
    ensures s[x] == s[x - i]
    decreases x
  {
    if x >= i + p {
      ShiftSplits(s, p, i, x - p);
      assert s[x] == s[x - p] && s[x - i] == s[x - i - p];
    }
  }

  /** An occurrence `p` places before the middle one repeats at distance `p`, and its front at distance `i`. */
  lemma EarlierShifts(s: string, a: nat, tail: string, i: nat)
    requires i < a < |s| && At(s[..a] + s + tail, s, i)
    ensures Shifts(s, a - i) && forall y :: i <= y < a ==> s[y] == s[y - i]
  {
    var t := s[..a] + s + tail;
    assert t[..a] == s[..a] && t[a..a + |s|] == s;
    hide At;
    forall j | a - i <= j < |s| ensures s[j] == s[j - (a - i)] {
      AtChar(t, s, i, j);
      assert t[i + j] == t[a..a + |s|][i + j - a];
    }
    forall y | i <= y < a ensures s[y] == s[y - i] {
      AtChar(t, s, i, y - i);
      assert t[y] == t[..a][y];
    }
  }

  /** The occurrence in the middle of the revival is its first. */
  lemma NoneEarlier(s: string, a: nat, tail: string, i: int)
    requires 0 < a < |s| && !Shifts(s, a) && i < a
    ensures !At(s[..a] + s + tail, s, i)
  {
    if At(s[..a] + s + tail, s, i) {
      EarlierShifts(s, a, tail, i);
      ShiftsAdd(s, a, i);
    }
  }

  lemma ShiftsAdd(s: string, a: nat, i: nat)
    requires i < a && Shifts(s, a - i) && forall y :: i <= y < a && y < |s| ==> s[y] == s[y - i]
    ensures Shifts(s, a)
  {
    forall j | a <= j < |s| ensures s[j] == s[j - a] {
      ShiftSplits(s, a - i, i, j - (a - i));
      assert s[j] == s[j - (a - i)];
    }
  }

  /** One pass over the revival of `s` spells `s` again. */
  lemma Revived(s: string, a: int)
    requires s != "" && Revives(s, a)
    ensures Contains(ReplaceAll(Revival(s, a), s, PLACEHOLDER), s)
  {
    var head, tail, t := Before(s, a), Behind(s, a), Revival(s, a);
    assert t[|head|..|head| + |s|] == s && t[..|head|] == head && t[|head| + |s|..] == tail;
    if a > 0 {
      forall i | i < |head| ensures !At(t, s, i) {
        NoneEarlier(s, a, tail, i);
      }
    }
    assert FirstAt(t, s, |head|);
    PassOnce(t, s, PLACEHOLDER, |head|);
    SpelledAgain(s, a);
  }

  lemma SpelledAgain(s: string, a: int)
    requires Meets(s, a)
    ensures At(Before(s, a) + PLACEHOLDER + Behind(s, a), s, if a > 0 then 0 else -a)
  {
    var head, tail, k := Before(s, a), Behind(s, a), if a > 0 then 0 else -a;
    var n := |PLACEHOLDER|;
    forall j | 0 <= j < |s| ensures s[j] == Joined(head, PLACEHOLDER, tail, k + j) {
      assert j >= a + n ==> s[j] == tail[j - a - n];
    }
    Spells(head, PLACEHOLDER, tail, s, k);
  }

  function Joined(a: string, b: string, c: string, x: int): char
    requires 0 <= x < |a| + |b| + |c|
  {
    if x < |a| then a[x] else if x < |a| + |b| then b[x - |a|] else c[x - |a| - |b|]
  }

  lemma Spells(a: string, b: string, c: string, s: string, k: nat)
    requires k + |s| <= |a| + |b| + |c| && forall j :: 0 <= j < |s| ==> s[j] == Joined(a, b, c, k + j)
    ensures At(a + b + c, s, k)
  {
    var out := a + b + c;
    forall j | 0 <= j < |s| ensures out[k..k + |s|][j] == s[j] {}
  }

  // --------------------------------------------------------------------
  // All passes
  // --------------------------------------------------------------------

  predicate EndsWith(s: string, t: string) {
    |t| <= |s| && s[|s| - |t|..] == t
  }

  function Shortest(ref: string): string {
    var ts := Targets(ref);
    ts[|ts| - 1]
  }

  predicate NoInnerColon(s: string) {
    forall j :: 0 <= j < |s| - 1 ==> s[j] != ':'
  }

  lemma ColonAt(s: string, j: int)
    ensures At(s, ":", j) <==> 0 <= j < |s| && s[j] == ':'
  {
    assert 0 <= j < |s| ==> s[j..j + 1] == [s[j]];
  }

  /**
   Every other target ends with a colon and the shortest one, which has no colon of its
   own but perhaps at its end.
   */
  lemma {:induction false} TargetsNest(ref: string)
    requires ref != ""
    ensures Shortest(ref) != "" && NoInnerColon(Shortest(ref))
    ensures var ts := Targets(ref); forall k :: 0 <= k < |ts| - 1 ==> EndsWith(ts[k], ":" + Shortest(ref))
    decreases |ref|
  {
    var i := Index(ref, ":");
    if i < 0 || ref[i + 1..] == "" {
      forall j | 0 <= j < |ref| - 1 ensures ref[j] != ':' {
        ColonAt(ref, j);
        assert i >= 0 ==> i == |ref| - 1;
      }
    } else {
      var tail := ref[i + 1..];
      TargetsNest(tail);
      AtChar(ref, ":", i, 0);
      assert ref[i..] == ":" + tail;
      assert Targets(ref) == [ref] + Targets(tail) && Shortest(ref) == Shortest(tail);
      assert Targets(tail)[0] == tail;
      Preceded(ref, tail, Shortest(tail), i);
    }
  }

  lemma Preceded(ref: string, tail: string, short: string, i: nat)
    requires i < |ref| && ref[i..] == ":" + tail && tail == ref[i + 1..]
    requires tail == short || EndsWith(tail, ":" + short)
    ensures EndsWith(ref, ":" + short)
  {
    if tail != short {
      var k := |ref| - |":" + short|;
      assert ref[k..] == tail[k - i - 1..];
    }
  }

  lemma ContainsEnd(s: string, t: string, end: string, i: int)
    requires At(s, t, i) && EndsWith(t, end)
    ensures Contains(s, end)
  {
    var k := i + |t| - |end|;
    assert s[k..k + |end|] == s[i..i + |t|][|t| - |end|..];
    assert At(s, end, k);
  }

  lemma {:induction false} LastPass(msg: string, targets: seq<string>) returns (before: string)
    requires targets != []
    ensures ReplaceEach(msg, targets) == ReplaceAll(before, targets[|targets| - 1], PLACEHOLDER)
    ensures (forall k :: 0 <= k < |targets| - 1 ==> targets[k] != "" && !Contains(msg, targets[k])) ==> before == msg
    decreases targets
  {
    if |targets| == 1 {
      before := msg;
      assert targets[1..] == [];
    } else {
      if targets[0] != "" && !Contains(msg, targets[0]) {
        PassKeeps(msg, targets[0], PLACEHOLDER);
      }
      assert forall k :: 0 <= k < |targets| - 2 ==> targets[1..][k] == targets[k + 1];
      before := LastPass(ReplaceAll(msg, targets[0], PLACEHOLDER), targets[1..]);
    }
  }

  /** Scrubs every message clean of the reference and all its tails. */
  ghost predicate AlwaysClean(ref: string) {
    forall text, target :: target in Targets(ref) ==> !Contains(ReplaceEach(text, Targets(ref)), target)
  }

  /** The scrubbed message contains neither the reference nor any non-empty tail of it. */
  lemma TargetEnds(ref: string, target: string)
    requires ref != "" && target in Targets(ref)
    ensures EndsWith(target, Shortest(ref))
  {
    var targets, short := Targets(ref), Shortest(ref);
    TargetsNest(ref);
    var k :| 0 <= k < |targets| && targets[k] == target;
    assert (":" + short)[1..] == short;
    if k == |targets| - 1 {
      assert target == short;
    } else {
      assert target[|target| - |short|..] == target[|target| - |":" + short|..][1..];
    }
  }

  lemma ScrubbedClean(text: string, ref: string, target: string)
    requires ref != "" && (forall a :: !Revives(Shortest(ref), a)) && target in Targets(ref)
    ensures !Contains(ReplaceEach(text, Targets(ref)), target)
  {
    var targets, short := Targets(ref), Shortest(ref);
    var out := ReplaceEach(text, targets);
    var before := LastPass(text, targets);
    TargetsNest(ref);
    TargetEnds(ref, target);
    assert out == ReplaceAll(before, short, PLACEHOLDER);
    hide *;
    forall i ensures !At(out, short, i) {
      PassRemoves(before, short, i);
    }
    NotContained(out, target, short);
  }

  lemma NotContained(s: string, t: string, end: string)
    requires EndsWith(t, end) && forall i :: !At(s, end, i)
    ensures !Contains(s, t)
  {
    if i :| At(s, t, i) {
      ContainsEnd(s, t, end, i);
    }
  }

  /** The revival of the shortest target mentions none of the others. */
  lemma RevivalUntouched(s: string, a: int, target: string)
    requires Meets(s, a) && s != "" && NoInnerColon(s) && EndsWith(target, ":" + s)
    ensures !Contains(Revival(s, a), target)
  {
    var head, tail, t := Before(s, a), Behind(s, a), Revival(s, a);
    forall j | 0 <= j < |head| + |tail| ensures t[j] != ':' {
      assert t[j] == if j < |head| then s[j] else s[j - |head|];
    }
    forall j ensures !At(t, ":" + s, j) {
      if At(t, ":" + s, j) {
        AtChar(t, ":" + s, j, 0);
      }
    }
    if i :| At(t, target, i) {
      ContainsEnd(t, target, ":" + s, i);
    }
  }

  /** A placeholder that revives the shortest tail brings it back in a message that mentions it. */
  lemma SomeTextSurvives(ref: string, a: int)
    requires ref != "" && Revives(Shortest(ref), a)
    ensures Contains(ReplaceEach(Revival(Shortest(ref), a), Targets(ref)), Shortest(ref))
  {
    var short, targets := Shortest(ref), Targets(ref);
    var text := Revival(short, a);
    TargetsNest(ref);
    forall k | 0 <= k < |targets| - 1 ensures targets[k] != "" && !Contains(text, targets[k]) {
      RevivalUntouched(short, a, targets[k]);
    }
    var before := LastPass(text, targets);
    Revived(short, a);
  }

  /** Every message comes out clean exactly when no placeholder revives the shortest tail. */
  lemma CleanExactly(ref: string)
    requires ref != ""
    ensures AlwaysClean(ref) <==> forall a :: !Revives(Shortest(ref), a)
  {
    var short, targets := Shortest(ref), Targets(ref);
    if a :| Revives(short, a) {
      SomeTextSurvives(ref, a);
      assert short in targets && Contains(ReplaceEach(Revival(short, a), targets), short);
    } else {
      forall text, target | target in targets ensures !Contains(ReplaceEach(text, targets), target) {
        ScrubbedClean(text, ref, target);
      }
    }
  }

  /** A message that mentions none of it is not touched. */
  lemma {:induction false} CleanUntouched(text: string, targets: seq<string>)
    requires forall t :: t in targets ==> t != "" && !Contains(text, t)
    ensures ReplaceEach(text, targets) == text
    decreases targets
  {
    if targets != [] {
      assert targets[0] in targets && forall t :: t in targets[1..] ==> t in targets;
      PassKeeps(text, targets[0], PLACEHOLDER);
      CleanUntouched(text, targets[1..]);
    }
  }

  lemma LastTail(scheme: string, name: string)
    requires name != "" && ':' !in name && ':' !in scheme
    ensures ColonTails(name) == [] && ColonTails(scheme + ":" + name) == [name]
  {
    var ref := scheme + ":" + name;
    FirstColon(scheme, name);
    assert ref[|scheme| + 1..] == name;
    forall i ensures !At(name, ":", i) {
      if At(name, ":", i) {
        AtChar(name, ":", i, 0);
      }
    }
    assert ColonTails(name) == [];
  }

  lemma FirstColon(scheme: string, rest: string)
    requires ':' !in scheme
    ensures Index(scheme + ":" + rest, ":") == |scheme|
  {
    var ref := scheme + ":" + rest;
    assert At(ref, ":", |scheme|);
    assert forall i :: 0 <= i < |scheme| ==> scheme[i] in scheme;
    forall i | i < |scheme| ensures !At(ref, ":", i) {
      if At(ref, ":", i) {
        AtChar(ref, ":", i, 0);
      }
    }
  }

  /** A path with an index in brackets is always scrubbed, unless the index begins as the placeholder goes on. */
  lemma IndexedPathClean(path: string, index: string)
    requires path != "" && path[0] == '/' && NoBracket(path) && ':' !in path
    requires index != "" && index[0] != PLACEHOLDER[1] && NoBracket(index) && ':' !in index
    ensures AlwaysClean("file:" + path + "[" + index + "]")
  {
    var ref, short := "file:" + path + "[" + index + "]", path + "[" + index + "]";
    LastTail("file", short);
    assert ref == "file" + ":" + short;
    assert Shortest(ref) == short;
    assert '/' !in PLACEHOLDER;
    forall a ensures !Meets(short, a) {
      if Meets(short, a) {
        MeetsWhere(path, index, a);
      }
    }
    CleanExactly(ref);
  }

  lemma MeetsWhere(path: string, index: string, a: int)
    requires path != "" && NoBracket(path) && NoBracket(index) && index != "" && Meets(path + "[" + index + "]", a)
    ensures if a > 0 then index[0] == PLACEHOLDER[1] else path[0] in PLACEHOLDER
  {
    var short := path + "[" + index + "]";
    if a <= 0 {
      assert short[0] == PLACEHOLDER[-a];
    } else {
      assert short[a] == PLACEHOLDER[0] == '[';
      assert forall j :: 0 <= j < |short| && j != |path| ==>
          short[j] == if j < |path| then path[j] else if j < |short| - 1 then index[j - |path| - 1] else ']';
      assert a == |path|;
      assert short[a + 1] == index[0] && short[a + 1] == PLACEHOLDER[1];
    }
  }

  /** A name in an external store that ends in an opening bracket can be completed by the placeholder. */
  lemma BracketTailSurvives(name: string)
    requires name != "" && NoBracket(name) && ':' !in name
    ensures !AlwaysClean("aws:sm:" + name + "[")
  {
    var ref, short := "aws:sm:" + name + "[", name + "[";
    LastTail("sm", short);
    FirstColon("aws", "sm:" + short);
    assert ref == "aws" + ":" + ("sm:" + short) && ref[4..] == "sm:" + short == "sm" + ":" + short;
    assert ColonTails(ref) == ["sm:" + short, short];
    assert Shortest(ref) == short;
    assert short[|name|] == '[' && short[0] == name[0] && name[0] in name;
    assert Meets(short, |name|);
    OverlapRevives(short, |name|);
    CleanExactly(ref);
  }
}

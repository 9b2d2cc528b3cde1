/**
 Redaction of decoder messages, so that no text of the document reaches a log.
 A message either redacts to a string or, for one shape the decoder never
 produces, the slice in the unknown-field branch is out of range.
 */
module YamlMessages {
  import opened Text

  const DUP_KEY_PREFIX := "mapping key "
  const DUP_KEY_SUFFIX := " already defined at line "
  const FIELD_PREFIX := "field "
  const UNKNOWN_FIELD_MARKER := " not found in type "
  const FIELD_SET_MARKER := " already set in type "
  const REDACTED := "(redacted)"
  const TYPE_MISMATCH := "value is not valid" + " for this field" + " (value redacted)"

  /** The field-name pattern ^[a-z][a-z0-9_]{0,39}$. */
  predicate FieldName(s: string) {
    1 <= |s| <= 40 && 'a' <= s[0] <= 'z'
    && forall i :: 1 <= i < |s| ==> 'a' <= s[i] <= 'z' || '0' <= s[i] <= '9' || s[i] == '_'
  }

  /** The "line N: " prefix, or nothing. */
  function LinePrefix(m: string): (p: string)
    ensures p <= m
  {
    if !HasPrefix(m, "line ") then ""
    else
      var i := Index(m, ": ");
      if i < 0 then "" else m[..i + 2]
  }

  datatype Sanitized = Kept(text: string) | SliceOutOfRange

  /** The message after its line prefix: three classes tested in order, the rest redacted whole. */
  function Redact(rest: string): Sanitized {
    var dup := LastIndex(rest, DUP_KEY_SUFFIX);
    if HasPrefix(rest, DUP_KEY_PREFIX) && dup >= 0 then
      Kept(DUP_KEY_PREFIX + REDACTED + rest[dup..])
    else
      var unknown := LastIndex(rest, UNKNOWN_FIELD_MARKER);
      if HasPrefix(rest, FIELD_PREFIX) && unknown >= 0 then
        if unknown < |FIELD_PREFIX| then SliceOutOfRange
        else if FieldName(rest[|FIELD_PREFIX|..unknown]) then Kept(rest)
        else Kept(FIELD_PREFIX + REDACTED + rest[unknown..])
      else if Index(rest, FIELD_SET_MARKER) >= 0 then Kept(rest)
      else Kept(TYPE_MISMATCH)
  }

  function Sanitize(m: string): Sanitized {
    var prefix := LinePrefix(m);
    match Redact(m[|prefix|..])
    case Kept(text) => Kept(prefix + text)
    case SliceOutOfRange => SliceOutOfRange
  }

  // --------------------------------------------------------------------
  // Prefixes
  // --------------------------------------------------------------------

  /** Replacing what follows the line prefix leaves the line prefix. */
  lemma PrefixStable(m: string, tail: string)
    requires LinePrefix(m) != "" || !HasPrefix(tail, "line ")
    ensures LinePrefix(LinePrefix(m) + tail) == LinePrefix(m)
  {
    var p := LinePrefix(m);
    if p != "" {
      var i := Index(m, ": ");
      assert p == m[..i + 2] && p + m[i + 2..] == m;
      AtLeft(p, m[i + 2..], ": ", i);
      AtLeft(p, tail, ": ", i);
      forall j | j < i ensures !At(p + tail, ": ", j) {
        AtLeft(p, m[i + 2..], ": ", j);
        AtLeft(p, tail, ": ", j);
      }
      var k := Index(p + tail, ": ");
      assert k == i;
      assert m[..5] == "line ";
      assert forall k :: 0 <= k < 5 ==> m[k] == m[..5][k];
      AtChar(m, ": ", i, 0);
      assert (p + tail)[..5] == p[..5] == m[..5];
      assert HasPrefix(p + tail, "line ");
      assert (p + tail)[..i + 2] == p;
    } else {
      assert p + tail == tail;
    }
  }

  predicate Digits(s: string) {
    s != "" && forall i :: 0 <= i < |s| ==> '0' <= s[i] <= '9'
  }

  function Line(n: string): string {
    "line " + n + ": "
  }

  lemma LinePrefixOf(n: string, tail: string)
    requires Digits(n)
    ensures LinePrefix(Line(n) + tail) == Line(n) && (Line(n) + tail)[|Line(n)|..] == tail
  {
    var m := Line(n) + tail;
    var i := 5 + |n|;
    assert m[..5] == "line " && m[5..i] == n;
    assert forall j :: 0 <= j < 5 ==> m[j] == m[..5][j];
    assert forall j :: 5 <= j < i ==> m[j] == m[5..i][j - 5];
    assert At(m, ": ", i);
    forall j | 0 <= j < i ensures !At(m, ": ", j) {
      if At(m, ": ", j) {
        AtChar(m, ": ", j, 0);
      }
    }
    assert m[..i + 2] == Line(n);
  }

  // --------------------------------------------------------------------
  // The decoder's message shapes
  // --------------------------------------------------------------------

  predicate NoSpace(s: string) {
    forall i :: 0 <= i < |s| ==> s[i] != ' '
  }

  /** A marker ending in a space is last where it really is, whatever precedes it. */
  lemma LastMarker(a: string, marker: string, tail: string)
    requires marker != "" && marker[|marker| - 1] == ' ' && NoSpace(tail)
    ensures LastIndex(a + marker + tail, marker) == |a|
  {
    var s := a + marker + tail;
    assert At(s, marker, |a|);
    forall j | j > |a| ensures !At(s, marker, j) {
      if At(s, marker, j) {
        AtChar(s, marker, j, |marker| - 1);
      }
    }
  }

  lemma SanitizeLine(n: string, rest: string)
    requires Digits(n)
    ensures Sanitize(Line(n) + rest) ==
              match Redact(rest) case Kept(text) => Kept(Line(n) + text) case SliceOutOfRange => SliceOutOfRange
  {
    LinePrefixOf(n, rest);
  }

  /** A duplicate key: both line numbers survive, the key does not, whatever it says. */
  lemma DuplicateKeyRedacted(n: string, key: string, other: string)
    requires Digits(n) && Digits(other)
    ensures Sanitize(Line(n) + (DUP_KEY_PREFIX + key + DUP_KEY_SUFFIX + other)) ==
            Kept(Line(n) + (DUP_KEY_PREFIX + REDACTED + (DUP_KEY_SUFFIX + other)))
  {
    var rest := DUP_KEY_PREFIX + key + DUP_KEY_SUFFIX + other;
    var i := |DUP_KEY_PREFIX + key|;
    assert rest[i..] == DUP_KEY_SUFFIX + other && HasPrefix(rest, DUP_KEY_PREFIX);
    LastMarker(DUP_KEY_PREFIX + key, DUP_KEY_SUFFIX, other);
    SanitizeLine(n, rest);
  }

  /** An unknown field survives exactly when its whole name looks like a field name. */
  lemma UnknownFieldGuarded(n: string, name: string, typeName: string)
    requires Digits(n) && NoSpace(typeName)
    ensures var rest := FIELD_PREFIX + name + UNKNOWN_FIELD_MARKER + typeName;
            Sanitize(Line(n) + rest) == Kept(Line(n) + if FieldName(name) then rest
              else FIELD_PREFIX + REDACTED + (UNKNOWN_FIELD_MARKER + typeName))
  {
    var rest := FIELD_PREFIX + name + UNKNOWN_FIELD_MARKER + typeName;
    LastMarker(FIELD_PREFIX + name, UNKNOWN_FIELD_MARKER, typeName);
    SanitizeLine(n, rest);
    FieldClass(rest, name, typeName);
  }

  lemma FieldClass(rest: string, name: string, typeName: string)
    requires rest == FIELD_PREFIX + name + UNKNOWN_FIELD_MARKER + typeName
    requires LastIndex(rest, UNKNOWN_FIELD_MARKER) == |FIELD_PREFIX + name|
    ensures Redact(rest) == Kept(if FieldName(name) then rest
              else FIELD_PREFIX + REDACTED + (UNKNOWN_FIELD_MARKER + typeName))
  {
    hide LastIndex, FieldName;
    var i := |FIELD_PREFIX + name|;
    assert rest[|FIELD_PREFIX|..i] == name && rest[i..] == UNKNOWN_FIELD_MARKER + typeName
        && HasPrefix(rest, FIELD_PREFIX);
    assert rest[0] == 'f' && DUP_KEY_PREFIX[0] == 'm';
  }

  /** A message of neither class without the already-set marker keeps its line number only. */
  lemma MismatchRedacted(n: string, text: string)
    requires Digits(n) && !HasPrefix(text, DUP_KEY_PREFIX) && !HasPrefix(text, FIELD_PREFIX)
    ensures Sanitize(Line(n) + text) == Kept(Line(n) + if Contains(text, FIELD_SET_MARKER) then text else TYPE_MISMATCH)
  {
    SanitizeLine(n, text);
  }

  // The decoder's type mismatches: a tag, then for a scalar its first ten characters, then the type.
  const CANNOT := "cannot unmarshal "
  const INTO := " into "

  function ScalarMismatch(tag: string, value: string, typeName: string): string {
    CANNOT + tag + " `" + value + "`" + INTO + typeName
  }

  /** After the type's name begins no marker can begin. */
  lemma NoMarkerInto(typeName: string, i: int)
    requires NoSpace(typeName)
    ensures !At(INTO + typeName, FIELD_SET_MARKER, i)
  {
    var t := INTO + typeName;
    assert FIELD_SET_MARKER[0] == ' ' && FIELD_SET_MARKER[1] == 'a' && FIELD_SET_MARKER[8] == ' ';
    assert t[1] == 'i' && t[2] == 'n' && t[3] == 't' && t[4] == 'o' && forall j :: 6 <= j < |t| ==>
        t[j] == typeName[j - 6];
    if At(t, FIELD_SET_MARKER, i) {
      AtChar(t, FIELD_SET_MARKER, i, 0);
      AtChar(t, FIELD_SET_MARKER, i, 1);
      AtChar(t, FIELD_SET_MARKER, i, 8);
    }
  }

  /** Nor before the space in front of the tag. */
  lemma NoMarkerCannot(rest: string, i: int)
    requires i < |CANNOT| - 1
    ensures !At(CANNOT + rest, FIELD_SET_MARKER, i)
  {
    var t := CANNOT + rest;
    assert FIELD_SET_MARKER[0] == ' ' && FIELD_SET_MARKER[1] == 'a';
    assert forall j :: 0 <= j < 17 ==> t[j] == CANNOT[j];
    assert CANNOT[7] == 'u' && forall j :: 0 <= j < 16 && CANNOT[j] == ' ' ==> j == 6;
    if At(t, FIELD_SET_MARKER, i) {
      AtChar(t, FIELD_SET_MARKER, i, 0);
      AtChar(t, FIELD_SET_MARKER, i, 1);
    }
  }

  /** An occurrence does not cross a backtick. */
  lemma NoMarkerAcross(t: string, i: int, b: nat)
    requires b < |t| && t[b] == '`' && At(t, FIELD_SET_MARKER, i)
    ensures i + |FIELD_SET_MARKER| <= b || b < i
  {
    assert Lacks(FIELD_SET_MARKER, '`');
    if i <= b < i + |FIELD_SET_MARKER| {
      AtChar(t, FIELD_SET_MARKER, i, b - i);
    }
  }

  /** The message around its tag: nothing in front of the spaced tag or behind it holds the marker. */
  lemma MarkerPlace(front: string, spaced: string, value: string, typeName: string, i: int)
    requires front + " " == CANNOT && spaced != "" && spaced[0] == ' ' && |value| <= 10 && NoSpace(typeName)
    requires At(front + (spaced + ("`" + value + "`" + INTO + typeName)), FIELD_SET_MARKER, i)
    ensures At(spaced, FIELD_SET_MARKER, i - |front|)
  {
    var quoted := "`" + value + "`";
    var tail := quoted + INTO + typeName;
    var t := front + (spaced + tail);
    var b := |front| + |spaced|;
    var c := b + 1 + |value|;
    assert t == (front + spaced + quoted) + (INTO + typeName) && t[b] == '`' && t[c] == '`';
    assert t == CANNOT + (spaced[1..] + tail);
    hide At;
    NoMarkerAcross(t, i, b);
    NoMarkerAcross(t, i, c);
    assert i <= c by {
      if i > c {
        AtRight(front + spaced + quoted, INTO + typeName, FIELD_SET_MARKER, i);
        NoMarkerInto(typeName, i - c - 1);
      }
    }
    assert i >= |front| by {
      if i < |front| {
        NoMarkerCannot(spaced[1..] + tail, i);
      }
    }
    AtRight(front, spaced + tail, FIELD_SET_MARKER, i);
    AtLeft(spaced, tail, FIELD_SET_MARKER, i - |front|);
  }

  /** A scalar mismatch holds the marker exactly when its tag does, between the spaces around it. */
  lemma MarkerInTag(tag: string, value: string, typeName: string)
    requires |value| <= 10 && NoSpace(typeName)
    ensures Contains(ScalarMismatch(tag, value, typeName), FIELD_SET_MARKER) <==>
              Contains(" " + tag + " ", FIELD_SET_MARKER)
  {
    var t, spaced := ScalarMismatch(tag, value, typeName), " " + tag + " ";
    var front, tail := "cannot unmarshal", "`" + value + "`" + INTO + typeName;
    assert t == front + (spaced + tail) && front + " " == CANNOT;
    hide At, ScalarMismatch;
    if i :| At(t, FIELD_SET_MARKER, i) {
      MarkerPlace(front, spaced, value, typeName, i);
    }
    if i: int :| At(spaced, FIELD_SET_MARKER, i) {
      assert 0 <= i && i + |FIELD_SET_MARKER| <= |spaced| by {
        AtRange(spaced, FIELD_SET_MARKER, i);
      }
      AtLeft(spaced, tail, FIELD_SET_MARKER, i);
      AtRight(front, spaced + tail, FIELD_SET_MARKER, i + |front|);
    }
  }

  lemma AtRange(s: string, sub: string, i: int)
    requires At(s, sub, i)
    ensures 0 <= i && i + |sub| <= |s|
  {
  }

  /** A scalar mismatch is redacted, whatever the scalar says, exactly when its tag does not carry the marker. */
  lemma ScalarMismatchRedacted(n: string, tag: string, value: string, typeName: string)
    requires Digits(n) && |value| <= 10 && NoSpace(typeName)
    ensures var text := ScalarMismatch(tag, value, typeName);
            Sanitize(Line(n) + text) == Kept(Line(n) + if Contains(" " + tag + " ", FIELD_SET_MARKER) then text
              else TYPE_MISMATCH)
  {
    var text := ScalarMismatch(tag, value, typeName);
    MarkerInTag(tag, value, typeName);
    assert text[0] == CANNOT[0] == 'c' && DUP_KEY_PREFIX[0] == 'm' && FIELD_PREFIX[0] == 'f';
    MismatchRedacted(n, text);
  }

  /** A sequence or mapping where a scalar belongs quotes nothing and is always redacted. */
  lemma CollectionMismatchRedacted(n: string, tag: string, typeName: string)
    requires Digits(n) && tag in {"!!seq", "!!map"} && NoSpace(typeName)
    ensures Sanitize(Line(n) + (CANNOT + tag + INTO + typeName)) == Kept(Line(n) + TYPE_MISMATCH)
  {
    var text := CANNOT + tag + INTO + typeName;
    assert text == CANNOT + (tag + INTO + typeName) && text == (CANNOT + tag) + (INTO + typeName);
    assert FIELD_SET_MARKER[0] == ' ' && FIELD_SET_MARKER[1] == 'a';
    assert text[16] == ' ' && text[17] == '!' && forall j :: 17 <= j < 22 ==> text[j] == tag[j - 17] != ' ';
    forall i ensures !At(text, FIELD_SET_MARKER, i) {
      if i < 16 {
        NoMarkerCannot(tag + INTO + typeName, i);
      } else if i >= 22 {
        AtRight(CANNOT + tag, INTO + typeName, FIELD_SET_MARKER, i);
        NoMarkerInto(typeName, i - 22);
      } else if At(text, FIELD_SET_MARKER, i) {
        AtChar(text, FIELD_SET_MARKER, i, 0);
        AtChar(text, FIELD_SET_MARKER, i, 1);
      }
    }
    assert text[0] == CANNOT[0] == 'c' && DUP_KEY_PREFIX[0] == 'm' && FIELD_PREFIX[0] == 'f';
    MismatchRedacted(n, text);
  }

  /** The slice is out of range for one shape only: a field message with no name and one space. */
  lemma OutOfRangeExactly(m: string)
    ensures Sanitize(m).SliceOutOfRange? <==>
            var rest := m[|LinePrefix(m)|..];
              HasPrefix(rest, FIELD_PREFIX) && LastIndex(rest, UNKNOWN_FIELD_MARKER) == |FIELD_PREFIX| - 1
  {
    var rest := m[|LinePrefix(m)|..];
    var i := LastIndex(rest, UNKNOWN_FIELD_MARKER);
    if HasPrefix(rest, FIELD_PREFIX) {
      assert rest[..6] == "field ";
      assert forall k :: 0 <= k < 6 ==> rest[k] == rest[..6][k];
      if 0 <= i < 6 {
        AtChar(rest, UNKNOWN_FIELD_MARKER, i, 0);
      }
    }
  }

  // --------------------------------------------------------------------
  // Sanitizing twice
  // --------------------------------------------------------------------

  ghost predicate LastAt(s: string, sub: string, i: int) {
    At(s, sub, i) && forall j :: i < j ==> !At(s, sub, j)
  }

  lemma LastAtShift(front: string, a: string, tail: string, sub: string)
    requires LastAt(front + tail, sub, |front|)
    ensures LastAt(a + tail, sub, |a|)
  {
    AtRight(front, tail, sub, |front|);
    AtRight(a, tail, sub, |a|);
    hide At;
    forall j | j > |a| ensures !At(a + tail, sub, j) {
      AtRight(a, tail, sub, j);
      AtRight(front, tail, sub, j - |a| + |front|);
    }
  }

  lemma LastAtUnique(s: string, sub: string, i: nat)
    requires LastAt(s, sub, i)
    ensures LastIndex(s, sub) == i
  {
    hide At, LastIndex;
  }

  lemma LastIndexShift(a: string, rest: string, sub: string, i: nat)
    requires LastIndex(rest, sub) == i
    ensures i <= |rest| && LastIndex(a + rest[i..], sub) == |a|
  {
    assert LastAt(rest, sub, i) && i <= |rest|;
    assert rest == rest[..i] + rest[i..];
    hide *;
    LastAtShift(rest[..i], a, rest[i..], sub);
    LastAtUnique(a + rest[i..], sub, |a|);
  }

  predicate Lacks(s: string, c: char) {
    forall k :: 0 <= k < |s| ==> s[k] != c
  }

  lemma MismatchHasNoMarker()
    ensures Index(TYPE_MISMATCH, FIELD_SET_MARKER) < 0
  {
    MismatchLacksY();
    hide Index, Lacks;
    forall i ensures !At(TYPE_MISMATCH, FIELD_SET_MARKER, i) {
      NeedsY(TYPE_MISMATCH, i);
    }
  }

  lemma NeedsY(s: string, i: int)
    requires Lacks(s, 'y')
    ensures !At(s, FIELD_SET_MARKER, i)
  {
    assert FIELD_SET_MARKER[17] == 'y';
    if At(s, FIELD_SET_MARKER, i) {
      AtChar(s, FIELD_SET_MARKER, i, 17);
    }
  }

  lemma MismatchLacksY()
    ensures Lacks(TYPE_MISMATCH, 'y')
  {
    assert Lacks("value is not valid", 'y');
    assert Lacks(" for this field", 'y');
    assert Lacks(" (value redacted)", 'y');
    LacksBoth("value is not valid", " for this field", 'y');
    LacksBoth("value is not valid" + " for this field", " (value redacted)", 'y');
  }

  lemma LacksBoth(a: string, b: string, c: char)
    requires Lacks(a, c) && Lacks(b, c)
    ensures Lacks(a + b, c)
  {
  }

  lemma RedactedIsNoFieldName()
    ensures !FieldName(REDACTED)
  {
    assert REDACTED[0] == '(';
  }

  lemma DuplicateStable(rest: string)
    requires HasPrefix(rest, DUP_KEY_PREFIX) && LastIndex(rest, DUP_KEY_SUFFIX) >= 0
    ensures Redact(Redact(rest).text) == Redact(rest)
  {
    hide LastIndex;
    var i := LastIndex(rest, DUP_KEY_SUFFIX);
    var head := DUP_KEY_PREFIX + REDACTED;
    LastIndexShift(head, rest, DUP_KEY_SUFFIX, i);
    assert (head + rest[i..])[|head|..] == rest[i..] && HasPrefix(head + rest[i..], DUP_KEY_PREFIX);
  }

  lemma UnknownStable(rest: string)
    requires HasPrefix(rest, FIELD_PREFIX) && LastIndex(rest, UNKNOWN_FIELD_MARKER) >= 0 && Redact(rest).Kept?
    ensures Redact(Redact(rest).text) == Redact(rest)
  {
    hide LastIndex, FieldName;
    assert rest[0] == 'f' && DUP_KEY_PREFIX[0] == 'm';
    var i := LastIndex(rest, UNKNOWN_FIELD_MARKER);
    var head := FIELD_PREFIX + REDACTED;
    LastIndexShift(head, rest, UNKNOWN_FIELD_MARKER, i);
    var tail := head + rest[i..];
    assert tail[|head|..] == rest[i..] && tail[|FIELD_PREFIX|..|head|] == REDACTED && HasPrefix(tail, FIELD_PREFIX);
    assert tail[0] == 'f';
    RedactedIsNoFieldName();
  }

  lemma MismatchStable()
    ensures Redact(TYPE_MISMATCH) == Kept(TYPE_MISMATCH)
  {
    MismatchHasNoMarker();
    hide Index, LastIndex;
    assert TYPE_MISMATCH[0] == 'v' && DUP_KEY_PREFIX[0] == 'm' && FIELD_PREFIX[0] == 'f';
  }

  lemma RedactStable(rest: string)
    requires Redact(rest).Kept?
    ensures Redact(Redact(rest).text) == Redact(rest)
    ensures Redact(rest).text == rest || !HasPrefix(Redact(rest).text, "line ")
  {
    hide Index, LastIndex, FieldName;
    assert DUP_KEY_PREFIX[0] == 'm' && FIELD_PREFIX[0] == 'f' && TYPE_MISMATCH[0] == 'v' && "line "[0] == 'l';
    if HasPrefix(rest, DUP_KEY_PREFIX) && LastIndex(rest, DUP_KEY_SUFFIX) >= 0 {
      DuplicateStable(rest);
    } else if HasPrefix(rest, FIELD_PREFIX) && LastIndex(rest, UNKNOWN_FIELD_MARKER) >= 0 {
      UnknownStable(rest);
    } else {
      MismatchStable();
    }
  }

  /** Redaction is stable: a sanitized message sanitizes to itself. */
  lemma SanitizeIdempotent(m: string)
    requires Sanitize(m).Kept?
    ensures Sanitize(Sanitize(m).text) == Sanitize(m)
  {
    hide Redact, LinePrefix;
    var prefix := LinePrefix(m);
    var rest := m[|prefix|..];
    RedactStable(rest);
    var text := Redact(rest).text;
    if text == rest {
      assert prefix + text == m;
    } else {
      PrefixStable(m, text);
      assert (prefix + text)[|prefix|..] == text;
    }
  }
}

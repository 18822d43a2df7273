/** The pieces of Python's string library that the journal codec relies on:
    `str.split(sep)` with an explicit, non-empty separator, `sep.join(parts)`,
    `str.replace(old, "")` and the blank test `not s.strip()`.
    Strings are sequences of Unicode scalar values, as Python's `str` is. */
module Text {

  /** `pat` occurs in `s` starting at index `i`. */
  predicate OccursAt(s: string, pat: string, i: nat) {
    i + |pat| <= |s| && s[i..i + |pat|] == pat
  }

  predicate Contains(s: string, pat: string) {
    exists i: nat | i <= |s| :: OccursAt(s, pat, i)
  }

  /** Python's `s.split(sep)`: the text between the leftmost non-overlapping
      occurrences of `sep`, scanning from the left; never empty. */
  function Split(s: string, sep: string): (parts: seq<string>)
    requires sep != ""
    ensures |parts| > 0
    decreases |s|
  {
    if |s| < |sep| then [s]
    else if s[..|sep|] == sep then [""] + Split(s[|sep|..], sep)
    else
      var rest := Split(s[1..], sep);
      [[s[0]] + rest[0]] + rest[1..]
  }

  /** Python's `sep.join(parts)`. */
  function Join(parts: seq<string>, sep: string): string
    decreases |parts|
  {
    if parts == [] then ""
    else if |parts| == 1 then parts[0]
    else parts[0] + sep + Join(parts[1..], sep)
  }

  /** Python's `s.replace(pat, "")`, which is `"".join(s.split(pat))`. */
  function Remove(s: string, pat: string): string
    requires pat != ""
  {
    Join(Split(s, pat), "")
  }

  /** The characters of `s` other than `c`, in order. */
  function Without(s: string, c: char): string
    decreases |s|
  {
    if s == [] then []
    else if s[0] == c then Without(s[1..], c)
    else [s[0]] + Without(s[1..], c)
  }

  /** The number of indices at which `pat` occurs in `s` (overlaps included). */
  function Count(s: string, pat: string): nat
    requires pat != ""
    decreases |s|
  {
    if |s| < |pat| then 0
    else (if s[..|pat|] == pat then 1 else 0) + Count(s[1..], pat)
  }

  /** No proper suffix of `pat` is also a prefix of it, so two occurrences
      of `pat` can never overlap. */
  predicate NoSelfOverlap(pat: string) {
    forall d :: 0 < d < |pat| ==> pat[d..] != pat[..|pat| - d]
  }

  /** The characters Python's `str.isspace()` accepts, which are the ones
      `str.strip()` removes when called without arguments. */
  predicate IsSpace(c: char) {
    c == ' ' || ('\t' <= c <= '\r') || ('\U{1C}' <= c <= '\U{1F}')
    || c == '\U{85}' || c == '\U{A0}' || c == '\U{1680}'
    || ('\U{2000}' <= c <= '\U{200A}') || c == '\U{2028}' || c == '\U{2029}'
    || c == '\U{202F}' || c == '\U{205F}' || c == '\U{3000}'
  }

  /** `not s.strip()`: the string is empty or all whitespace. */
  predicate IsBlank(s: string) {
    forall i :: 0 <= i < |s| ==> IsSpace(s[i])
  }

  // ---------------------------------------------------------------------
  // Split and Join are inverse to each other.

  lemma {:induction false} JoinHead(a: string, rest: seq<string>, sep: string)
    requires |rest| > 0
    ensures Join([a + rest[0]] + rest[1..], sep) == a + Join(rest, sep)
  {
    var parts := [a + rest[0]] + rest[1..];
    assert parts[1..] == rest[1..];
    if |rest| == 1 {
    } else {
      assert Join(rest, sep) == rest[0] + sep + Join(rest[1..], sep);
    }
  }

  /** Joining the pieces of a split with the same separator gives back the
      original text. */
  lemma {:induction false} SplitJoin(s: string, sep: string)
    requires sep != ""
    ensures Join(Split(s, sep), sep) == s
    decreases |s|
  {
    if |s| < |sep| {
    } else if s[..|sep|] == sep {
      var rest := Split(s[|sep|..], sep);
      SplitJoin(s[|sep|..], sep);
      assert Split(s, sep) == [""] + rest;
      assert ([""] + rest)[1..] == rest;
      assert Join([""] + rest, sep) == "" + sep + Join(rest, sep);
      assert s == s[..|sep|] + s[|sep|..];
    } else {
      var rest := Split(s[1..], sep);
      SplitJoin(s[1..], sep);
      assert Split(s, sep) == [[s[0]] + rest[0]] + rest[1..];
      JoinHead([s[0]], rest, sep);
      assert s == [s[0]] + s[1..];
    }
  }

  /** The first piece of a split is the text before the leftmost occurrence
      of the separator: a prefix of `s` free of `sep`, followed in `s` by
      `sep` when there is more than one piece. */
  lemma {:induction false} SplitHead(s: string, sep: string)
    requires sep != ""
    ensures var h := Split(s, sep)[0];
      && h <= s
      && !Contains(h, sep)
      && (|Split(s, sep)| > 1 ==> OccursAt(s, sep, |h|))
      && (|Split(s, sep)| == 1 ==> h == s)
    decreases |s|
  {
    var h := Split(s, sep)[0];
    if |s| < |sep| {
      assert h == s;
      forall i: nat ensures !OccursAt(h, sep, i) { }
    } else if s[..|sep|] == sep {
      assert h == "";
      forall i: nat ensures !OccursAt(h, sep, i) { }
      assert OccursAt(s, sep, 0);
    } else {
      var t := s[1..];
      SplitHead(t, sep);
      var h' := Split(t, sep)[0];
      assert s == [s[0]] + t;
      assert !OccursAt(s, sep, 0);
      HeadStep(s[0], t, h', sep);
    }
  }

  /** The recursive step of `SplitHead`, on the texts alone: a character in
      front of both the text and its first piece. */
  lemma HeadStep(c: char, t: string, h: string, sep: string)
    requires h <= t && !Contains(h, sep) && !OccursAt([c] + t, sep, 0)
    ensures [c] + h <= [c] + t && !Contains([c] + h, sep)
    ensures OccursAt(t, sep, |h|) ==> OccursAt([c] + t, sep, |h| + 1)
  {
    assert !OccursAt([c] + h, sep, 0) by {
      if |sep| <= |h| + 1 {
        assert ([c] + h)[..|sep|] == ([c] + t)[..|sep|];
      }
    }
    PrependFree(c, h, sep);
    if OccursAt(t, sep, |h|) {
      assert ([c] + t)[|h| + 1..|h| + 1 + |sep|] == t[|h|..|h| + |sep|];
    }
  }

  /** A character put in front of a text free of `pat` does not create an
      occurrence, unless one starts at that character. */
  lemma PrependFree(c: char, h: string, pat: string)
    requires !Contains(h, pat) && !OccursAt([c] + h, pat, 0)
    ensures !Contains([c] + h, pat)
  {
    var s := [c] + h;
    forall i: nat | 0 < i && i + |pat| <= |s| ensures !OccursAt(s, pat, i) {
      assert s[i..i + |pat|] == h[i - 1..i - 1 + |pat|];
      assert !OccursAt(h, pat, i - 1);
    }
  }

  /** No piece of a split contains the separator. */
  lemma {:induction false} SplitPiecesFree(s: string, sep: string)
    requires sep != ""
    ensures forall i :: 0 <= i < |Split(s, sep)| ==> !Contains(Split(s, sep)[i], sep)
    decreases |s|
  {
    SplitHead(s, sep);
    if |s| < |sep| {
    } else if s[..|sep|] == sep {
      SplitPiecesFree(s[|sep|..], sep);
    } else {
      SplitPiecesFree(s[1..], sep);
    }
  }

  /** A text without the separator splits into itself alone. */
  lemma {:induction false} SplitNoSep(s: string, sep: string)
    requires sep != "" && !Contains(s, sep)
    ensures Split(s, sep) == [s]
    decreases |s|
  {
    if |s| < |sep| {
    } else {
      assert !OccursAt(s, sep, 0);
      forall i: nat ensures !OccursAt(s[1..], sep, i) {
        if i + |sep| <= |s[1..]| {
          assert s[1..][i..i + |sep|] == s[i + 1..i + 1 + |sep|];
          assert !OccursAt(s, sep, i + 1);
        }
      }
      SplitNoSep(s[1..], sep);
      assert s == [s[0]] + s[1..];
    }
  }

  // ---------------------------------------------------------------------
  // How many pieces a split yields.

  lemma {:induction false} CountSkip(s: string, sep: string, j: nat)
    requires sep != "" && NoSelfOverlap(sep)
    requires 1 <= j <= |sep| <= |s| && s[..|sep|] == sep
    ensures Count(s[j..], sep) == Count(s[|sep|..], sep)
    decreases |sep| - j
  {
    if j < |sep| {
      var t := s[j..];
      if |t| >= |sep| {
        assert sep[j..] == s[j..|sep|] == t[..|sep| - j];
        assert sep[j..] != sep[..|sep| - j];
        assert t[..|sep|][..|sep| - j] == t[..|sep| - j];
        assert t[..|sep|] != sep;
        assert t[1..] == s[j + 1..];
        CountSkip(s, sep, j + 1);
      }
    }
  }

  /** For a separator that cannot overlap itself, a split yields one piece
      more than there are occurrences of the separator. */
  lemma {:induction false} SplitCount(s: string, sep: string)
    requires sep != "" && NoSelfOverlap(sep)
    ensures |Split(s, sep)| == Count(s, sep) + 1
    decreases |s|
  {
    if |s| < |sep| {
    } else if s[..|sep|] == sep {
      SplitCount(s[|sep|..], sep);
      CountSkip(s, sep, 1);
    } else {
      SplitCount(s[1..], sep);
    }
  }

  /** With a one-character separator, splitting around one occurrence of it
      splits both sides independently; this is what makes a file's lines
      the concatenation of its appended records. */
  lemma {:induction false} SplitAround(a: string, b: string, sep: string)
    requires |sep| == 1
    ensures Split(a + sep + b, sep) == Split(a, sep) + Split(b, sep)
    decreases |a|
  {
    var s := a + sep + b;
    if a == [] {
      assert s == sep + b;
      assert s[..1] == sep && s[1..] == b;
      SplitStep(s, sep);
      assert Split(a, sep) == [""];
    } else {
      var r := Split(a[1..], sep);
      assert s[..1] == a[..1] && s[1..] == a[1..] + sep + b;
      SplitAround(a[1..], b, sep);
      SplitStep(s, sep);
      SplitStep(a, sep);
      if a[0] != sep[0] {
        PrependPiece([a[0]], r, Split(b, sep));
      }
    }
  }

  /** One step of `Split`'s definition, for a text at least as long as the
      separator. */
  lemma SplitStep(s: string, sep: string)
    requires sep != "" && |s| >= |sep|
    ensures s[..|sep|] == sep ==> Split(s, sep) == [""] + Split(s[|sep|..], sep)
    ensures s[..|sep|] != sep ==>
      Split(s, sep) == [[s[0]] + Split(s[1..], sep)[0]] + Split(s[1..], sep)[1..]
  {
  }

  /** Extending the first of some pieces commutes with appending more. */
  lemma PrependPiece(x: string, r: seq<string>, t: seq<string>)
    requires |r| > 0
    ensures [x + (r + t)[0]] + (r + t)[1..] == ([x + r[0]] + r[1..]) + t
  {
    assert (r + t)[1..] == r[1..] + t;
  }

  // ---------------------------------------------------------------------
  // What `replace(pat, "")` leaves.

  /** Removing a single character deletes exactly its occurrences. */
  lemma {:induction false} RemoveChar(s: string, c: char)
    ensures Remove(s, [c]) == Without(s, c)
    decreases |s|
  {
    if s == [] {
    } else {
      var rest := Split(s[1..], [c]);
      RemoveChar(s[1..], c);
      if s[0] == c {
        assert s[..1] == [c];
        assert Split(s, [c]) == [""] + rest;
        assert ([""] + rest)[1..] == rest;
        assert Join([""] + rest, "") == "" + "" + Join(rest, "");
      } else {
        assert s[..1] != [c];
        JoinHead([s[0]], rest, "");
      }
    }
  }

  lemma {:induction false} WithoutEliminates(s: string, c: char)
    ensures c !in Without(s, c)
    ensures forall x :: x in Without(s, c) ==> x in s
    decreases |s|
  {
    if s != [] {
      WithoutEliminates(s[1..], c);
    }
  }

  /** Every character of a join comes from a part or from the separator. */
  lemma {:induction false} JoinChars(parts: seq<string>, sep: string, x: char)
    requires x in Join(parts, sep)
    ensures x in sep || exists i :: 0 <= i < |parts| && x in parts[i]
    decreases |parts|
  {
    if |parts| > 1 {
      if x !in parts[0] && x !in sep {
        JoinChars(parts[1..], sep, x);
        var i :| 0 <= i < |parts[1..]| && x in parts[1..][i];
        assert x in parts[i + 1];
      }
    }
  }

  lemma {:induction false} SplitChars(s: string, sep: string, i: nat, x: char)
    requires sep != "" && i < |Split(s, sep)| && x in Split(s, sep)[i]
    ensures x in s
    decreases |s|
  {
    if |s| < |sep| {
    } else if s[..|sep|] == sep {
      SplitChars(s[|sep|..], sep, i - 1, x);
    } else {
      var rest := Split(s[1..], sep);
      if i == 0 {
        if x != s[0] {
          SplitChars(s[1..], sep, 0, x);
        }
      } else {
        SplitChars(s[1..], sep, i, x);
      }
    }
  }

  /** Removing a pattern never introduces a character. */
  lemma RemoveChars(s: string, pat: string, x: char)
    requires pat != "" && x in Remove(s, pat)
    ensures x in s
  {
    JoinChars(Split(s, pat), "", x);
    var i :| 0 <= i < |Split(s, pat)| && x in Split(s, pat)[i];
    SplitChars(s, pat, i, x);
  }

  /** Removing a character that does not occur changes nothing. */
  lemma {:induction false} WithoutAbsent(s: string, c: char)
    requires c !in s
    ensures Without(s, c) == s
    decreases |s|
  {
    if s != [] {
      WithoutAbsent(s[1..], c);
      assert s == [s[0]] + s[1..];
    }
  }

  /** A pattern whose first character is absent does not occur. */
  lemma NoLeadChar(s: string, pat: string)
    requires pat != "" && pat[0] !in s
    ensures !Contains(s, pat)
  {
    forall i: nat ensures !OccursAt(s, pat, i) {
      if i + |pat| <= |s| {
        assert s[i..i + |pat|][0] == s[i];
      }
    }
  }

  /** Removing a pattern that does not occur changes nothing. */
  lemma RemoveAbsent(s: string, pat: string)
    requires pat != "" && !Contains(s, pat)
    ensures Remove(s, pat) == s
  {
    SplitNoSep(s, pat);
  }

  /** No piece but the last ends with `c`. */
  predicate NoTrail(parts: seq<string>, c: char) {
    forall i :: 0 <= i < |parts| - 1 ==> parts[i] == [] || parts[i][|parts[i]| - 1] != c
  }

  /** An empty piece in front keeps no piece but the last ending with `c`. */
  lemma NoTrailEmptyFront(rest: seq<string>, c: char)
    requires NoTrail(rest, c)
    ensures NoTrail([""] + rest, c)
  {
    assert forall i :: 1 <= i < |rest| + 1 ==> ([""] + rest)[i] == rest[i - 1];
  }

  /** A character put in front of the first piece keeps no piece but the
      last ending with `c`, unless that piece was empty and followed by
      another and the character is `c`. */
  lemma NoTrailPrefixed(x: char, rest: seq<string>, c: char)
    requires |rest| >= 1 && NoTrail(rest, c)
    requires |rest| > 1 && rest[0] == [] ==> x != c
    ensures NoTrail([[x] + rest[0]] + rest[1..], c)
  {
    var parts := [[x] + rest[0]] + rest[1..];
    assert forall i :: 1 <= i < |parts| ==> parts[i] == rest[i];
  }

  /** Splitting at a doubled character: no piece but the last ends with that
      character, since the leftmost scan would have started the occurrence
      one character earlier. */
  lemma {:induction false} SplitDoubleNoTrail(s: string, c: char)
    ensures NoTrail(Split(s, [c, c]), c)
    decreases |s|
  {
    var sep := [c, c];
    if |s| >= 2 {
      SplitStep(s, sep);
      if s[..2] == sep {
        SplitDoubleNoTrail(s[2..], c);
        NoTrailEmptyFront(Split(s[2..], sep), c);
      } else {
        SplitDoubleNoTrail(s[1..], c);
        var rest := Split(s[1..], sep);
        if |rest| > 1 && rest[0] == [] {
          SplitHead(s[1..], sep);
          assert OccursAt(s[1..], sep, 0);
          assert s[..2] == [s[0], s[1]];
        }
        NoTrailPrefixed(s[0], rest, c);
      }
    }
  }

  /** Gluing pieces free of `[c, c]` gives a text free of it, when no piece
      but the last ends with `c`. */
  lemma {:induction false} JoinNoDouble(parts: seq<string>, c: char)
    requires forall i :: 0 <= i < |parts| ==> !Contains(parts[i], [c, c])
    requires NoTrail(parts, c)
    ensures !Contains(Join(parts, ""), [c, c])
    decreases |parts|
  {
    if parts == [] {
      assert !OccursAt("", [c, c], 0);
    } else if |parts| > 1 {
      JoinNoDouble(parts[1..], c);
      assert Join(parts, "") == parts[0] + Join(parts[1..], "");
      ContainsConcat2(parts[0], Join(parts[1..], ""), [c, c]);
    }
  }

  /** `s.replace(cc, '')` for a doubled character leaves no doubled
      character behind. */
  lemma RemoveNoDouble(s: string, c: char)
    ensures !Contains(Remove(s, [c, c]), [c, c])
  {
    var parts := Split(s, [c, c]);
    SplitPiecesFree(s, [c, c]);
    SplitDoubleNoTrail(s, c);
    JoinNoDouble(parts, c);
  }

  // ---------------------------------------------------------------------
  // Splitting a joined text: the inverse direction, for the two-character
  // separators of the journal format.

  /** A two-character pattern of distinct characters occurs in `a + b` only
      inside `a`, inside `b`, or across the seam. */
  lemma ContainsConcat2(a: string, b: string, pat: string)
    requires |pat| == 2 && !Contains(a, pat) && !Contains(b, pat)
    requires !(|a| > 0 && |b| > 0 && a[|a| - 1] == pat[0] && b[0] == pat[1])
    ensures !Contains(a + b, pat)
  {
    var s := a + b;
    forall i: nat ensures !OccursAt(s, pat, i) {
      if i + 2 <= |s| {
        if i + 2 <= |a| {
          assert s[i..i + 2] == a[i..i + 2];
          assert !OccursAt(a, pat, i);
        } else if i >= |a| {
          assert s[i..i + 2] == b[i - |a|..i - |a| + 2];
          assert !OccursAt(b, pat, i - |a|);
        } else {
          assert s[i..i + 2] == [a[|a| - 1], b[0]];
        }
      }
    }
  }

  /** Joining texts free of a two-character pattern with a separator free
      of it gives a text free of it, when the separator cannot complete the
      pattern at either seam. */
  lemma {:induction false} JoinFree2(parts: seq<string>, sep: string, pat: string)
    requires |pat| == 2 && sep != "" && !Contains(sep, pat)
    requires sep[0] != pat[1] && sep[|sep| - 1] != pat[0]
    requires forall i :: 0 <= i < |parts| ==> !Contains(parts[i], pat)
    ensures !Contains(Join(parts, sep), pat)
    decreases |parts|
  {
    if parts == [] {
      assert !OccursAt("", pat, 0);
    } else if |parts| > 1 {
      var rest := Join(parts[1..], sep);
      JoinFree2(parts[1..], sep, pat);
      ContainsConcat2(parts[0], sep, pat);
      assert (parts[0] + sep)[|parts[0] + sep| - 1] == sep[|sep| - 1];
      ContainsConcat2(parts[0] + sep, rest, pat);
    }
  }

  /** With the leftmost occurrence of `sep` in `a + sep + b` standing right
      after `a`, the split yields `a` and then the pieces of `b`. */
  lemma {:induction false} SplitOver(a: string, b: string, sep: string)
    requires sep != "" && !Contains(a + sep[..|sep| - 1], sep)
    ensures Split(a + sep + b, sep) == [a] + Split(b, sep)
    decreases |a|
  {
    var s := a + sep + b;
    var w := a + sep[..|sep| - 1];
    if a == [] {
      assert s[..|sep|] == sep && s[|sep|..] == b;
    } else {
      assert s[..|sep|] == w[..|sep|];
      assert !OccursAt(w, sep, 0);
      assert s[1..] == a[1..] + sep + b;
      var w' := a[1..] + sep[..|sep| - 1];
      forall i: nat ensures !OccursAt(w', sep, i) {
        if i + |sep| <= |w'| {
          assert w'[i..i + |sep|] == w[i + 1..i + 1 + |sep|];
          assert !OccursAt(w, sep, i + 1);
        }
      }
      SplitOver(a[1..], b, sep);
      assert a == [a[0]] + a[1..];
    }
  }

  /** Splitting a join of separator-free parts gives back the parts, when the
      separator is two distinct characters. */
  lemma {:induction false} SplitJoinInverse(parts: seq<string>, sep: string)
    requires |parts| > 0 && |sep| == 2 && sep[0] != sep[1]
    requires forall i :: 0 <= i < |parts| ==> !Contains(parts[i], sep)
    ensures Split(Join(parts, sep), sep) == parts
    decreases |parts|
  {
    if |parts| == 1 {
      SplitNoSep(parts[0], sep);
    } else {
      assert !Contains(parts[0], sep);
      ContainsConcat2(parts[0], sep[..1], sep);
      assert !Contains([sep[0]], sep) by {
        forall i: nat ensures !OccursAt([sep[0]], sep, i) { }
      }
      SplitOver(parts[0], Join(parts[1..], sep), sep);
      SplitJoinInverse(parts[1..], sep);
      assert parts == [parts[0]] + parts[1..];
    }
  }
}

/** The journal line decoder, `_parse_line_to_tick` up to the point where it
    hands a dictionary on (load_tick_data.py and transform_tick_data.py carry
    identical copies). A line is cleaned of `{`, `}` and `''`, cut into
    segments at each full-width comma followed by a space, and each segment
    that splits at `": "` into exactly two parts becomes one entry. */
module Codec {
  import opened Wrappers
  import opened Text
  import opened Values

  /** The full-width comma U+FF0C followed by an ASCII space. */
  const PairSeparator: string := "\U{FF0C} "

  /** Between a key and its value. */
  const KeySeparator: string := ": "

  /** The line after `.replace('{', '').replace('}', '').replace("''", '')`. */
  function Clean(line: string): string {
    Remove(Remove(Remove(line, "{"), "}"), "''")
  }

  function Segments(line: string): seq<string> {
    Split(Clean(line), PairSeparator)
  }

  /** The entry a segment contributes: its two parts, when `split(': ')`
      yields exactly two. */
  function Entry(segment: string): Option<(string, string)> {
    var parts := Split(segment, KeySeparator);
    if |parts| == 2 then Some((parts[0], parts[1])) else None
  }

  /** The dictionary built by storing each segment's entry in turn. */
  function DictOf(segments: seq<string>): Dict
    decreases |segments|
  {
    if segments == [] then map[]
    else
      var d := DictOf(segments[..|segments| - 1]);
      match Entry(segments[|segments| - 1])
      case Some((k, v)) => d[k := v]
      case None => d
  }

  /** The decoder as a whole; it is total, so decoding never fails. */
  function ParseLine(line: string): Dict {
    DictOf(Segments(line))
  }

  /** The loop of load_tick_data.py:72-77 (transform_tick_data.py:116-120). */
  method ParseLineToDict(line: string) returns (tickDict: Dict)
    ensures tickDict == ParseLine(line)
  {
    var cleanStr := Clean(line);
    var keyValueList := Split(cleanStr, PairSeparator);
    tickDict := map[];
    var i := 0;
    while i < |keyValueList|
      invariant 0 <= i <= |keyValueList|
      invariant tickDict == DictOf(keyValueList[..i])
    {
      var kv := keyValueList[i];
      var pairs := Split(kv, KeySeparator);
      if |pairs| == 2 {
        tickDict := tickDict[pairs[0] := pairs[1]];
      }
      assert keyValueList[..i + 1][..i] == keyValueList[..i];
      i := i + 1;
    }
    assert keyValueList[..i] == keyValueList;
  }

  // ---------------------------------------------------------------------
  // What the decoder keeps.

  /** After cleaning, no brace and no pair of adjacent quotes is left
      anywhere in the line. */
  lemma CleanRemovesMarks(line: string)
    ensures '{' !in Clean(line) && '}' !in Clean(line)
    ensures !Contains(Clean(line), "''")
  {
    var a := Remove(line, "{");
    var b := Remove(a, "}");
    RemoveChar(line, '{');
    WithoutEliminates(line, '{');
    RemoveChar(a, '}');
    WithoutEliminates(a, '}');
    assert '{' !in b;
    forall x | x in Clean(line) ensures x in b {
      RemoveChars(b, "''", x);
    }
    assert "''" == ['\'', '\''];
    RemoveNoDouble(b, '\'');
  }

  lemma KeySeparatorNoOverlap()
    ensures NoSelfOverlap(KeySeparator)
  {
    assert KeySeparator[1..] == " " && KeySeparator[..1] == ":";
  }

  /** A segment yields an entry exactly when `": "` occurs in it once. */
  lemma EntryIffSingleSeparator(segment: string)
    ensures Entry(segment).Some? <==> Count(segment, KeySeparator) == 1
  {
    KeySeparatorNoOverlap();
    SplitCount(segment, KeySeparator);
  }

  /** An entry is the text before and after the one `": "` of its segment. */
  lemma EntryParts(segment: string)
    requires Entry(segment).Some?
    ensures var (k, v) := Entry(segment).value;
      && segment == k + KeySeparator + v
      && !Contains(k, KeySeparator) && !Contains(v, KeySeparator)
  {
    var parts := Split(segment, KeySeparator);
    SplitJoin(segment, KeySeparator);
    SplitPiecesFree(segment, KeySeparator);
    assert parts[1..] == [parts[1]];
  }

  /** The segment `k` defines an entry for key `k`. */
  predicate Defines(segment: string, k: string) {
    Entry(segment).Some? && Entry(segment).value.0 == k
  }

  /** A key is in the dictionary iff some segment defines it, and its value
      is the one of the last segment that does. */
  lemma {:induction false} DictOfLastWins(segments: seq<string>, k: string)
    ensures k in DictOf(segments) <==> exists i :: 0 <= i < |segments| && Defines(segments[i], k)
    ensures k in DictOf(segments) ==>
      exists i :: 0 <= i < |segments| && Entry(segments[i]) == Some((k, DictOf(segments)[k]))
        && forall j :: i < j < |segments| ==> !Defines(segments[j], k)
    decreases |segments|
  {
    if segments != [] {
      var n := |segments|;
      var pre := segments[..n - 1];
      DictOfLastWins(pre, k);
      assert forall i :: 0 <= i < n - 1 ==> pre[i] == segments[i];
      if Defines(segments[n - 1], k) {
        var i := n - 1;
        assert Entry(segments[i]) == Some((k, DictOf(segments)[k]));
      } else if k in DictOf(segments) {
        assert k in DictOf(pre) && DictOf(segments)[k] == DictOf(pre)[k];
        var i :| 0 <= i < n - 1 && Entry(pre[i]) == Some((k, DictOf(pre)[k]))
          && forall j :: i < j < n - 1 ==> !Defines(pre[j], k);
        assert Entry(segments[i]) == Some((k, DictOf(segments)[k]));
        assert forall j :: i < j < n ==> !Defines(segments[j], k);
      }
    }
  }

  // ---------------------------------------------------------------------
  // The line format the decoder inverts: `{k1: v1， k2: v2， ...}`.

  function Segment(key: string, value: string): string {
    key + KeySeparator + value
  }

  /** The segments of a list of entries, in order. */
  function Segs(pairs: seq<(string, string)>): (segs: seq<string>)
    ensures |segs| == |pairs|
    ensures forall i :: 0 <= i < |pairs| ==> segs[i] == Segment(pairs[i].0, pairs[i].1)
  {
    seq(|pairs|, i requires 0 <= i < |pairs| => Segment(pairs[i].0, pairs[i].1))
  }

  /** A line in the journal format, for a list of entries in order. */
  function EncodeLine(pairs: seq<(string, string)>): string {
    "{" + Join(Segs(pairs), PairSeparator) + "}"
  }

  /** The dictionary of a list of entries, later ones overwriting earlier. */
  function Collect(pairs: seq<(string, string)>): Dict
    decreases |pairs|
  {
    if pairs == [] then map[]
    else Collect(pairs[..|pairs| - 1])[pairs[|pairs| - 1].0 := pairs[|pairs| - 1].1]
  }

  /** Every key of a collected dictionary is the key of some entry. */
  lemma {:induction false} CollectKeys(pairs: seq<(string, string)>, k: string)
    requires k in Collect(pairs)
    ensures exists i :: 0 <= i < |pairs| && pairs[i].0 == k
    decreases |pairs|
  {
    var n := |pairs|;
    if pairs[n - 1].0 != k {
      CollectKeys(pairs[..n - 1], k);
      var i :| 0 <= i < n - 1 && pairs[..n - 1][i].0 == k;
      assert pairs[i].0 == k;
    }
  }

  /** Text the format can carry: no brace, no two adjacent quotes, and
      neither separator. A single quote is allowed, so `'UpdateTime'` is
      plain text. */
  predicate Plain(s: string) {
    '{' !in s && '}' !in s && !Contains(s, "''")
    && !Contains(s, KeySeparator) && !Contains(s, PairSeparator)
  }

  lemma EntryOfSegment(key: string, value: string)
    requires !Contains(key, KeySeparator) && !Contains(value, KeySeparator)
    ensures Entry(Segment(key, value)) == Some((key, value))
  {
    ContainsConcat2(key, KeySeparator[..1], KeySeparator);
    assert !Contains(KeySeparator[..1], KeySeparator) by {
      forall i: nat ensures !OccursAt(KeySeparator[..1], KeySeparator, i) { }
    }
    SplitOver(key, value, KeySeparator);
    SplitNoSep(value, KeySeparator);
  }

  lemma SegmentPlain(key: string, value: string)
    requires Plain(key) && Plain(value)
    ensures var s := Segment(key, value);
      '{' !in s && '}' !in s && !Contains(s, "''") && !Contains(s, PairSeparator)
  {
    assert !Contains(KeySeparator, "''") by {
      forall i: nat ensures !OccursAt(KeySeparator, "''", i) {
        if i + 2 <= 2 {
          assert KeySeparator[i..i + 2] == ": ";
        }
      }
    }
    ContainsConcat2(key, KeySeparator, "''");
    assert (key + KeySeparator)[|key + KeySeparator| - 1] == ' ';
    ContainsConcat2(key + KeySeparator, value, "''");
    assert !Contains(KeySeparator, PairSeparator) by {
      forall i: nat ensures !OccursAt(KeySeparator, PairSeparator, i) {
        if i + 2 <= 2 {
          assert KeySeparator[i..i + 2] == ": ";
        }
      }
    }
    ContainsConcat2(key, KeySeparator, PairSeparator);
    ContainsConcat2(key + KeySeparator, value, PairSeparator);
  }

  lemma {:induction false} DictOfPointwise(segments: seq<string>, pairs: seq<(string, string)>)
    requires |segments| == |pairs|
    requires forall i :: 0 <= i < |pairs| ==> Entry(segments[i]) == Some(pairs[i])
    ensures DictOf(segments) == Collect(pairs)
    decreases |pairs|
  {
    if pairs != [] {
      var n := |pairs|;
      DictOfPointwise(segments[..n - 1], pairs[..n - 1]);
    }
  }

  lemma {:induction false} WithoutConcat(a: string, b: string, c: char)
    ensures Without(a + b, c) == Without(a, c) + Without(b, c)
    decreases |a|
  {
    if a == [] {
      assert a + b == b;
    } else {
      assert (a + b)[0] == a[0] && (a + b)[1..] == a[1..] + b;
      WithoutConcat(a[1..], b, c);
    }
  }

  /** Cleaning a braced body that holds no brace or quote leaves the body. */
  lemma CleanBraced(body: string)
    requires '{' !in body && '}' !in body && !Contains(body, "''")
    ensures Clean("{" + body + "}") == body
  {
    var line := "{" + body + "}";
    assert line == "{" + (body + "}");
    RemoveChar(line, '{');
    WithoutConcat("{", body + "}", '{');
    WithoutConcat(body, "}", '{');
    WithoutAbsent(body, '{');
    assert Remove(line, "{") == body + "}";
    RemoveChar(body + "}", '}');
    WithoutConcat(body, "}", '}');
    WithoutAbsent(body, '}');
    assert Remove(body + "}", "}") == body;
    RemoveAbsent(body, "''");
  }

  lemma SegsPlain(pairs: seq<(string, string)>)
    requires forall i :: 0 <= i < |pairs| ==> Plain(pairs[i].0) && Plain(pairs[i].1)
    ensures forall i :: 0 <= i < |pairs| ==>
      !Contains(Segs(pairs)[i], PairSeparator) && Entry(Segs(pairs)[i]) == Some(pairs[i])
    ensures var body := Join(Segs(pairs), PairSeparator);
      '{' !in body && '}' !in body && !Contains(body, "''")
  {
    var segs := Segs(pairs);
    forall i | 0 <= i < |pairs| ensures '{' !in segs[i] && '}' !in segs[i] && !Contains(segs[i], "''")
      && !Contains(segs[i], PairSeparator) && Entry(segs[i]) == Some(pairs[i])
    {
      SegmentPlain(pairs[i].0, pairs[i].1);
      EntryOfSegment(pairs[i].0, pairs[i].1);
    }
    var body := Join(segs, PairSeparator);
    forall x | x in body ensures x != '{' && x != '}' {
      JoinChars(segs, PairSeparator, x);
    }
    assert !Contains(PairSeparator, "''") by {
      forall i: nat ensures !OccursAt(PairSeparator, "''", i) {
        if i + 2 <= 2 {
          assert PairSeparator[i..i + 2] == PairSeparator;
        }
      }
    }
    JoinFree2(segs, PairSeparator, "''");
  }

  /** Decoding a line of the journal format gives back its entries, the last
      one winning for a repeated key. */
  lemma DecodeEncode(pairs: seq<(string, string)>)
    requires forall i :: 0 <= i < |pairs| ==> Plain(pairs[i].0) && Plain(pairs[i].1)
    ensures ParseLine(EncodeLine(pairs)) == Collect(pairs)
  {
    var segs := Segs(pairs);
    var body := Join(segs, PairSeparator);
    var line := EncodeLine(pairs);
    SegsPlain(pairs);
    CleanBraced(body);
    assert Segments(line) == Split(body, PairSeparator);
    if pairs == [] {
      assert body == "";
      assert Split("", PairSeparator) == [""];
      assert Entry("") == None by {
        assert Split("", KeySeparator) == [""];
      }
      assert DictOf([""]) == map[] by {
        assert [""][..0] == [];
      }
    } else {
      SplitJoinInverse(segs, PairSeparator);
      DictOfPointwise(segs, pairs);
    }
  }

  /** A line whose keys are quoted, as Python's `str(dict)` writes them,
      decodes with the quotes kept on every key: no key is `UpdateTime`. */
  lemma QuotedKeysKept(pairs: seq<(string, string)>)
    requires forall i :: 0 <= i < |pairs| ==> Plain(pairs[i].0) && Plain(pairs[i].1)
    requires forall i :: 0 <= i < |pairs| ==> pairs[i].0 != "" && pairs[i].0[0] == '\''
    ensures forall k :: k in ParseLine(EncodeLine(pairs)) ==> k != "" && k[0] == '\''
    ensures "UpdateTime" !in ParseLine(EncodeLine(pairs))
  {
    DecodeEncode(pairs);
    forall k | k in Collect(pairs) ensures k != "" && k[0] == '\'' {
      CollectKeys(pairs, k);
    }
  }
}

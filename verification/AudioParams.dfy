/** The key=value parser of audio parameters and its printer. */
module AudioParams {
  import opened Collections

  type Params = map<string, string>

  /** The pieces between the delimiters, empty ones included; there is always at least one. */
  function Split(s: string, c: char): (pieces: seq<string>)
    ensures |pieces| > 0
  {
    if s == "" then [""]
    else
      var rest := Split(s[1..], c);
      if s[0] == c then [""] + rest else [[s[0]] + rest[0]] + rest[1..]
  }

  /** What one segment stands for: an empty one, or one without a key, for nothing. */
  function Entry(segment: string): Option<(string, string)> {
    var kv := Split(segment, '=');
    if segment == "" || kv[0] == "" then None else Some((kv[0], if |kv| > 1 then kv[1] else ""))
  }

  /** Later segments override earlier ones. */
  function ParseSegments(segments: seq<string>): Params {
    if segments == [] then map[] else
      var before := ParseSegments(segments[..|segments| - 1]);
      match Entry(segments[|segments| - 1])
      case None => before
      case Some(kv) => before[kv.0 := kv.1]
  }

  function Parse(s: string): Params {
    ParseSegments(Split(s, ';'))
  }

  method ParseAudioParams(params: string) returns (paramsMap: Params)
    ensures paramsMap == Parse(params)
  {
    var segments := Split(params, ';');
    paramsMap := map[];
    for i := 0 to |segments|
      invariant paramsMap == ParseSegments(segments[..i])
    {
      assert segments[..i + 1][..i] == segments[..i];
      if |segments[i]| == 0 {
        continue;
      }
      var kv := Split(segments[i], '=');
      if |kv[0]| == 0 {
        continue;
      }
      paramsMap := paramsMap[kv[0] := if |kv| > 1 then kv[1] else ""];
    }
    assert segments[..|segments|] == segments;
  }

  function Segment(k: string, v: string): string {
    k + "=" + v
  }

  /** The text of the entries in a given order of the keys. */
  function Print(order: seq<string>, m: Params): string
    requires forall i :: 0 <= i < |order| ==> order[i] in m
  {
    if order == [] then "" else Segment(order[0], m[order[0]]) + ";" + Print(order[1..], m)
  }

  lemma {:induction false} PrintSnoc(order: seq<string>, k: string, m: Params)
    requires k in m && forall i :: 0 <= i < |order| ==> order[i] in m
    ensures Print(order + [k], m) == Print(order, m) + (Segment(k, m[k]) + ";")
  {
    if order == [] {
      assert Print([k], m) == Segment(k, m[k]) + ";" + Print([], m);
    } else {
      assert (order + [k])[1..] == order[1..] + [k];
      PrintSnoc(order[1..], k, m);
    }
  }

  /** The result-building loop of out_get_parameters: it visits the map in an order of its own. The
      parser undoes it. */
  method PrintParams(m: Params) returns (result: string)
    ensures exists order :: Enumerates(order, m.Keys) && result == Print(order, m)
    ensures Clean(m) ==> Parse(result) == m
  {
    result := "";
    ghost var order: seq<string> := [];
    var left: set<string> := m.Keys;
    while left != {}
      invariant left <= m.Keys && Enumerates(order, m.Keys - left)
      invariant result == Print(order, m)
      decreases left
    {
      ghost var _ := Inhabited(left);
      var k :| k in left;
      PrintSnoc(order, k, m);
      result := result + (k + "=" + m[k] + ";");
      order := order + [k];
      left := left - {k};
    }
    assert m.Keys - left == m.Keys;
    if Clean(m) {
      ParsePrint(m, order);
    }
  }

  // ------------------------------------------------------------------------
  // Splitting
  // ------------------------------------------------------------------------

  lemma {:induction false} SplitWhole(s: string, c: char)
    requires c !in s
    ensures Split(s, c) == [s]
  {
    if s != "" {
      SplitWhole(s[1..], c);
      assert [s[0]] + s[1..] == s;
    }
  }

  /** A piece, a delimiter, and the rest. */
  lemma {:induction false} SplitFirst(piece: string, c: char, rest: string)
    requires c !in piece
    ensures Split(piece + [c] + rest, c) == [piece] + Split(rest, c)
  {
    var s := piece + [c] + rest;
    if piece == "" {
      assert s[1..] == rest;
    } else {
      SplitFirst(piece[1..], c, rest);
      assert s[1..] == piece[1..] + [c] + rest;
      assert [piece[0]] + piece[1..] == piece;
    }
  }

  /** Text, a delimiter, and a last piece. */
  lemma {:induction false} SplitLast(s: string, c: char, piece: string)
    requires c !in piece
    ensures Split(s + [c] + piece, c) == Split(s, c) + [piece]
  {
    var whole := s + [c] + piece;
    if s == "" {
      assert whole[1..] == piece;
      SplitWhole(piece, c);
    } else {
      SplitLast(s[1..], c, piece);
      assert whole[1..] == s[1..] + [c] + piece;
    }
  }

  /** Pieces are made of the text's characters, without the delimiter. */
  lemma {:induction false} PieceChars(s: string, c: char, i: nat, ch: char)
    requires i < |Split(s, c)| && ch in Split(s, c)[i]
    ensures ch in s && ch != c
  {
    if s != "" {
      var rest := Split(s[1..], c);
      if s[0] == c {
        assert i > 0;
        PieceChars(s[1..], c, i - 1, ch);
      } else if i > 0 || ch != s[0] {
        assert ch in rest[i];
        PieceChars(s[1..], c, i, ch);
      }
    }
  }

  // ------------------------------------------------------------------------
  // Round trips
  // ------------------------------------------------------------------------

  /** A map that can be printed: keys are not empty, and neither delimiter occurs. */
  ghost predicate Clean(m: Params) {
    forall k :: k in m ==> CleanEntry(k, m[k])
  }

  predicate CleanEntry(k: string, v: string) {
    k != "" && ';' !in k && '=' !in k && ';' !in v && '=' !in v
  }

  lemma {:induction false} EntryOfSegment(k: string, v: string)
    requires CleanEntry(k, v)
    ensures Entry(Segment(k, v)) == Some((k, v)) && ';' !in Segment(k, v)
  {
    assert Segment(k, v) == k + ['='] + v;
    SplitFirst(k, '=', v);
    SplitWhole(v, '=');
  }

  function Segments(order: seq<string>, m: Params): (r: seq<string>)
    requires forall i :: 0 <= i < |order| ==> order[i] in m
    ensures |r| == |order|
  {
    if order == [] then [] else [Segment(order[0], m[order[0]])] + Segments(order[1..], m)
  }

  /** Splitting what was printed gives the segments back, and an empty one behind the last delimiter. */
  lemma {:induction false} SplitPrint(order: seq<string>, m: Params)
    requires Clean(m) && forall i :: 0 <= i < |order| ==> order[i] in m
    ensures Split(Print(order, m), ';') == Segments(order, m) + [""]
  {
    if order != [] {
      var k := order[0];
      EntryOfSegment(k, m[k]);
      SplitFirst(Segment(k, m[k]), ';', Print(order[1..], m));
      SplitPrint(order[1..], m);
    }
  }

  lemma {:induction false} SegmentsSnoc(order: seq<string>, m: Params)
    requires order != [] && forall i :: 0 <= i < |order| ==> order[i] in m
    ensures var n := |order| - 1;
      Segments(order, m) == Segments(order[..n], m) + [Segment(order[n], m[order[n]])]
  {
    var n := |order| - 1;
    if n > 0 {
      SegmentsSnoc(order[1..], m);
      assert order[1..][..n - 1] == order[..n][1..];
    }
  }

  /** Parsing distinct segments gives their entries. */
  lemma {:induction false} ParseOwnSegments(order: seq<string>, m: Params)
    requires Clean(m) && forall i :: 0 <= i < |order| ==> order[i] in m
    ensures var p := ParseSegments(Segments(order, m));
      && (forall k :: k in p <==> k in order)
      && (forall k :: k in p ==> k in m && p[k] == m[k])
  {
    if order != [] {
      var n := |order| - 1;
      SegmentsSnoc(order, m);
      ParseOwnSegments(order[..n], m);
      EntryOfSegment(order[n], m[order[n]]);
      assert Segments(order, m)[..n] == Segments(order[..n], m);
      assert order == order[..n] + [order[n]];
    }
  }

  /** Parsing what was printed, in whatever order, gives the map back. */
  lemma {:induction false} ParsePrint(m: Params, order: seq<string>)
    requires Clean(m) && Enumerates(order, m.Keys)
    ensures Parse(Print(order, m)) == m
  {
    SplitPrint(order, m);
    ParseIgnoresEmpty(Segments(order, m));
    ParseOwnSegments(order, m);
    SameMap(ParseSegments(Segments(order, m)), m, order);
  }

  lemma {:induction false} ParseIgnoresEmpty(segments: seq<string>)
    ensures ParseSegments(segments + [""]) == ParseSegments(segments)
  {
    assert (segments + [""])[..|segments|] == segments;
  }

  lemma {:induction false} SameMap(p: Params, m: Params, order: seq<string>)
    requires Enumerates(order, m.Keys)
    requires (forall k :: k in p <==> k in order) && (forall k :: k in p ==> k in m && p[k] == m[k])
    ensures p == m
  {
    assert forall k :: k in p <==> k in m;
  }

  /** Whatever is parsed can be printed. */
  lemma {:induction false} ParsedClean(segments: seq<string>)
    requires forall i :: 0 <= i < |segments| ==> ';' !in segments[i]
    ensures Clean(ParseSegments(segments))
  {
    if segments != [] {
      var last := segments[|segments| - 1];
      ParsedClean(segments[..|segments| - 1]);
      EntryClean(last);
    }
  }

  lemma {:induction false} EntryClean(segment: string)
    requires ';' !in segment
    ensures Entry(segment).Some? ==> CleanEntry(Entry(segment).value.0, Entry(segment).value.1)
  {
    var kv := Split(segment, '=');
    forall i: nat, ch | i < |kv| && ch in kv[i]
      ensures ch != ';' && ch != '='
    {
      PieceChars(segment, '=', i, ch);
    }
  }

  /** parse, print and parse again: for every text and every printing order. */
  lemma {:induction false} ParsePrintParse(s: string, order: seq<string>)
    requires Enumerates(order, Parse(s).Keys)
    ensures Parse(Print(order, Parse(s))) == Parse(s)
  {
    var segments := Split(s, ';');
    forall i | 0 <= i < |segments|
      ensures ';' !in segments[i]
    {
      if ';' in segments[i] {
        PieceChars(s, ';', i, ';');
        assert false;
      }
    }
    ParsedClean(segments);
    ParsePrint(Parse(s), order);
  }

  /** A segment appended to any text overrides what the text said of its key, and nothing else. */
  lemma {:induction false} LaterWins(s: string, k: string, v: string)
    requires CleanEntry(k, v)
    ensures Parse(s + ";" + Segment(k, v)) == Parse(s)[k := v]
  {
    EntryOfSegment(k, v);
    SplitLast(s, ';', Segment(k, v));
    var segments := Split(s, ';');
    assert (segments + [Segment(k, v)])[..|segments|] == segments;
  }

  /** A key without '=' maps to the empty value, a second '=' cuts the value, an empty key is dropped. */
  lemma {:induction false} EntryShapes(k: string, v: string, rest: string)
    requires CleanEntry(k, v)
    ensures Entry(k) == Some((k, ""))
    ensures Entry(k + "=" + v + "=" + rest) == Some((k, v))
    ensures Entry("=" + v) == None
  {
    SplitWhole(k, '=');
    assert k + "=" + v + "=" + rest == k + ['='] + (v + ['='] + rest);
    SplitFirst(k, '=', v + ['='] + rest);
    SplitFirst(v, '=', rest);
    assert "=" + v == "" + ['='] + v;
    SplitFirst("", '=', v);
  }
}

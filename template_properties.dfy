/** What the item template promises: the default template renders the
    `matchWith` field, each piece is searched from where the previous piece's
    match ended (the global regex's lastIndex), and resolved segments are
    concatenated left to right. */
module TemplateProperties {
  import opened JsText
  import opened Template

  /** The regex's lastIndex when piece `i` is searched. */
  function LastIndexAt(pieces: seq<string>, lastIndex: nat, i: nat): nat
    requires i <= |pieces|
  {
    if i == 0 then lastIndex else LastIndexAt(pieces[1..], ClassifyPiece(pieces[0], lastIndex).1, i - 1)
  }

  lemma {:induction false} ClassifyAt(pieces: seq<string>, lastIndex: nat, i: nat)
    requires i < |pieces|
    ensures Classify(pieces, lastIndex)[i] == ClassifyPiece(pieces[i], LastIndexAt(pieces, lastIndex, i)).0
  {
    if i > 0 {
      ClassifyAt(pieces[1..], ClassifyPiece(pieces[0], lastIndex).1, i - 1);
    }
  }

  lemma {:induction false} LastIndexAfter(pieces: seq<string>, lastIndex: nat, i: nat)
    requires 0 < i < |pieces|
    ensures LastIndexAt(pieces, lastIndex, i) == Classify(pieces, lastIndex)[i - 1].Resume()
  {
    if i > 1 {
      LastIndexAfter(pieces[1..], ClassifyPiece(pieces[0], lastIndex).1, i - 1);
    }
  }

  /** Where the regex starts searching piece `i`: at 0 for the first piece and
      after a literal, at the end of the previous match after a placeholder. */
  function SearchFrom(segs: seq<Segment>, i: nat): nat
    requires i < |segs|
  {
    if i == 0 then 0 else segs[i - 1].Resume()
  }

  /** Piece `i` of the template becomes a placeholder exactly when the pattern
      matches it at or after SearchFrom, and then at the leftmost such
      position; otherwise it stays a literal. */
  lemma SegmentClassification(template: string, i: nat)
    requires i < |Split(template)|
    ensures |Parse(template)| == |Split(template)|
    ensures Classified(Split(template)[i], SearchFrom(Parse(template), i), Parse(template)[i])
  {
    var pieces := Split(template);
    var from := LastIndexAt(pieces, 0, i);
    ClassifyAt(pieces, 0, i);
    ClassifyPieceSpec(pieces[i], from);
    if i > 0 {
      LastIndexAfter(pieces, 0, i);
    }
    assert SearchFrom(Parse(template), i) == from;
  }

  lemma DefaultTemplateParses(m: string)
    requires '+' !in m && '%' !in m && '>' !in m
    ensures Parse(DefaultTemplate(m)) == [Placeholder(DefaultTemplate(m), 0, |m| + 6, Trim(m))]
  {
    var d := DefaultTemplate(m);
    assert '+' !in d;
    SplitNoPlus(d);
    assert forall t :: 3 <= t < |m| + 3 ==> d[t] == m[t - 3];
    assert IsMatch(d, 0, |m| + 6);
    MatchEndAtSpec(d, 0);
    assert Exec(d, 0) == Some(Match(0, |m| + 6));
    assert d[2..|m| + 4] == " " + m + " ";
    TrimPadded(m);
    assert ClassifyPiece(d, 0).0 == Placeholder(d, 0, |m| + 6, Trim(m));
  }

  /** The default template `<% matchWith %>` is a single placeholder, renders
      the `matchWith` field (trimmed, as `match[1].trim()` does) and compiles
      whenever that name can be quoted. */
  lemma DefaultTemplateRendersField(m: string, c: Candidate)
    requires '+' !in m && '%' !in m && '>' !in m
    ensures Parse(DefaultTemplate(m)) == [Placeholder(DefaultTemplate(m), 0, |m| + 6, Trim(m))]
    ensures ItemText(DefaultTemplate(m), c) == ToText(Field(c, Trim(m)))
    ensures TemplateCompiles(DefaultTemplate(m)) <==> forall k :: 0 <= k < |Trim(m)| ==> !BreaksName(Trim(m)[k])
  {
    DefaultTemplateParses(m);
  }

  /** A template with one '+' is parsed as two pieces, the second searched
      from where the first left the regex. */
  lemma ParseTwo(first: string, second: string)
    requires '+' !in first && '+' !in second
    ensures Parse(first + "+" + second) ==
      [ClassifyPiece(first, 0).0, ClassifyPiece(second, ClassifyPiece(first, 0).1).0]
  {
    SplitAtPlus(first, second);
    SplitNoPlus(second);
    var pieces := [first, second];
    assert Split(first + "+" + second) == pieces;
    assert pieces[1..] == [second];
    var next := ClassifyPiece(first, 0).1;
    assert Classify([second], next) == [ClassifyPiece(second, next).0] + Classify([], ClassifyPiece(second, next).1);
  }

  lemma ClassifyFirstOfCarryOver()
    ensures ClassifyPiece("<% ab %>", 0) == (Placeholder("<% ab %>", 0, 8, "ab"), 8)
  {
    var first := "<% ab %>";
    assert IsMatch(first, 0, 8);
    MatchEndAtSpec(first, 0);
    assert Exec(first, 0) == Some(Match(0, 8));
    assert first[2..6] == " ab ";
    TrimAround(" ", "ab", " ");
    assert " " + "ab" + " " == " ab ";
  }

  lemma ParseCarryOver()
    ensures Parse("<% ab %>+<% c %>") == [Placeholder("<% ab %>", 0, 8, "ab"), Literal("<% c %>")]
  {
    var first, second := "<% ab %>", "<% c %>";
    assert "<% ab %>+<% c %>" == first + "+" + second;
    ParseTwo(first, second);
    ClassifyFirstOfCarryOver();
    assert Exec(second, 8) == None;
  }

  /** The lastIndex of the global regex carries over: in `<% ab %>+<% c %>`
      the second piece is searched from 8, past its own end, so it is quoted
      as a literal although it holds a placeholder. */
  lemma LastIndexCarriesOver()
    ensures Parse("<% ab %>+<% c %>") == [Placeholder("<% ab %>", 0, 8, "ab"), Literal("<% c %>")]
    ensures IsMatch("<% c %>", 0, 7)
  {
    ParseCarryOver();
    SecondPieceMatches();
  }

  lemma SecondPieceMatches()
    ensures IsMatch("<% c %>", 0, 7)
  {
    var second := "<% c %>";
    assert second[2] == ' ' && second[3] == 'c' && second[4] == ' ';
  }

  /** In general: a piece that follows a placeholder whose match ended at or
      past the piece's own length is quoted as a literal, whatever it holds. */
  lemma ShortPieceAfterPlaceholderIsLiteral(template: string, i: nat)
    requires 0 < i < |Split(template)|
    requires Parse(template)[i - 1].Placeholder?
    requires |Split(template)[i]| <= Parse(template)[i - 1].end
    ensures Parse(template)[i] == Literal(Split(template)[i])
  {
    SegmentClassification(template, i);
  }

  /** A fresh regex would have found it: the first piece, or a piece after a
      literal, becomes a placeholder as soon as the pattern matches it anywhere. */
  lemma PieceAfterLiteralIsSearchedFromStart(template: string, i: nat, q: nat, e: nat)
    requires i < |Split(template)|
    requires i == 0 || Parse(template)[i - 1].Literal?
    requires IsMatch(Split(template)[i], q, e)
    ensures Parse(template)[i].Placeholder?
  {
    SegmentClassification(template, i);
  }

  /** The text of each operand of the generated expression, in template
      order: a literal piece verbatim, a field's value, or "undefined". */
  function Texts(segs: seq<Segment>, c: Candidate): (ts: seq<string>)
    ensures |ts| == |segs|
  {
    seq(|segs|, i requires 0 <= i < |segs| => ToText(Value(segs[i], c)))
  }

  /** The concatenation of a sequence of strings. */
  function Flatten(ss: seq<string>): string
  {
    if ss == [] then "" else ss[0] + Flatten(ss[1..])
  }

  lemma {:induction false} FlattenSnoc(ss: seq<string>)
    requires |ss| >= 1
    ensures Flatten(ss) == Flatten(ss[..|ss| - 1]) + ss[|ss| - 1]
  {
    var n := |ss|;
    if n == 1 {
      assert ss[1..] == [] && ss[..0] == [];
    } else {
      FlattenSnoc(ss[1..]);
      assert ss[1..][..n - 2] == ss[..n - 1][1..];
      assert ss[..n - 1][0] == ss[0];
    }
  }

  /** The segment is a literal or names a field the candidate has. */
  predicate Resolves(seg: Segment, c: Candidate)
  {
    seg.Placeholder? ==> seg.name in c
  }

  /** When every placeholder resolves, the left-to-right `+` chain yields the
      texts of the segments concatenated in template order. */
  lemma {:induction false} RenderConcatenates(segs: seq<Segment>, c: Candidate)
    requires |segs| >= 1
    requires forall i :: 0 <= i < |segs| ==> Resolves(segs[i], c)
    ensures Evaluate(segs, c) == JsString(Flatten(Texts(segs, c)))
  {
    var n := |segs|;
    var ts := Texts(segs, c);
    FlattenSnoc(ts);
    if n > 1 {
      RenderConcatenates(segs[..n - 1], c);
      assert Texts(segs[..n - 1], c) == ts[..n - 1];
    }
  }

  /** Two leading placeholders whose fields are missing add `undefined` to
      `undefined`, which is NaN: the item text then starts with "NaN" (and is
      "NaN" alone when no later operand is a string). */
  lemma {:induction false} MissingLeadingFieldsGiveNaN(segs: seq<Segment>, c: Candidate)
    requires |segs| >= 2
    requires segs[0].Placeholder? && segs[0].name !in c
    requires segs[1].Placeholder? && segs[1].name !in c
    ensures StartsWithNaN(Evaluate(segs, c))
  {
    var n := |segs|;
    if n == 2 {
      assert segs[..1] == [segs[0]];
    } else {
      var prefix := segs[..n - 1];
      assert prefix[0] == segs[0] && prefix[1] == segs[1];
      MissingLeadingFieldsGiveNaN(prefix, c);
      var v := Evaluate(prefix, c);
      if v.JsString? {
        assert (v.text + ToText(Value(segs[n - 1], c)))[..3] == v.text[..3];
      }
    }
  }

  /** NaN itself, or a string that begins with "NaN". */
  predicate StartsWithNaN(v: JsValue)
  {
    v == NaN || (v.JsString? && |v.text| >= 3 && v.text[..3] == "NaN")
  }
}

/** The item template mini-language of `_generateItem`: the template is split
    on '+', each piece is searched with the global regular expression
    `/<%([^%>]+)?%>/g` (whose lastIndex carries from one piece to the next),
    a piece without a match becomes a quoted literal, a piece with one becomes
    a reference `that.data[index]["name"]`, and the pieces are joined with
    `+` into one JavaScript expression. Here the expression is evaluated
    directly instead of being compiled with `new Function`. */
module Template {
  import opened JsText

  /** One candidate of a response: field name to field value. */
  type Candidate = map<string, string>

  // ---------------------------------------------------------------------
  // Splitting on '+'

  /** String.prototype.split('+'). */
  function Split(s: string): (pieces: seq<string>)
    ensures |pieces| >= 1
    ensures forall i :: 0 <= i < |pieces| ==> '+' !in pieces[i]
  {
    if s == [] then [""]
    else
      var rest := Split(s[1..]);
      if s[0] == '+' then [""] + rest else [[s[0]] + rest[0]] + rest[1..]
  }

  /** Array.prototype.join('+'). */
  function Join(pieces: seq<string>): string
    requires |pieces| >= 1
  {
    if |pieces| == 1 then pieces[0] else pieces[0] + "+" + Join(pieces[1..])
  }

  lemma {:induction false} JoinPrepend(x: string, pieces: seq<string>)
    requires |pieces| >= 1
    ensures Join([x + pieces[0]] + pieces[1..]) == x + Join(pieces)
  {
    var p := [x + pieces[0]] + pieces[1..];
    assert p[1..] == pieces[1..];
  }

  /** Joining the pieces with '+' gives back the template. */
  lemma {:induction false} JoinSplit(s: string)
    ensures Join(Split(s)) == s
  {
    if s != [] {
      var rest := Split(s[1..]);
      JoinSplit(s[1..]);
      if s[0] == '+' {
        assert ([""] + rest)[1..] == rest;
      } else {
        JoinPrepend([s[0]], rest);
        assert [s[0]] + s[1..] == s;
      }
    }
  }

  lemma {:induction false} SplitNoPlus(x: string)
    requires '+' !in x
    ensures Split(x) == [x]
  {
    if x != [] {
      SplitNoPlus(x[1..]);
      assert [x[0]] + x[1..] == x;
    }
  }

  lemma {:induction false} SplitAtPlus(x: string, t: string)
    requires '+' !in x
    ensures Split(x + "+" + t) == [x] + Split(t)
  {
    var s := x + "+" + t;
    if x == [] {
      assert s[1..] == t;
    } else {
      assert s[1..] == x[1..] + "+" + t;
      SplitAtPlus(x[1..], t);
      assert [x[0]] + x[1..] == x;
    }
  }

  /** Splitting pieces that hold no '+' after joining them gives them back. */
  lemma {:induction false} SplitJoin(pieces: seq<string>)
    requires |pieces| >= 1
    requires forall i :: 0 <= i < |pieces| ==> '+' !in pieces[i]
    ensures Split(Join(pieces)) == pieces
  {
    if |pieces| == 1 {
      SplitNoPlus(pieces[0]);
    } else {
      SplitJoin(pieces[1..]);
      SplitAtPlus(pieces[0], Join(pieces[1..]));
      assert [pieces[0]] + pieces[1..] == pieces;
    }
  }

  // ---------------------------------------------------------------------
  // The regular expression /<%([^%>]+)?%>/

  /** The character class `[^%>]`. */
  predicate InNameClass(c: char)
  {
    c != '%' && c != '>'
  }

  /** `s[p..e]` is a match of `<%([^%>]+)?%>`. */
  predicate IsMatch(s: string, p: nat, e: nat)
  {
    p + 4 <= e <= |s| && s[p] == '<' && s[p + 1] == '%' && s[e - 2] == '%' && s[e - 1] == '>' &&
    forall t :: p + 2 <= t < e - 2 ==> InNameClass(s[t])
  }

  /** The end of the longest run of `[^%>]` characters that starts at `j`. */
  function RunEnd(s: string, j: nat): (k: nat)
    requires j <= |s|
    ensures j <= k <= |s|
    decreases |s| - j
  {
    if j == |s| || !InNameClass(s[j]) then j else RunEnd(s, j + 1)
  }

  lemma {:induction false} RunEndSpec(s: string, j: nat)
    requires j <= |s|
    ensures forall t :: j <= t < RunEnd(s, j) ==> InNameClass(s[t])
    ensures RunEnd(s, j) == |s| || !InNameClass(s[RunEnd(s, j)])
    decreases |s| - j
  {
    if j < |s| && InNameClass(s[j]) {
      RunEndSpec(s, j + 1);
    }
  }

  /** Where the match of the pattern that starts at `p` ends, if one does. */
  function MatchEndAt(s: string, p: nat): Option<nat>
  {
    if p + 2 <= |s| && s[p] == '<' && s[p + 1] == '%' then
      var k := RunEnd(s, p + 2);
      if k + 2 <= |s| && s[k] == '%' && s[k + 1] == '>' then Some(k + 2) else None
    else None
  }

  /** MatchEndAt finds the match at `p` exactly when there is one, and the
      match is unique: a shorter group is followed by a `[^%>]` character,
      which is not the '%' the pattern needs next. */
  lemma MatchEndAtSpec(s: string, p: nat)
    ensures MatchEndAt(s, p).Some? ==> IsMatch(s, p, MatchEndAt(s, p).value)
    ensures forall e: nat :: IsMatch(s, p, e) ==> MatchEndAt(s, p) == Some(e)
  {
    if p + 2 <= |s| {
      RunEndSpec(s, p + 2);
    }
  }

  datatype Match = Match(start: nat, end: nat)

  /** RegExp.prototype.exec with lastIndex `from`. */
  function Exec(s: string, from: nat): (r: Option<Match>)
    ensures r.Some? ==> from <= r.value.start && r.value.start + 4 <= r.value.end <= |s|
    decreases |s| - from
  {
    if from >= |s| then None
    else
      match MatchEndAt(s, from)
      case Some(e) => MatchEndAtSpec(s, from); Some(Match(from, e))
      case None => Exec(s, from + 1)
  }

  /** Exec finds the leftmost match that starts at or after `from`, and
      nothing when there is none. */
  lemma {:induction false} ExecSpec(s: string, from: nat)
    ensures Exec(s, from).Some? ==> IsMatch(s, Exec(s, from).value.start, Exec(s, from).value.end)
    ensures Exec(s, from).Some? ==> forall q, e :: from <= q < Exec(s, from).value.start ==> !IsMatch(s, q, e)
    ensures Exec(s, from).None? <==> forall q, e :: from <= q ==> !IsMatch(s, q, e)
    decreases |s| - from
  {
    if from < |s| {
      MatchEndAtSpec(s, from);
      if MatchEndAt(s, from).None? {
        ExecSpec(s, from + 1);
      }
    }
  }

  // ---------------------------------------------------------------------
  // Classifying the pieces

  /** A piece of the template: quoted as a literal, or rewritten into the
      field reference `that.data[index]["name"]` because the regular
      expression matched `piece[start..end]`; `name` is `match[1].trim()`. */
  datatype Segment =
    | Literal(piece: string)
    | Placeholder(piece: string, start: nat, end: nat, name: string)
  {
    /** The regex's lastIndex after this piece: the end of the match, or 0. */
    function Resume(): nat
    {
      if Literal? then 0 else end
    }
  }

  /** One turn of `_generateItem`'s loop: `reg.exec(piece)` from the regex's
      lastIndex decides the segment; a match moves lastIndex to its end, a
      failure resets it to 0. */
  function ClassifyPiece(piece: string, lastIndex: nat): (r: (Segment, nat))
    ensures r.0.piece == piece && r.1 == r.0.Resume()
  {
    match Exec(piece, lastIndex)
    case None => (Literal(piece), 0)
    case Some(m) => (Placeholder(piece, m.start, m.end, Trim(piece[m.start + 2..m.end - 2])), m.end)
  }

  /** `seg` is what `piece` becomes when the regex searches it from `from`:
      a literal exactly when the pattern does not match at or after `from`;
      otherwise a rewrite around the leftmost such match, whose trimmed group
      names the field. */
  ghost predicate Classified(piece: string, from: nat, seg: Segment)
  {
    seg.piece == piece &&
    (seg.Literal? <==> forall q, e :: from <= q ==> !IsMatch(piece, q, e)) &&
    (seg.Placeholder? ==>
      from <= seg.start && IsMatch(piece, seg.start, seg.end) &&
      seg.name == Trim(piece[seg.start + 2..seg.end - 2]) &&
      forall q, e :: from <= q < seg.start ==> !IsMatch(piece, q, e))
  }

  lemma ClassifyPieceSpec(piece: string, lastIndex: nat)
    ensures Classified(piece, lastIndex, ClassifyPiece(piece, lastIndex).0)
  {
    ExecSpec(piece, lastIndex);
  }

  /** The whole loop: the pieces classified in order, lastIndex carried along. */
  function Classify(pieces: seq<string>, lastIndex: nat): (segs: seq<Segment>)
    ensures |segs| == |pieces|
  {
    if pieces == [] then []
    else
      var (seg, next) := ClassifyPiece(pieces[0], lastIndex);
      [seg] + Classify(pieces[1..], next)
  }

  /** One turn of the loop extends the segments found so far by the
      segment of the next piece. */
  lemma ClassifyStep(pieces: seq<string>, i: nat, segs: seq<Segment>, lastIndex: nat, seg: Segment, next: nat)
    requires i < |pieces|
    requires segs + Classify(pieces[i..], lastIndex) == Classify(pieces, 0)
    requires (seg, next) == ClassifyPiece(pieces[i], lastIndex)
    ensures (segs + [seg]) + Classify(pieces[i + 1..], next) == Classify(pieces, 0)
  {
    assert pieces[i..][1..] == pieces[i + 1..];
    assert Classify(pieces[i..], lastIndex) == [seg] + Classify(pieces[i + 1..], next);
  }

  /** The segments of a template. */
  function Parse(template: string): (segs: seq<Segment>)
    ensures |segs| >= 1
  {
    Classify(Split(template), 0)
  }

  /** The body of `_generateItem`'s loop: `reg.exec(piece)` and the
      rewrite of the piece it decides. The piece is quoted exactly when
      nothing matches from `lastIndex` on, otherwise the leftmost match is
      rewritten; `lastIndex` moves to the match's end or back to 0. */
  method RewritePiece(piece: string, lastIndex: nat) returns (seg: Segment, next: nat)
    ensures Classified(piece, lastIndex, seg) && next == seg.Resume()
    ensures (seg, next) == ClassifyPiece(piece, lastIndex)
  {
    var m := Exec(piece, lastIndex);
    if m.None? {
      seg := Literal(piece);
      next := 0;
    } else {
      seg := Placeholder(piece, m.value.start, m.value.end, Trim(piece[m.value.start + 2..m.value.end - 2]));
      next := m.value.end;
    }
    assert (seg, next) == ClassifyPiece(piece, lastIndex);
    assert Classified(piece, lastIndex, seg) by {
      ClassifyPieceSpec(piece, lastIndex);
    }
  }

  /** `_generateItem`'s loop over the split template, with the regex's
      lastIndex as a variable. */
  method ParseTemplate(template: string) returns (segs: seq<Segment>)
    ensures segs == Parse(template)
  {
    var pieces := Split(template);
    var lastIndex: nat := 0;
    segs := [];
    var i := 0;
    while i < |pieces|
      invariant 0 <= i <= |pieces|
      invariant segs + Classify(pieces[i..], lastIndex) == Classify(pieces, 0)
    {
      var seg, next := RewritePiece(pieces[i], lastIndex);
      ClassifyStep(pieces, i, segs, lastIndex, seg, next);
      segs := segs + [seg];
      lastIndex := next;
      i := i + 1;
    }
    assert pieces[i..] == [];
  }

  // ---------------------------------------------------------------------
  // When the generated code compiles

  /** Characters that would end or escape the quoted literal `'…'`. */
  predicate BreaksLiteral(c: char)
  {
    c == '\'' || c == '\\' || c == '\n' || c == '\r'
  }

  /** Characters that would end or escape `"name"`, or act as a
      replacement pattern (`$&`, `$1`, …) of String.prototype.replace. */
  predicate BreaksName(c: char)
  {
    c == '"' || c == '\\' || c == '\n' || c == '\r' || c == '$'
  }

  /** The code generated for this segment is a well-formed operand of `+`:
      a literal without quote-breaking characters, or a placeholder that has a
      capture group (else `match[1].trim()` throws), surrounded by nothing but
      blanks, with a name that can sit between double quotes. */
  predicate Compiles(seg: Segment)
  {
    match seg
    case Literal(p) => forall k :: 0 <= k < |p| ==> !BreaksLiteral(p[k])
    case Placeholder(p, s, e, name) =>
      s + 4 < e <= |p| &&
      (forall k :: 0 <= k < s ==> p[k] == ' ') &&
      (forall k :: e <= k < |p| ==> p[k] == ' ') &&
      forall k :: 0 <= k < |name| ==> !BreaksName(name[k])
  }

  /** A sufficient condition for `new Function('that', 'return ' + …)` to
      accept the template; some templates it rejects compile as well. */
  predicate TemplateCompiles(template: string)
  {
    var segs := Parse(template);
    forall i :: 0 <= i < |segs| ==> Compiles(segs[i])
  }

  // ---------------------------------------------------------------------
  // Rendering

  /** `c[name]`: the field's value, or undefined. */
  function Field(c: Candidate, name: string): JsValue
  {
    if name in c then JsString(c[name]) else Undefined
  }

  /** The value of one operand of the generated expression. */
  function Value(seg: Segment, c: Candidate): JsValue
  {
    match seg
    case Literal(p) => JsString(p)
    case Placeholder(_, _, _, name) => Field(c, name)
  }

  /** `v1 + v2 + … + vn`, evaluated from left to right. */
  function Evaluate(segs: seq<Segment>, c: Candidate): JsValue
    requires |segs| >= 1
  {
    if |segs| == 1 then Value(segs[0], c)
    else Plus(Evaluate(segs[..|segs| - 1], c), Value(segs[|segs| - 1], c))
  }

  /** The text of the item rendered for candidate `c`. */
  function ItemText(template: string, c: Candidate): string
  {
    ToText(Evaluate(Parse(template), c))
  }

  /** The template used when the element names none. */
  function DefaultTemplate(matchWith: string): string
  {
    "<% " + matchWith + " %>"
  }

  /** `getAttribute(templateAttr) || '<% ' + matchWith + ' %>'`: an absent
      (here: empty) attribute falls back to the default template. */
  function EffectiveTemplate(templateAttr: string, matchWith: string): (t: string)
    ensures templateAttr != "" ==> t == templateAttr
    ensures templateAttr == "" ==> t == DefaultTemplate(matchWith)
  {
    if templateAttr != "" then templateAttr else DefaultTemplate(matchWith)
  }
}

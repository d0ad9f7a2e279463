/** The few pieces of JavaScript string semantics the plugin relies on:
    `undefined` as an absent value, String.prototype.trim, and the `+`
    operator on strings, `undefined` and `NaN`. */
module JsText {

  /** An optional value; `None` plays the part of JavaScript's `undefined`. */
  datatype Option<+T> = None | Some(value: T)

  /** The code points String.prototype.trim removes: WhiteSpace and LineTerminator. */
  predicate IsSpace(c: char)
  {
    c == '\t' || c == '\n' || c == '\U{000B}' || c == '\U{000C}' || c == '\r' ||
    c == ' ' || c == '\U{00A0}' || c == '\U{1680}' ||
    ('\U{2000}' <= c <= '\U{200A}') ||
    c == '\U{2028}' || c == '\U{2029}' || c == '\U{202F}' || c == '\U{205F}' ||
    c == '\U{3000}' || c == '\U{FEFF}'
  }

  /** The first index at or after `i` that does not hold white space. */
  function ContentStart(s: string, i: nat): (r: nat)
    requires i <= |s|
    ensures i <= r <= |s|
    ensures forall k :: i <= k < r ==> IsSpace(s[k])
    ensures r == |s| || !IsSpace(s[r])
    decreases |s| - i
  {
    if i == |s| || !IsSpace(s[i]) then i else ContentStart(s, i + 1)
  }

  /** The end of the content that finishes at or before `j`: everything from
      it up to `j` is white space. */
  function ContentEnd(s: string, j: nat): (r: nat)
    requires j <= |s|
    ensures r <= j
    ensures forall k :: r <= k < j ==> IsSpace(s[k])
    ensures r == 0 || !IsSpace(s[r - 1])
  {
    if j == 0 || !IsSpace(s[j - 1]) then j else ContentEnd(s, j - 1)
  }

  /** String.prototype.trim. */
  function Trim(s: string): string
  {
    var start := ContentStart(s, 0);
    s[start..][..ContentEnd(s[start..], |s| - start)]
  }

  /** Trim removes exactly the white space around a core that neither starts
      nor ends with white space. */
  lemma TrimAround(a: string, r: string, b: string)
    requires forall k :: 0 <= k < |a| ==> IsSpace(a[k])
    requires forall k :: 0 <= k < |b| ==> IsSpace(b[k])
    requires r == [] || (!IsSpace(r[0]) && !IsSpace(r[|r| - 1]))
    ensures Trim(a + r + b) == r
  {
    var s := a + r + b;
    var start := ContentStart(s, 0);
    if r == [] {
      assert forall k :: 0 <= k < |s| ==> IsSpace(s[k]);
      assert start == |s|;
    } else {
      assert s[|a|] == r[0];
      assert start == |a|;
      var t := s[start..];
      assert t == r + b;
      assert t[|r| - 1] == r[|r| - 1];
      assert ContentEnd(t, |t|) == |r|;
      assert t[..|r|] == r;
    }
  }

  /** The trimmed text neither starts nor ends with white space. */
  lemma TrimEdges(s: string)
    ensures Trim(s) == [] || (!IsSpace(Trim(s)[0]) && !IsSpace(Trim(s)[|Trim(s)| - 1]))
  {
    var start := ContentStart(s, 0);
    var t := s[start..];
    var end := ContentEnd(t, |t|);
    if end > 0 {
      assert Trim(s)[0] == t[0] == s[start];
    }
  }

  lemma CutThree(s: string, i: nat, j: nat)
    requires i <= |s| && j <= |s| - i
    ensures s == s[..i] + s[i..][..j] + s[i..][j..]
  {
    var t := s[i..];
    assert s == s[..i] + t;
    assert t == t[..j] + t[j..];
  }

  /** Trim cuts `s` into white space, the trimmed text and white space. */
  lemma TrimSplits(s: string) returns (a: string, b: string)
    ensures s == a + Trim(s) + b
    ensures forall k :: 0 <= k < |a| ==> IsSpace(a[k])
    ensures forall k :: 0 <= k < |b| ==> IsSpace(b[k])
  {
    var start := ContentStart(s, 0);
    var t := s[start..];
    var end := ContentEnd(t, |t|);
    a, b := s[..start], t[end..];
    CutThree(s, start, end);
    forall k | 0 <= k < |a| ensures IsSpace(a[k]) {
      assert a[k] == s[k];
    }
    forall k | 0 <= k < |b| ensures IsSpace(b[k]) {
      assert b[k] == t[end + k];
    }
  }

  /** Trimming `' ' + m + ' '` trims `m`. */
  lemma TrimPadded(m: string)
    ensures Trim(" " + m + " ") == Trim(m)
  {
    var a, b := TrimSplits(m);
    var r := Trim(m);
    TrimEdges(m);
    var a', b' := " " + a, b + " ";
    Regroup(" ", a, r, b, " ");
    TrimAround(a', r, b');
  }

  lemma Regroup(x: string, a: string, r: string, b: string, y: string)
    ensures x + (a + r + b) + y == (x + a) + r + (b + y)
  {
  }

  /** A string's `length`: its UTF-16 code units, one for each character of
      the Basic Multilingual Plane and two (a surrogate pair) for each
      character beyond it. */
  function Utf16Length(s: string): (n: nat)
    ensures |s| <= n <= 2 * |s|
  {
    if s == [] then 0
    else Utf16Length(s[..|s| - 1]) + (if s[|s| - 1] as int >= 0x1_0000 then 2 else 1)
  }

  /** The code units of a concatenation are those of its parts. */
  lemma {:induction false} Utf16LengthConcat(a: string, b: string)
    ensures Utf16Length(a + b) == Utf16Length(a) + Utf16Length(b)
    decreases |b|
  {
    if b == [] {
      assert a + b == a;
    } else {
      var b' := b[..|b| - 1];
      assert (a + b)[..|a + b| - 1] == a + b';
      assert (a + b)[|a + b| - 1] == b[|b| - 1];
      Utf16LengthConcat(a, b');
    }
  }

  /** Text within the Basic Multilingual Plane has one code unit per
      character, and each character beyond it adds one more. */
  lemma {:induction false} Utf16LengthCounts(s: string)
    ensures Utf16Length(s) == |s| <==> forall k :: 0 <= k < |s| ==> s[k] as int < 0x1_0000
  {
    if s != [] {
      var p := s[..|s| - 1];
      Utf16LengthCounts(p);
      if Utf16Length(s) == |s| {
        forall k | 0 <= k < |s|
          ensures s[k] as int < 0x1_0000
        {
          if k < |s| - 1 {
            assert s[k] == p[k];
          }
        }
      }
      if forall k :: 0 <= k < |s| ==> s[k] as int < 0x1_0000 {
        assert forall k :: 0 <= k < |p| ==> p[k] == s[k];
      }
    }
  }

  /** U+1F600 is one character, two code units, and no white space. */
  lemma AstralCharacterLength()
    ensures Trim("\U{1F600}") == "\U{1F600}" && Utf16Length("\U{1F600}") == 2
  {
    var s := "\U{1F600}";
    TrimAround("", s, "");
    assert "" + s + "" == s;
    assert s[..0] == [];
  }

  /** The JavaScript values a rendered template can produce. */
  datatype JsValue = JsString(text: string) | Undefined | NaN

  /** String conversion, as `'' + v` performs it. */
  function ToText(v: JsValue): string
  {
    match v
    case JsString(t) => t
    case Undefined => "undefined"
    case NaN => "NaN"
  }

  /** The `+` operator: concatenation as soon as one operand is a string,
      numeric addition (which gives NaN for `undefined` and NaN) otherwise. */
  function Plus(a: JsValue, b: JsValue): JsValue
  {
    if a.JsString? || b.JsString? then JsString(ToText(a) + ToText(b)) else NaN
  }
}

/**
 * Font values shared by the extractor (functions/api.js), the hover observer
 * (content-script.js) and the panel: the raw computed style of an element, the
 * record kept for it, the primary-family normalisation and the `|`-joined keys.
 */
module Fonts {

  /** The four computed-style strings read from one element, as the browser reports them. */
  datatype RawStyle = RawStyle(fontFamily: string, fontWeight: string, fontSize: string, lineHeight: string)

  /** One typography combination as shown to the user: the family is the primary family only. */
  datatype FontRecord = FontRecord(family: string, weight: string, fontSize: string, lineHeight: string)

  /**
   * The characters `String.prototype.trim` removes: ECMAScript WhiteSpace
   * (tab, vertical tab, form feed, space, no-break space, BOM and the Zs
   * category) and LineTerminator (LF, CR, LS, PS).
   */
  predicate IsWhitespace(c: char)
  {
    c == '\t' || c == '\n' || c == '\U{000B}' || c == '\U{000C}' || c == '\r' ||
    c == ' ' || c == '\U{00A0}' || c == '\U{1680}' ||
    ('\U{2000}' <= c <= '\U{200A}') ||
    c == '\U{2028}' || c == '\U{2029}' || c == '\U{202F}' || c == '\U{205F}' ||
    c == '\U{3000}' || c == '\U{FEFF}'
  }

  predicate IsQuote(c: char)
  {
    c == '\'' || c == '"'
  }

  /** Drops the leading run of whitespace. */
  function TrimStart(s: string): string
    decreases |s|
  {
    if |s| > 0 && IsWhitespace(s[0]) then TrimStart(s[1..]) else s
  }

  /** Drops the trailing run of whitespace. */
  function TrimEnd(s: string): string
    decreases |s|
  {
    if |s| > 0 && IsWhitespace(s[|s| - 1]) then TrimEnd(s[..|s| - 1]) else s
  }

  /** `s.trim()`. */
  function Trim(s: string): string
  {
    TrimEnd(TrimStart(s))
  }

  /** `s.split(",")[0]`: everything before the first comma, or all of `s`. */
  function BeforeFirstComma(s: string): string
    decreases |s|
  {
    if |s| == 0 then []
    else if s[0] == ',' then []
    else [s[0]] + BeforeFirstComma(s[1..])
  }

  /** `s.replace(/['"]/g, "")`. */
  function RemoveQuotes(s: string): string
    decreases |s|
  {
    if |s| == 0 then []
    else if IsQuote(s[0]) then RemoveQuotes(s[1..])
    else [s[0]] + RemoveQuotes(s[1..])
  }

  /** The primary family of a `font-family` value (functions/api.js:22, content-script.js:17). */
  function PrimaryFamily(fontFamily: string): string
  {
    Trim(RemoveQuotes(BeforeFirstComma(fontFamily)))
  }

  /** A name that is already a primary family: no comma, no quote, no surrounding whitespace. */
  predicate IsBareName(name: string)
  {
    ',' !in name && '\'' !in name && '"' !in name &&
    (name == [] || (!IsWhitespace(name[0]) && !IsWhitespace(name[|name| - 1])))
  }

  /** `TrimStart` removes exactly the leading run of whitespace. */
  lemma {:induction false} TrimStartSpec(s: string)
    ensures var r := TrimStart(s);
      |r| <= |s| && r == s[|s| - |r|..] &&
      (forall i :: 0 <= i < |s| - |r| ==> IsWhitespace(s[i])) &&
      (r == [] || !IsWhitespace(r[0]))
    decreases |s|
  {
    if |s| > 0 && IsWhitespace(s[0]) {
      TrimStartSpec(s[1..]);
    }
  }

  /** `TrimEnd` removes exactly the trailing run of whitespace. */
  lemma {:induction false} TrimEndSpec(s: string)
    ensures var r := TrimEnd(s);
      |r| <= |s| && r == s[..|r|] &&
      (forall i :: |r| <= i < |s| ==> IsWhitespace(s[i])) &&
      (r == [] || !IsWhitespace(r[|r| - 1]))
    decreases |s|
  {
    if |s| > 0 && IsWhitespace(s[|s| - 1]) {
      TrimEndSpec(s[..|s| - 1]);
    }
  }

  /**
   * `Trim` yields a contiguous slice of its input that neither starts nor ends
   * with whitespace, and everything cut off is whitespace.
   */
  lemma TrimSpec(s: string)
    ensures exists i, j :: (0 <= i <= j <= |s| && Trim(s) == s[i..j] &&
      (forall k :: 0 <= k < i ==> IsWhitespace(s[k])) &&
      (forall k :: j <= k < |s| ==> IsWhitespace(s[k])))
    ensures Trim(s) == [] || (!IsWhitespace(Trim(s)[0]) && !IsWhitespace(Trim(s)[|Trim(s)| - 1]))
  {
    var t := TrimStart(s);
    TrimStartSpec(s);
    TrimEndSpec(t);
    var r := TrimEnd(t);
    var i := |s| - |t|;
    assert r == s[i..i + |r|];
    assert r != [] ==> r[0] == t[0];
    forall k | i + |r| <= k < |s|
      ensures IsWhitespace(s[k])
    {
      assert s[k] == t[k - i];
    }
  }

  /** A string already free of surrounding whitespace is its own trim. */
  lemma TrimNoop(s: string)
    requires s == [] || (!IsWhitespace(s[0]) && !IsWhitespace(s[|s| - 1]))
    ensures Trim(s) == s
  {
  }

  /** `BeforeFirstComma` is the longest comma-free prefix. */
  lemma {:induction false} BeforeFirstCommaSpec(s: string)
    ensures var r := BeforeFirstComma(s);
      r <= s && ',' !in r && (|r| < |s| ==> s[|r|] == ',')
    decreases |s|
  {
    if |s| > 0 && s[0] != ',' {
      BeforeFirstCommaSpec(s[1..]);
    }
  }

  /** A comma-free string is its own text before the first comma. */
  lemma {:induction false} BeforeFirstCommaNoComma(s: string)
    requires ',' !in s
    ensures BeforeFirstComma(s) == s
    decreases |s|
  {
    if |s| > 0 {
      assert forall c :: c in s[1..] ==> c in s;
      BeforeFirstCommaNoComma(s[1..]);
    }
  }

  /** Quote removal keeps exactly the non-quote characters. */
  lemma {:induction false} RemoveQuotesSpec(s: string)
    ensures forall c :: c in RemoveQuotes(s) <==> c in s && !IsQuote(c)
    decreases |s|
  {
    if |s| > 0 {
      RemoveQuotesSpec(s[1..]);
      assert s == [s[0]] + s[1..];
    }
  }

  /** A string without quotes is left alone by the quote removal. */
  lemma {:induction false} RemoveQuotesNoQuotes(s: string)
    requires forall i :: 0 <= i < |s| ==> !IsQuote(s[i])
    ensures RemoveQuotes(s) == s
    decreases |s|
  {
    if |s| > 0 {
      RemoveQuotesNoQuotes(s[1..]);
    }
  }

  /** Quote removal distributes over concatenation. */
  lemma {:induction false} RemoveQuotesAppend(a: string, b: string)
    ensures RemoveQuotes(a + b) == RemoveQuotes(a) + RemoveQuotes(b)
    decreases |a|
  {
    if |a| == 0 {
      assert a + b == b;
    } else {
      assert (a + b)[0] == a[0];
      assert (a + b)[1..] == a[1..] + b;
      RemoveQuotesAppend(a[1..], b);
    }
  }

  /** A primary family has no comma, no quote and no surrounding whitespace. */
  lemma PrimaryFamilyIsBare(fontFamily: string)
    ensures IsBareName(PrimaryFamily(fontFamily))
  {
    var b := BeforeFirstComma(fontFamily);
    var q := RemoveQuotes(b);
    var r := Trim(q);
    BeforeFirstCommaSpec(fontFamily);
    RemoveQuotesSpec(b);
    TrimSpec(q);
    var i, j :| 0 <= i <= j <= |q| && r == q[i..j];
    assert forall c :: c in r ==> c in q;
  }

  /** Normalising a primary family again gives it back unchanged. */
  lemma PrimaryFamilyIdempotent(fontFamily: string)
    ensures PrimaryFamily(PrimaryFamily(fontFamily)) == PrimaryFamily(fontFamily)
  {
    var p := PrimaryFamily(fontFamily);
    PrimaryFamilyIsBare(fontFamily);
    BeforeFirstCommaNoComma(p);
    RemoveQuotesNoQuotes(p);
    TrimNoop(p);
  }

  /**
   * A quoted name followed by a fallback list, as in `"Arial", sans-serif`,
   * has the bare name as its primary family, and so does the bare name itself.
   */
  lemma PrimaryFamilyOfQuotedList(name: string, q: char, fallbacks: string)
    requires IsBareName(name) && IsQuote(q)
    ensures PrimaryFamily([q] + name + [q] + "," + fallbacks) == name
    ensures PrimaryFamily(name) == name
  {
    var s := [q] + name + [q] + "," + fallbacks;
    var quoted := [q] + name + [q];
    assert s == quoted + "," + fallbacks;
    BeforeFirstCommaSpec(s);
    assert s[|quoted|] == ',';
    assert BeforeFirstComma(s) == quoted;
    RemoveQuotesAppend([q] + name, [q]);
    RemoveQuotesAppend([q], name);
    RemoveQuotesNoQuotes(name);
    assert RemoveQuotes(quoted) == name;
    TrimNoop(name);
    BeforeFirstCommaNoComma(name);
  }

  /** `getFontProperties` (content-script.js:9-24), also the record the extractor stores (functions/api.js:22-29). */
  function FontProperties(style: RawStyle): FontRecord
  {
    FontRecord(PrimaryFamily(style.fontFamily), style.fontWeight, style.fontSize, style.lineHeight)
  }

  /**
   * A record's family is a bare name that normalisation leaves unchanged; its
   * other three fields are the raw strings.
   */
  lemma FontPropertiesNormalises(style: RawStyle)
    ensures IsBareName(FontProperties(style).family)
    ensures PrimaryFamily(FontProperties(style).family) == FontProperties(style).family
    ensures FontProperties(style).weight == style.fontWeight
    ensures FontProperties(style).fontSize == style.fontSize
    ensures FontProperties(style).lineHeight == style.lineHeight
  {
    PrimaryFamilyIsBare(style.fontFamily);
    PrimaryFamilyIdempotent(style.fontFamily);
  }

  /** The template-literal key `${a}|${b}|${c}|${d}`. */
  function JoinKey(a: string, b: string, c: string, d: string): string
  {
    a + "|" + b + "|" + c + "|" + d
  }

  /** The extractor's dedup key, built from the raw strings (functions/api.js:17). */
  function RawKey(style: RawStyle): string
  {
    JoinKey(style.fontFamily, style.fontWeight, style.fontSize, style.lineHeight)
  }

  /** The key a panel entry carries and a hover report is matched by (display.js:29, sidepanel.js:140). */
  function RecordKey(font: FontRecord): string
  {
    JoinKey(font.family, font.weight, font.fontSize, font.lineHeight)
  }

  /** Weight, size and line height are free of `|`, as computed values always are. */
  predicate PlainValues(style: RawStyle)
  {
    '|' !in style.fontWeight && '|' !in style.fontSize && '|' !in style.lineHeight
  }

  /** Index of the last `|` in `s`, or -1. */
  function LastBar(s: string): int
    decreases |s|
  {
    if |s| == 0 then -1
    else if s[|s| - 1] == '|' then |s| - 1
    else LastBar(s[..|s| - 1])
  }

  lemma {:induction false} LastBarOfJoin(x: string, y: string)
    requires '|' !in y
    ensures LastBar(x + "|" + y) == |x|
    decreases |y|
  {
    var s := x + "|" + y;
    if |y| > 0 {
      assert s[..|s| - 1] == x + "|" + y[..|y| - 1];
      LastBarOfJoin(x, y[..|y| - 1]);
    }
  }

  /** Splitting at the last `|` is unique when the part after it has no `|`. */
  lemma SplitAtLastBar(x: string, y: string, x': string, y': string)
    requires '|' !in y && '|' !in y'
    requires x + "|" + y == x' + "|" + y'
    ensures x == x' && y == y'
  {
    var s := x + "|" + y;
    LastBarOfJoin(x, y);
    LastBarOfJoin(x', y');
    assert x == s[..|x|] == x';
    assert y == s[|x| + 1..] == y';
  }

  /** With plain values the string key determines the raw tuple: key equality is tuple equality. */
  lemma RawKeyInjective(s: RawStyle, t: RawStyle)
    requires PlainValues(s) && PlainValues(t)
    ensures RawKey(s) == RawKey(t) <==> s == t
  {
    if RawKey(s) == RawKey(t) {
      var a, b, c, d := s.fontFamily, s.fontWeight, s.fontSize, s.lineHeight;
      var a', b', c', d' := t.fontFamily, t.fontWeight, t.fontSize, t.lineHeight;
      assert (a + "|" + b + "|" + c) + "|" + d == (a' + "|" + b' + "|" + c') + "|" + d';
      SplitAtLastBar(a + "|" + b + "|" + c, d, a' + "|" + b' + "|" + c', d');
      SplitAtLastBar(a + "|" + b, c, a' + "|" + b', c');
      SplitAtLastBar(a, b, a', b');
    }
  }

  /** Without plain values, two different tuples can share a key. */
  lemma RawKeyCollision()
    ensures RawKey(RawStyle("A", "4|0", "0", "16px")) == RawKey(RawStyle("A|4", "0", "0", "16px"))
    ensures RawStyle("A", "4|0", "0", "16px") != RawStyle("A|4", "0", "0", "16px")
  {
    assert RawKey(RawStyle("A", "4|0", "0", "16px")) == "A|4|0|0|16px";
    assert RawKey(RawStyle("A|4", "0", "0", "16px")) == "A|4|0|0|16px";
  }
}

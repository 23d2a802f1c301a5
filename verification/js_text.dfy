/**
 * JavaScript strings as the browser sees them: sequences of UTF-16 code
 * units. Covers the whitespace class `\s`, `String.prototype.trim`, the
 * relational operators on strings and the conversion of Dafny string
 * literals into code units.
 */
module JsText {

  /** One UTF-16 code unit. Lone surrogates are allowed, as in JavaScript. */
  type CodeUnit = n: nat | n < 0x1_0000

  /** A JavaScript string value. */
  type JsStr = seq<CodeUnit>

  /**
   * The code units of a string literal, one per character. Every literal
   * of this model lies in the Basic Multilingual Plane, where this is its
   * UTF-16 encoding; a character beyond it would need a surrogate pair and
   * is only reduced to its low sixteen bits.
   */
  function Units(s: string): JsStr {
    seq<CodeUnit>(|s|, k requires 0 <= k < |s| => s[k] as int % 0x1_0000)
  }

  /** Conversion distributes over concatenation, so a long literal can be converted piece by piece. */
  lemma UnitsAppend(a: string, b: string)
    ensures Units(a + b) == Units(a) + Units(b)
  {
  }

  /**
   * The code units matched by `\s` in a JavaScript regular expression and
   * removed by `trim`: WhiteSpace and LineTerminator of ECMAScript.
   */
  predicate IsJsSpace(c: CodeUnit) {
    || (0x09 <= c <= 0x0D)        // tab, line feed, vertical tab, form feed, carriage return
    || c == 0x20 || c == 0xA0
    || c == 0x1680
    || (0x2000 <= c <= 0x200A)
    || c == 0x2028 || c == 0x2029
    || c == 0x202F || c == 0x205F
    || c == 0x3000 || c == 0xFEFF
  }

  /** `s.trimStart()`: drops the leading whitespace. */
  function TrimStart(s: JsStr): (r: JsStr)
    ensures |r| <= |s| && r == s[|s| - |r|..]
    ensures forall k :: 0 <= k < |s| - |r| ==> IsJsSpace(s[k])
    ensures r != [] ==> !IsJsSpace(r[0])
  {
    if s != [] && IsJsSpace(s[0]) then TrimStart(s[1..]) else s
  }

  /** `s.trimEnd()`: drops the trailing whitespace. */
  function TrimEnd(s: JsStr): (r: JsStr)
    ensures |r| <= |s| && r == s[..|r|]
    ensures forall k :: |r| <= k < |s| ==> IsJsSpace(s[k])
    ensures r != [] ==> !IsJsSpace(r[|r| - 1])
  {
    if s != [] && IsJsSpace(s[|s| - 1]) then TrimEnd(s[..|s| - 1]) else s
  }

  /** `s.trim()`. */
  function Trim(s: JsStr): JsStr {
    TrimEnd(TrimStart(s))
  }

  /** What `trim` keeps is the slice of the input after its leading whitespace. */
  lemma TrimSlice(s: JsStr)
    ensures var r, a := Trim(s), |s| - |TrimStart(s)|;
      a + |r| <= |s| && r == s[a..a + |r|]
  {
    var t := TrimStart(s);
    var r := TrimEnd(t);
    var a := |s| - |t|;
    assert t == s[a..] && r == t[..|r|];
  }

  /** What `trim` drops after the slice it keeps is whitespace. */
  lemma TrimDropsTrailingSpace(s: JsStr)
    ensures var r, a := Trim(s), |s| - |TrimStart(s)|;
      forall k :: a + |r| <= k < |s| ==> IsJsSpace(s[k])
  {
    var t := TrimStart(s);
    var r := TrimEnd(t);
    var a := |s| - |t|;
    forall k | a + |r| <= k < |s| ensures IsJsSpace(s[k]) {
      assert s[k] == t[k - a];
    }
  }

  /**
   * `trim` keeps one contiguous slice of its input, everything it drops is
   * whitespace, and what it keeps neither starts nor ends with whitespace.
   */
  lemma TrimIsCore(s: JsStr)
    ensures var r, a := Trim(s), |s| - |TrimStart(s)|;
      && a + |r| <= |s| && r == s[a..a + |r|]
      && (forall k :: 0 <= k < a ==> IsJsSpace(s[k]))
      && (forall k :: a + |r| <= k < |s| ==> IsJsSpace(s[k]))
      && (r != [] ==> !IsJsSpace(r[0]) && !IsJsSpace(r[|r| - 1]))
  {
    TrimSlice(s);
    TrimDropsTrailingSpace(s);
    TrimEndsUnpadded(s);
  }

  /** What `trim` keeps neither starts nor ends with whitespace. */
  lemma TrimEndsUnpadded(s: JsStr)
    ensures var r := Trim(s);
      r != [] ==> !IsJsSpace(r[0]) && !IsJsSpace(r[|r| - 1])
  {
    var t := TrimStart(s);
    var r := TrimEnd(t);
    if r != [] {
      assert r[0] == t[0];
    }
  }

  /** A string without whitespace at either end is left as it is by `trim`. */
  lemma {:induction false} TrimKeepsUnpadded(s: JsStr)
    requires s != [] ==> !IsJsSpace(s[0]) && !IsJsSpace(s[|s| - 1])
    ensures Trim(s) == s
  {
  }

  /** `a < b` on JavaScript strings: lexicographic order of code units, a proper prefix first. */
  predicate Less(a: JsStr, b: JsStr) {
    if b == [] then false
    else if a == [] then true
    else if a[0] != b[0] then a[0] < b[0]
    else Less(a[1..], b[1..])
  }

  /** `a >= b` on JavaScript strings. */
  predicate AtLeast(a: JsStr, b: JsStr) {
    !Less(a, b)
  }

  /** `a <= b` on JavaScript strings. */
  predicate AtMost(a: JsStr, b: JsStr) {
    !Less(b, a)
  }

  /** The order is trichotomous: exactly one of `a < b`, `a == b`, `b < a` holds. */
  lemma {:induction false} LessTrichotomy(a: JsStr, b: JsStr)
    ensures a == b || Less(a, b) || Less(b, a)
    ensures !(Less(a, b) && Less(b, a))
    ensures Less(a, b) ==> a != b
  {
    if a != [] && b != [] && a[0] == b[0] {
      LessTrichotomy(a[1..], b[1..]);
      if a[1..] == b[1..] {
        assert a == [a[0]] + a[1..] && b == [b[0]] + b[1..];
      }
    }
  }

  /** The order is transitive, so with trichotomy it is a strict total order. */
  lemma {:induction false} LessTransitive(a: JsStr, b: JsStr, c: JsStr)
    requires Less(a, b) && Less(b, c)
    ensures Less(a, c)
  {
    if a != [] && b != [] && c != [] && a[0] == b[0] && b[0] == c[0] {
      LessTransitive(a[1..], b[1..], c[1..]);
    }
  }

  /** Comparing with a one-unit string only looks at the first unit and, on a tie, the length. */
  lemma CompareWithUnit(e: JsStr, c: CodeUnit)
    ensures Less(e, [c]) <==> e == [] || e[0] < c
    ensures Less([c], e) <==> e != [] && (e[0] > c || (e[0] == c && |e| > 1))
  {
  }
}

/**
 * `wordsCount(str)`: the number of matches of the global pattern
 * `/[\u00ff-\uffff]|\S+/g` in `str`. The pattern has no `u` flag, so it
 * runs over UTF-16 code units, and at each position the single-unit
 * alternative is tried before the run of non-whitespace.
 */
module WordsCount {
  import opened Wrappers
  import opened JsText

  /** The first alternative `[\u00ff-\uffff]`. */
  predicate IsHighUnit(c: CodeUnit) {
    c >= 0xFF
  }

  /** A code unit that no match can start at or contain: whitespace below U+00FF. */
  predicate IsBlank(c: CodeUnit) {
    IsJsSpace(c) && !IsHighUnit(c)
  }

  /** The length of the longest prefix of `s` without whitespace: what `\S+` consumes. */
  function RunLength(s: JsStr): (k: nat)
    ensures k <= |s|
    ensures forall p :: 0 <= p < k ==> !IsJsSpace(s[p])
    ensures k < |s| ==> IsJsSpace(s[k])
  {
    if s == [] || IsJsSpace(s[0]) then 0 else 1 + RunLength(s[1..])
  }

  /**
   * The successive matches of the global pattern, leftmost first, each
   * search resuming where the previous match ended. Every match consumes at
   * least one code unit, so there are never more matches than code units.
   */
  function Matches(s: JsStr): (m: seq<JsStr>)
    ensures |m| <= |s|
    ensures forall k :: 0 <= k < |m| ==> m[k] != []
    decreases |s|
  {
    if s == [] then []
    else if IsHighUnit(s[0]) then [s[..1]] + Matches(s[1..])
    else if IsJsSpace(s[0]) then Matches(s[1..])
    else
      var n := RunLength(s);
      [s[..n]] + Matches(s[n..])
  }

  /** `str.match(re)`: the array of matches, or `null` when there is none. */
  function Match(s: JsStr): Option<seq<JsStr>> {
    var m := Matches(s);
    if m == [] then None else Some(m)
  }

  /** `wordsCount(str)`: `matches ? matches.length : 0`. */
  function Count(s: JsStr): (n: nat)
    ensures n <= |s|
  {
    match Match(s)
    case Some(m) => |m|
    case None => 0
  }

  /** The concatenation of a sequence of strings. */
  function Concat(parts: seq<JsStr>): JsStr {
    if parts == [] then [] else parts[0] + Concat(parts[1..])
  }

  /** `s` with every blank code unit removed. */
  function DropBlanks(s: JsStr): (r: JsStr)
    ensures |r| <= |s|
    ensures forall k :: 0 <= k < |r| ==> !IsBlank(r[k])
  {
    if s == [] then [] else (if IsBlank(s[0]) then [] else [s[0]]) + DropBlanks(s[1..])
  }

  /** A run without whitespace holds no blank unit. */
  lemma {:induction false} RunKeepsAll(s: JsStr, n: nat)
    requires n <= |s| && forall p :: 0 <= p < n ==> !IsJsSpace(s[p])
    ensures DropBlanks(s[..n]) == s[..n]
    ensures DropBlanks(s) == s[..n] + DropBlanks(s[n..])
  {
    if n > 0 {
      RunKeepsAll(s[1..], n - 1);
      assert s[1..][..n - 1] == s[1..n];
      assert s[1..][n - 1..] == s[n..];
      assert s[..n] == [s[0]] + s[1..n];
    }
  }

  /**
   * The matches cover the string exactly: joined together they give back
   * every code unit of `s` except the blanks, in order. No code unit is
   * counted twice and no unit at or above U+00FF is ever skipped.
   */
  lemma {:induction false} MatchesCoverText(s: JsStr)
    ensures Concat(Matches(s)) == DropBlanks(s)
    decreases |s|
  {
    if s == [] {
    } else if IsHighUnit(s[0]) {
      MatchesCoverText(s[1..]);
      assert s[..1] == [s[0]];
    } else if IsJsSpace(s[0]) {
      MatchesCoverText(s[1..]);
    } else {
      var n := RunLength(s);
      MatchesCoverText(s[n..]);
      RunKeepsAll(s, n);
      assert Matches(s) == [s[..n]] + Matches(s[n..]);
    }
  }

  /** Every match is a single unit from U+00FF up, or a run without whitespace that starts below U+00FF. */
  lemma {:induction false} MatchShapes(s: JsStr)
    ensures forall m :: m in Matches(s) ==>
      (|m| == 1 && IsHighUnit(m[0])) || (!IsHighUnit(m[0]) && forall p :: 0 <= p < |m| ==> !IsJsSpace(m[p]))
    decreases |s|
  {
    if s != [] {
      if IsHighUnit(s[0]) || IsJsSpace(s[0]) {
        MatchShapes(s[1..]);
      } else {
        MatchShapes(s[RunLength(s)..]);
      }
    }
  }

  /** `match` gives `null` exactly for a string made only of whitespace below U+00FF. */
  lemma {:induction false} NullExactlyWhenBlank(s: JsStr)
    ensures Match(s).None? <==> forall k :: 0 <= k < |s| ==> IsBlank(s[k])
    decreases |s|
  {
    if forall k :: 0 <= k < |s| ==> IsBlank(s[k]) {
      BlankCountsZero(s);
    } else if s != [] {
      if IsBlank(s[0]) {
        NullExactlyWhenBlank(s[1..]);
        var k :| 0 <= k < |s| && !IsBlank(s[k]);
        assert !IsBlank(s[1..][k - 1]);
      }
    }
  }

  /** A string made only of whitespace below U+00FF has no match, so its count is zero. */
  lemma {:induction false} BlankCountsZero(s: JsStr)
    requires forall k :: 0 <= k < |s| ==> IsBlank(s[k])
    ensures Match(s) == None && Count(s) == 0
    decreases |s|
  {
    if s != [] {
      BlankCountsZero(s[1..]);
    }
  }

  /** The number of maximal runs of non-whitespace in `s`, counted at the unit that ends each run. */
  function RunEnds(s: JsStr): nat {
    if s == [] then 0
    else (if !IsJsSpace(s[0]) && (|s| == 1 || IsJsSpace(s[1])) then 1 else 0) + RunEnds(s[1..])
  }

  /** A run of `n` non-whitespace units that the whitespace (or the end) closes ends exactly once. */
  lemma {:induction false} RunEndsAfterRun(s: JsStr, n: nat)
    requires 0 < n <= |s| && forall p :: 0 <= p < n ==> !IsJsSpace(s[p])
    requires n < |s| ==> IsJsSpace(s[n])
    ensures RunEnds(s) == 1 + RunEnds(s[n..])
  {
    if n > 1 {
      RunEndsAfterRun(s[1..], n - 1);
      assert s[1..][n - 1..] == s[n..];
    }
  }

  /**
   * When every code unit is below U+00FF the first alternative never
   * fires, and the count is the number of maximal runs of non-whitespace.
   */
  lemma {:induction false} LowTextCountsRuns(s: JsStr)
    requires forall k :: 0 <= k < |s| ==> !IsHighUnit(s[k])
    ensures |Matches(s)| == RunEnds(s)
    ensures Count(s) == RunEnds(s)
    decreases |s|
  {
    if s != [] {
      if IsJsSpace(s[0]) {
        LowTextCountsRuns(s[1..]);
      } else {
        var n := RunLength(s);
        LowTextCountsRuns(s[n..]);
        RunEndsAfterRun(s, n);
      }
    }
  }

  /** Two CJK units each count alone: "中文" counts 2. */
  lemma CountHanPair()
    ensures Count(Units("中文")) == 2
  {
    assert Units("中文") == [0x4E2D, 0x6587];
  }

  /** A high unit at a match start stands alone even when a letter follows: "中a" counts 2. */
  lemma CountHanThenLetter()
    ensures Count(Units("中a")) == 2
  {
    assert Units("中a") == [0x4E2D, 0x61];
  }

  /**
   * `\S+` is greedy: a run that starts below U+00FF takes every following
   * non-space unit, whatever its code, as a single match.
   */
  lemma GreedyRun(s: JsStr, n: nat)
    requires 0 < n <= |s| && !IsHighUnit(s[0])
    requires forall p :: 0 <= p < n ==> !IsJsSpace(s[p])
    requires n == |s| || IsJsSpace(s[n])
    ensures Matches(s) == [s[..n]] + Matches(s[n..])
  {
    assert !IsJsSpace(s[0]);
    assert RunLength(s) == n;
  }

  /** A run that starts below U+00FF swallows the CJK that follows: "a中文" counts 1. */
  lemma CountLetterThenHan()
    ensures Count(Units("a中文")) == 1
  {
    var s := Units("a中文");
    assert s == [0x61, 0x4E2D, 0x6587];
    assert RunLength(s) == 3;
  }

  /** Whitespace at or above U+00FF is matched by the first alternative: an ideographic space counts 1. */
  lemma CountIdeographicSpace()
    ensures Count([0x3000]) == 1
  {
  }

  /** Tabs, spaces and no-break spaces only: the count is 0. */
  lemma CountLowWhitespace()
    ensures Count([0x09, 0x20, 0xA0, 0x0A]) == 0
  {
    BlankCountsZero([0x09, 0x20, 0xA0, 0x0A]);
  }
}

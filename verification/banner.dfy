/**
 * The README banner that the terminal prints at the top of its buffer, in
 * English or Chinese, and the table of hyperlinks laid over it: for each
 * buffer line, the links on it, their column ranges and what clicking
 * them does. Display text is kept as Dafny strings; columns follow the
 * terminal's cell widths, where East Asian wide characters take two cells.
 */
module Banner {
  import opened Wrappers
  import opened JsText

  /** The language values that have a banner. */
  const En: JsStr := [0x65, 0x6E]
  const Zh: JsStr := [0x7A, 0x68]

  /** Characters that take two terminal cells (the wide ranges of Unicode 6 East Asian Width). */
  predicate IsWide(c: char) {
    var u := c as int;
    0x1100 <= u && (
    || u <= 0x115F
    || u == 0x2329 || u == 0x232A
    || (0x2E80 <= u <= 0xA4CF && u != 0x303F)
    || (0xAC00 <= u <= 0xD7A3)
    || (0xF900 <= u <= 0xFAFF)
    || (0xFE10 <= u <= 0xFE19)
    || (0xFE30 <= u <= 0xFE6F)
    || (0xFF00 <= u <= 0xFF60)
    || (0xFFE0 <= u <= 0xFFE6)
    || (0x20000 <= u <= 0x2FFFD)
    || (0x30000 <= u <= 0x3FFFD))
  }

  /** The number of terminal cells `s` covers. */
  function Width(s: string): (w: nat)
    ensures |s| <= w <= 2 * |s|
  {
    if s == [] then 0 else (if IsWide(s[0]) then 2 else 1) + Width(s[1..])
  }

  /** Widths add up over concatenation. */
  lemma {:induction false} WidthAppend(a: string, b: string)
    ensures Width(a + b) == Width(a) + Width(b)
    decreases |a|
  {
    if a == [] {
      assert a + b == b;
    } else {
      var ab := a + b;
      assert ab != [] && ab[0] == a[0] && ab[1..] == a[1..] + b;
      WidthAppend(a[1..], b);
    }
  }

  /** Text without wide characters is one cell per character. */
  lemma {:induction false} NarrowWidth(s: string)
    requires forall k :: 0 <= k < |s| ==> !IsWide(s[k])
    ensures Width(s) == |s|
  {
    if s != [] {
      NarrowWidth(s[1..]);
    }
  }

  /** Text of wide characters only is two cells per character. */
  lemma {:induction false} WideWidth(s: string)
    requires forall k :: 0 <= k < |s| ==> IsWide(s[k])
    ensures Width(s) == 2 * |s|
  {
    if s != [] {
      WideWidth(s[1..]);
    }
  }

  /** The left margin of every box row: six spaces, the frame and two spaces. */
  const Margin := "      │  "

  const ConventionalCommits := "Conventional Commits"
  const RepositoryUrl := "https://github.com/hsuanxyz/commit-gpt"
  const ChineseName := "中文"
  const EnglishName := "English"

  /**
   * The lead of the Chinese welcome line, up to the link, in pieces: the
   * verifier measures the width of a short literal cheaply, so each piece
   * is measured on its own and the widths are added up.
   */
  const ZhGreeting := "欢迎使用"
  const ZhProductName := " Commit-GPT, "
  const ZhPromise := "它会根据输入的"
  const ZhPromiseEnd := "描述生成几条符合"
  const ZhGap := " "
  const ZhWelcomeLead := ZhGreeting + ZhProductName + ZhPromise + ZhPromiseEnd + ZhGap

  const EnTop := "      ┌──README───────────────────────────────────────────────────────────────────────────┐"
  const EnBlank := "      │                                                                                   │"
  const EnBottom := "      └───────────────────────────────────────────────────────────────────────────────────┘"
  const ZhTop := "      ┌──README─────────────────────────────────────────────────────────────────────────┐"
  const ZhBlank := "      │                                                                                 │"
  const ZhBottom := "      └─────────────────────────────────────────────────────────────────────────────────┘"

  /** The English banner, one string per buffer line, starting at line 1. */
  const EnRows: seq<string> := [
    EnTop,
    EnBlank,
    "      │  Welcome to Commit-GPT, which will generate several commit messages that conform  │",
    Margin + "to the " + ConventionalCommits + " specification using the input description.           │",
    EnBlank,
    "      │  Happy coding.                                                                    │",
    EnBlank,
    Margin + "Github: " + RepositoryUrl + "                                   │",
    EnBlank,
    Margin + "English / " + ChineseName + "                                                                   │",
    EnBottom,
    ""
  ]

  /** The Chinese banner, one string per buffer line, starting at line 1. */
  const ZhRows: seq<string> := [
    ZhTop,
    ZhBlank,
    Margin + ZhWelcomeLead + ConventionalCommits + " 规范  │",
    "      │  的 Commit 消息。                                                               │",
    ZhBlank,
    "      │  Happy coding.                                                                  │",
    ZhBlank,
    Margin + "Github: " + RepositoryUrl + "                                 │",
    ZhBlank,
    Margin + EnglishName + " / 中文                                                                 │",
    ZhBottom,
    ""
  ]

  /** The banner for `lang`; a language other than `en` and `zh` prints none. */
  function Rows(lang: JsStr): seq<string> {
    if lang == En then EnRows else if lang == Zh then ZhRows else []
  }

  /** What clicking a link does. */
  datatype Action = OpenUrl(url: string) | SwitchLanguage(target: JsStr)

  /** A link: its text, its 1-based inclusive cell range, and its action. */
  datatype Link = Link(text: string, startX: int, startY: int, endX: int, endY: int, action: Action)

  const ConventionalCommitsSite := "https://www.conventionalcommits.org/"

  /** The link on buffer line `line`, if any; every language but `en` uses the Chinese table. */
  function LinkAt(lang: JsStr, line: int): (r: Option<Link>)
    ensures r.Some? ==> r.value.startY == line && r.value.endY == line && r.value.startX <= r.value.endX
  {
    if lang == En then
      if line == 4 then Some(Link(ConventionalCommits, 17, 4, 36, 4, OpenUrl(ConventionalCommitsSite)))
      else if line == 8 then Some(Link(RepositoryUrl, 18, 8, 55, 8, OpenUrl(RepositoryUrl)))
      else if line == 10 then Some(Link(ChineseName, 20, 10, 23, 10, SwitchLanguage(Zh)))
      else None
    else
      if line == 3 then Some(Link(ConventionalCommits, 62, 3, 81, 3, OpenUrl(ConventionalCommitsSite)))
      else if line == 8 then Some(Link(RepositoryUrl, 18, 8, 55, 8, OpenUrl(RepositoryUrl)))
      else if line == 10 then Some(Link(EnglishName, 10, 10, 16, 10, SwitchLanguage(En)))
      else None
  }

  /**
   * The calls `provideLinks` makes to its callback for `line`: the link
   * once, or `undefined` twice (once in the `default` branch and once more
   * after the `switch`).
   */
  function ProvideLinks(lang: JsStr, line: int): seq<Option<seq<Link>>> {
    match LinkAt(lang, line)
    case Some(l) => [Some([l])]
    case None => [None, None]
  }

  /** Exactly lines 4, 8 and 10 carry a link in English, and lines 3, 8 and 10 in any other language. */
  lemma AnchorLines(lang: JsStr, line: int)
    ensures lang == En ==> (LinkAt(lang, line).Some? <==> line == 4 || line == 8 || line == 10)
    ensures lang != En ==> (LinkAt(lang, line).Some? <==> line == 3 || line == 8 || line == 10)
    ensures |ProvideLinks(lang, line)| == (if LinkAt(lang, line).Some? then 1 else 2)
    ensures forall c :: c in ProvideLinks(lang, line) ==>
      (c.Some? <==> LinkAt(lang, line).Some?) && (c.Some? ==> |c.value| == 1 && c.value[0].startY == line)
  {
  }

  /** The language link leads to the other language, and from any unknown language to English. */
  lemma LanguageLinkSwitches(lang: JsStr, line: int)
    requires LinkAt(lang, line).Some? && LinkAt(lang, line).value.action.SwitchLanguage?
    ensures line == 10
    ensures LinkAt(lang, line).value.action.target == (if lang == En then Zh else En)
  {
  }

  /** `text` appears in `row` starting at cell `x` (1-based). */
  predicate ShownAt(row: string, text: string, x: int) {
    exists k :: 0 <= k && k + |text| <= |row| && row[k..k + |text|] == text && Width(row[..k]) == x - 1
  }

  /** Text placed after a prefix of `x - 1` cells starts at cell `x`. */
  lemma ShownAfter(p: string, text: string, s: string, x: int)
    requires Width(p) == x - 1
    ensures ShownAt(p + text + s, text, x)
  {
    var row := p + text + s;
    assert row[..|p|] == p;
    assert row[|p|..|p| + |text|] == text;
  }

  lemma ConventionalCommitsWidth()
    ensures Width(ConventionalCommits) == 20
  {
    NarrowWidth("Conventional Commits");
  }

  lemma RepositoryUrlWidth()
    ensures Width(RepositoryUrl) == 38
  {
    NarrowWidth("https://github.com/hsuanxyz/commit-gpt");
  }

  lemma ChineseNameWidth()
    ensures Width(ChineseName) == 4
  {
    WideWidth("中文");
  }

  lemma EnglishNameWidth()
    ensures Width(EnglishName) == 7
  {
    NarrowWidth("English");
  }

  /** Each range is as wide as its text: the columns count cells, not characters. */
  lemma RangeWidthIsTextWidth(lang: JsStr, line: int)
    requires LinkAt(lang, line).Some?
    ensures var l := LinkAt(lang, line).value; Width(l.text) == l.endX - l.startX + 1
  {
    var l := LinkAt(lang, line).value;
    if line == 8 {
      assert l.text == RepositoryUrl && l.endX - l.startX + 1 == 38;
      RepositoryUrlWidth();
    } else if line == 10 && lang == En {
      assert l.text == ChineseName && l.endX - l.startX + 1 == 4;
      ChineseNameWidth();
    } else if line == 10 {
      assert l.text == EnglishName && l.endX - l.startX + 1 == 7;
      EnglishNameWidth();
    } else {
      assert l.text == ConventionalCommits && l.endX - l.startX + 1 == 20;
      ConventionalCommitsWidth();
    }
  }

  lemma WidthAppend5(a: string, b: string, c: string, d: string, e: string, w: int)
    requires Width(a) + Width(b) + Width(c) + Width(d) + Width(e) == w
    ensures Width(a + b + c + d + e) == w
  {
    WidthAppend(a, b);
    WidthAppend(a + b, c);
    WidthAppend(a + b + c, d);
    WidthAppend(a + b + c + d, e);
  }

  lemma ZhGreetingWidth()
    ensures Width(ZhGreeting) == 8
  {
    WideWidth("欢迎使用");
  }

  lemma ZhProductNameWidth()
    ensures Width(ZhProductName) == 13
  {
    NarrowWidth(" Commit-GPT, ");
  }

  lemma ZhPromiseWidth()
    ensures Width(ZhPromise) == 14
  {
    WideWidth("它会根据输入的");
  }

  lemma ZhPromiseEndWidth()
    ensures Width(ZhPromiseEnd) == 16
  {
    WideWidth("描述生成几条符合");
  }

  lemma ZhWelcomeLeadWidth()
    ensures Width(ZhWelcomeLead) == 52
  {
    ZhGreetingWidth();
    ZhProductNameWidth();
    ZhPromiseWidth();
    ZhPromiseEndWidth();
    ZhGapWidth();
    assert Width(ZhGreeting) + Width(ZhProductName) + Width(ZhPromise) + Width(ZhPromiseEnd) + Width(ZhGap) == 52;
    WidthAppend5(ZhGreeting, ZhProductName, ZhPromise, ZhPromiseEnd, ZhGap, 52);
  }
  lemma ZhGapWidth()
    ensures Width(ZhGap) == 1
  {
    NarrowWidth(" ");
  }

  lemma EnglishLead4Width()
    ensures Width(Margin + "to the ") == 16
  {
    assert Margin + "to the " == "      │  to the ";
    NarrowWidth("      │  to the ");
  }

  lemma GithubLeadWidth()
    ensures Width(Margin + "Github: ") == 17
  {
    assert Margin + "Github: " == "      │  Github: ";
    NarrowWidth("      │  Github: ");
  }

  lemma EnglishLead10Width()
    ensures Width(Margin + "English / ") == 19
  {
    assert Margin + "English / " == "      │  English / ";
    NarrowWidth("      │  English / ");
  }

  lemma MarginWidth()
    ensures Width(Margin) == 9
  {
    NarrowWidth("      │  ");
  }

  lemma ChineseLead3Width()
    ensures Width(Margin + ZhWelcomeLead) == 61
  {
    MarginWidth();
    ZhWelcomeLeadWidth();
    WidthAppend(Margin, ZhWelcomeLead);
  }

  /** English line 4: "Conventional Commits" after a prefix of 16 cells. */
  lemma EnglishLine4()
    ensures ShownAt(EnRows[3], ConventionalCommits, 17)
  {
    EnglishLead4Width();
    ShownAfter(Margin + "to the ", ConventionalCommits, " specification using the input description.           │", 17);
  }

  /** English line 8: the repository address after a prefix of 17 cells. */
  lemma EnglishLine8()
    ensures ShownAt(EnRows[7], RepositoryUrl, 18)
  {
    GithubLeadWidth();
    ShownAfter(Margin + "Github: ", RepositoryUrl, "                                   │", 18);
  }

  /** English line 10: "中文" after a prefix of 19 cells. */
  lemma EnglishLine10()
    ensures ShownAt(EnRows[9], ChineseName, 20)
  {
    EnglishLead10Width();
    ShownAfter(Margin + "English / ", ChineseName, "                                                                   │", 20);
  }

  /** Chinese line 3: "Conventional Commits" after a prefix of 61 cells. */
  lemma ChineseLine3()
    ensures ShownAt(ZhRows[2], ConventionalCommits, 62)
  {
    ChineseLead3Width();
    ShownAfter(Margin + ZhWelcomeLead, ConventionalCommits, " 规范  │", 62);
  }

  /** Chinese line 8: the repository address after a prefix of 17 cells. */
  lemma ChineseLine8()
    ensures ShownAt(ZhRows[7], RepositoryUrl, 18)
  {
    GithubLeadWidth();
    ShownAfter(Margin + "Github: ", RepositoryUrl, "                                 │", 18);
  }

  /** Chinese line 10: "English" after the 9-cell margin. */
  lemma ChineseLine10()
    ensures ShownAt(ZhRows[9], EnglishName, 10)
  {
    MarginWidth();
    ShownAfter(Margin, EnglishName, " / 中文                                                                 │", 10);
  }

  /** Each English link covers exactly the cells where its text is printed in the English banner. */
  lemma EnglishAnchorsMatchBanner(line: int)
    requires LinkAt(En, line).Some?
    ensures 1 <= line <= |EnRows|
    ensures var l := LinkAt(En, line).value; ShownAt(EnRows[line - 1], l.text, l.startX)
  {
    if line == 4 {
      EnglishLine4();
    } else if line == 8 {
      EnglishLine8();
    } else {
      EnglishLine10();
    }
  }

  /** Each Chinese link covers exactly the cells where its text is printed in the Chinese banner. */
  lemma ChineseAnchorsMatchBanner(line: int)
    requires LinkAt(Zh, line).Some?
    ensures 1 <= line <= |ZhRows|
    ensures var l := LinkAt(Zh, line).value; ShownAt(ZhRows[line - 1], l.text, l.startX)
  {
    if line == 3 {
      ChineseLine3();
    } else if line == 8 {
      ChineseLine8();
    } else {
      ChineseLine10();
    }
  }

  /**
   * For the two languages with a banner, every link lies on a printed row,
   * over exactly the cells its text occupies there.
   */
  lemma AnchorsMatchBanner(lang: JsStr, line: int)
    requires (lang == En || lang == Zh) && LinkAt(lang, line).Some?
    ensures 1 <= line <= |Rows(lang)|
    ensures var l := LinkAt(lang, line).value;
      ShownAt(Rows(lang)[line - 1], l.text, l.startX) && Width(l.text) == l.endX - l.startX + 1
  {
    RangeWidthIsTextWidth(lang, line);
    if lang == En {
      EnglishAnchorsMatchBanner(line);
    } else {
      ChineseAnchorsMatchBanner(line);
    }
  }

  /**
   * A stored language other than `en` and `zh` prints no banner, yet the
   * Chinese links are still offered on lines 3, 8 and 10.
   */
  lemma UnknownLanguageKeepsChineseLinks(lang: JsStr, line: int)
    requires lang != En && lang != Zh
    ensures Rows(lang) == []
    ensures LinkAt(lang, line) == LinkAt(Zh, line)
  {
  }
}

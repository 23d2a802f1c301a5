/**
 * The addon that turns conventional-commit lines in the terminal output
 * into click-to-copy links: the recognizer `strictUrlRegex`, the choice
 * of pattern and handler when the addon is built, and its
 * activate/dispose life cycle.
 */
module CommitLinks {
  import opened Wrappers
  import opened JsText

  /**
   * The eleven commit types that the pattern accepts, in its own order.
   * They are spelled as code units rather than through `Units` on string
   * literals so that the recogniser proofs see the values directly instead
   * of unfolding eleven conversions.
   */
  const CommitTypes: seq<JsStr> := [
    [0x62, 0x75, 0x69, 0x6C, 0x64],  // build
    [0x63, 0x68, 0x6F, 0x72, 0x65],  // chore
    [0x63, 0x69],  // ci
    [0x64, 0x6F, 0x63, 0x73],  // docs
    [0x66, 0x65, 0x61, 0x74],  // feat
    [0x66, 0x69, 0x78],  // fix
    [0x70, 0x65, 0x72, 0x66],  // perf
    [0x72, 0x65, 0x66, 0x61, 0x63, 0x74, 0x6F, 0x72],  // refactor
    [0x72, 0x65, 0x76, 0x65, 0x72, 0x74],  // revert
    [0x73, 0x74, 0x79, 0x6C, 0x65],  // style
    [0x74, 0x65, 0x73, 0x74]   // test
  ]

  /** The literal `": "` that must follow the type or the scope. */
  const Separator: JsStr := [0x3A, 0x20]

  const OpenParen: CodeUnit := 0x28
  const CloseParen: CodeUnit := 0x29

  /** `w` occurs in `s` starting at index `i`. */
  predicate Occurs(s: JsStr, i: int, w: JsStr) {
    0 <= i && i + |w| <= |s| && s[i..i + |w|] == w
  }

  /** The code units that `.` does not match. */
  predicate IsLineTerminator(c: CodeUnit) {
    c == 0x0A || c == 0x0D || c == 0x2028 || c == 0x2029
  }

  /** `\(.*\): ` with the `(` at `j` and the `)` at `m`: the scope holds no line terminator. */
  predicate ScopeThenSeparator(s: JsStr, j: int, m: int) {
    && 0 <= j < m < |s|
    && s[j] == OpenParen && s[m] == CloseParen
    && (forall p :: j < p < m ==> !IsLineTerminator(s[p]))
    && Occurs(s, m + 1, Separator)
  }

  /** `(\(.*\))?: ` at index `j`: the optional scope, then the separator. */
  predicate TailAt(s: JsStr, j: int) {
    || Occurs(s, j, Separator)
    || exists m :: j < m < |s| && ScopeThenSeparator(s, j, m)
  }

  /**
   * The pattern `(t1|t2|...)(\(.*\))?: .*` over the alternatives `types`
   * matches starting at index `i`; the trailing `.*` accepts anything, even
   * nothing.
   */
  predicate MatchesAt(types: seq<JsStr>, s: JsStr, i: int) {
    exists t :: t in types && Occurs(s, i, t) && TailAt(s, i + |t|)
  }

  /** `re.test(line)` for that unanchored, case-sensitive pattern: some position starts a match. */
  predicate PatternTest(types: seq<JsStr>, s: JsStr) {
    exists i :: 0 <= i < |s| && MatchesAt(types, s, i)
  }

  /** `strictUrlRegex.test(line)`. */
  predicate StrictTest(s: JsStr) {
    PatternTest(CommitTypes, s)
  }

  /** The last letters of the commit types: d, e, f, i, r, s, t and x. */
  const TypeEndings: set<CodeUnit> := {0x64, 0x65, 0x66, 0x69, 0x72, 0x73, 0x74, 0x78}

  /** No alternative is empty. */
  predicate NoEmptyAlternative(types: seq<JsStr>) {
    forall t :: t in types ==> t != []
  }

  /** Every commit type is two to eight lower-case ASCII letters. */
  lemma CommitTypeShape()
    ensures NoEmptyAlternative(CommitTypes)
    ensures forall t :: t in CommitTypes ==> 2 <= |t| <= 8 && forall k :: 0 <= k < |t| ==> 0x61 <= t[k] <= 0x7A
  {
  }

  /** Every commit type ends in one of `TypeEndings`. */
  lemma CommitTypeEndings()
    ensures EndIn(CommitTypes, TypeEndings)
  {
  }

  /**
   * The `": "` at `j` closes a header: an alternative starts at some `i`
   * and either ends right at `j`, or is followed by a scope `(...)` without
   * line terminators whose `)` sits just before `j`.
   */
  predicate TypedSeparatorAt(types: seq<JsStr>, s: JsStr, j: int) {
    && Occurs(s, j, Separator)
    && exists t, i :: t in types && 0 <= i <= j && Occurs(s, i, t)
         && (i + |t| == j || ScopeThenSeparator(s, i + |t|, j - 1))
  }

  /**
   * A match always contains a `": "` that closes a header, and the unit
   * before it is a `)` or the last unit of an alternative ending there.
   */
  lemma MatchHasTypedSeparator(types: seq<JsStr>, s: JsStr)
    requires NoEmptyAlternative(types)
    requires PatternTest(types, s)
    ensures exists j :: TypedSeparatorAt(types, s, j)
    ensures exists j :: (Occurs(s, j, Separator) && 0 < j
      && (s[j - 1] == CloseParen || exists t :: t in types && Occurs(s, j - |t|, t)))
  {
    var i :| 0 <= i < |s| && MatchesAt(types, s, i);
    var t :| t in types && Occurs(s, i, t) && TailAt(s, i + |t|);
    if !Occurs(s, i + |t|, Separator) {
      var m :| i + |t| < m < |s| && ScopeThenSeparator(s, i + |t|, m);
      assert (m + 1) - 1 == m;
      assert TypedSeparatorAt(types, s, m + 1);
      assert Occurs(s, m + 1, Separator) && s[m] == CloseParen;
    } else {
      assert TypedSeparatorAt(types, s, i + |t|);
      assert Occurs(s, (i + |t|) - |t|, t);
    }
  }

  /** Conversely, a `": "` that closes a header makes the line match. */
  lemma TypedSeparatorMatches(types: seq<JsStr>, s: JsStr, j: int)
    requires TypedSeparatorAt(types, s, j)
    ensures PatternTest(types, s)
  {
    var t, i :| t in types && Occurs(s, i, t)
      && (i + |t| == j || ScopeThenSeparator(s, i + |t|, j - 1));
    if i + |t| != j {
      assert ScopeThenSeparator(s, i + |t|, j - 1);
    }
    assert TailAt(s, i + |t|);
    assert MatchesAt(types, s, i);
  }

  /**
   * The same fact turned round, used to reject a line: if no `": "`
   * directly follows a `)` or an alternative, the line does not match.
   */
  lemma RejectWithoutTypedSeparator(types: seq<JsStr>, s: JsStr)
    requires NoEmptyAlternative(types)
    requires forall j :: Occurs(s, j, Separator) && 0 < j ==>
      s[j - 1] != CloseParen && forall t :: t in types ==> !Occurs(s, j - |t|, t)
    ensures !PatternTest(types, s)
  {
    forall i | 0 <= i < |s| ensures !MatchesAt(types, s, i) {
      forall t | t in types && Occurs(s, i, t) ensures !TailAt(s, i + |t|) {
        var j := i + |t|;
        assert j - |t| == i;
        forall m | j < m < |s| && Occurs(s, m + 1, Separator) ensures !ScopeThenSeparator(s, j, m) {
          assert s[m] != CloseParen;
        }
      }
    }
  }

  /** A header without a scope, `type: subject`, matches. */
  lemma HeaderMatches(types: seq<JsStr>, t: JsStr, subject: JsStr)
    requires t in types
    ensures PatternTest(types, t + Separator + subject)
  {
    var s := t + Separator + subject;
    assert s[0..|t|] == t;
    assert s[|t|..|t| + 2] == Separator;
    assert MatchesAt(types, s, 0);
  }

  /** A header with a scope, `type(scope): subject`, matches when the scope holds no line terminator. */
  lemma ScopedHeaderMatches(types: seq<JsStr>, t: JsStr, scope: JsStr, subject: JsStr)
    requires t in types
    requires forall k :: 0 <= k < |scope| ==> !IsLineTerminator(scope[k])
    ensures PatternTest(types, t + [OpenParen] + scope + [CloseParen] + Separator + subject)
  {
    var s := t + [OpenParen] + scope + [CloseParen] + Separator + subject;
    var j, m := |t|, |t| + 1 + |scope|;
    assert s[0..|t|] == t;
    assert s[m + 1..m + 3] == Separator;
    forall p | j < p < m ensures !IsLineTerminator(s[p]) {
      assert s[p] == scope[p - j - 1];
    }
    assert ScopeThenSeparator(s, j, m);
    assert MatchesAt(types, s, 0);
  }

  /** `s` sits inside `w` starting at index `d`. */
  predicate Window(w: JsStr, d: int, s: JsStr) {
    0 <= d && d + |s| <= |w| && w[d..d + |s|] == s
  }

  /** An occurrence inside `s` is still one, shifted by `d`, inside a `w` that holds `s` at `d`. */
  lemma OccursInWindow(w: JsStr, d: int, s: JsStr, i: int, v: JsStr)
    requires Window(w, d, s) && Occurs(s, i, v)
    ensures Occurs(w, d + i, v)
  {
    forall k | 0 <= k < |v| ensures w[d + i + k] == v[k] {
      assert w[d..d + |s|][i + k] == s[i + k];
    }
  }

  /** A scope and separator inside `s` are still there, shifted, inside `w`. */
  lemma ScopeInWindow(w: JsStr, d: int, s: JsStr, j: int, m: int)
    requires Window(w, d, s) && ScopeThenSeparator(s, j, m)
    ensures ScopeThenSeparator(w, d + j, d + m)
  {
    OccursInWindow(w, d, s, m + 1, Separator);
    forall p | d + j < p < d + m ensures !IsLineTerminator(w[p]) {
      assert w[p] == s[p - d];
    }
    assert w[d + j] == s[j] && w[d + m] == s[m];
  }

  /** The optional scope and the separator survive in the same way. */
  lemma TailInWindow(w: JsStr, d: int, s: JsStr, j: int)
    requires Window(w, d, s) && TailAt(s, j)
    ensures TailAt(w, d + j)
  {
    if Occurs(s, j, Separator) {
      OccursInWindow(w, d, s, j, Separator);
    } else {
      var m :| j < m < |s| && ScopeThenSeparator(s, j, m);
      ScopeInWindow(w, d, s, j, m);
    }
  }

  /** A match starting at `i` in `s` starts, shifted, at `d + i` in `w`. */
  lemma MatchAtInWindow(types: seq<JsStr>, w: JsStr, d: int, s: JsStr, i: int)
    requires Window(w, d, s) && MatchesAt(types, s, i)
    ensures MatchesAt(types, w, d + i)
  {
    var t :| t in types && Occurs(s, i, t) && TailAt(s, i + |t|);
    var j := i + |t|;
    OccursInWindow(w, d, s, i, t);
    TailInWindow(w, d, s, j);
    MatchesAtIntro(types, w, d + i, t);
  }

  /** A listed type followed by its tail is a match. */
  lemma MatchesAtIntro(types: seq<JsStr>, s: JsStr, i: int, t: JsStr)
    requires t in types && Occurs(s, i, t) && TailAt(s, i + |t|)
    ensures MatchesAt(types, s, i)
  {
  }

  /** The pattern is unanchored: text before or after a matching line keeps it matching. */
  lemma MatchSurvivesContext(types: seq<JsStr>, pre: JsStr, s: JsStr, post: JsStr)
    requires PatternTest(types, s)
    ensures PatternTest(types, pre + s + post)
  {
    var w := pre + s + post;
    assert w[|pre|..|pre| + |s|] == s;
    var i :| 0 <= i < |s| && MatchesAt(types, s, i);
    MatchAtInWindow(types, w, |pre|, s, i);
  }

  /** "fix: x" matches. */
  lemma AcceptsFix()
    ensures StrictTest(Units("fix: x"))
  {
    assert CommitTypes[5] == Units("fix");
    assert Units("fix: x") == Units("fix") + Separator + Units("x");
    HeaderMatches(CommitTypes, Units("fix"), Units("x"));
  }

  /** "feat(ui): add y" matches through its scope. */
  lemma AcceptsScopedFeat()
    ensures StrictTest(Units("feat(ui): add y"))
  {
    var feat, ui, subject := Units("feat"), Units("ui"), Units("add y");
    assert "feat(ui): add y" == "feat(ui)" + ": add y";
    UnitsAppend("feat(ui)", ": add y");
    assert Units("feat(ui)") == feat + [OpenParen] + ui + [CloseParen];
    assert Units(": add y") == Separator + subject;
    assert Units("feat(ui): add y") == feat + [OpenParen] + ui + [CloseParen] + Separator + subject;
    assert CommitTypes[4] == feat;
    ScopedHeaderMatches(CommitTypes, feat, ui, subject);
  }

  /** Unanchored: "prefix: a" matches through the substring "fix: a". */
  lemma AcceptsInsideWord()
    ensures StrictTest(Units("prefix: a"))
  {
    var fix, line := Units("fix"), Units("fix: a");
    assert line == fix + Separator + Units("a");
    assert "prefix: a" == "pre" + "fix: a";
    UnitsAppend("pre", "fix: a");
    assert Units("prefix: a") == Units("pre") + line + [];
    assert CommitTypes[5] == fix;
    HeaderMatches(CommitTypes, fix, Units("a"));
    MatchSurvivesContext(CommitTypes, Units("pre"), line, []);
  }

  /** The space after the colon is required: "fix:x" does not match. */
  lemma RejectsMissingSpace()
    ensures !StrictTest(Units("fix:x"))
  {
    var s := Units("fix:x");
    assert s == [0x66, 0x69, 0x78, 0x3A, 0x78];
    forall j | 0 <= j && j + 2 <= |s| ensures !Occurs(s, j, Separator) {
      assert s[j + 1] != 0x20;
    }
    CommitTypeShape();
    RejectWithoutTypedSeparator(CommitTypes, s);
  }

  /** Every alternative is non-empty and its last unit is in `endings`. */
  predicate EndIn(types: seq<JsStr>, endings: set<CodeUnit>) {
    forall t :: t in types ==> t != [] && t[|t| - 1] in endings
  }

  /** The only `:` in `s` is at index `j`. */
  predicate SoleColonAt(s: JsStr, j: int) {
    forall k :: 0 <= k < |s| && s[k] == Separator[0] ==> k == j
  }

  /** No alternative ends right before index `j`. */
  predicate NoTypeEndsAt(types: seq<JsStr>, s: JsStr, j: int) {
    forall t :: t in types ==> !Occurs(s, j - |t|, t)
  }

  /** An occurrence of a non-empty `t` ending at `k` ends with the unit before `k`. */
  lemma LastUnitOfOccurrence(s: JsStr, k: int, t: JsStr)
    requires t != []
    ensures Occurs(s, k - |t|, t) ==> t[|t| - 1] == s[k - 1]
  {
    if Occurs(s, k - |t|, t) {
      assert t[|t| - 1] == s[k - |t|..k][|t| - 1];
    }
  }

  /** If the unit before `j` ends no alternative, no alternative ends at `j`. */
  lemma EndingsRuleOut(endings: set<CodeUnit>, s: JsStr, j: int)
    requires 0 < j <= |s| && s[j - 1] !in endings
    ensures forall types :: EndIn(types, endings) ==> NoTypeEndsAt(types, s, j)
  {
    forall types, t | EndIn(types, endings) && t in types ensures !Occurs(s, j - |t|, t) {
      LastUnitOfOccurrence(s, j, t);
    }
  }

  /**
   * A line whose only `:` sits at `j`, right after a unit that is not a
   * `)` and where no alternative ends, does not match.
   */
  lemma RejectAtSoleColon(types: seq<JsStr>, s: JsStr, j: int)
    requires NoEmptyAlternative(types)
    requires SoleColonAt(s, j)
    requires 0 < j <= |s| && s[j - 1] != CloseParen
    requires NoTypeEndsAt(types, s, j)
    ensures !PatternTest(types, s)
  {
    forall k | Occurs(s, k, Separator) && 0 < k
      ensures s[k - 1] != CloseParen && forall t :: t in types ==> !Occurs(s, k - |t|, t)
    {
      assert s[k] == s[k..k + 2][0] == Separator[0];
    }
    RejectWithoutTypedSeparator(types, s);
  }

  /** The same, for every pattern at once. */
  lemma RejectAtSoleColonForAll(s: JsStr, j: int)
    requires SoleColonAt(s, j)
    requires 0 < j <= |s| && s[j - 1] != CloseParen
    ensures forall types :: NoEmptyAlternative(types) && NoTypeEndsAt(types, s, j) ==> !PatternTest(types, s)
  {
    forall types | NoEmptyAlternative(types) && NoTypeEndsAt(types, s, j) ensures !PatternTest(types, s) {
      RejectAtSoleColon(types, s, j);
    }
  }

  /** The separator must follow the `)` directly: "feat(ui) : y" does not match. */
  lemma RejectsSpaceBeforeColon()
    ensures !StrictTest(Units("feat(ui) : y"))
  {
    var s := Units("feat(ui) : y");
    assert s == [0x66, 0x65, 0x61, 0x74, 0x28, 0x75, 0x69, 0x29, 0x20, 0x3A, 0x20, 0x79];
    assert SoleColonAt(s, 9);
    EndingsRuleOut(TypeEndings, s, 9);
    RejectAtSoleColonForAll(s, 9);
    CommitTypeEndings();
    CommitTypeShape();
  }

  /** The only commit types of at most three letters are `ci` and `fix`. */
  lemma ShortCommitTypes()
    ensures forall t :: t in CommitTypes && |t| <= 3 ==> t == [0x63, 0x69] || t == [0x66, 0x69, 0x78]
  {
  }

  /** The only commit types ending in `e` are `chore` and `style`. */
  lemma CommitTypesEndingInE()
    ensures forall t :: t in CommitTypes && t != [] && t[|t| - 1] == 0x65 ==>
      t == [0x63, 0x68, 0x6F, 0x72, 0x65] || t == [0x73, 0x74, 0x79, 0x6C, 0x65]
  {
  }

  /** Every alternative has at least two units. */
  predicate NoShortAlternative(types: seq<JsStr>) {
    forall t :: t in types ==> |t| >= 2
  }

  /** Of alternatives with at least two units, only `ci` and `fix` being short, none ends "Fix". */
  lemma NoTypeEndsFix(types: seq<JsStr>, s: JsStr)
    requires NoShortAlternative(types)
    requires forall t :: t in types && |t| <= 3 ==> t == [0x63, 0x69] || t == [0x66, 0x69, 0x78]
    requires s == [0x46, 0x69, 0x78, 0x3A, 0x20, 0x78]
    ensures NoTypeEndsAt(types, s, 3)
  {
    assert s[0..3] == [0x46, 0x69, 0x78] && s[1..3] == [0x69, 0x78];
  }

  /** Of alternatives with at least two units, only `chore` and `style` ending in `e`, none ends "feature". */
  lemma NoTypeEndsFeature(types: seq<JsStr>, s: JsStr)
    requires NoShortAlternative(types)
    requires forall t :: t in types && t != [] && t[|t| - 1] == 0x65 ==>
      t == [0x63, 0x68, 0x6F, 0x72, 0x65] || t == [0x73, 0x74, 0x79, 0x6C, 0x65]
    requires s == [0x66, 0x65, 0x61, 0x74, 0x75, 0x72, 0x65, 0x3A, 0x20, 0x78]
    ensures NoTypeEndsAt(types, s, 7)
  {
    assert s[2..7] == [0x61, 0x74, 0x75, 0x72, 0x65];
    forall t | t in types ensures !Occurs(s, 7 - |t|, t) {
      LastUnitOfOccurrence(s, 7, t);
    }
  }

  /** Every commit type has at least two letters. */
  lemma CommitTypesNotShort()
    ensures NoShortAlternative(CommitTypes) && NoEmptyAlternative(CommitTypes)
  {
  }

  /** Matching is case-sensitive: "Fix: x" does not match. */
  lemma RejectsCapitalType()
    ensures !StrictTest(Units("Fix: x"))
  {
    var s := Units("Fix: x");
    assert s == [0x46, 0x69, 0x78, 0x3A, 0x20, 0x78];
    assert SoleColonAt(s, 3);
    RejectAtSoleColonForAll(s, 3);
    CommitTypesNotShort();
    ShortCommitTypes();
    NoTypeEndsFix(CommitTypes, s);
  }

  /** Only the eleven listed types are accepted: "feature: x" does not match. */
  lemma RejectsUnlistedType()
    ensures !StrictTest(Units("feature: x"))
  {
    var s := Units("feature: x");
    assert s == [0x66, 0x65, 0x61, 0x74, 0x75, 0x72, 0x65, 0x3A, 0x20, 0x78];
    assert SoleColonAt(s, 7);
    RejectAtSoleColonForAll(s, 7);
    CommitTypesNotShort();
    CommitTypesEndingInE();
    NoTypeEndsFeature(CommitTypes, s);
  }

  /** A link pattern: the default commit pattern, or a regular expression supplied through the options. */
  datatype Pattern = StrictCommit | CustomPattern(id: nat)

  /** What a click on a link does: the default copies the link text, a supplied handler is not part of this model. */
  datatype Handler = HandleLink | CustomHandler(id: nat)

  /** The options handed to the link provider; only `urlRegex` is read by the addon. */
  datatype LinkProviderOptions = LinkProviderOptions(urlRegex: Option<Pattern>)

  /** The effect of clicking a link whose text is `commit`. */
  datatype ClickEffect = CopyToClipboard(text: JsStr) | Delegated(id: nat, uri: JsStr)

  /** The pattern `activate` registers: the supplied `urlRegex` when there is one, else the commit pattern. */
  function SelectPattern(options: LinkProviderOptions): Pattern {
    if options.urlRegex.Some? then options.urlRegex.value else StrictCommit
  }

  /** Does `pattern` recognise `line`? Only the commit pattern is known here; a supplied one is the `custom` oracle. */
  predicate PatternMatches(pattern: Pattern, custom: (nat, JsStr) -> bool, line: JsStr) {
    match pattern
    case StrictCommit => StrictTest(line)
    case CustomPattern(id) => custom(id, line)
  }

  /** The default options make the provider recognise exactly the commit lines, whatever the oracle. */
  lemma DefaultOptionsRecogniseCommits(custom: (nat, JsStr) -> bool, line: JsStr)
    ensures PatternMatches(SelectPattern(LinkProviderOptions(None)), custom, line) <==> StrictTest(line)
  {
  }

  /** Clicking a link whose text is `commit`: the handler is given that text. */
  function Click(handler: Handler, commit: JsStr): ClickEffect {
    match handler
    case HandleLink => CopyToClipboard(commit)
    case CustomHandler(id) => Delegated(id, commit)
  }

  /** The disposable that `registerLinkProvider` hands back for one provider. */
  class LinkRegistration {
    const terminal: nat
    const pattern: Pattern
    const handler: Handler
    const options: LinkProviderOptions
    var disposed: bool

    constructor(terminal: nat, pattern: Pattern, handler: Handler, options: LinkProviderOptions)
      ensures this.terminal == terminal && this.pattern == pattern
      ensures this.handler == handler && this.options == options
      ensures !disposed
    {
      this.terminal := terminal;
      this.pattern := pattern;
      this.handler := handler;
      this.options := options;
      disposed := false;
    }

    /** Unregisters the provider; disposing twice is harmless. */
    method Dispose()
      modifies this
      ensures disposed
    {
      disposed := true;
    }
  }

  /** The terminal addon: it remembers its handler and options and registers one link provider per activation. */
  class CommitLinksAddon {
    const handler: Handler
    const options: LinkProviderOptions
    var terminal: Option<nat>
    var linkProvider: Option<LinkRegistration>

    /** Omitted arguments take the defaults: the clipboard handler and empty options. */
    constructor(handler: Option<Handler>, options: Option<LinkProviderOptions>)
      ensures this.handler == (if handler.Some? then handler.value else HandleLink)
      ensures this.options == (if options.Some? then options.value else LinkProviderOptions(None))
      ensures terminal.None? && linkProvider.None?
    {
      this.handler := if handler.Some? then handler.value else HandleLink;
      this.options := if options.Some? then options.value else LinkProviderOptions(None);
      terminal := None;
      linkProvider := None;
    }

    /**
     * Registers a fresh provider for `term` with the selected pattern; a
     * provider from an earlier activation is forgotten, not disposed.
     */
    method Activate(term: nat)
      modifies this
      ensures terminal == Some(term) && linkProvider.Some? && fresh(linkProvider.value)
      ensures linkProvider.value.terminal == term && !linkProvider.value.disposed
      ensures linkProvider.value.pattern == SelectPattern(options)
      ensures linkProvider.value.handler == handler && linkProvider.value.options == options
    {
      terminal := Some(term);
      var registration := new LinkRegistration(term, SelectPattern(options), handler, options);
      linkProvider := Some(registration);
    }

    /** Disposes the current provider, if any; before `Activate` it does nothing. */
    method Dispose()
      modifies if linkProvider.Some? then {linkProvider.value} else {}
      ensures linkProvider.Some? ==> linkProvider.value.disposed
    {
      if linkProvider.Some? {
        linkProvider.value.Dispose();
      }
    }
  }

  /**
   * An addon built without a handler copies exactly the clicked text, and
   * one built with a handler passes that text to it instead.
   */
  method ClickOnAddon(handler: Option<Handler>, commit: JsStr) returns (e: ClickEffect)
    ensures handler.None? || handler == Some(HandleLink) <==> e == CopyToClipboard(commit)
    ensures handler.Some? && handler.value.CustomHandler? ==> e == Delegated(handler.value.id, commit)
  {
    var addon := new CommitLinksAddon(handler, None);
    e := Click(addon.handler, commit);
  }
}

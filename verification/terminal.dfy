/**
 * The terminal session: the state the page keeps between keystrokes
 * (language, spinner, line being typed, command history and its cursor)
 * and what each keystroke, timer tick, service reply and link click does
 * to it. Every operation is a method of `Session` that updates its fields
 * in place; each is proved to take the state to the one a pure step
 * function describes, and the properties of the terminal are proved
 * about those step functions.
 *
 * Terminal output is kept as an append-only log of `Echo` items, one per
 * kind of write; colours and escape sequences are not modelled.
 */
module Terminal {
  import opened Wrappers
  import opened JsText
  import WordsCount
  import History
  import Response
  import Banner

  /** `loadingId` when no spinner runs. */
  const Idle: int := -1

  /** The keystroke data that have a meaning of their own. */
  const CursorUp: JsStr := [0x1B, 0x5B, 0x41]
  const CursorDown: JsStr := [0x1B, 0x5B, 0x42]
  const CtrlC: JsStr := [0x03]
  const EnterKey: JsStr := [0x0D]
  const Backspace: JsStr := [0x7F]

  /** The ten spinner glyphs, shown in turn. */
  const Frames := "⠋⠙⠹⠸⠼⠴⠦⠧⠇⠏"

  /** The font size picked from the window width at start-up. */
  function FontSize(width: int): (r: nat)
    ensures r == 6 || r == 7 || r == 11 || r == 14 || r == 16
    ensures width <= 375 ==> r == 6
    ensures width >= 1024 ==> r == 16
  {
    if 768 <= width < 1024 then 14
    else if 600 <= width < 768 then 11
    else if 425 <= width < 600 then 7
    else if width <= 375 then 6
    else 16
  }

  /**
   * The size grows with the width, except that widths 376 to 424 fall
   * through every bracket and get the largest size.
   */
  lemma FontSizeOrder(a: int, b: int)
    ensures a <= b && !(375 < a < 425) && !(375 < b < 425) ==> FontSize(a) <= FontSize(b)
    ensures 375 < a < 425 ==> FontSize(a) == 16 && FontSize(a) > FontSize(425)
  {
  }

  /** The filter on other keystroke data: `" " <= e <= "~"` or `e >= " "`, in string order. */
  predicate IsPrintable(e: JsStr) {
    (AtLeast(e, [0x20]) && AtMost(e, [0x7E])) || AtLeast(e, [0xA0])
  }

  /**
   * Only the first code unit of the data decides, except that data
   * starting with `~` must be exactly `~`.
   */
  lemma PrintableByFirstUnit(e: JsStr)
    ensures IsPrintable(e) <==> e != [] && (0x20 <= e[0] < 0x7E || e == [0x7E] || e[0] >= 0xA0)
  {
    CompareWithUnit(e, 0x20);
    CompareWithUnit(e, 0x7E);
    CompareWithUnit(e, 0xA0);
    if e != [] && e[0] == 0x7E && |e| == 1 {
      assert e == [0x7E];
    }
  }

  /** A pasted "ab" is typed in; "~x" and the cursor-right sequence are dropped. */
  lemma PrintableExamples()
    ensures IsPrintable([0x61, 0x62])
    ensures !IsPrintable([0x7E, 0x78])
    ensures !IsPrintable([0x1B, 0x5B, 0x43])
  {
    PrintableByFirstUnit([0x61, 0x62]);
    PrintableByFirstUnit([0x7E, 0x78]);
    PrintableByFirstUnit([0x1B, 0x5B, 0x43]);
  }

  /** One write to the terminal. */
  datatype Echo =
    | Cleared                            // the screen is cleared
    | EraseLine                          // the current line is erased
    | BannerShown(rows: seq<string>)     // the README banner
    | StatusLine                         // the `commit.hsuan.xyz $ commit` line
    | Instruction(lang: JsStr)           // how to use the page, in `lang`
    | Prompt                             // a new line and `> `
    | Recall(entry: JsStr)               // the line is replaced by `> ` and a history entry
    | Typed(data: JsStr)                 // keystroke data echoed as typed
    | RubOut                             // the last cell is blanked
    | Interrupt                          // `^C`
    | LineBreak                          // an empty line
    | Spinner(glyph: char, lang: JsStr)  // a spinner frame with its message
    | SuggestionsHeader(lang: JsStr)     // the line above the suggestions
    | SuggestionList(list: seq<JsStr>)   // the suggestions, one per line
    | ErrorLine(text: JsStr)             // the red error line

  /** Everything the session keeps. */
  datatype Snapshot = Snapshot(
    lang: JsStr,
    saved: Option<JsStr>,      // the language in local storage
    loadingId: int,            // the spinner's timer, or `Idle`
    nextTimer: int,            // the id the next timer gets
    frame: nat,                // how many spinner frames were shown
    input: JsStr,              // the line being typed
    stack: seq<JsStr>,         // the command history, oldest first
    stackIndex: int,           // the history cursor
    log: seq<Echo>,            // everything written so far
    pending: Option<JsStr>)    // the command awaiting its reply

  /** The states the session can be in. */
  predicate Valid(s: Snapshot) {
    && |s.stack| <= History.Capacity
    && 0 <= s.stackIndex <= |s.stack|
    && 1 <= s.nextTimer
    && (s.loadingId == Idle || 1 <= s.loadingId < s.nextTimer)
    && (s.pending.Some? <==> s.loadingId != Idle)
  }

  /** `b` continues `a`: nothing written is ever taken back. */
  predicate Extends(a: seq<Echo>, b: seq<Echo>) {
    |a| <= |b| && b[..|a|] == a
  }

  predicate HasBanner(lang: JsStr) {
    lang == Banner.En || lang == Banner.Zh
  }

  /** The writes of `setReadme`: banner and instruction only for `en` and `zh`. */
  function ReadmeEcho(lang: JsStr): (r: seq<Echo>)
    ensures |r| == if HasBanner(lang) then 6 else 4
    ensures r[0] == Cleared && r[|r| - 1] == Prompt
    ensures BannerShown(Banner.Rows(lang)) in r <==> HasBanner(lang)
    ensures Instruction(lang) in r <==> HasBanner(lang)
    ensures forall k :: 0 <= k < |r| && r[k].Instruction? ==> r[k].lang == lang
  {
    [Cleared, EraseLine]
    + (if HasBanner(lang) then [BannerShown(Banner.Rows(lang))] else [])
    + [StatusLine]
    + (if HasBanner(lang) then [Instruction(lang)] else [])
    + [Prompt]
  }

  /** The session as the page starts it: the stored language, or `en` when none is stored. */
  function Initial(saved: Option<JsStr>): Snapshot {
    var lang := if saved.Some? && saved.value != [] then saved.value else Banner.En;
    Snapshot(lang, saved, Idle, 1, 0, [], [], 0, ReadmeEcho(lang), None)
  }

  function SetLangStep(s: Snapshot, lang: JsStr): Snapshot {
    s.(lang := lang, saved := Some(lang))
  }

  function SetReadmeStep(s: Snapshot): Snapshot {
    s.(log := s.log + ReadmeEcho(s.lang))
  }

  function PushStep(s: Snapshot, v: JsStr): Snapshot {
    var stack := History.Push(s.stack, v);
    s.(stack := stack, stackIndex := |stack| - 1)
  }

  /** `loading(load)`: start a fresh spinner timer, or stop the running one. */
  function LoadingStep(s: Snapshot, load: bool): Snapshot {
    if !load then
      if s.loadingId != Idle then s.(loadingId := Idle, log := s.log + [EraseLine]) else s
    else
      s.(loadingId := s.nextTimer, nextTimer := s.nextTimer + 1, frame := 0)
  }

  /** One firing of the spinner timer; the frame counts only when a message is shown. */
  function TickStep(s: Snapshot): Snapshot
    requires s.loadingId != Idle
  {
    if HasBanner(s.lang) then
      s.(log := s.log + [EraseLine, Spinner(Frames[s.frame % |Frames|], s.lang)], frame := s.frame + 1)
    else
      s.(log := s.log + [EraseLine])
  }

  /** The part of `runCommand` before the reply: nothing for fewer than three words. */
  function RunCommandStep(s: Snapshot, text: JsStr): Snapshot {
    var command := Trim(text);
    if WordsCount.Count(command) < 3 then s
    else LoadingStep(s.(log := s.log + [LineBreak]), true).(pending := Some(command))
  }

  /** What `runCommand` writes for the reply once it is classified. */
  function ReplyEcho(lang: JsStr, o: Response.Outcome, typeErrorMessage: JsStr): seq<Echo> {
    if o.Suggestions? then
      (if HasBanner(lang) then [SuggestionsHeader(lang)] else []) + [SuggestionList(o.list)]
    else
      [ErrorLine(Response.ErrorText(o, typeErrorMessage))]
  }

  /** The rest of `runCommand`, once `response.json()` has given `data`. */
  function RespondStep(s: Snapshot, o: Response.Outcome, typeErrorMessage: JsStr): Snapshot
  {
    var t := LoadingStep(s, false);
    t.(log := t.log + ReplyEcho(s.lang, o, typeErrorMessage) + [Prompt], pending := None)
  }

  /** One `onData` event; `cursorX` is the cursor column the terminal reports. */
  function KeyStep(s: Snapshot, e: JsStr, cursorX: int): Snapshot {
    if s.loadingId != Idle then s
    else if e == CursorUp then
      if History.Recallable(s.stack, s.stackIndex) then
        s.(log := s.log + [Recall(s.stack[s.stackIndex])], stackIndex := History.Prev(s.stackIndex, |s.stack|))
      else s
    else if e == CursorDown then
      if History.Recallable(s.stack, s.stackIndex) then
        s.(log := s.log + [Recall(s.stack[s.stackIndex])], stackIndex := History.Next(s.stackIndex))
      else s
    else if e == CtrlC then
      s.(log := s.log + [Interrupt, Prompt])
    else if e == EnterKey then
      PushStep(RunCommandStep(s, s.input), s.input).(input := [])
    else if e == Backspace then
      if cursorX > 2 then
        s.(log := s.log + [RubOut], input := if |s.input| > 0 then s.input[..|s.input| - 1] else s.input)
      else s
    else if IsPrintable(e) then
      s.(input := s.input + e, log := s.log + [Typed(e)])
    else s
  }

  /** Clicking a link: only the language links act on the session, and only while idle. */
  function ActivateStep(s: Snapshot, action: Banner.Action): Snapshot {
    if action.SwitchLanguage? && s.loadingId == Idle then
      SetReadmeStep(SetLangStep(s, action.target))
    else s
  }

  /**
   * The session starts valid and idle, with an empty line and an empty
   * history, on its stored language or on `en`.
   */
  lemma InitialIsValid(saved: Option<JsStr>)
    ensures Valid(Initial(saved))
    ensures var s := Initial(saved);
      && s.loadingId == Idle && s.pending == None
      && s.input == [] && s.stack == [] && s.stackIndex == 0
    ensures Initial(saved).lang == (if saved.Some? && saved.value != [] then saved.value else Banner.En)
    ensures Initial(saved).log == ReadmeEcho(Initial(saved).lang)
  {
  }

  /** The five special keystrokes are told apart. */
  lemma KeysDistinct()
    ensures CursorUp != CursorDown && CursorUp != CtrlC && CursorUp != EnterKey && CursorUp != Backspace
    ensures CursorDown != CtrlC && CursorDown != EnterKey && CursorDown != Backspace
    ensures CtrlC != EnterKey && CtrlC != Backspace && EnterKey != Backspace
  {
    assert CursorUp[2] != CursorDown[2];
    assert CtrlC[0] != EnterKey[0] && CtrlC[0] != Backspace[0] && EnterKey[0] != Backspace[0];
  }

  /**
   * Sending a command touches neither the line nor the history; a line of
   * three words or more starts a fresh timer and becomes the pending request.
   */
  lemma RunCommandFacts(s: Snapshot, text: JsStr)
    ensures var r := RunCommandStep(s, text);
      && r.stack == s.stack && r.stackIndex == s.stackIndex && r.input == s.input && r.lang == s.lang
      && Extends(s.log, r.log)
      && (WordsCount.Count(Trim(text)) < 3 ==> r == s)
      && (WordsCount.Count(Trim(text)) >= 3 ==>
            r.loadingId == s.nextTimer && r.nextTimer == s.nextTimer + 1 && r.pending == Some(Trim(text)))
  {
  }

  /** Every keystroke keeps the session valid and only appends to the output. */
  lemma KeyStepKeepsValid(s: Snapshot, e: JsStr, cursorX: int)
    requires Valid(s)
    ensures Valid(KeyStep(s, e, cursorX))
    ensures Extends(s.log, KeyStep(s, e, cursorX).log)
  {
    if s.loadingId == Idle {
      KeysDistinct();
      if e == CursorUp || e == CursorDown {
        RecallKeepsValid(s, e, cursorX);
      } else if e == EnterKey {
        EnterKeepsValid(s, cursorX);
      } else {
        EditKeepsValid(s, e, cursorX);
      }
    }
  }

  /** Up and Down only move the cursor within the history and echo a line. */
  lemma RecallKeepsValid(s: Snapshot, e: JsStr, cursorX: int)
    requires Valid(s) && s.loadingId == Idle && (e == CursorUp || e == CursorDown)
    ensures Valid(KeyStep(s, e, cursorX))
    ensures Extends(s.log, KeyStep(s, e, cursorX).log)
  {
    History.CursorStaysInRange(s.stack, s.stackIndex);
  }

  /** Enter runs the line and stores it in the history. */
  lemma EnterKeepsValid(s: Snapshot, cursorX: int)
    requires Valid(s) && s.loadingId == Idle
    ensures Valid(KeyStep(s, EnterKey, cursorX))
    ensures Extends(s.log, KeyStep(s, EnterKey, cursorX).log)
  {
    KeysDistinct();
    var t := RunCommandStep(s, s.input);
    RunCommandFacts(s, s.input);
    assert KeyStep(s, EnterKey, cursorX) == PushStep(t, s.input).(input := []);
  }

  /** Ctrl+C, Backspace and typing only touch the line and the output. */
  lemma EditKeepsValid(s: Snapshot, e: JsStr, cursorX: int)
    requires Valid(s) && s.loadingId == Idle
    requires e != CursorUp && e != CursorDown && e != EnterKey
    ensures Valid(KeyStep(s, e, cursorX))
    ensures Extends(s.log, KeyStep(s, e, cursorX).log)
  {
  }

  /** While the spinner runs, every keystroke is ignored. */
  lemma IgnoredWhileLoading(s: Snapshot, e: JsStr, cursorX: int)
    requires s.loadingId != Idle
    ensures KeyStep(s, e, cursorX) == s
  {
  }

  /**
   * Enter always stores the raw line in the history and clears it, however
   * short it is; only a line of three words or more starts the spinner and
   * sends its trimmed text.
   */
  lemma EnterAlwaysPushes(s: Snapshot, cursorX: int)
    requires Valid(s) && s.loadingId == Idle
    ensures var r := KeyStep(s, EnterKey, cursorX);
      && r.stack == History.Push(s.stack, s.input)
      && r.stackIndex == |r.stack| - 1
      && r.input == []
      && (r.loadingId != Idle <==> WordsCount.Count(Trim(s.input)) >= 3)
      && (r.pending.Some? <==> WordsCount.Count(Trim(s.input)) >= 3)
      && (r.pending.Some? ==> r.pending.value == Trim(s.input))
  {
    KeysDistinct();
    RunCommandFacts(s, s.input);
  }

  /** The arrows only move the cursor and redraw: the line and the history stay. */
  lemma ArrowsOnlyMoveCursor(s: Snapshot, cursorX: int)
    requires s.loadingId == Idle
    ensures var r := KeyStep(s, CursorUp, cursorX);
      r.input == s.input && r.stack == s.stack && r.stackIndex == History.Up(s.stack, s.stackIndex)
    ensures var r := KeyStep(s, CursorDown, cursorX);
      r.input == s.input && r.stack == s.stack && r.stackIndex == History.Down(s.stack, s.stackIndex)
    ensures KeyStep(s, CursorUp, cursorX).(stackIndex := s.stackIndex, log := s.log) == s
    ensures KeyStep(s, CursorDown, cursorX).(stackIndex := s.stackIndex, log := s.log) == s
    ensures !History.Recallable(s.stack, s.stackIndex) ==>
      KeyStep(s, CursorUp, cursorX) == s && KeyStep(s, CursorDown, cursorX) == s
  {
    KeysDistinct();
  }

  /** Ctrl+C prints `^C` and a prompt, and keeps the line being typed. */
  lemma InterruptKeepsInput(s: Snapshot, cursorX: int)
    requires s.loadingId == Idle
    ensures var r := KeyStep(s, CtrlC, cursorX);
      r == s.(log := s.log + [Interrupt, Prompt])
  {
  }

  /** Backspace drops one code unit only past the prompt and only from a non-empty line. */
  lemma BackspaceEdits(s: Snapshot, cursorX: int)
    requires s.loadingId == Idle
    ensures var r := KeyStep(s, Backspace, cursorX);
      && (cursorX > 2 && s.input != [] ==> r.input + [s.input[|s.input| - 1]] == s.input)
      && (cursorX <= 2 || s.input == [] ==> r.input == s.input)
      && r.stack == s.stack && r.stackIndex == s.stackIndex
    ensures var r := KeyStep(s, Backspace, cursorX);
      && (cursorX > 2 ==> r.(input := s.input) == s.(log := s.log + [RubOut]))
      && (cursorX <= 2 ==> r == s)
  {
    KeysDistinct();
    var r := KeyStep(s, Backspace, cursorX);
    if cursorX > 2 && s.input != [] {
      assert r.input == s.input[..|s.input| - 1];
    }
  }

  /** Other data is appended to the line exactly when it passes the printable filter. */
  lemma TypingAppends(s: Snapshot, e: JsStr, cursorX: int)
    requires s.loadingId == Idle
    requires e != CursorUp && e != CursorDown && e != CtrlC && e != EnterKey && e != Backspace
    ensures var r := KeyStep(s, e, cursorX);
      && (IsPrintable(e) ==> r == s.(input := s.input + e, log := s.log + [Typed(e)]))
      && (!IsPrintable(e) ==> r == s)
  {
  }

  /** Stopping the spinner makes the session idle, and stopping it again changes nothing. */
  lemma StopLoadingIdempotent(s: Snapshot)
    ensures LoadingStep(s, false).loadingId == Idle
    ensures LoadingStep(LoadingStep(s, false), false) == LoadingStep(s, false)
    ensures s.loadingId == Idle ==> LoadingStep(s, false) == s
  {
  }

  /** A spinner tick keeps the session valid and only appends to the output. */
  lemma TickKeepsValid(s: Snapshot)
    requires Valid(s) && s.loadingId != Idle
    ensures Valid(TickStep(s))
    ensures Extends(s.log, TickStep(s).log)
  {
  }

  /** The reply ends the spinner and the request and keeps the session valid; the line and the history stay. */
  lemma RespondKeepsValid(s: Snapshot, o: Response.Outcome, typeErrorMessage: JsStr)
    requires Valid(s) && s.pending.Some?
    ensures var r := RespondStep(s, o, typeErrorMessage);
      && Valid(r) && r.loadingId == Idle && r.pending == None
      && r.input == s.input && r.stack == s.stack && r.stackIndex == s.stackIndex && r.lang == s.lang
  {
  }

  /**
   * After the spinner's line is erased, the reply shows the suggestions
   * when the classification found some, with a header in `en` and `zh`,
   * and the error line otherwise; a prompt follows either way.
   */
  lemma RespondShowsOutcome(s: Snapshot, o: Response.Outcome, typeErrorMessage: JsStr)
    requires Valid(s) && s.pending.Some?
    ensures var r := RespondStep(s, o, typeErrorMessage);
      && (o.Suggestions? && HasBanner(s.lang) ==>
            r.log == s.log + [EraseLine, SuggestionsHeader(s.lang), SuggestionList(o.list), Prompt])
      && (o.Suggestions? && !HasBanner(s.lang) ==>
            r.log == s.log + [EraseLine, SuggestionList(o.list), Prompt])
      && (!o.Suggestions? ==>
            r.log == s.log + [EraseLine, ErrorLine(Response.ErrorText(o, typeErrorMessage)), Prompt])
  {
  }

  /**
   * A language link switches the language and reprints the banner only
   * while no request runs; the other links leave the session as it is.
   */
  lemma LanguageSwitchOnlyWhenIdle(s: Snapshot, action: Banner.Action)
    requires Valid(s)
    ensures var r := ActivateStep(s, action);
      && Valid(r) && Extends(s.log, r.log)
      && (action.SwitchLanguage? && s.loadingId == Idle ==> r.lang == action.target && r.saved == Some(action.target))
      && (action.SwitchLanguage? && s.loadingId == Idle ==> r.log == s.log + ReadmeEcho(action.target))
      && (action.OpenUrl? || s.loadingId != Idle ==> r == s)
  {
  }

  /**
   * The history after a push, as `pushToStack` computes it: while more than
   * `Capacity` lines are held, the oldest is shifted off.
   */
  method DropOldest(lines: seq<JsStr>) returns (r: seq<JsStr>)
    ensures r == History.Last(lines, History.Capacity)
  {
    r := lines;
    while |r| > History.Capacity
      invariant History.Last(r, History.Capacity) == History.Last(lines, History.Capacity)
      decreases |r|
    {
      History.LastOfSuffix(r, 1);
      r := r[1..];
    }
  }

  /** The terminal session; its fields are the closure variables of the page. */
  class Session {
    var lang: JsStr
    var saved: Option<JsStr>
    var loadingId: int
    var nextTimer: int
    var frame: nat
    var input: JsStr
    var stack: seq<JsStr>
    var stackIndex: int
    var log: seq<Echo>
    var pending: Option<JsStr>

    /** The fields as one value. */
    function State(): Snapshot
      reads this
    {
      Snapshot(lang, saved, loadingId, nextTimer, frame, input, stack, stackIndex, log, pending)
    }

    /** Reads the stored language, sets up an empty history and prints the README. */
    constructor(saved: Option<JsStr>)
      ensures State() == Initial(saved)
      ensures Valid(State())
    {
      lang := if saved.Some? && saved.value != [] then saved.value else Banner.En;
      this.saved := saved;
      loadingId := Idle;
      nextTimer := 1;
      frame := 0;
      input := [];
      stack := [];
      stackIndex := 0;
      log := [];
      pending := None;
      new;
      SetReadme();
    }

    /** Switches the language and stores it. */
    method SetLang(lan: JsStr)
      modifies this
      ensures State() == SetLangStep(old(State()), lan)
    {
      lang := lan;
      saved := Some(lan);
    }

    /** Clears the screen and prints the README for the current language. */
    method SetReadme()
      modifies this
      ensures State() == SetReadmeStep(old(State()))
    {
      log := log + ReadmeEcho(lang);
    }

    /** Appends `v` to the history, drops the oldest lines beyond the capacity and puts the cursor on `v`. */
    method PushToStack(v: JsStr)
      modifies this
      ensures State() == PushStep(old(State()), v)
      ensures |stack| <= History.Capacity && stack[|stack| - 1] == v
    {
      ghost var pushed := History.Push(stack, v);
      var s := DropOldest(stack + [v]);
      assert s == pushed;
      stack, stackIndex := s, |s| - 1;
    }

    /** Up: the cursor moves back one line, wrapping from the oldest to the newest. */
    method PrevStackIndex() returns (r: int)
      modifies this
      ensures State() == old(State()).(stackIndex := History.Prev(old(stackIndex), |stack|))
      ensures r == stackIndex
    {
      stackIndex := if stackIndex == 0 then |stack| - 1 else stackIndex - 1;
      r := stackIndex;
    }

    /** Down: the cursor moves forward one line without wrapping; the old cursor modulo the length is returned. */
    method NextStackIndex() returns (r: Option<int>)
      modifies this
      ensures State() == old(State()).(stackIndex := History.Next(old(stackIndex)))
      ensures r == History.NextResult(old(stackIndex), |stack|)
    {
      r := History.NextResult(stackIndex, |stack|);
      stackIndex := stackIndex + 1;
    }

    /** Starts the spinner with a fresh timer, or stops it and erases its line if it runs. */
    method Loading(load: bool)
      modifies this
      ensures State() == LoadingStep(old(State()), load)
    {
      if !load {
        if loadingId != Idle {
          loadingId := Idle;
          log := log + [EraseLine];
        }
        return;
      }
      loadingId := nextTimer;
      nextTimer := nextTimer + 1;
      frame := 0;
    }

    /** One firing of the spinner timer. */
    method Tick()
      requires loadingId != Idle
      modifies this
      ensures State() == TickStep(old(State()))
    {
      log := log + [EraseLine];
      if lang == Banner.En || lang == Banner.Zh {
        log := log + [Spinner(Frames[frame % |Frames|], lang)];
        frame := frame + 1;
      }
    }

    /** Sends a command of three words or more, with the spinner running until the reply. */
    method RunCommand(text: JsStr)
      modifies this
      ensures State() == RunCommandStep(old(State()), text)
    {
      var command := Trim(text);
      if WordsCount.Count(command) < 3 {
        return;
      }
      ghost var echoed := State().(log := log + [LineBreak]);
      log := log + [LineBreak];
      assert State() == echoed;
      Loading(true);
      pending := Some(command);
    }

    /** Handles one keystroke event. */
    method OnData(e: JsStr, cursorX: int)
      requires Valid(State())
      modifies this
      ensures State() == KeyStep(old(State()), e, cursorX)
      ensures Valid(State())
    {
      KeyStepKeepsValid(State(), e, cursorX);
      if loadingId != Idle {
        return;
      }
      if e == CursorUp {
        if History.Recallable(stack, stackIndex) {
          log := log + [Recall(stack[stackIndex])];
          var _ := PrevStackIndex();
        }
      } else if e == CursorDown {
        if History.Recallable(stack, stackIndex) {
          log := log + [Recall(stack[stackIndex])];
          var _ := NextStackIndex();
        }
      } else if e == CtrlC {
        log := log + [Interrupt, Prompt];
      } else if e == EnterKey {
        var line := input;
        RunCommand(line);
        PushToStack(line);
        input := [];
      } else if e == Backspace {
        if cursorX > 2 {
          log := log + [RubOut];
          if |input| > 0 {
            input := input[..|input| - 1];
          }
        }
      } else if IsPrintable(e) {
        input := input + e;
        log := log + [Typed(e)];
      }
    }

    /** Handles the reply to the pending request: `data` is what decoding the body gave. */
    method Respond(data: Result<Response.Json, Response.Thrown>,
                   parse: JsStr -> Result<Response.Json, Response.Thrown>, typeErrorMessage: JsStr)
      requires Valid(State()) && pending.Some?
      modifies this
      ensures State() == RespondStep(old(State()), Response.Classify(data, parse), typeErrorMessage)
      ensures Valid(State())
    {
      var outcome := Response.Classify(data, parse);
      RespondKeepsValid(State(), outcome, typeErrorMessage);
      Loading(false);
      ShowReply(outcome, typeErrorMessage);
      log := log + [Prompt];
      pending := None;
    }

    /** Prints the suggestions under their heading, or the error text, for a classified reply. */
    method ShowReply(outcome: Response.Outcome, typeErrorMessage: JsStr)
      modifies this
      ensures State() == old(State()).(log := old(log) + ReplyEcho(lang, outcome, typeErrorMessage))
    {
      if outcome.Suggestions? {
        if lang == Banner.En || lang == Banner.Zh {
          log := log + [SuggestionsHeader(lang)];
        }
        log := log + [SuggestionList(outcome.list)];
      } else {
        log := log + [ErrorLine(Response.ErrorText(outcome, typeErrorMessage))];
      }
    }

    /** Clicks a link; returns the address opened in a new window, if the link opens one. */
    method ActivateLink(link: Banner.Link) returns (openedUrl: Option<string>)
      requires Valid(State())
      modifies this
      ensures State() == ActivateStep(old(State()), link.action)
      ensures openedUrl == if link.action.OpenUrl? then Some(link.action.url) else None
      ensures Valid(State())
    {
      LanguageSwitchOnlyWhenIdle(State(), link.action);
      openedUrl := None;
      match link.action
      case OpenUrl(url) =>
        openedUrl := Some(url);
      case SwitchLanguage(target) =>
        if loadingId == Idle {
          SetLang(target);
          SetReadme();
        }
    }
  }
}

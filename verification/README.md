# commit-gpt terminal, modelled in Dafny

commit-gpt is a web page holding an xterm.js terminal. The user types a
description of a change. When the line has at least three words, the page
asks a completion service for commit messages. It shows the suggestions it
reads back, or an error line. Lines that look like Conventional Commits
headers become click-to-copy links.

This project models the logic behind that page:

- **The session** (`terminal.dfy`, module `Terminal`). The state is the
  language, the spinner timer, the line being typed, the command history
  and its cursor, and an append-only log of what was written. It is a
  class `Session`, and each of its methods updates fields in place:
  - a keystroke (`OnData`);
  - sending a command (`RunCommand`);
  - the reply (`Respond`);
  - a spinner tick (`Tick`);
  - starting and stopping the spinner (`Loading`);
  - a link click (`ActivateLink`);
  - changing the language (`SetLang`) and reprinting the README (`SetReadme`);
  - the history helpers (`PushToStack`, `PrevStackIndex`, `NextStackIndex`).

  Each method is proved to reach the state that a pure step function on a
  `Snapshot` value gives. The terminal's properties are proved about those
  step functions.
- **The history rules** (`history.dfy`, module `History`). The bounded
  history keeps 20 lines. Up walks back through it and wraps. Down walks
  forward and does not wrap.
- **The banner and its link table** (`banner.dfy`, module `Banner`). This
  covers the English and Chinese README rows, and the links offered per
  buffer line with their cell ranges. Display widths are counted in
  terminal cells, and East Asian wide characters take two.
- **The reply classification** (`response.dfy`, module `Response`). The
  decoded body, its `text` field decoded once or twice, and the non-empty
  strings of the resulting array become the suggestions. Every other path
  ends in an error line.
- **Word counting** (`words_count.dfy`, module `WordsCount`). This counts
  the matches of `/[\u00ff-\uffff]|\S+/g` over UTF-16 code units.
- **The commit-line link add-on** (`commit_links.dfy`, module
  `CommitLinks`). This covers the regular expression that recognises commit
  headers, as a predicate. It also covers how the add-on picks its pattern
  and click handler, and how it registers and disposes of its link provider.
- **JavaScript strings** (`js_text.dfy`, module `JsText`). Strings are
  sequences of UTF-16 code units. This module defines `String.prototype.trim`
  with the white-space set of `\s`, and the `<`/`>=` string order.

## Model

| member | source | states |
|---|---|---|
| `JsText.TrimStart` | components/Terminal.tsx:264 | the result is a suffix of the input, every dropped unit is white space, and the result does not start with white space |
| `JsText.TrimEnd` | components/Terminal.tsx:264 | the result is a prefix of the input, every dropped unit is white space, and the result does not end with white space |
| `JsText.TrimSlice` | components/Terminal.tsx:264 | `trim` keeps a contiguous slice that starts after the leading white space |
| `JsText.TrimDropsTrailingSpace` | components/Terminal.tsx:264 | everything `trim` drops after the slice it keeps is white space |
| `JsText.TrimIsCore` | components/Terminal.tsx:264 | `trim` returns the input minus its white-space margins: a contiguous slice, with only white space around it and no white space at either end |
| `JsText.TrimKeepsUnpadded` | components/Terminal.tsx:264 | a string without leading or trailing white space is returned unchanged |
| `JsText.LessTrichotomy` | components/Terminal.tsx:369 | string `<` is trichotomous: exactly one of `a < b`, `a == b`, `b < a` holds |
| `JsText.LessTransitive` | components/Terminal.tsx:369 | string `<` is transitive, so together with trichotomy it is a strict total order |
| `JsText.CompareWithUnit` | components/Terminal.tsx:369 | comparing with a one-unit string looks only at the first unit and, on a tie, at the length |
| `WordsCount.RunLength` | utils/WordsCount.ts:2 | the `\S+` alternative takes the longest run of non-white-space units |
| `WordsCount.Matches` | utils/WordsCount.ts:2 | the global match never yields an empty match and yields at most one match per code unit |
| `WordsCount.Count` | utils/WordsCount.ts:1-4 | the word count never exceeds the string's length |
| `WordsCount.MatchesCoverText` | utils/WordsCount.ts:2 | the matches, joined, are exactly the text without its white space: every non-blank unit is matched once, in order |
| `WordsCount.MatchShapes` | utils/WordsCount.ts:2 | each match is a single unit in U+00FF..U+FFFF, or a white-space-free run that starts below U+00FF |
| `WordsCount.NullExactlyWhenBlank` | utils/WordsCount.ts:2-3 | `match` gives `null` exactly when every unit is white space below U+00FF |
| `WordsCount.BlankCountsZero` | utils/WordsCount.ts:2-3 | a string of white space below U+00FF (the empty string included) has no match, so its count is 0 |
| `WordsCount.LowTextCountsRuns` | utils/WordsCount.ts:2 | when every unit is below U+00FF, the count is the number of maximal non-white-space runs |
| `WordsCount.CountHanPair` | utils/WordsCount.ts:2 | "中文" counts 2: each unit from U+00FF up is a match by itself |
| `WordsCount.CountHanThenLetter` | utils/WordsCount.ts:2 | "中a" counts 2 |
| `WordsCount.GreedyRun` | utils/WordsCount.ts:2 | `\S+` is greedy: a run starting below U+00FF is one match up to the next whitespace or the end, taking every non-space unit, CJK included, and matching resumes after it |
| `WordsCount.CountLetterThenHan` | utils/WordsCount.ts:2 | "a中文" counts 1: a run that starts below U+00FF swallows the following CJK units |
| `WordsCount.CountIdeographicSpace` | utils/WordsCount.ts:2 | U+3000 counts 1: the first alternative is tried before white space is considered |
| `WordsCount.CountLowWhitespace` | utils/WordsCount.ts:2-3 | tab, space, U+00A0 and newline count 0 |
| `CommitLinks.CommitTypeShape` | utils/CommitLinksAddon.ts:7 | the 11 type keywords are lower-case words of 2 to 8 letters, none empty |
| `CommitLinks.MatchHasTypedSeparator` | utils/CommitLinksAddon.ts:7 | a matching line contains a `": "` that closes a header: a listed type ends right before it, or a scope without line terminators opened right after a listed type ends with the `)` right before it; in particular the unit before it is a `)` or the end of a listed type |
| `CommitLinks.TypedSeparatorMatches` | utils/CommitLinksAddon.ts:7 | conversely, a `": "` that closes such a header makes the line match, so matching is exactly having one |
| `CommitLinks.RejectWithoutTypedSeparator` | utils/CommitLinksAddon.ts:7 | the same fact in contrapositive form, as a test for rejecting lines: a line where no `": "` directly follows a `)` or a listed type does not match |
| `CommitLinks.HeaderMatches` | utils/CommitLinksAddon.ts:7 | `type: subject` matches for every listed type and any subject |
| `CommitLinks.ScopedHeaderMatches` | utils/CommitLinksAddon.ts:7 | `type(scope): subject` matches for any scope without line terminators |
| `CommitLinks.MatchSurvivesContext` | utils/CommitLinksAddon.ts:7 | the pattern is unanchored: a matching line still matches with any text before and after it |
| `CommitLinks.AcceptsFix` | utils/CommitLinksAddon.ts:7 | "fix: x" matches |
| `CommitLinks.AcceptsScopedFeat` | utils/CommitLinksAddon.ts:7 | "feat(ui): add y" matches |
| `CommitLinks.AcceptsInsideWord` | utils/CommitLinksAddon.ts:7 | "prefix: a" matches through its substring "fix: " |
| `CommitLinks.RejectsMissingSpace` | utils/CommitLinksAddon.ts:7 | "fix:x" does not match |
| `CommitLinks.RejectAtSoleColon` | utils/CommitLinksAddon.ts:7 | a line whose only colon follows neither a `)` nor the end of a listed type does not match |
| `CommitLinks.RejectsSpaceBeforeColon` | utils/CommitLinksAddon.ts:7 | "feat(ui) : y" does not match |
| `CommitLinks.RejectsCapitalType` | utils/CommitLinksAddon.ts:7 | "Fix: x" does not match: matching is case-sensitive |
| `CommitLinks.RejectsUnlistedType` | utils/CommitLinksAddon.ts:7 | "feature: x" does not match: only the listed types count |
| `CommitLinks.DefaultOptionsRecogniseCommits` | utils/CommitLinksAddon.ts:18-27 | with the default options, the pattern `SelectPattern` chooses recognises a line exactly when it matches the strict commit pattern |
| `CommitLinks.ClickOnAddon` | utils/CommitLinksAddon.ts:10-20 | an addon built without a handler (or with `handleLink`) copies exactly the clicked text, through `Click`; one built with another handler passes the text to it unchanged |
| `CommitLinks.LinkRegistration.constructor` | utils/CommitLinksAddon.ts:28 | a registration records the terminal, pattern, handler and options, and starts undisposed |
| `CommitLinks.LinkRegistration.Dispose` | utils/CommitLinksAddon.ts:32 | disposing a registration marks it disposed |
| `CommitLinks.CommitLinksAddon.constructor` | utils/CommitLinksAddon.ts:18-22 | a missing handler defaults to copying to the clipboard and missing options to none; nothing is registered yet |
| `CommitLinks.CommitLinksAddon.Activate` | utils/CommitLinksAddon.ts:24-29 | activation stores the terminal and registers a fresh provider with the selected pattern, the handler and the options |
| `CommitLinks.CommitLinksAddon.Dispose` | utils/CommitLinksAddon.ts:31-33 | the registered provider, if there is one, is disposed; before activation nothing changes |
| `Response.NonEmptyStringsAppend` | components/Terminal.tsx:303 | the filter keeps the array's order |
| `Response.NonEmptyStringsMembers` | components/Terminal.tsx:303 | a string is kept exactly when it is non-empty and an element of the array |
| `Response.Classify` | components/Terminal.tsx:284-314 | an unreadable body is a request error, a falsy body gives no data, a non-string `text` is a parse failure, and suggestions are never empty nor contain an empty string |
| `Response.SuggestionsFromArray` | components/Terminal.tsx:295-307 | for every truthy reply whose `text` (read by `TextField`) is a string, with `Decoded` giving the decoded value, suggestions are shown exactly when the decoded value is an array with a non-empty string, and they are its non-empty strings in order; a failed decode is a parse failure, any other value fails to complete |
| `Response.DoubleEncodedListIsRead` | components/Terminal.tsx:297-303 | for every truthy reply whose `text` is a string, a list encoded as a JSON string holding the array is still read |
| `Response.TripleEncodedListFails` | components/Terminal.tsx:297-307 | for every truthy reply whose `text` is a string, a list encoded three times is not unwrapped again and fails to complete |
| `Response.NoStringsFails` | components/Terminal.tsx:302-307 | for every truthy reply whose `text` is a string, a decoded array with no non-empty string, such as `["", 1, null]`, fails to complete |
| `Response.NoStringsExample` | components/Terminal.tsx:304 | `["", 1, null]` holds no non-empty string |
| `Response.ErrorText` | components/Terminal.tsx:287-314 | the error line is empty exactly for a falsy reply; it starts with the request-error or parse-failure head and ends with the trimmed message of a thrown `Error`, with nothing between the two (`ThrownText`: nothing for any other thrown value), or is the fixed failed-to-complete line |
| `Banner.Width` | components/Terminal.tsx:136-163 | a string covers between one and two cells per character |
| `Banner.WidthAppend` | components/Terminal.tsx:136-163 | cell widths add up over concatenation |
| `Banner.LinkAt` | components/Terminal.tsx:186-261 | each link lies on the line asked for, with a non-empty column range |
| `Banner.AnchorLines` | components/Terminal.tsx:186-261 | in `en` exactly lines 4, 8 and 10 have links, in any other language exactly lines 3, 8 and 10; `ProvideLinks` calls back once with the line's one link, which lies on that line, or twice with `undefined` for a line without one |
| `Banner.LanguageLinkSwitches` | components/Terminal.tsx:209-253 | the language link is on line 10 and leads from `en` to `zh` and from any other language to `en` |
| `Banner.RangeWidthIsTextWidth` | components/Terminal.tsx:186-258 | every link's column range is exactly as wide as its text's display width, so "中文" spans four cells |
| `Banner.AnchorsMatchBanner` | components/Terminal.tsx:134-165 | in `en` and `zh`, whose banners `Rows` gives, every link lies on a printed banner row, over exactly the cells its text occupies there |
| `Banner.EnglishLine4` | components/Terminal.tsx:139 | "Conventional Commits" starts at cell 17 of English line 4 |
| `Banner.ChineseLine3` | components/Terminal.tsx:154 | "Conventional Commits" starts at cell 62 of Chinese line 3, after 61 cells: the 9-cell margin and 52 cells of mixed-width text |
| `Banner.UnknownLanguageKeepsChineseLinks` | components/Terminal.tsx:223-257 | a language other than `en` and `zh` prints no banner but is still offered the Chinese links |
| `History.Push` | components/Terminal.tsx:91-97 | after entering `v` the history holds 1 to 20 lines, ends with `v`, and is the old history plus `v` minus the oldest line once full |
| `History.PushAllKeepsLatest` | components/Terminal.tsx:91-97 | after any number of entries the history is the last 20 lines entered |
| `History.LastAppend` | components/Terminal.tsx:93-95 | dropping the oldest lines down to 20 before appending more loses nothing the later trimming would keep |
| `History.Prev` | components/Terminal.tsx:101-104 | Up moves the cursor back one line and wraps from the first line to the last |
| `History.Up` | components/Terminal.tsx:335-341 | Up moves the cursor exactly when the entry under it is non-empty and there is another line, and then to the line before it, cyclically |
| `History.Down` | components/Terminal.tsx:342-347 | Down never moves back and never wraps: it advances one line exactly when the entry under it is non-empty, at most to one past the newest line |
| `History.UpCycles` | components/Terminal.tsx:101-104 | with no empty line, from a cursor on a line, up to one full round of presses (`k` at most the number of lines) of Up move the cursor `k` lines back, counted around the history |
| `History.UpCyclesModulo` | components/Terminal.tsx:101-104 | with no empty line, from a cursor on a line, any number `k` of presses of Up leave the cursor at `(i - k)` modulo the length |
| `History.UpReturns` | components/Terminal.tsx:101-104 | when no line of the history is empty, pressing Up once per line comes back to the starting line (an empty line, which Enter on an empty prompt pushes, stops Up) |
| `History.UpVisitsEveryLine` | components/Terminal.tsx:101-104 | when no line of the history is empty, going round, Up visits every line of the history |
| `History.DownRunsOut` | components/Terminal.tsx:99 | with no empty line, Down (`Next` on a recallable line) advances one line per press and stops one past the newest line |
| `History.NextResultIsCursor` | components/Terminal.tsx:99 | on a recallable line, where Down calls `nextStackIndex`, the value it returns (`NextResult`) is the cursor itself |
| `History.NextResultIsRemainder` | components/Terminal.tsx:99 | that value is JavaScript's remainder of the cursor by the length: the sign of the cursor, smaller than the length in magnitude, and a multiple of the length away from the cursor |
| `History.DownPastNewest` | components/Terminal.tsx:96-99 | Down on the newest line puts the cursor past the end, where Up and Down do nothing any more |
| `History.EmptyEntryBlocks` | components/Terminal.tsx:335-348 | an empty line under the cursor (`Entry`, the value `stack[i]` reads) blocks both Up and Down |
| `History.CursorStaysInRange` | components/Terminal.tsx:96-104 | Up and Down keep the cursor between 0 and the history's length |
| `History.PushThenRecall` | components/Terminal.tsx:96 | after an entry the cursor sits on it, and it can be recalled unless it is empty |
| `Terminal.FontSize` | components/Terminal.tsx:45-56 | the size is 6, 7, 11, 14 or 16: 6 up to 375 pixels and 16 from 1024 |
| `Terminal.FontSizeOrder` | components/Terminal.tsx:45-56 | the size grows with the width, except that widths 376 to 424 fall through every bracket and get 16 |
| `Terminal.PrintableByFirstUnit` | components/Terminal.tsx:369 | data is typed in exactly when its first unit is printable ASCII below `~`, or it is exactly `~`, or its first unit is U+00A0 or above |
| `Terminal.PrintableExamples` | components/Terminal.tsx:369 | a pasted "ab" is typed in; "~x" and the cursor-right sequence are dropped |
| `Terminal.ReadmeEcho` | components/Terminal.tsx:131-182 | the README starts by clearing the screen and ends with a prompt, and includes the banner and the instruction (in the current language) exactly for `en` and `zh` |
| `Terminal.InitialIsValid` | components/Terminal.tsx:40-44 | the session starts valid and idle (no spinner, no pending request), with an empty line, an empty history and the cursor at 0, in the stored language or `en` when none or an empty one is stored, with the README printed |
| `Terminal.RunCommandFacts` | components/Terminal.tsx:263-270 | sending touches neither the line nor the history; a line under three words does nothing, and otherwise a fresh timer starts and the trimmed line is sent |
| `Terminal.KeyStepKeepsValid` | components/Terminal.tsx:330-374 | every keystroke keeps the session valid and only appends to the output |
| `Terminal.IgnoredWhileLoading` | components/Terminal.tsx:331-333 | while the spinner runs, every keystroke leaves the session unchanged |
| `Terminal.EnterAlwaysPushes` | components/Terminal.tsx:353-357 | Enter always stores the raw line and clears it, however short it is; only three words or more start the spinner and send the trimmed line |
| `Terminal.ArrowsOnlyMoveCursor` | components/Terminal.tsx:335-348 | the arrows change nothing but the cursor, by the Up and Down rules, and the echo log; on a missing or empty entry they change nothing at all |
| `Terminal.InterruptKeepsInput` | components/Terminal.tsx:349-352 | Ctrl+C writes `^C` and a prompt and changes nothing else, the line being typed included |
| `Terminal.BackspaceEdits` | components/Terminal.tsx:358-367 | Backspace drops the last code unit only past column 2 and only from a non-empty line; past column 2 it also echoes a rub-out and changes nothing else, and at or before column 2 it changes nothing |
| `Terminal.TypingAppends` | components/Terminal.tsx:368-372 | other data is appended and echoed exactly when it passes the printable filter, with nothing else changed; otherwise nothing changes |
| `Terminal.StopLoadingIdempotent` | components/Terminal.tsx:110-118 | stopping the spinner makes the session idle, a second stop changes nothing, and stopping while idle changes nothing |
| `Terminal.TickKeepsValid` | components/Terminal.tsx:121-128 | a spinner tick keeps the session valid and only appends to the output |
| `Terminal.RespondKeepsValid` | components/Terminal.tsx:284-327 | the reply stops the spinner, ends the request and keeps the session valid, the line and the history untouched |
| `Terminal.RespondShowsOutcome` | components/Terminal.tsx:316-327 | after the spinner line is erased, the suggestions (with a header in `en` and `zh`) or the error line are shown, then a prompt |
| `Terminal.LanguageSwitchOnlyWhenIdle` | components/Terminal.tsx:209-253 | a language link switches and stores the language and reprints the README only while idle; other links leave the session as it is |
| `Terminal.Session.constructor` | components/Terminal.tsx:40-44 | the session starts in the state `Initial` describes, which is valid |
| `Terminal.Session.SetLang` | components/Terminal.tsx:86-89 | the language is set and stored |
| `Terminal.Session.SetReadme` | components/Terminal.tsx:131-182 | the README for the current language is written |
| `Terminal.DropOldest` | components/Terminal.tsx:93-95 | shifting off the oldest line while more than 20 remain leaves exactly the last 20 lines |
| `Terminal.Session.PushToStack` | components/Terminal.tsx:91-97 | appending and shifting leaves exactly `History.Push` of the old history, with the cursor on the new line |
| `Terminal.Session.PrevStackIndex` | components/Terminal.tsx:101-104 | the cursor becomes `History.Prev` of itself and is returned |
| `Terminal.Session.NextStackIndex` | components/Terminal.tsx:99 | the cursor becomes `History.Next` of itself; the old cursor modulo the length is returned |
| `Terminal.Session.Loading` | components/Terminal.tsx:110-129 | starting takes a fresh timer id and resets the frame; stopping erases the spinner line only if it ran |
| `Terminal.Session.Tick` | components/Terminal.tsx:121-128 | one tick erases the line and, in `en` and `zh`, shows the next frame with its message |
| `Terminal.Session.RunCommand` | components/Terminal.tsx:263-270 | the session takes the state `RunCommandStep` gives |
| `Terminal.Session.OnData` | components/Terminal.tsx:330-374 | the session takes the state `KeyStep` gives, and stays valid |
| `Terminal.Session.ShowReply` | components/Terminal.tsx:316-325 | the suggestions with their header in `en` and `zh`, or the error line, are appended to the output and nothing else changes |
| `Terminal.Session.Respond` | components/Terminal.tsx:284-327 | the session takes the state `RespondStep` gives for the classified reply, and stays valid |
| `Terminal.Session.ActivateLink` | components/Terminal.tsx:190-253 | the session takes the state `ActivateStep` gives, and the address of a URL link is returned for opening |

## Left out

- Rendering, chalk colours and the ANSI escape sequences. Every write is one `Echo` item in an append-only log.
- The WebGL and canvas renderer fallback, `FitAddon`, focus and the React component around the terminal: these are library and page lifecycle.
- `fetch` and the asynchronous ordering. A request is `pending` until `Session.Respond` is called with what `response.json()` gave. A `fetch` that rejects is not caught in the source and would leave the spinner running; the model has no such reply.
- The JSON grammar. `JSON.parse` is a parameter from strings to a decoded value or a thrown value, and JSON numbers are reals, not floating point.
- The wording of the engine's TypeError for `data.text.trim()` on a non-string: it is a parameter.
- The spinner's 80 ms interval. A tick is a call to `Session.Tick`. Timer ids are modelled as 1, 2, 3, … rather than as whatever `setInterval` returns.
- `localStorage`. The stored language is the `saved` field, read once at start-up.
- `window.open` and the clipboard write. `ActivateLink` returns the address to open, and `CommitLinks.Click` returns the effect of a click (`CopyToClipboard` of the text for the default handler), leaving the copy itself out.
- `Math.random` and the session id sent with each request.
- The terminal's cursor column, which Backspace consults: it is a parameter of `OnData`.
- `CommitLinkProvider`, which turns regular-expression matches into link ranges. It is not part of this model; the add-on only records what it registers.
- The server route `pages/api/commit.ts` and the pages `pages/index.tsx` and `pages/_app.tsx`: a proxy to the completion service and markup.
- `Banner.Width` counts one cell for every character outside the East Asian wide ranges. Combining marks and other zero-width characters are not treated specially; no banner text contains them.
- Strings outside the Basic Multilingual Plane. Dafny literals become code units one character each, so a literal with a character above U+FFFF would not match JavaScript's surrogate pairs; none is used.

# suggestPlugin controller, modelled in Dafny

This project models the `Suggest` controller of `suggestPlugin.js`, an
autocomplete widget. As the user types, it fetches candidates, renders them
in a list, previews the active candidate in the input while the arrow keys
move through the list, and commits or reverts that preview.

The model has three parts:

- **The state machine.** The instance fields the handlers change are
  `data`, `tempVal`, `opened`, `pointer`, the input's value and the
  rendered items. The model also keeps the pending fetch and the custom
  events dispatched so far. The handlers modelled are:
  - the keyup dispatch;
  - the keydown guard on enter;
  - the results-box click and the body click;
  - focus;
  - the debounce timer and the request's completion;
  - `_navigation`, `_openSuggestions`, `_closeSuggestions`,
    `_displaySuggestions`, `_preSuggestion`, `_undoPreSuggestion` and
    `_insertSuggestion`.

  `SuggestModel` states each handler as a pure function over a `State`
  value. A handler that throws a TypeError gives `Threw(state)`, and the
  changes it made before the throw stay. `SuggestController.Suggest` is a
  class with the same fields. Each of its methods runs the handler's steps
  in place and is proved to end in the state the matching function gives.
  Its handlers also keep the invariant `SuggestModel.Inv`.
  `SuggestProperties` proves what the handlers promise.
- **The item template** of `_generateItem`:
  - the template is split on `+`;
  - each piece is searched with the global regex `/<%([^%>]+)?%>/g`, whose
    `lastIndex` carries over from one piece to the next;
  - a piece without a match is quoted as a literal;
  - a piece with a match becomes a field reference;
  - the operands are added from left to right with JavaScript's `+`, so a
    missing field is `undefined`, and `undefined + undefined` is `NaN`.

  `Template` parses templates into segments and evaluates them instead of
  compiling code with `new Function`. `TemplateProperties` holds what is
  proved about the template.
- **The option merge** `extend` and the option resolution
  `extend({}, defaults, opt, attrOptions)`, in `Options`.

`JsText` holds the JavaScript string semantics these rely on:
`String.prototype.trim`, and `+` over strings, `undefined` and `NaN`.

The model follows the code, quirks included:

- Down on a closed list re-displays the current `data` without fetching.
- Focus passes an undefined query to `_displaySuggestions`, so the list
  reopens even when the input already equals the only candidate. The one
  exception is a single candidate that lacks the `matchWith` field: then
  `undefined === undefined` and the early return fires.
- `tempVal` is never cleared, because the timer meant to clear it runs with
  an unbound `this`.
- An empty array response falls into the `arrayName` branch.
- On the early return of `_displaySuggestions` the list stays as it was,
  and the single candidate is stored in `data`. While the list is open, the
  old items therefore stay on screen, and a later down key can read past
  `data` and throw.
- A keyup at or below `minLength` closes the list but leaves a pending
  fetch in place, and a response with two or more candidates reopens the
  list.
- A re-render of an open list keeps the old pointer, even past the new
  items.
- A keyed response when no `arrayName` is configured keeps the previous
  `data`.
- `_closeSuggestions` does not touch `data`, so closing on an empty query
  or an empty candidate list leaves the candidates in place.
- Focus decides whether to reopen from the rendered items (`suggestions`),
  not from `data`.
- Escape restores `tempVal`. That is the input's text at the last call of
  `_displaySuggestions`, which is not always the text from before the list
  was opened.
- The keyup gate compares `value.length`, which counts UTF-16 code units,
  with `minLength`. A character beyond the Basic Multilingual Plane counts
  twice, and `JsText.Utf16Length` models this.

`opened` is a Dafny keyword, so the field is called `isOpen`.

## Model

| member | source | states |
|---|---|---|
| JsText.TrimAround | suggestPlugin.js:168 | `trim()` removes exactly the white space around text that neither starts nor ends with white space |
| JsText.TrimPadded | suggestPlugin.js:361 | trimming the group of `<% m %>` gives the trimmed field name `m` |
| JsText.Utf16Length | suggestPlugin.js:200 | `value.length` counts at least one and at most two code units per character |
| JsText.Utf16LengthCounts | suggestPlugin.js:200 | `length` equals the number of characters exactly when every character lies in the Basic Multilingual Plane |
| JsText.Utf16LengthConcat | suggestPlugin.js:200 | the `length` of a concatenation is the sum of the parts' lengths |
| Template.Split | suggestPlugin.js:352 | `split('+')` gives at least one piece, and no piece holds a `+` |
| Template.JoinSplit | suggestPlugin.js:352 | joining the split pieces with `+` gives the template back |
| Template.SplitJoin | suggestPlugin.js:352 | splitting pieces joined with `+` gives the pieces back when none holds a `+` |
| Template.MatchEndAtSpec | suggestPlugin.js:351 | a match of `<%([^%>]+)?%>` at a position is found exactly when one exists, and it is unique |
| Template.ExecSpec | suggestPlugin.js:351-356 | `exec` from `lastIndex` finds the leftmost match at or after it, and finds nothing exactly when there is no such match |
| Template.ClassifyPiece | suggestPlugin.js:356-362 | one turn of the loop keeps the piece, and leaves `lastIndex` at the match's end after a match and at 0 after a failure |
| Template.ClassifyPieceSpec | suggestPlugin.js:356-362 | a piece is quoted as a literal exactly when nothing matches at or after `lastIndex`; otherwise the leftmost match is replaced, and its trimmed group names the field |
| Template.Classify | suggestPlugin.js:355-363 | the loop turns each piece into exactly one segment |
| Template.RewritePiece | suggestPlugin.js:356-362 | one turn of the loop body quotes the piece exactly when nothing matches from `lastIndex` on, and otherwise rewrites the leftmost match and names the field by its trimmed group; `lastIndex` moves to the match's end, or back to 0 after a failure |
| Template.ParseTemplate | suggestPlugin.js:349-363 | the loop, with `lastIndex` as a variable, computes the parsed segments |
| TemplateProperties.SegmentClassification | suggestPlugin.js:351-362 | piece `i` is a field reference exactly when the pattern matches it at or after the previous piece's match end (0 after a literal), at the leftmost such place |
| TemplateProperties.ParseTwo | suggestPlugin.js:352-362 | a template with one `+` parses into two segments, the second searched from where the first left `lastIndex` |
| TemplateProperties.DefaultTemplateRendersField | suggestPlugin.js:349-366 | the default template `<% matchWith %>` is one field reference, renders exactly the candidate's field named by the trimmed `matchWith`, and compiles exactly when that name can be quoted |
| TemplateProperties.LastIndexCarriesOver | suggestPlugin.js:351-356 | in `<% ab %>+<% c %>` the second piece is quoted as a literal although the pattern matches it |
| TemplateProperties.ShortPieceAfterPlaceholderIsLiteral | suggestPlugin.js:351-356 | a piece no longer than the previous piece's match end is quoted as a literal, whatever it holds |
| TemplateProperties.PieceAfterLiteralIsSearchedFromStart | suggestPlugin.js:356-358 | the first piece, or a piece after a literal, becomes a field reference whenever the pattern matches it anywhere |
| TemplateProperties.RenderConcatenates | suggestPlugin.js:365 | when every field is present, the item text is the segments' texts concatenated in template order |
| TemplateProperties.MissingLeadingFieldsGiveNaN | suggestPlugin.js:361-365 | two leading field references with missing fields make the item text start with `NaN` |
| SuggestController.GenerateItem | suggestPlugin.js:349-366 | the generated item for a candidate is the template's text for it |
| SuggestController.RenderItems | suggestPlugin.js:329-340 | one item per candidate, in response order, each the template's text for that candidate |
| Options.Extend | suggestPlugin.js:9-18 | the nested loops copy each source's keys onto the target, in order |
| Options.MergedKeys | suggestPlugin.js:9-18 | a key is in the result exactly when the target or some source has it |
| Options.LastSourceWins | suggestPlugin.js:9-18 | a key's value comes from the last source that has it |
| Options.UntouchedKeyKept | suggestPlugin.js:9-18 | a key no source has keeps the target's value |
| Options.Defaults | suggestPlugin.js:41-49 | the defaults hold exactly the seven documented keys |
| Options.ResolvePriority | suggestPlugin.js:55 | an attribute option beats the caller's option, which beats the default; the keys are those of the three |
| Options.DefaultsApply | suggestPlugin.js:41-55 | with no options of their own, the options are the defaults: match on `label`, minimum length 1 |
| Options.ResolveWellTyped | suggestPlugin.js:55 | merging options that give the read keys their expected types yields options the controller can read |
| Options.ArrayName | suggestPlugin.js:61 | `options.arrayName \|\| false` is set exactly when a non-empty name is given |
| SuggestController.ConfigOf | suggestPlugin.js:55-64 | the controller matches on and measures against the merged options, takes `arrayName \|\| false` from them, and uses the element's template or `<% matchWith %>` |
| SuggestController.Suggest.constructor | suggestPlugin.js:51-77 | the controller starts with empty `data`, empty `tempVal`, closed, pointer -1, and resolved options |
| SuggestController.Suggest.OpenSuggestions | suggestPlugin.js:218-228 | the new state is `OpenList` of the old one |
| SuggestController.Suggest.CloseSuggestions | suggestPlugin.js:230-240 | the new state is `CloseList` of the old one |
| SuggestController.Suggest.PreSuggestion | suggestPlugin.js:368-372 | the input takes `data[pointer][matchWith]`, or the method throws when that entry is undefined |
| SuggestController.Suggest.UndoPreSuggestion | suggestPlugin.js:374-391 | the new state is `UndoPreview` of the old one |
| SuggestController.Suggest.Navigation | suggestPlugin.js:242-280 | the new state and the throw are those of `Navigate` |
| SuggestController.Suggest.DisplaySuggestions | suggestPlugin.js:302-347 | the new state is `Display` of the old one |
| SuggestController.Suggest.TakeResponse | suggestPlugin.js:307-322 | only `data` changes, and it becomes what `Received` gives for the response and `arrayName` |
| SuggestController.Suggest.InsertSuggestion | suggestPlugin.js:393-398 | the new state and the throw are those of `Insert` |
| SuggestController.Suggest.KeyDown | suggestPlugin.js:159-163 | the default action is prevented exactly for enter with an active item |
| SuggestController.Suggest.KeyUp | suggestPlugin.js:165-213 | the new state and the throw are those of the keyup function, and the invariant holds again |
| SuggestController.Suggest.OnFocus | suggestPlugin.js:96-100 | the new state is that of `Focus`, and the invariant holds again |
| SuggestController.Suggest.OnClick | suggestPlugin.js:88-112 | the new state and the throw are those of `Click`, and the invariant holds again |
| SuggestController.Suggest.OnTimer | suggestPlugin.js:282-300 | a scheduled fetch is sent and `suggestRequest` dispatched |
| SuggestController.Suggest.OnResponse | suggestPlugin.js:290-293 | a response to the request in flight is displayed for the query it was sent with |
| SuggestController.Suggest.OnFailure | suggestPlugin.js:290-296 | a failed request changes nothing but the fetch slot |
| SuggestModel.Render | suggestPlugin.js:329-340 | one rendered item per candidate |
| SuggestProperties.OpenCloseRoundTrip | suggestPlugin.js:218-240 | opening a closed list sets `opened` and pointer -1, opening twice is opening once, and closing it again restores the state apart from the two notifications |
| SuggestProperties.CloseOpenRoundTrip | suggestPlugin.js:218-240 | closing an open list clears `opened` and the pointer, and opening an open list changes nothing |
| SuggestProperties.DownWalk | suggestPlugin.js:246-253 | from the input, the k-th down key activates candidate k-1 and previews its `matchWith` field, without throwing |
| SuggestProperties.DownWrapsAround | suggestPlugin.js:246-258 | n+1 down keys on a list of n return the pointer to -1 and the input to `tempVal` |
| SuggestProperties.UpCases | suggestPlugin.js:260-277 | up from 0 reverts to `tempVal`, up from -1 wraps to the last candidate and previews it, and otherwise up moves back one and previews |
| SuggestProperties.UpUndoesDown | suggestPlugin.js:242-280 | a down key then an up key lead back to the same state |
| SuggestProperties.CommittedSpec | suggestPlugin.js:393-398 | a commit puts the label in the input, empties `data`, closes the list, dispatches `suggestSelected`, and changes nothing else |
| SuggestProperties.EnterCommits | suggestPlugin.js:159-185 | enter with an active item cancels the default action and commits that candidate, or throws when `data` lacks it |
| SuggestProperties.EnterWithoutActiveItem | suggestPlugin.js:159-185 | enter with no active item neither cancels the default action nor changes anything |
| SuggestProperties.ClickCommits | suggestPlugin.js:88-112 | a click on item `id` commits candidate `id`; when `data` lacks it, the click throws and the body listener still reverts and closes |
| SuggestProperties.EscReverts | suggestPlugin.js:187-190 | escape on an open list restores `tempVal` and closes; on a closed list it changes nothing |
| SuggestProperties.OutsideClickReverts | suggestPlugin.js:88-112 | a click outside the input acts as escape; a click on the input changes nothing |
| SuggestProperties.ArrowKeepsList | suggestPlugin.js:242-280 | the arrow keys on an open list keep it open, and keep `tempVal`, `data` and the items |
| SuggestProperties.EscAfterArrows | suggestPlugin.js:171-190 | after any sequence of arrow keys on an open list, escape restores the text the list was displayed for |
| SuggestProperties.TypingKey | suggestPlugin.js:199-211 | when the trimmed text has more UTF-16 code units than `minLength`, a fetch of it is scheduled and nothing else changes; otherwise `data` is emptied, the list closes, and the fetch is left as it was |
| SuggestProperties.AstralCharacterFetches | suggestPlugin.js:199-205 | with `minLength` 1, a single character beyond the Basic Multilingual Plane (two code units) schedules a fetch |
| SuggestProperties.IgnoredKeys | suggestPlugin.js:192-197 | left, right, tab and shift change nothing |
| SuggestProperties.DownWhileClosed | suggestPlugin.js:171-173 | down on a closed list re-displays the current `data` for the trimmed text, without fetching |
| SuggestProperties.ReceivedCases | suggestPlugin.js:307-322 | a non-empty array replaces `data`; otherwise `data[arrayName]` is taken when `arrayName` is set, and `data` stays when it is not |
| SuggestProperties.DisplayCases | suggestPlugin.js:302-347 | `tempVal` takes the input; then the early return, the render-and-open case, or the close case, each with its resulting state |
| SuggestProperties.RenderDefault | suggestPlugin.js:329-340 | with the default template and a trimmed `matchWith` without `+`, `%` or `>`, item `i` is candidate `i`'s `matchWith` field |
| SuggestProperties.DisplayKeepsInv | suggestPlugin.js:302-347 | displaying keeps the invariant |
| SuggestProperties.NavigateKeepsInv | suggestPlugin.js:242-280 | navigation keeps the invariant, thrown or not |
| SuggestProperties.InsertKeepsInv | suggestPlugin.js:393-398 | inserting keeps the invariant, thrown or not |
| SuggestProperties.KeyUpKeepsInv | suggestPlugin.js:165-213 | the keyup handler keeps the invariant, thrown or not |
| SuggestProperties.ClickKeepsInv | suggestPlugin.js:88-112 | a click keeps the invariant, whether the results listener throws or not |
| SuggestProperties.OtherHandlersKeepInv | suggestPlugin.js:96-100 | focus, the fetch events and editing keep the invariant |
| SuggestProperties.InitialInv | suggestPlugin.js:57-60 | the initial state satisfies the invariant |
| SuggestProperties.SyncedArrowsDoNotThrow | suggestPlugin.js:242-280 | while the open list shows exactly `data`, the arrow keys never throw and keep it so |
| SuggestProperties.DisplayKeepsSynced | suggestPlugin.js:302-347 | displaying keeps the list in step with `data` unless the early return happens while open, or a re-render leaves the pointer past the new items |
| SuggestProperties.StaleListThrows | suggestPlugin.js:324-326 | a single-candidate response equal to the query while the list is open keeps two or more stale items, and, with the first item active, the next down key throws |
| SuggestProperties.FocusReopens | suggestPlugin.js:96-100 | focus reopens a list of two or more candidates; with one candidate it reopens exactly when the candidate has the `matchWith` field |
| SuggestProperties.ShortKeyUpKeepsFetch | suggestPlugin.js:199-211 | after a short keyup the pending fetch still fires, and a response with two or more candidates reopens the list |
| SuggestProperties.LongKeyUpIgnoresResponse | suggestPlugin.js:199-205 | a keyup above `minLength` aborts the request in flight: its response then changes nothing, and the timer sends the new text instead |
| SuggestProperties.EmptyArrayWithArrayName | suggestPlugin.js:310-321 | an empty array with `arrayName` set makes `data` undefined, and the list closes |

## Left out

- DOM construction, classes, styles and ARIA attributes (`_prepareDOM`, `classList`, `style.visibility`, `_getFocus`, `_removeFocus`) are view plumbing. Rendered items are kept only as their texts, and only the TypeErrors these methods raise are modelled.
- The `CustomEvent` polyfill and `dispatchEvent` are modelled as the notifications appended to `log`.
- Candidates are plain maps, so field names inherited from `Object.prototype` (`toString`, `constructor`, `__proto__`) read as undefined, where JavaScript reads the inherited member. With `matchWith` set to `toString`, `Template.Field` and `SuggestModel.FieldOf` therefore differ from the original, and so does the early return of `_displaySuggestions` that compares against them.
- `JSON.parse` of the element's `data-suggest` attribute in the constructor is not modelled: the constructor takes the attribute's options already parsed, so the exception thrown for malformed text is left out.
- `XMLHttpRequest`, the request URL and `JSON.parse` are network I/O. A fetch is a slot (`Idle`, `Scheduled`, `InFlight`), and completing it is an event carrying a parsed `Response`. Candidates are maps from field names to strings. Non-string field values, other JSON shapes, a member named `length` in a keyed response, and a body that fails to parse are not modelled.
- Timers are not modelled: the 350 ms delay, and the order in which the timer and other events occur. Every interleaving of events is allowed. The timer in `_undoPreSuggestion` does not touch the instance, so it is left out.
- `new Function` code generation is not modelled. The generated expression is evaluated directly. `Template.TemplateCompiles` is a sufficient condition for the generated code to compile, and the constructor requires it. It also rejects some templates that compile and render in the original: a `$` in a field name, a backslash in a field name or a literal, and a placeholder piece padded with blank characters other than the space.
- Options.Extend: the argument's in-place update is returned as a new map, because the only caller passes a fresh `{}`. `hasOwnProperty` is not modelled because maps have no inherited keys.
- SuggestController.Suggest.constructor: it requires `matchWith`, `minLength` and `arrayName` to have the types the controller reads. The JavaScript conversions of other types are not modelled.
- The UMD wrapper, `suggest()`'s element scan and `dataset.plugin_suggest` are host glue, and so is the `parentNode` walk in the results click, which `ClickTarget` replaces.
- The class names in the options are kept only in `Options.Defaults`, because they only style the view.
- Form submission, the default action that the keydown guard cancels, is not modelled.
- Template.ClassifyPiece: the regex's `lastIndex`, the match positions and `Template.Segment.Resume` count characters (Unicode scalar values), while JavaScript counts UTF-16 code units. They differ once a piece holds a character beyond the Basic Multilingual Plane. For example, take `<%X%>+     <%a%>` with X the character U+1F600: the original searches the second piece from 6 and quotes it, but the model searches it from 5 and finds the placeholder. The keyup gate does count code units (`JsText.Utf16Length`).
- The `console.log` hint printed when a keyed response arrives and no `arrayName` is configured is console output, so it is left out; `data` is kept as it was.

/** What the controller's handlers promise, proved about the functions of
    SuggestModel: opening and closing, walking the list with the arrow keys,
    committing and reverting, the keyup dispatch, the display decision, the
    invariant every handler keeps, and the quirks of the original code. */
module SuggestProperties {
  import opened JsText
  import opened Template
  import opened SuggestModel
  import TemplateProperties

  // ---------------------------------------------------------------------
  // Opening and closing

  /** `_openSuggestions` acts only on a closed list and `_closeSuggestions`
      only on an open one; opening then closing a closed list leaves it as it
      was, apart from the two notifications. */
  lemma OpenCloseRoundTrip(s: State)
    requires !s.isOpen && s.pointer == -1
    ensures OpenList(s).isOpen && OpenList(s).pointer == -1
    ensures OpenList(OpenList(s)) == OpenList(s)
    ensures CloseList(OpenList(s)) == s.(log := s.log + [SuggestOpen, SuggestClose])
    ensures CloseList(s) == s
  {
  }

  lemma CloseOpenRoundTrip(s: State)
    requires s.isOpen
    ensures !CloseList(s).isOpen && CloseList(s).pointer == -1
    ensures CloseList(CloseList(s)) == CloseList(s)
    ensures OpenList(CloseList(s)) == s.(pointer := -1, log := s.log + [SuggestClose, SuggestOpen])
    ensures OpenList(s) == s
  {
  }

  // ---------------------------------------------------------------------
  // Walking the list

  /** The text previewing candidate `i` puts into the input. */
  function Label(d: seq<Candidate>, i: nat, matchWith: string): string
    requires i < |d|
  {
    ToText(Field(d[i], matchWith))
  }

  /** The state after `k` keyups of the same key, each one starting from
      the state the previous one left, thrown or not. */
  function Presses(s: State, cfg: Config, keyCode: int, k: nat): State
  {
    if k == 0 then s else KeyUp(Presses(s, cfg, keyCode, k - 1), cfg, keyCode).state
  }

  /** An open list that shows one item per candidate, with nothing active. */
  predicate ReadyToWalk(s: State, d: seq<Candidate>)
  {
    s.isOpen && s.pointer == -1 && s.data == Some(d) && |d| >= 1 && |s.items| == |d|
  }

  /** From the input, the k-th down key activates candidate k-1 and previews
      its field. */
  lemma {:induction false} DownWalk(s: State, cfg: Config, d: seq<Candidate>, k: nat)
    requires ReadyToWalk(s, d) && 1 <= k <= |d|
    ensures Presses(s, cfg, 40, k) == s.(pointer := k - 1, input := Label(d, k - 1, cfg.matchWith))
    ensures KeyUp(Presses(s, cfg, 40, k - 1), cfg, 40).Completed?
  {
    if k > 1 {
      DownWalk(s, cfg, d, k - 1);
    }
  }

  /** One more down key than there are items returns to the input, which
      gets `tempVal` back. */
  lemma DownWrapsAround(s: State, cfg: Config, d: seq<Candidate>)
    requires ReadyToWalk(s, d)
    ensures Presses(s, cfg, 40, |d| + 1) == s.(input := s.tempVal)
  {
    DownWalk(s, cfg, d, |d|);
  }

  /** The three cases of the up key on an open list in step with `data`. */
  lemma UpCases(s: State, cfg: Config, d: seq<Candidate>)
    requires s.isOpen && s.data == Some(d) && |d| >= 1 && |s.items| == |d| && -1 <= s.pointer < |d|
    ensures s.pointer == 0 ==> KeyUp(s, cfg, 38) == Completed(s.(input := s.tempVal, pointer := -1))
    ensures s.pointer == -1 ==>
      KeyUp(s, cfg, 38) == Completed(s.(pointer := |d| - 1, input := Label(d, |d| - 1, cfg.matchWith)))
    ensures s.pointer > 0 ==>
      KeyUp(s, cfg, 38) == Completed(s.(pointer := s.pointer - 1, input := Label(d, s.pointer - 1, cfg.matchWith)))
  {
  }

  /** Up undoes down: from a previewed item, or from the input showing
      `tempVal`, a down key then an up key lead back to the same state. */
  lemma UpUndoesDown(s: State, cfg: Config, d: seq<Candidate>)
    requires s.isOpen && s.data == Some(d) && |s.items| == |d| && -1 <= s.pointer < |d| - 1
    requires s.pointer == -1 ==> s.input == s.tempVal
    requires s.pointer >= 0 ==> s.input == Label(d, s.pointer, cfg.matchWith)
    ensures KeyUp(s, cfg, 40).Completed?
    ensures KeyUp(KeyUp(s, cfg, 40).state, cfg, 38) == Completed(s)
  {
    var i := s.pointer + 1;
    var t := s.(pointer := i, input := Label(d, i, cfg.matchWith));
    assert KeyUp(s, cfg, 40) == Navigate(s, cfg, Down) == Completed(t);
    assert KeyUp(t, cfg, 38) == Navigate(t, cfg, Up);
    if s.pointer == -1 {
      assert Navigate(t, cfg, Up) == Completed(UndoPreview(t.(pointer := -1)));
    } else {
      assert Navigate(t, cfg, Up) == Preview(t.(pointer := s.pointer), cfg);
    }
  }

  // ---------------------------------------------------------------------
  // Committing and reverting

  /** The state a commit of candidate `i` leaves: its field in the input,
      `data` emptied, the list closed and `suggestSelected` dispatched. */
  function Committed(s: State, text: string): State
  {
    var t := CloseList(s.(input := text, data := Some([])));
    t.(log := t.log + [SuggestSelected])
  }

  lemma CommittedSpec(s: State, text: string)
    ensures var r := Committed(s, text);
      r.input == text && r.data == Some([]) && !r.isOpen && r.pointer == (if s.isOpen then -1 else s.pointer) &&
      r.tempVal == s.tempVal && r.items == s.items && r.fetch == s.fetch &&
      r.log == s.log + (if s.isOpen then [SuggestClose] else []) + [SuggestSelected]
  {
  }

  /** Enter on an active item commits it, and its keydown cancels the form
      submission; enter with nothing active does neither. */
  lemma EnterCommits(s: State, cfg: Config)
    requires s.data.Some? && s.pointer != -1
    ensures KeyDownPrevents(s, 13)
    ensures 0 <= s.pointer < |s.data.value| ==>
      KeyUp(s, cfg, 13) == Completed(Committed(s, Label(s.data.value, s.pointer, cfg.matchWith)))
    ensures !(0 <= s.pointer < |s.data.value|) ==> KeyUp(s, cfg, 13) == Threw(s)
  {
  }

  lemma EnterWithoutActiveItem(s: State, cfg: Config)
    requires s.pointer == -1
    ensures !KeyDownPrevents(s, 13) && KeyUp(s, cfg, 13) == Completed(s)
  {
  }

  /** A click on item `id` commits candidate `id`; the body's listener then
      finds the list closed. When `data` no longer has that candidate the
      results listener throws and the body's listener still closes the list,
      reverting the input. */
  lemma ClickCommits(s: State, cfg: Config, id: nat)
    requires s.data.Some?
    ensures id < |s.data.value| ==>
      Click(s, cfg, OnItem(id)) == Completed(Committed(s, Label(s.data.value, id, cfg.matchWith)))
    ensures id >= |s.data.value| ==>
      Click(s, cfg, OnItem(id)) == Threw(CloseList(UndoPreview(s)))
  {
  }

  /** Escape, or a click outside the input, puts `tempVal` back into the
      input and closes the list; on a closed list neither changes anything. */
  lemma EscReverts(s: State, cfg: Config)
    ensures s.isOpen ==> KeyUp(s, cfg, 27) == Completed(CloseList(s.(input := s.tempVal)))
    ensures s.isOpen ==> KeyUp(s, cfg, 27).state.input == s.tempVal && !KeyUp(s, cfg, 27).state.isOpen
    ensures !s.isOpen ==> KeyUp(s, cfg, 27) == Completed(s)
  {
  }

  lemma OutsideClickReverts(s: State, cfg: Config, target: ClickTarget)
    requires target == Elsewhere || target == InResults
    ensures Click(s, cfg, target) == KeyUp(s, cfg, 27)
    ensures Click(s, cfg, OnInput) == Completed(s)
  {
  }

  /** The arrow keys on an open list never change `tempVal`, `data`, the
      rendered items or the list's visibility. */
  lemma ArrowKeepsList(s: State, cfg: Config, keyCode: int)
    requires s.isOpen && (keyCode == 38 || keyCode == 40)
    ensures var r := KeyUp(s, cfg, keyCode).state;
      r.isOpen && r.tempVal == s.tempVal && r.data == s.data && r.items == s.items
  {
  }

  /** The state after a sequence of keyups. */
  function Typed(s: State, cfg: Config, keyCodes: seq<int>): State
  {
    if |keyCodes| == 0 then s
    else KeyUp(Typed(s, cfg, keyCodes[..|keyCodes| - 1]), cfg, keyCodes[|keyCodes| - 1]).state
  }

  /** However the arrow keys moved through an open list, escape restores
      the text the list was displayed for. */
  lemma {:induction false} EscAfterArrows(s: State, cfg: Config, keyCodes: seq<int>)
    requires s.isOpen
    requires forall i :: 0 <= i < |keyCodes| ==> keyCodes[i] == 38 || keyCodes[i] == 40
    ensures Typed(s, cfg, keyCodes).isOpen && Typed(s, cfg, keyCodes).tempVal == s.tempVal
    ensures KeyUp(Typed(s, cfg, keyCodes), cfg, 27).state.input == s.tempVal
  {
    var n := |keyCodes|;
    if n > 0 {
      EscAfterArrows(s, cfg, keyCodes[..n - 1]);
      ArrowKeepsList(Typed(s, cfg, keyCodes[..n - 1]), cfg, keyCodes[n - 1]);
    }
  }

  // ---------------------------------------------------------------------
  // The keyup dispatch

  /** Any other key compares the trimmed text's `length`, in UTF-16 code
      units, with `minLength`:
      above it a fetch of the trimmed text is scheduled (replacing any
      pending one) and nothing else changes; otherwise `data` is emptied and
      the list closes, and a pending fetch is left as it was. */
  lemma TypingKey(s: State, cfg: Config, keyCode: int)
    requires KeyName(keyCode) == Other
    ensures Utf16Length(Trim(s.input)) > cfg.minLength ==>
      KeyUp(s, cfg, keyCode) == Completed(s.(fetch := Scheduled(Trim(s.input))))
    ensures Utf16Length(Trim(s.input)) <= cfg.minLength ==>
      KeyUp(s, cfg, keyCode) == Completed(CloseList(s.(data := Some([])))) &&
      KeyUp(s, cfg, keyCode).state.fetch == s.fetch
  {
  }

  /** A keyup above `minLength` aborts the request in flight and sets a new
      timer: the aborted request's response is ignored, and the timer sends
      the new text. */
  lemma LongKeyUpIgnoresResponse(s: State, cfg: Config, keyCode: int, r: Response)
    requires KeyName(keyCode) == Other && Utf16Length(Trim(s.input)) > cfg.minLength
    requires s.fetch.InFlight?
    ensures var t := KeyUp(s, cfg, keyCode).state;
      Responds(t, cfg, r) == t && Fails(t) == t &&
      TimerFires(t).fetch == InFlight(Trim(s.input))
  {
  }

  /** `length` counts UTF-16 code units: with `minLength` 1, a single
      character beyond the Basic Multilingual Plane is long enough to fetch. */
  lemma AstralCharacterFetches(s: State, cfg: Config)
    requires cfg.minLength == 1 && s.input == "\U{1F600}"
    ensures |s.input| == 1
    ensures KeyUp(s, cfg, 65) == Completed(s.(fetch := Scheduled("\U{1F600}")))
  {
    AstralCharacterLength();
  }

  /** Left, right, tab and shift change nothing. */
  lemma IgnoredKeys(s: State, cfg: Config, keyCode: int)
    requires keyCode in {37, 39, 9, 16}
    ensures KeyUp(s, cfg, keyCode) == Completed(s)
  {
  }

  /** Down on a closed list re-displays the current `data` for the trimmed
      text without fetching. */
  lemma DownWhileClosed(s: State, cfg: Config)
    requires !s.isOpen
    ensures KeyUp(s, cfg, 40) == Completed(Display(s, cfg, Some(Trim(s.input)), None))
    ensures KeyUp(s, cfg, 40).state.fetch == s.fetch && KeyUp(s, cfg, 40).state.data == s.data
  {
  }

  // ---------------------------------------------------------------------
  // The display decision

  /** `data` after a response: a non-empty array replaces it; an empty
      array or an object is looked up under `arrayName` (undefined when the
      member is missing, and for an empty array); without `arrayName` the
      old `data` stays. */
  lemma ReceivedCases(data: Option<seq<Candidate>>, r: Response, arrayName: string)
    ensures r.ArrayResponse? && |r.candidates| > 0 ==> Received(data, r, arrayName) == Some(r.candidates)
    ensures arrayName == "" && !(r.ArrayResponse? && |r.candidates| > 0) ==> Received(data, r, arrayName) == data
    ensures arrayName != "" && r.ArrayResponse? && |r.candidates| == 0 ==> Received(data, r, arrayName) == None
    ensures arrayName != "" && r.KeyedResponse? ==>
      Received(data, r, arrayName) == (if arrayName in r.members then Some(r.members[arrayName]) else None)
  {
  }

  /** `_displaySuggestions` always records the input in `tempVal`, never
      touches the input or the fetch, and then either returns early (one
      candidate equal to the query: visibility, pointer and items stay),
      renders one item per candidate in order and opens, or closes. */
  lemma DisplayCases(s: State, cfg: Config, query: Option<string>, response: Option<Response>)
    ensures var r := Display(s, cfg, query, response);
      var data := if response.Some? then Received(s.data, response.value, cfg.arrayName) else s.data;
      r.tempVal == s.input && r.input == s.input && r.fetch == s.fetch && r.data == data &&
      (query != Some("") && data.Some? && |data.value| > 0 && Suppressed(data.value, query, cfg.matchWith) ==>
        r == s.(tempVal := s.input, data := data)) &&
      (query != Some("") && data.Some? && |data.value| > 0 && !Suppressed(data.value, query, cfg.matchWith) ==>
        r.isOpen && r.items == Render(cfg.template, data.value) &&
        r.pointer == (if s.isOpen then s.pointer else -1)) &&
      (!(query != Some("") && data.Some? && |data.value| > 0) ==>
        !r.isOpen && r.items == s.items && (s.isOpen ==> r.pointer == -1))
  {
  }

  /** Rendered items, in order, are the template's text for each candidate;
      with the default template that is the `matchWith` field itself. */
  lemma RenderDefault(d: seq<Candidate>, matchWith: string, i: nat)
    requires i < |d|
    requires '+' !in matchWith && '%' !in matchWith && '>' !in matchWith
    requires Trim(matchWith) == matchWith
    ensures Render(DefaultTemplate(matchWith), d)[i] == Label(d, i, matchWith)
  {
    TemplateProperties.DefaultTemplateRendersField(matchWith, d[i]);
  }

  // ---------------------------------------------------------------------
  // The invariant

  lemma {:induction false} DisplayKeepsInv(s: State, cfg: Config, query: Option<string>, response: Option<Response>)
    requires Inv(s)
    ensures Inv(Display(s, cfg, query, response))
  {
    DisplayCases(s, cfg, query, response);
  }

  lemma NavigateKeepsInv(s: State, cfg: Config, key: Key)
    requires Inv(s)
    ensures Inv(Navigate(s, cfg, key).state)
  {
  }

  lemma InsertKeepsInv(s: State, cfg: Config, id: Option<nat>)
    requires Inv(s)
    ensures Inv(Insert(s, cfg, id).state)
  {
  }

  /** The keyup handler keeps the invariant, whether it completes or throws. */
  lemma KeyUpKeepsInv(s: State, cfg: Config, keyCode: int)
    requires Inv(s)
    ensures Inv(KeyUp(s, cfg, keyCode).state)
  {
    DisplayKeepsInv(s, cfg, Some(Trim(s.input)), None);
    NavigateKeepsInv(s, cfg, KeyName(keyCode));
    InsertKeepsInv(s, cfg, None);
  }

  /** A click keeps the invariant, whether the results listener throws or not. */
  lemma ClickKeepsInv(s: State, cfg: Config, target: ClickTarget)
    requires Inv(s)
    ensures Inv(Click(s, cfg, target).state)
  {
    if target.OnItem? {
      InsertKeepsInv(s, cfg, Some(target.id));
    }
  }

  /** Focus, the fetch events and editing keep the invariant. */
  lemma OtherHandlersKeepInv(s: State, cfg: Config, r: Response, text: string)
    requires Inv(s)
    ensures Inv(Focus(s, cfg))
    ensures Inv(TimerFires(s)) && Inv(Responds(s, cfg, r)) && Inv(Fails(s)) && Inv(Edit(s, text))
  {
    DisplayKeepsInv(s, cfg, None, None);
    if s.fetch.InFlight? {
      DisplayKeepsInv(s.(fetch := Idle), cfg, Some(s.fetch.query), Some(r));
    }
  }

  lemma InitialInv(input: string)
    ensures Inv(Initial(input)) && !Initial(input).isOpen && Initial(input).data == Some([])
  {
  }

  // ---------------------------------------------------------------------
  // The open list in step with `data`

  /** While the list shows exactly `data`, the arrow keys never throw. */
  lemma SyncedArrowsDoNotThrow(s: State, cfg: Config, keyCode: int)
    requires Inv(s) && Synced(s, cfg) && (keyCode == 38 || keyCode == 40)
    ensures KeyUp(s, cfg, keyCode).Completed?
    ensures Synced(KeyUp(s, cfg, keyCode).state, cfg)
  {
  }

  /** Displaying keeps the list in step with `data` when the list was
      closed, and when a list that was open is re-rendered with more
      candidates than the pointer's position; it does not when the early
      return happens while the list is open, and a re-render with fewer
      candidates keeps a pointer past the new items. */
  lemma DisplayKeepsSynced(s: State, cfg: Config, query: Option<string>, response: Option<Response>)
    requires Inv(s) && Synced(s, cfg)
    ensures var data := if response.Some? then Received(s.data, response.value, cfg.arrayName) else s.data;
      var shown := query != Some("") && data.Some? && |data.value| > 0;
      !(s.isOpen && shown) || (!Suppressed(data.value, query, cfg.matchWith) && s.pointer < |data.value|) ==>
      Synced(Display(s, cfg, query, response), cfg)
  {
    DisplayCases(s, cfg, query, response);
  }

  // ---------------------------------------------------------------------
  // Quirks of the original code

  /** A response for an open list holding a single candidate equal to the
      query replaces `data` but keeps the old items on screen; with the
      first item active, the next down key moves to the second item, reads
      past `data` and throws. */
  lemma StaleListThrows(s: State, cfg: Config, c: Candidate)
    requires Inv(s) && s.isOpen && s.pointer == 0 && |s.items| >= 2
    requires s.fetch.InFlight? && s.fetch.query != "" && FieldOf(c, cfg.matchWith) == Some(s.fetch.query)
    ensures var r := Responds(s, cfg, ArrayResponse([c]));
      r.isOpen && r.items == s.items && r.data == Some([c]) && !Synced(r, cfg) &&
      KeyUp(r, cfg, 40) == Threw(r.(pointer := 1))
  {
  }

  /** Focus passes an undefined query: with several candidates the list
      reopens even when the input already equals one of them; with one
      candidate lacking the `matchWith` field, `undefined === undefined`
      makes it return early and the list stays closed. */
  lemma FocusReopens(s: State, cfg: Config, d: seq<Candidate>)
    requires !s.isOpen && s.data == Some(d) && |s.items| > 0
    ensures |d| >= 2 ==> Focus(s, cfg).isOpen && Focus(s, cfg).items == Render(cfg.template, d)
    ensures |d| == 1 && cfg.matchWith !in d[0] ==> !Focus(s, cfg).isOpen && Focus(s, cfg).tempVal == s.input
    ensures |d| == 1 && cfg.matchWith in d[0] ==> Focus(s, cfg).isOpen
  {
  }

  /** A short keyup closes the list but leaves a pending fetch in place: the
      timer still fires for the older, longer text, and a response with two or more
      candidates reopens the list. */
  lemma ShortKeyUpKeepsFetch(s: State, cfg: Config, keyCode: int, q: string, d: seq<Candidate>)
    requires KeyName(keyCode) == Other && Utf16Length(Trim(s.input)) <= cfg.minLength
    requires s.fetch == Scheduled(q) && q != ""
    requires |d| >= 2
    ensures var r := TimerFires(KeyUp(s, cfg, keyCode).state);
      r.fetch == InFlight(q) && !r.isOpen &&
      Responds(r, cfg, ArrayResponse(d)).isOpen &&
      Responds(r, cfg, ArrayResponse(d)).data == Some(d)
  {
  }

  /** An empty array with `arrayName` set makes `data` undefined, and the
      list closes. */
  lemma EmptyArrayWithArrayName(s: State, cfg: Config, q: string)
    requires cfg.arrayName != "" && s.fetch == InFlight(q)
    ensures Responds(s, cfg, ArrayResponse([])).data == None
    ensures !Responds(s, cfg, ArrayResponse([])).isOpen
  {
  }
}

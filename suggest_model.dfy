/** The state of a `Suggest` controller and what each of its handlers does to
    it, as pure functions over a `State` value. The class in
    SuggestController runs the same steps on mutable fields and is proved to
    follow these functions. */
module SuggestModel {
  import opened JsText
  import opened Template

  /** The parsed body of a successful response: the candidates themselves, or
      an object whose `arrayName` member holds them. */
  datatype Response = ArrayResponse(candidates: seq<Candidate>) | KeyedResponse(members: map<string, seq<Candidate>>)

  /** The key names of `keyNames`; every other key code is `Other`. */
  datatype Key = Down | Up | Enter | Esc | Left | Right | Tab | Shift | Other

  function KeyName(keyCode: int): Key
  {
    if keyCode == 40 then Down
    else if keyCode == 38 then Up
    else if keyCode == 13 then Enter
    else if keyCode == 27 then Esc
    else if keyCode == 37 then Left
    else if keyCode == 39 then Right
    else if keyCode == 9 then Tab
    else if keyCode == 16 then Shift
    else Other
  }

  /** The custom events dispatched on the element. */
  datatype Notification = SuggestRequest | SuggestOpen | SuggestClose | SuggestSelected

  /** The debounced request: nothing pending, a timer set for a query, or a
      request sent for a query and not yet answered. */
  datatype Fetch = Idle | Scheduled(query: string) | InFlight(query: string)

  /** The options the controller reads, fixed at construction. An empty
      `arrayName` stands for "not set" (`options.arrayName || false`). */
  datatype Config = Config(matchWith: string, minLength: int, arrayName: string, template: string)

  /** The instance fields the handlers change. `data` is `None` when it has
      become `undefined`; `input` is the input element's value; `items` holds
      the text of each rendered `<li>` (empty before the first render). */
  datatype State = State(
    data: Option<seq<Candidate>>,
    tempVal: string,
    isOpen: bool,
    pointer: int,
    input: string,
    items: seq<string>,
    fetch: Fetch,
    log: seq<Notification>)

  /** A handler either runs to its end or stops at a TypeError; the changes
      made before the throw stay. */
  datatype Outcome = Completed(state: State) | Threw(state: State)

  /** Where a click lands: on the input, on (or inside) the `<li>` with the
      given id, elsewhere inside the results box, or outside the widget. */
  datatype ClickTarget = OnInput | OnItem(id: nat) | InResults | Elsewhere

  /** The fields as the constructor sets them. */
  function Initial(input: string): State
  {
    State(Some([]), "", false, -1, input, [], Idle, [])
  }

  /** `_openSuggestions`. */
  function OpenList(s: State): State
  {
    if s.isOpen then s
    else s.(isOpen := true, pointer := -1, log := s.log + [SuggestOpen])
  }

  /** `_closeSuggestions`. */
  function CloseList(s: State): State
  {
    if s.isOpen then s.(isOpen := false, pointer := -1, log := s.log + [SuggestClose])
    else s
  }

  /** `_undoPreSuggestion`: while open, the input gets `tempVal` back and,
      once items were rendered, the pointer leaves the list. `tempVal` itself
      is not cleared: the timer that means to do so sets a property of the
      global object instead. */
  function UndoPreview(s: State): State
  {
    if !s.isOpen then s
    else if |s.items| != 0 then s.(input := s.tempVal, pointer := -1)
    else s.(input := s.tempVal)
  }

  /** The text `data[index][matchWith]` gives the input: a missing field
      becomes "undefined"; `None` when `data` or `data[index]` is undefined,
      where reading the field throws. */
  function Lookup(data: Option<seq<Candidate>>, index: int, matchWith: string): Option<string>
  {
    if data.Some? && 0 <= index < |data.value| then Some(ToText(Field(data.value[index], matchWith)))
    else None
  }

  /** `_preSuggestion`. */
  function Preview(s: State, cfg: Config): Outcome
  {
    match Lookup(s.data, s.pointer, cfg.matchWith)
    case Some(text) => Completed(s.(input := text))
    case None => Threw(s)
  }

  /** `_navigation` for the down and up keys. Reading
      `suggestions[pointer]` throws when nothing was ever rendered, and
      `_getFocus` throws when the pointer lies outside the rendered items. */
  function Navigate(s: State, cfg: Config, key: Key): Outcome
  {
    if !s.isOpen then Completed(s)
    else if |s.items| == 0 then Threw(s)
    else if key == Down then
      var t := s.(pointer := s.pointer + 1);
      if 0 <= t.pointer <= |s.items| - 1 then Preview(t, cfg)
      else if t.pointer > |s.items| - 1 then Completed(UndoPreview(t))
      else Completed(t)
    else if key == Up then
      if s.pointer - 1 == -1 then Completed(UndoPreview(s.(pointer := -1)))
      else
        var t := s.(pointer := if s.pointer - 1 < -1 then |s.items| - 1 else s.pointer - 1);
        if t.pointer < |s.items| then Preview(t, cfg) else Threw(t)
    else Completed(s)
  }

  /** The candidates `data` holds after a response: a non-empty array is
      taken as is; anything else (an empty array included) is looked up
      under `arrayName` when that is set, and leaves `data` alone when not. */
  function Received(data: Option<seq<Candidate>>, response: Response, arrayName: string): Option<seq<Candidate>>
  {
    match response
    case ArrayResponse(a) =>
      if |a| > 0 then Some(a)
      else if arrayName != "" then None
      else data
    case KeyedResponse(m) =>
      if arrayName == "" then data
      else if arrayName in m then Some(m[arrayName])
      else None
  }

  /** A field's value, `None` standing for `undefined`. */
  function FieldOf(c: Candidate, name: string): Option<string>
  {
    if name in c then Some(c[name]) else None
  }

  /** One rendered item per candidate, in order. */
  function Render(template: string, d: seq<Candidate>): (items: seq<string>)
    ensures |items| == |d|
  {
    seq(|d|, i requires 0 <= i < |d| => ItemText(template, d[i]))
  }

  /** The early return of `_displaySuggestions`: a single candidate whose
      `matchWith` field is strictly equal to the query (both may be
      `undefined`). */
  predicate Suppressed(d: seq<Candidate>, query: Option<string>, matchWith: string)
  {
    |d| == 1 && query == FieldOf(d[0], matchWith)
  }

  /** `_displaySuggestions(query, response)`; `None` stands for an
      `undefined` argument. */
  function Display(s: State, cfg: Config, query: Option<string>, response: Option<Response>): State
  {
    var data := if response.Some? then Received(s.data, response.value, cfg.arrayName) else s.data;
    var t := s.(tempVal := s.input, data := data);
    if query != Some("") && data.Some? && |data.value| > 0 then
      if Suppressed(data.value, query, cfg.matchWith) then t
      else OpenList(t.(items := Render(cfg.template, data.value)))
    else CloseList(t)
  }

  /** `_insertSuggestion(id)`: the chosen candidate's field goes into the
      input, `data` is emptied, the list closes and `suggestSelected` is
      dispatched. Without an id the pointer chooses. */
  function Insert(s: State, cfg: Config, id: Option<nat>): Outcome
  {
    var index := if id.Some? then id.value else s.pointer;
    match Lookup(s.data, index, cfg.matchWith)
    case None => Threw(s)
    case Some(text) =>
      var t := CloseList(s.(input := text, data := Some([])));
      Completed(t.(log := t.log + [SuggestSelected]))
  }

  /** The keyup handler. */
  function KeyUp(s: State, cfg: Config, keyCode: int): Outcome
  {
    var value := Trim(s.input);
    match KeyName(keyCode)
    case Down => if s.isOpen then Navigate(s, cfg, Down) else Completed(Display(s, cfg, Some(value), None))
    case Up => if s.isOpen then Navigate(s, cfg, Up) else Completed(s)
    case Enter => if s.pointer != -1 then Insert(s, cfg, None) else Completed(s)
    case Esc => Completed(CloseList(UndoPreview(s)))
    case Other =>
      if Utf16Length(value) > cfg.minLength then Completed(s.(fetch := Scheduled(value)))
      else Completed(CloseList(s.(data := Some([]))))
    case _ => Completed(s)
  }

  /** The keydown handler: whether it cancels the key's default action. */
  function KeyDownPrevents(s: State, keyCode: int): bool
  {
    KeyName(keyCode) == Enter && s.pointer != -1
  }

  /** The focus handler; it passes the undefined `that.value` as the query. */
  function Focus(s: State, cfg: Config): State
  {
    if !s.isOpen && |s.items| > 0 then Display(s, cfg, None, None) else s
  }

  /** A click: the results box's listener runs first, then the click bubbles
      to the body's listener, which runs even when the first one threw. */
  function Click(s: State, cfg: Config, target: ClickTarget): Outcome
  {
    var first := if target.OnItem? then Insert(s, cfg, Some(target.id)) else Completed(s);
    var u := first.state;
    var v := if u.isOpen && target != OnInput then CloseList(UndoPreview(u)) else u;
    if first.Threw? then Threw(v) else Completed(v)
  }

  /** The debounce timer fires: `_callData` dispatches `suggestRequest` and
      sends the request. */
  function TimerFires(s: State): State
  {
    match s.fetch
    case Scheduled(q) => s.(fetch := InFlight(q), log := s.log + [SuggestRequest])
    case _ => s
  }

  /** The request completes with status 200: the callback displays the
      response for the query it was sent with. */
  function Responds(s: State, cfg: Config, response: Response): State
  {
    match s.fetch
    case InFlight(q) => Display(s.(fetch := Idle), cfg, Some(q), Some(response))
    case _ => s
  }

  /** The request completes with another status or fails: nothing is shown. */
  function Fails(s: State): State
  {
    match s.fetch
    case InFlight(_) => s.(fetch := Idle)
    case _ => s
  }

  /** The user edits the input's text. */
  function Edit(s: State, text: string): State
  {
    s.(input := text)
  }

  /** What every reachable state satisfies: the pointer never drops below
      -1, a closed list has no active item, and an open list shows at least
      one rendered item while `data` holds at least one candidate. */
  predicate Inv(s: State)
  {
    s.pointer >= -1 &&
    (!s.isOpen ==> s.pointer == -1) &&
    (s.isOpen ==> s.data.Some? && |s.data.value| >= 1 && |s.items| >= 1)
  }

  /** The open list shows exactly the candidates in `data` and the pointer
      lies within it. Rendering establishes this; the early return of
      `_displaySuggestions` while the list is open breaks it. */
  predicate Synced(s: State, cfg: Config)
  {
    s.isOpen ==> s.data.Some? && s.items == Render(cfg.template, s.data.value) && s.pointer < |s.items|
  }
}

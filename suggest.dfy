/** The `Suggest` controller: the instance fields its handlers update in
    place, each handler as a method proved to follow the matching function
    of SuggestModel, and the item generator that renders one candidate. */
module SuggestController {
  import opened JsText
  import opened Template
  import opened Options
  import opened SuggestModel
  import SuggestProperties

  /** `_generateItem(index)(that)` for the candidate at that index: parse
      the template afresh (a new global regex each call), then evaluate the
      `+` chain from left to right. */
  method GenerateItem(template: string, c: Candidate) returns (text: string)
    ensures text == ItemText(template, c)
  {
    var segs := ParseTemplate(template);
    var value := Value(segs[0], c);
    var i := 1;
    EvaluatePrefix(segs, 0, c);
    while i < |segs|
      invariant 1 <= i <= |segs|
      invariant value == Evaluate(segs[..i], c)
    {
      EvaluatePrefix(segs, i, c);
      value := Plus(value, Value(segs[i], c));
      i := i + 1;
    }
    assert segs[..i] == segs;
    text := ToText(value);
  }

  /** One more segment of the `+` chain: the prefix of length `i + 1`
      evaluates to the prefix of length `i` plus segment `i`. */
  lemma EvaluatePrefix(segs: seq<Segment>, i: nat, c: Candidate)
    requires i < |segs|
    ensures i == 0 ==> Evaluate(segs[..1], c) == Value(segs[0], c)
    ensures i > 0 ==> Evaluate(segs[..i + 1], c) == Plus(Evaluate(segs[..i], c), Value(segs[i], c))
  {
    assert segs[..i + 1][..i] == segs[..i];
  }

  /** The markup loop of `_displaySuggestions`: one item per candidate,
      in order. */
  method RenderItems(template: string, d: seq<Candidate>) returns (rendered: seq<string>)
    ensures rendered == Render(template, d)
  {
    rendered := [];
    var i := 0;
    while i < |d|
      invariant 0 <= i <= |d|
      invariant rendered == Render(template, d)[..i]
    {
      var text := GenerateItem(template, d[i]);
      rendered := rendered + [text];
      i := i + 1;
    }
    assert Render(template, d)[..i] == Render(template, d);
  }

  /** The options the controller reads, from the merged options and the
      element's template attribute (empty when absent). */
  function ConfigOf(options: Settings, templateAttr: string): (cfg: Config)
    requires WellTyped(options)
    ensures cfg.matchWith == options["matchWith"].text && cfg.minLength == options["minLength"].number
    ensures cfg.template == if templateAttr != "" then templateAttr else DefaultTemplate(cfg.matchWith)
    ensures cfg.arrayName == ArrayName(options)
  {
    var matchWith := options["matchWith"].text;
    Config(matchWith, options["minLength"].number, ArrayName(options), EffectiveTemplate(templateAttr, matchWith))
  }

  class Suggest {
    const config: Config
    var data: Option<seq<Candidate>>
    var tempVal: string
    var isOpen: bool
    var pointer: int
    var input: string
    var items: seq<string>
    var fetch: Fetch
    var log: seq<Notification>

    /** The fields as a SuggestModel state. */
    function Model(): State
      reads this
    {
      State(data, tempVal, isOpen, pointer, input, items, fetch, log)
    }

    /** The invariant of the state machine, and a template whose generated
        code compiles. */
    predicate Valid()
      reads this
    {
      Inv(Model()) && TemplateCompiles(config.template)
    }

    /** `new Suggest(el, opt)`: the options are `extend({}, defaults, opt,
        attrOptions)`, the template is the element's or the default one. */
    constructor (opt: Settings, attrOptions: Settings, templateAttr: string, initialInput: string)
      requires TypedWhereGiven(opt) && TypedWhereGiven(attrOptions)
      requires WellTyped(Resolve(opt, attrOptions))
      requires TemplateCompiles(ConfigOf(Resolve(opt, attrOptions), templateAttr).template)
      ensures config == ConfigOf(Resolve(opt, attrOptions), templateAttr)
      ensures Model() == Initial(initialInput)
      ensures Valid()
    {
      var options := Extend(map[], [Defaults(), opt, attrOptions]);
      config := ConfigOf(options, templateAttr);
      data := Some([]);
      tempVal := "";
      isOpen := false;
      pointer := -1;
      input := initialInput;
      items := [];
      fetch := Idle;
      log := [];
    }

    method OpenSuggestions()
      modifies this
      ensures Model() == OpenList(old(Model()))
    {
      if !isOpen {
        log := log + [SuggestOpen];
        pointer := -1;
        isOpen := true;
      }
    }

    method CloseSuggestions()
      modifies this
      ensures Model() == CloseList(old(Model()))
    {
      if isOpen {
        log := log + [SuggestClose];
        pointer := -1;
        isOpen := false;
      }
    }

    method PreSuggestion() returns (threw: bool)
      modifies this
      ensures Model() == Preview(old(Model()), config).state
      ensures threw == Preview(old(Model()), config).Threw?
    {
      if data.Some? && 0 <= pointer < |data.value| {
        input := ToText(Field(data.value[pointer], config.matchWith));
        threw := false;
      } else {
        threw := true;
      }
    }

    method UndoPreSuggestion()
      modifies this
      ensures Model() == UndoPreview(old(Model()))
    {
      if isOpen {
        input := tempVal;
        if |items| != 0 {
          pointer := -1;
        }
      }
    }

    method Navigation(key: Key) returns (threw: bool)
      modifies this
      ensures Model() == Navigate(old(Model()), config, key).state
      ensures threw == Navigate(old(Model()), config, key).Threw?
    {
      threw := false;
      if isOpen {
        if |items| == 0 {
          threw := true;
          return;
        }
        if key == Down {
          pointer := pointer + 1;
          if pointer > -1 && pointer <= |items| - 1 {
            threw := PreSuggestion();
            return;
          }
          if pointer > |items| - 1 {
            UndoPreSuggestion();
          }
        } else if key == Up {
          pointer := pointer - 1;
          if pointer == -1 {
            UndoPreSuggestion();
            return;
          }
          if pointer < -1 {
            pointer := |items| - 1;
          }
          if pointer >= |items| {
            threw := true;
            return;
          }
          threw := PreSuggestion();
        }
      }
    }

    method DisplaySuggestions(query: Option<string>, response: Option<Response>)
      modifies this
      ensures Model() == Display(old(Model()), config, query, response)
    {
      tempVal := input;
      if response.Some? {
        TakeResponse(response.value);
      }
      if query != Some("") && data.Some? && |data.value| > 0 {
        if |data.value| == 1 && query == FieldOf(data.value[0], config.matchWith) {
          return;
        }
        items := RenderItems(config.template, data.value);
        OpenSuggestions();
      } else {
        CloseSuggestions();
      }
    }

    /** The choice of `data` in `_displaySuggestions`. */
    method TakeResponse(response: Response)
      modifies this
      ensures Model() == old(Model()).(data := Received(old(data), response, config.arrayName))
    {
      match response
      case ArrayResponse(a) =>
        if |a| > 0 {
          data := Some(a);
        } else if config.arrayName != "" {
          data := None;
        }
      case KeyedResponse(m) =>
        if config.arrayName != "" {
          data := if config.arrayName in m then Some(m[config.arrayName]) else None;
        }
    }

    method InsertSuggestion(id: Option<nat>) returns (threw: bool)
      modifies this
      ensures Model() == Insert(old(Model()), config, id).state
      ensures threw == Insert(old(Model()), config, id).Threw?
    {
      var index := if id.Some? then id.value else pointer;
      if !(data.Some? && 0 <= index < |data.value|) {
        return true;
      }
      input := ToText(Field(data.value[index], config.matchWith));
      data := Some([]);
      CloseSuggestions();
      log := log + [SuggestSelected];
      threw := false;
    }

    /** The keydown listener: whether it calls `preventDefault`. */
    method KeyDown(keyCode: int) returns (prevent: bool)
      ensures prevent == KeyDownPrevents(Model(), keyCode)
      ensures prevent <==> keyCode == 13 && pointer != -1
    {
      prevent := KeyName(keyCode) == Enter && pointer != -1;
    }

    /** The keyup listener. */
    method KeyUp(keyCode: int) returns (threw: bool)
      requires Valid()
      modifies this
      ensures Model() == SuggestModel.KeyUp(old(Model()), config, keyCode).state
      ensures threw == SuggestModel.KeyUp(old(Model()), config, keyCode).Threw?
      ensures Valid()
    {
      ghost var s := Model();
      var value := Trim(input);
      var key := KeyName(keyCode);
      threw := false;
      if key == Down {
        if isOpen {
          threw := Navigation(Down);
        } else {
          DisplaySuggestions(Some(value), None);
        }
      } else if key == Up {
        if isOpen {
          threw := Navigation(Up);
        }
      } else if key == Enter {
        if pointer != -1 {
          threw := InsertSuggestion(None);
        }
      } else if key == Esc {
        UndoPreSuggestion();
        CloseSuggestions();
      } else if key == Other {
        if Utf16Length(value) > config.minLength {
          fetch := Scheduled(value);
        } else {
          data := Some([]);
          CloseSuggestions();
        }
      }
      SuggestProperties.KeyUpKeepsInv(s, config, keyCode);
    }

    /** The input's focus listener. */
    method OnFocus()
      requires Valid()
      modifies this
      ensures Model() == Focus(old(Model()), config)
      ensures Valid()
    {
      ghost var s := Model();
      if !isOpen && |items| > 0 {
        DisplaySuggestions(None, None);
      }
      SuggestProperties.OtherHandlersKeepInv(s, config, ArrayResponse([]), "");
    }

    /** A click: the results box's listener, then the body's. */
    method OnClick(target: ClickTarget) returns (threw: bool)
      requires Valid()
      modifies this
      ensures Model() == Click(old(Model()), config, target).state
      ensures threw == Click(old(Model()), config, target).Threw?
      ensures Valid()
    {
      ghost var s := Model();
      threw := false;
      if target.OnItem? {
        threw := InsertSuggestion(Some(target.id));
      }
      if isOpen && target != OnInput {
        UndoPreSuggestion();
        CloseSuggestions();
      }
      SuggestProperties.ClickKeepsInv(s, config, target);
    }

    /** The debounce timer fires and the request is sent. */
    method OnTimer()
      requires Valid()
      modifies this
      ensures Model() == TimerFires(old(Model()))
      ensures Valid()
    {
      if fetch.Scheduled? {
        log := log + [SuggestRequest];
        fetch := InFlight(fetch.query);
      }
    }

    /** The request completes with status 200 and a parsed body. */
    method OnResponse(response: Response)
      requires Valid()
      modifies this
      ensures Model() == Responds(old(Model()), config, response)
      ensures Valid()
    {
      ghost var s := Model();
      if fetch.InFlight? {
        var q := fetch.query;
        fetch := Idle;
        DisplaySuggestions(Some(q), Some(response));
      }
      SuggestProperties.OtherHandlersKeepInv(s, config, response, "");
    }

    /** The request completes with another status, or fails. */
    method OnFailure()
      requires Valid()
      modifies this
      ensures Model() == Fails(old(Model()))
      ensures Valid()
    {
      if fetch.InFlight? {
        fetch := Idle;
      }
    }

    /** The user edits the input's text. */
    method OnEdit(text: string)
      requires Valid()
      modifies this
      ensures Model() == Edit(old(Model()), text)
      ensures Valid()
    {
      input := text;
    }
  }
}

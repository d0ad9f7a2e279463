/** The option merge of the plugin: `extend` copies the own keys of each
    later argument onto the first, so later arguments win, and the controller
    resolves its options as defaults, then the caller's options, then the
    options read from the element's attribute. */
module Options {
  /** A JSON option value; only the shapes the controller reads are told apart. */
  datatype OptionValue = Text(text: string) | Number(number: int) | Flag(flag: bool)

  type Settings = map<string, OptionValue>

  /** The result of copying the keys of each source in turn onto `target`. */
  function Merged(target: Settings, sources: seq<Settings>): Settings
  {
    if |sources| == 0 then target
    else Merged(target, sources[..|sources| - 1]) + sources[|sources| - 1]
  }

  /** `extend(target, s1, …, sn)`: for each source in order, each of its own
      keys is assigned onto the target. The only caller passes a fresh `{}`,
      so the target's update in place is returned as a new map. */
  method Extend(target: Settings, sources: seq<Settings>) returns (merged: Settings)
    ensures merged == Merged(target, sources)
  {
    merged := target;
    var i := 0;
    while i < |sources|
      invariant i <= |sources|
      invariant merged == Merged(target, sources[..i])
    {
      var source := sources[i];
      var before := merged;
      var pending := source.Keys;
      while pending != {}
        invariant pending <= source.Keys
        invariant merged.Keys == before.Keys + (source.Keys - pending)
        invariant forall k :: k in merged ==>
          merged[k] == if k in source && k !in pending then source[k] else before[k]
        decreases pending
      {
        var key :| key in pending;
        merged := merged[key := source[key]];
        pending := pending - {key};
      }
      assert merged == before + source;
      assert sources[..i + 1][..i] == sources[..i];
      i := i + 1;
    }
    assert sources[..i] == sources;
  }

  /** A key is present after the merge exactly when the target or some source has it. */
  lemma {:induction false} MergedKeys(target: Settings, sources: seq<Settings>, k: string)
    ensures k in Merged(target, sources) <==> k in target || exists j :: 0 <= j < |sources| && k in sources[j]
  {
    if |sources| > 0 {
      var n := |sources|;
      MergedKeys(target, sources[..n - 1], k);
      if k in Merged(target, sources[..n - 1]) && k !in target {
        var j :| 0 <= j < n - 1 && k in sources[..n - 1][j];
        assert k in sources[j];
      }
      if exists j :: 0 <= j < n && k in sources[j] {
        var j :| 0 <= j < n && k in sources[j];
        if j < n - 1 {
          assert k in sources[..n - 1][j];
        }
      }
    }
  }

  /** The value of a key comes from the last source that has it. */
  lemma {:induction false} LastSourceWins(target: Settings, sources: seq<Settings>, j: nat, k: string)
    requires j < |sources| && k in sources[j]
    requires forall l :: j < l < |sources| ==> k !in sources[l]
    ensures k in Merged(target, sources) && Merged(target, sources)[k] == sources[j][k]
  {
    var n := |sources|;
    if j < n - 1 {
      assert k !in sources[n - 1];
      LastSourceWins(target, sources[..n - 1], j, k);
    }
  }

  /** A key no source has keeps the target's value. */
  lemma {:induction false} UntouchedKeyKept(target: Settings, sources: seq<Settings>, k: string)
    requires k in target
    requires forall l :: 0 <= l < |sources| ==> k !in sources[l]
    ensures k in Merged(target, sources) && Merged(target, sources)[k] == target[k]
  {
    var n := |sources|;
    if n > 0 {
      assert k !in sources[n - 1];
      UntouchedKeyKept(target, sources[..n - 1], k);
    }
  }

  /** The built-in defaults. */
  function Defaults(): (d: Settings)
    ensures d.Keys == {"matchWith", "minLength", "wrapperClass", "activeClass", "resultsClass", "itemClass", "visibilityClass"}
  {
    map[
      "matchWith" := Text("label"),
      "minLength" := Number(1),
      "wrapperClass" := Text("suggest-wrapper"),
      "activeClass" := Text("active"),
      "resultsClass" := Text("suggest-list"),
      "itemClass" := Text("suggest-list__item"),
      "visibilityClass" := Text("is-opened")
    ]
  }

  /** `extend({}, defaults, opt, attrOptions)`. */
  function Resolve(opt: Settings, attr: Settings): Settings
  {
    Merged(map[], [Defaults(), opt, attr])
  }

  /** An option from the attribute beats the caller's, which beats the default. */
  lemma ResolvePriority(opt: Settings, attr: Settings, k: string)
    ensures k in attr ==> k in Resolve(opt, attr) && Resolve(opt, attr)[k] == attr[k]
    ensures k !in attr && k in opt ==> k in Resolve(opt, attr) && Resolve(opt, attr)[k] == opt[k]
    ensures k !in attr && k !in opt && k in Defaults() ==> k in Resolve(opt, attr) && Resolve(opt, attr)[k] == Defaults()[k]
    ensures k in Resolve(opt, attr) <==> k in attr || k in opt || k in Defaults()
  {
    ResolveUnfolds(opt, attr);
  }

  lemma ResolveUnfolds(opt: Settings, attr: Settings)
    ensures Resolve(opt, attr) == Defaults() + opt + attr
  {
    var sources := [Defaults(), opt, attr];
    var two, one := [Defaults(), opt], [Defaults()];
    assert sources[..2] == two && two[..1] == one && one[..0] == [];
    assert Merged(map[], one) == map[] + Defaults() == Defaults();
    assert Merged(map[], two) == Defaults() + opt;
    assert Merged(map[], sources) == Merged(map[], two) + attr;
  }

  /** The options the controller reads have the types it expects. */
  predicate WellTyped(o: Settings)
  {
    "matchWith" in o && o["matchWith"].Text? &&
    "minLength" in o && o["minLength"].Number? &&
    ("arrayName" in o ==> o["arrayName"].Text?)
  }

  /** Each of these keys, where present, has the expected type. */
  predicate TypedWhereGiven(o: Settings)
  {
    ("matchWith" in o ==> o["matchWith"].Text?) &&
    ("minLength" in o ==> o["minLength"].Number?) &&
    ("arrayName" in o ==> o["arrayName"].Text?)
  }

  lemma ResolveWellTyped(opt: Settings, attr: Settings)
    requires TypedWhereGiven(opt) && TypedWhereGiven(attr)
    ensures WellTyped(Resolve(opt, attr))
  {
    ResolvePriority(opt, attr, "matchWith");
    ResolvePriority(opt, attr, "minLength");
    ResolvePriority(opt, attr, "arrayName");
  }

  /** `this.options.arrayName || false`: an absent or empty name means none,
      written here as the empty string. */
  function ArrayName(o: Settings): (name: string)
    requires WellTyped(o)
    ensures name != "" <==> "arrayName" in o && o["arrayName"].text != ""
  {
    if "arrayName" in o then o["arrayName"].text else ""
  }

  /** Without options of their own, the defaults match on `label` and ask
      for results after more than one character. */
  lemma DefaultsApply()
    ensures Resolve(map[], map[]) == Defaults()
    ensures WellTyped(Defaults()) && Defaults()["matchWith"] == Text("label") && Defaults()["minLength"] == Number(1)
  {
    ResolveUnfolds(map[], map[]);
    assert Defaults() + map[] + map[] == Defaults();
  }
}

/**
 * The Config Normalizer: `createConfig` turns the construction options into the
 * configuration record the controller reads for the rest of its life.
 */
module SmartConfig {
  import opened Wrappers
  import opened JsValues

  /** What was passed as `onChange`: a callable (identified by a reference) or any other value. */
  datatype OnChangeOption = Callable(ref: nat) | NotCallable(v: JsValue)

  /**
   * The construction options. A value option that was not passed is `Undefined`; an
   * accessor that was not passed is `None`. `items` is `None` when it is not an array.
   */
  datatype Options = Options(
    root: JsValue,
    labelText: JsValue,
    placeholder: JsValue,
    multi: JsValue,
    getId: Option<Raw -> JsValue>,
    getLabel: Option<Raw -> JsValue>,
    getSubtitle: Option<Raw -> JsValue>,
    getMeta: Option<Raw -> JsValue>,
    onChange: OnChangeOption,
    items: Option<seq<Raw>>)

  /** The configuration record; `onChange` holds the callback's reference when one was kept. */
  datatype Config = Config(
    root: JsValue,
    labelText: JsValue,
    placeholder: JsValue,
    multi: JsValue,
    getId: Raw -> JsValue,
    getLabel: Raw -> JsValue,
    getSubtitle: Raw -> JsValue,
    getMeta: Raw -> JsValue,
    onChange: Option<nat>)

  const RootRequired: string := "SmartSelect: root is required"
  const DefaultLabel: string := "Smart Select"
  const DefaultPlaceholder: string := "Select"

  /** `item => String(item.id)` */
  function DefaultGetId(raw: Raw): JsValue {
    Str(ToJsString(Get(raw, "id")))
  }

  /** `item => String(item.label)` */
  function DefaultGetLabel(raw: Raw): JsValue {
    Str(ToJsString(Get(raw, "label")))
  }

  /** `() => ""` */
  function DefaultGetSubtitle(raw: Raw): JsValue {
    Str("")
  }

  /** `() => ({})` */
  function DefaultGetMeta(raw: Raw): JsValue {
    Obj
  }

  /** A destructuring default: it applies only when the option is `undefined`. */
  function OrDefault(v: JsValue, default: JsValue): JsValue {
    if v.Undefined? then default else v
  }

  function AccessorOr(f: Option<Raw -> JsValue>, default: Raw -> JsValue): Raw -> JsValue {
    if f.Some? then f.value else default
  }

  /** `createConfig(options)`: fails when `root` is falsy, otherwise fills in the defaults. */
  function CreateConfig(o: Options): (r: Result<Config, string>)
    ensures r.Failure? <==> !Truthy(o.root)
    ensures r.Failure? ==> r.error == RootRequired
    ensures r.Success? ==>
      && r.value.root == o.root
      && !r.value.labelText.Undefined? && !r.value.placeholder.Undefined? && !r.value.multi.Undefined?
      && r.value.labelText == (if o.labelText.Undefined? then Str(DefaultLabel) else o.labelText)
      && r.value.placeholder == (if o.placeholder.Undefined? then Str(DefaultPlaceholder) else o.placeholder)
      && (!o.multi.Undefined? ==> r.value.multi == o.multi)
      && (o.multi.Undefined? ==> Truthy(r.value.multi))
      && (r.value.onChange.Some? <==> o.onChange.Callable?)
      && (o.onChange.Callable? ==> r.value.onChange.value == o.onChange.ref)
      && (o.getId.Some? ==> r.value.getId == o.getId.value)
      && (o.getLabel.Some? ==> r.value.getLabel == o.getLabel.value)
      && (o.getSubtitle.Some? ==> r.value.getSubtitle == o.getSubtitle.value)
      && (o.getMeta.Some? ==> r.value.getMeta == o.getMeta.value)
      && (o.getId.None? ==> r.value.getId == DefaultGetId)
      && (o.getLabel.None? ==> r.value.getLabel == DefaultGetLabel)
      && (o.getSubtitle.None? ==> r.value.getSubtitle == DefaultGetSubtitle)
      && (o.getMeta.None? ==> r.value.getMeta == DefaultGetMeta)
  {
    if !Truthy(o.root) then
      Failure(RootRequired)
    else
      Success(Config(
        o.root,
        OrDefault(o.labelText, Str(DefaultLabel)),
        OrDefault(o.placeholder, Str(DefaultPlaceholder)),
        OrDefault(o.multi, Bool(true)),
        AccessorOr(o.getId, DefaultGetId),
        AccessorOr(o.getLabel, DefaultGetLabel),
        AccessorOr(o.getSubtitle, DefaultGetSubtitle),
        AccessorOr(o.getMeta, DefaultGetMeta),
        if o.onChange.Callable? then Some(o.onChange.ref) else None))
  }

  /** The options that name every field of `c` explicitly. */
  function AsOptions(c: Config, items: Option<seq<Raw>>): Options {
    Options(
      c.root, c.labelText, c.placeholder, c.multi,
      Some(c.getId), Some(c.getLabel), Some(c.getSubtitle), Some(c.getMeta),
      if c.onChange.Some? then Callable(c.onChange.value) else NotCallable(Undefined),
      items)
  }

  /** Normalizing an already normalized configuration changes nothing. */
  lemma CreateConfigIdempotent(o: Options, items: Option<seq<Raw>>)
    requires CreateConfig(o).Success?
    ensures CreateConfig(AsOptions(CreateConfig(o).value, items)) == CreateConfig(o)
  {
  }

  /** With every default in place, an absent `label` field reads as the string "undefined". */
  lemma DefaultLabelOfMissingField(raw: Raw)
    requires "label" !in raw
    ensures DefaultGetLabel(raw) == Str("undefined") && Truthy(DefaultGetLabel(raw))
  {
  }
}

/**
 * The response builders of `lib/response.js`: the speech payload and the
 * four `dialogAction` document shapes (Close, ConfirmIntent, ElicitSlot,
 * Delegate), their wire form as a JavaScript object, and the table of
 * built-in response listeners that the dispatcher registers.
 */
module Response {
  import opened Js

  datatype Option<T> = None | Some(value: T)

  /** `{contentType, content}`. */
  datatype Speech = Speech(contentType: JsValue, content: JsValue)

  /**
   * The four document shapes. Close always has `fulfillmentState`
   * "Fulfilled"; an absent message is `None`, and a Delegate document has
   * no message at all.
   */
  datatype DialogAction =
    | Close(message: Option<Speech>)
    | ConfirmIntent(intentName: JsValue, slots: JsValue, message: Option<Speech>)
    | ElicitSlot(slotToElicit: JsValue, intentName: JsValue, slots: JsValue, message: Option<Speech>)
    | Delegate(slots: JsValue)

  datatype LexResponse = LexResponse(sessionAttributes: JsValue, dialogAction: DialogAction)

  /**
   * The `options` object a response listener hands to a builder; a key the
   * listener does not set reads as `undefined`.
   */
  datatype Options = Options(name: JsValue, sessionAttributes: JsValue, slots: JsValue, message: JsValue)

  /** `createSpeechObject`: `None` stands for the `null` it returns. */
  function CreateSpeechObject(message: JsValue): Option<Speech> {
    if Truthy(message) && Get(message, "type") == Str("SSML") then
      Some(Speech(Get(message, "type"), Str("<speak>" + ToString(Get(message, "speech")) + "</speak>")))
    else if Truthy(message) then
      Some(Speech(Or(Get(message, "type"), Str("PlainText")), Or(Get(message, "text"), message)))
    else
      None
  }

  /** `x || {}`, as the builders default `sessionAttributes` and `slots`. */
  function OrEmpty(x: JsValue): (r: JsValue)
    ensures Truthy(r)
    ensures Truthy(x) ==> r == x
    ensures !Truthy(x) ==> r == EmptyObject
  {
    Or(x, EmptyObject)
  }

  /** `buildDelegateResponse` */
  function BuildDelegateResponse(options: Options): LexResponse {
    LexResponse(OrEmpty(options.sessionAttributes), Delegate(OrEmpty(options.slots)))
  }

  /** `buildElicitResponse` */
  function BuildElicitResponse(slot: JsValue, options: Options): LexResponse {
    LexResponse(
      OrEmpty(options.sessionAttributes),
      ElicitSlot(slot, options.name, OrEmpty(options.slots), CreateSpeechObject(options.message)))
  }

  /** `buildConfirmResponse` */
  function BuildConfirmResponse(options: Options): LexResponse {
    LexResponse(
      OrEmpty(options.sessionAttributes),
      ConfirmIntent(options.name, OrEmpty(options.slots), CreateSpeechObject(options.message)))
  }

  /** `buildResponse`: the Close document. */
  function BuildResponse(options: Options): LexResponse {
    LexResponse(OrEmpty(options.sessionAttributes), Close(CreateSpeechObject(options.message)))
  }

  // ---------------------------------------------------------------------
  // Wire form: the JavaScript object each builder returns, with its keys in
  // the order the builder creates them.

  function RenderSpeech(s: Speech): JsValue {
    Object([Prop("contentType", s.contentType), Prop("content", s.content)], true)
  }

  /** The `message` key is added only when there is a speech object. */
  function MessageProps(m: Option<Speech>): seq<Prop> {
    match m
    case None => []
    case Some(s) => [Prop("message", RenderSpeech(s))]
  }

  function RenderAction(a: DialogAction): JsValue {
    match a
    case Close(m) =>
      Object([Prop("type", Str("Close")), Prop("fulfillmentState", Str("Fulfilled"))] + MessageProps(m), true)
    case ConfirmIntent(name, slots, m) =>
      Object([Prop("type", Str("ConfirmIntent")), Prop("intentName", name), Prop("slots", slots)] + MessageProps(m), true)
    case ElicitSlot(slot, name, slots, m) =>
      Object([Prop("type", Str("ElicitSlot")), Prop("slotToElicit", slot), Prop("intentName", name),
              Prop("slots", slots)] + MessageProps(m), true)
    case Delegate(slots) =>
      Object([Prop("type", Str("Delegate")), Prop("slots", slots)], true)
  }

  function Render(r: LexResponse): JsValue {
    Object([Prop("sessionAttributes", r.sessionAttributes), Prop("dialogAction", RenderAction(r.dialogAction))], true)
  }

  // ---------------------------------------------------------------------
  // Reading a wire object back: the inverse of Render.

  function ParseSpeech(v: JsValue): Option<Speech> {
    if v.Object? && v.plain && |v.props| == 2 && v.props[0].key == "contentType" && v.props[1].key == "content"
    then Some(Speech(v.props[0].value, v.props[1].value))
    else None
  }

  /** The optional trailing `message` property: `Some(m)` when well formed. */
  function ParseMessage(ps: seq<Prop>): Option<Option<Speech>> {
    if ps == [] then Some(None)
    else if |ps| == 1 && ps[0].key == "message" then
      match ParseSpeech(ps[0].value)
      case Some(s) => Some(Some(s))
      case None => None
    else None
  }

  function ParseAction(v: JsValue): Option<DialogAction> {
    if !(v.Object? && v.plain && |v.props| >= 2 && v.props[0].key == "type") then None
    else
      var ps := v.props;
      var kind := ps[0].value;
      if kind == Str("Close") then
        if ps[1] == Prop("fulfillmentState", Str("Fulfilled")) then
          match ParseMessage(ps[2..])
          case Some(m) => Some(Close(m))
          case None => None
        else None
      else if kind == Str("ConfirmIntent") then
        if |ps| >= 3 && ps[1].key == "intentName" && ps[2].key == "slots" then
          match ParseMessage(ps[3..])
          case Some(m) => Some(ConfirmIntent(ps[1].value, ps[2].value, m))
          case None => None
        else None
      else if kind == Str("ElicitSlot") then
        if |ps| >= 4 && ps[1].key == "slotToElicit" && ps[2].key == "intentName" && ps[3].key == "slots" then
          match ParseMessage(ps[4..])
          case Some(m) => Some(ElicitSlot(ps[1].value, ps[2].value, ps[3].value, m))
          case None => None
        else None
      else if kind == Str("Delegate") then
        if |ps| == 2 && ps[1].key == "slots" then Some(Delegate(ps[1].value)) else None
      else None
  }

  function ParseResponse(v: JsValue): Option<LexResponse> {
    if v.Object? && v.plain && |v.props| == 2 && v.props[0].key == "sessionAttributes"
       && v.props[1].key == "dialogAction"
    then
      match ParseAction(v.props[1].value)
      case Some(a) => Some(LexResponse(v.props[0].value, a))
      case None => None
    else None
  }

  // ---------------------------------------------------------------------
  // The exported object of `lib/response.js`: one function per action name.

  const ResponseHandlers: JsValue := Object([
    Prop(":tell", Function(Builtin(OnTell))),
    Prop(":confirm", Function(Builtin(OnConfirm))),
    Prop(":elicit", Function(Builtin(OnElicit))),
    Prop(":delegate", Function(Builtin(OnDelegate))),
    Prop(":responseReady", Function(Builtin(OnResponseReady)))], true)

  // ---------------------------------------------------------------------
  // Properties of the speech payload builder.

  /** A falsy message (absent, null, empty string, 0, false) gives no speech object. */
  lemma SpeechAbsentIffFalsy(message: JsValue)
    ensures CreateSpeechObject(message).None? <==> !Truthy(message)
  {
  }

  /** `{type: 'SSML', speech}` is wrapped in `<speak>` tags. */
  lemma SpeechSsml(props: seq<Prop>, plain: bool)
    requires GetProp(props, "type") == Str("SSML")
    ensures var m := Object(props, plain);
      CreateSpeechObject(m) == Some(Speech(Str("SSML"), Str("<speak>" + ToString(GetProp(props, "speech")) + "</speak>")))
  {
  }

  /** A bare non-empty string is plain text with itself as content. */
  lemma SpeechPlainString(s: string)
    requires s != ""
    ensures CreateSpeechObject(Str(s)) == Some(Speech(Str("PlainText"), Str(s)))
  {
  }

  /**
   * Any other truthy message: `contentType` is its `type` or "PlainText",
   * `content` is its `text` or, when that is falsy, the message itself.
   */
  lemma SpeechNonSsml(message: JsValue)
    requires Truthy(message) && Get(message, "type") != Str("SSML")
    ensures CreateSpeechObject(message).Some?
    ensures var ty := Get(message, "type"); var text := Get(message, "text");
      && CreateSpeechObject(message).value.contentType == (if Truthy(ty) then ty else Str("PlainText"))
      && CreateSpeechObject(message).value.content == (if Truthy(text) then text else message)
  {
  }

  // ---------------------------------------------------------------------
  // Shapes of the four documents on the wire.

  /** Keys of the top-level document, and its `sessionAttributes`. */
  lemma DocumentTopLevel(r: LexResponse)
    ensures Render(r).Object? && KeysOf(Render(r).props) == ["sessionAttributes", "dialogAction"]
    ensures Get(Render(r), "sessionAttributes") == r.sessionAttributes
    ensures Get(Render(r), "dialogAction") == RenderAction(r.dialogAction)
  {
    GetPropFirst(Render(r).props, "dialogAction", 1);
  }

  /** The key list of a rendered message-carrying action. */
  function WithMessageKey(keys: seq<string>, message: JsValue): seq<string> {
    keys + if Truthy(message) then ["message"] else []
  }

  /**
   * Close: `type` "Close", `fulfillmentState` "Fulfilled", the attributes or
   * `{}`, and a `message` key exactly when the message is truthy.
   */
  lemma CloseShape(options: Options)
    ensures var r := BuildResponse(options); var a := RenderAction(r.dialogAction);
      && r.sessionAttributes == OrEmpty(options.sessionAttributes)
      && a.Object? && KeysOf(a.props) == WithMessageKey(["type", "fulfillmentState"], options.message)
      && Get(a, "type") == Str("Close") && Get(a, "fulfillmentState") == Str("Fulfilled")
      && (Truthy(options.message) ==> Get(a, "message") == RenderSpeech(CreateSpeechObject(options.message).value))
  {
    SpeechAbsentIffFalsy(options.message);
    var a := RenderAction(BuildResponse(options).dialogAction);
    GetPropFirst(a.props, "fulfillmentState", 1);
    if Truthy(options.message) {
      GetPropFirst(a.props, "message", 2);
    }
  }

  /** ConfirmIntent: the intent name, the slots or `{}`, and an optional message. */
  lemma ConfirmShape(options: Options)
    ensures var r := BuildConfirmResponse(options); var a := RenderAction(r.dialogAction);
      && r.sessionAttributes == OrEmpty(options.sessionAttributes)
      && a.Object? && KeysOf(a.props) == WithMessageKey(["type", "intentName", "slots"], options.message)
      && Get(a, "type") == Str("ConfirmIntent") && Get(a, "intentName") == options.name
      && Get(a, "slots") == OrEmpty(options.slots)
      && (Truthy(options.message) ==> Get(a, "message") == RenderSpeech(CreateSpeechObject(options.message).value))
  {
    SpeechAbsentIffFalsy(options.message);
    var a := RenderAction(BuildConfirmResponse(options).dialogAction);
    GetPropFirst(a.props, "intentName", 1);
    GetPropFirst(a.props, "slots", 2);
    if Truthy(options.message) {
      GetPropFirst(a.props, "message", 3);
    }
  }

  /** ElicitSlot: the slot to elicit, `intentName` = `options.name`, the slots or `{}`, an optional message. */
  lemma ElicitShape(slot: JsValue, options: Options)
    ensures var r := BuildElicitResponse(slot, options); var a := RenderAction(r.dialogAction);
      && r.sessionAttributes == OrEmpty(options.sessionAttributes)
      && a.Object? && KeysOf(a.props) == WithMessageKey(["type", "slotToElicit", "intentName", "slots"], options.message)
      && Get(a, "type") == Str("ElicitSlot") && Get(a, "slotToElicit") == slot
      && Get(a, "intentName") == options.name && Get(a, "slots") == OrEmpty(options.slots)
      && (Truthy(options.message) ==> Get(a, "message") == RenderSpeech(CreateSpeechObject(options.message).value))
  {
    SpeechAbsentIffFalsy(options.message);
    var a := RenderAction(BuildElicitResponse(slot, options).dialogAction);
    GetPropFirst(a.props, "slotToElicit", 1);
    GetPropFirst(a.props, "intentName", 2);
    GetPropFirst(a.props, "slots", 3);
    if Truthy(options.message) {
      GetPropFirst(a.props, "message", 4);
    }
  }

  /** Delegate: only `type` and `slots`, whatever message the options carry. */
  lemma DelegateShape(options: Options)
    ensures var r := BuildDelegateResponse(options); var a := RenderAction(r.dialogAction);
      && r.sessionAttributes == OrEmpty(options.sessionAttributes)
      && a.Object? && KeysOf(a.props) == ["type", "slots"]
      && Get(a, "type") == Str("Delegate") && Get(a, "slots") == OrEmpty(options.slots)
  {
    var a := RenderAction(BuildDelegateResponse(options).dialogAction);
    GetPropFirst(a.props, "type", 0);
    GetPropFirst(a.props, "slots", 1);
  }

  /**
   * Every wire document determines its typed document: Render and
   * ParseResponse are inverse, so each wire object is exactly one of the
   * four shapes and a present `message` is always a `{contentType, content}`
   * pair.
   */
  lemma {:induction false} WireFormRoundTrip(r: LexResponse, v: JsValue)
    ensures ParseResponse(v) == Some(r) <==> v == Render(r)
  {
    if v == Render(r) {
      RenderParses(r);
    }
    if ParseResponse(v) == Some(r) {
      ParsedRenders(v);
    }
  }

  lemma {:induction false} RenderParses(r: LexResponse)
    ensures ParseResponse(Render(r)) == Some(r)
  {
    var a := RenderAction(r.dialogAction);
    match r.dialogAction
    case Close(m) => assert a.props[2..] == MessageProps(m);
    case ConfirmIntent(_, _, m) => assert a.props[3..] == MessageProps(m);
    case ElicitSlot(_, _, _, m) => assert a.props[4..] == MessageProps(m);
    case Delegate(_) =>
  }

  lemma {:induction false} MessageRenders(ps: seq<Prop>)
    requires ParseMessage(ps).Some?
    ensures MessageProps(ParseMessage(ps).value) == ps
  {
    if ps != [] {
      var s := ps[0].value;
      assert s.Object? && |s.props| == 2;
      assert s.props == [s.props[0], s.props[1]];
      assert ps == [ps[0]];
    }
  }

  lemma {:induction false} ParsedRenders(v: JsValue)
    requires ParseResponse(v).Some?
    ensures Render(ParseResponse(v).value) == v
  {
    var w := v.props[1].value;
    var ps := w.props;
    var a := ParseAction(w).value;
    match a
    case Close(_) =>
      MessageRenders(ps[2..]);
      assert ps == ps[..2] + ps[2..] && ps[..2] == [ps[0], ps[1]];
    case ConfirmIntent(_, _, _) =>
      MessageRenders(ps[3..]);
      assert ps == ps[..3] + ps[3..] && ps[..3] == [ps[0], ps[1], ps[2]];
    case ElicitSlot(_, _, _, _) =>
      MessageRenders(ps[4..]);
      assert ps == ps[..4] + ps[4..] && ps[..4] == [ps[0], ps[1], ps[2], ps[3]];
    case Delegate(_) =>
      assert ps == [ps[0], ps[1]];
    assert RenderAction(a) == w;
    assert v.props == [v.props[0], v.props[1]];
  }
}

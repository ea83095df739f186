/**
 * The dispatcher of `lib/lex.js`: construction of the request handler from
 * the raw turn description, registration of listeners per event name,
 * derivation of the event name for the turn, and synchronous in-order
 * firing of listeners, including the five built-in response listeners of
 * `lib/response.js`.
 *
 * Each state-changing method is tied to a function of the old state
 * (RegisterFrom, EmitEffect, BuiltinEffect, ExecuteEffect, ...); the
 * module LexProperties proves what these functions promise.
 */
module Lex {
  import opened Js
  import opened Response

  /** The errors the dispatcher throws. */
  datatype Error =
    | NotAnObject(argument: nat)   // `Argument #k was not an Object`
    | NotAFunction(key: string)    // `Event handler for '<key>' was not a function`
    | NoHandler(eventName: string) // `No handler function registered for event: <name>`
    | NoCurrentIntent(intent: JsValue) // TypeError: reading `name` of an undefined or null `currentIntent`
    | StackExhausted               // RangeError: nested emissions deeper than the call stack allows

  /** The text of the thrown error. */
  function ErrorMessage(e: Error): string {
    match e
    case NotAnObject(k) => "Argument #" + NatToString(k) + " was not an Object"
    case NotAFunction(key) => "Event handler for '" + key + "' was not a function"
    case NoHandler(name) => "No handler function registered for event: " + name
    case NoCurrentIntent(intent) => "Cannot read properties of " + ToString(intent) + " (reading 'name')"
    case StackExhausted => "Maximum call stack size exceeded"
  }

  /** How a call ends: normally, or by throwing. */
  datatype Outcome = Normal | Thrown(error: Error)

  datatype Result<T> = Value(value: T) | Failure(error: Error)

  /** The raw turn description; construction may add a property to it in place. */
  class LexEvent {
    var props: seq<Prop>

    constructor (props: seq<Prop>)
      ensures this.props == props
    {
      this.props := props;
    }
  }

  /**
   * What a binding's call context shares with every other binding made by
   * the same `registerHandlers` call: `event`, `attributes` (the event's
   * `sessionAttributes` at registration time), `context` and `handler`.
   * The context has no `slots` entry, so `this.slots` is `undefined` in
   * every listener.
   */
  datatype Scope = Scope(event: LexEvent, attributes: JsValue, context: JsValue, handler: LexRequestHandler)

  /** The call context a listener is bound to; `name` is the event name it is registered under. */
  datatype HandlerContext = HandlerContext(name: string, scope: Scope)

  /** A listener together with the context it is bound to. */
  datatype Binding = Binding(listener: Listener, ctx: HandlerContext)

  /** The emitter's listener lists, per event name, in registration order. */
  type Table = map<string, seq<Binding>>

  function Listeners(tbl: Table, name: string): seq<Binding> {
    if name in tbl then tbl[name] else []
  }

  /** `listenerCount(name)` */
  function ListenerCount(tbl: Table, name: string): nat {
    |Listeners(tbl, name)|
  }

  /** `IsOverridden`: more than one listener is registered under `name`. */
  predicate IsOverridden(tbl: Table, name: string) {
    ListenerCount(tbl, name) > 1
  }

  /** `on(name, listener)`: append at the end of `name`'s list. */
  function On(tbl: Table, name: string, b: Binding): Table {
    tbl[name := Listeners(tbl, name) + [b]]
  }

  /** `isObject`: truthy, and its `constructor` is `Object`. */
  predicate IsObject(v: JsValue) {
    Truthy(v) && v.Object? && v.plain
  }

  // ---------------------------------------------------------------------
  // Registration (`RegisterHandlers`), as a function of the old table.

  /** The inner loop: the keys of one handler object from position `i` on. */
  function RegisterKeys(tbl: Table, obj: JsValue, keys: seq<string>, i: nat, s: Scope): (Outcome, Table)
    requires i <= |keys|
    decreases |keys| - i
  {
    if i == |keys| then (Normal, tbl)
    else
      var value := Get(obj, keys[i]);
      if !value.Function? then (Thrown(NotAFunction(keys[i])), tbl)
      else RegisterKeys(On(tbl, keys[i], Binding(value.listener, HandlerContext(keys[i], s))), obj, keys, i + 1, s)
  }

  /** One argument, at position `index` of the call. */
  function RegisterArgument(tbl: Table, arg: JsValue, index: nat, s: Scope): (Outcome, Table) {
    if !IsObject(arg) then (Thrown(NotAnObject(index)), tbl)
    else RegisterKeys(tbl, arg, KeysOf(arg.props), 0, s)
  }

  /** The outer loop: the arguments from position `from` on. */
  function RegisterFrom(tbl: Table, args: seq<JsValue>, from: nat, s: Scope): (Outcome, Table)
    requires from <= |args|
    decreases |args| - from
  {
    if from == |args| then (Normal, tbl)
    else
      var (o, t) := RegisterArgument(tbl, args[from], from, s);
      if o.Thrown? then (o, t) else RegisterFrom(t, args, from + 1, s)
  }

  /** The event names of the built-in listeners. */
  const ActionNames: set<string> := {":tell", ":confirm", ":elicit", ":delegate", ":responseReady"}

  /** The table right after construction: each built-in under its own name. */
  function BuiltinTable(s: Scope): Table {
    map[
      ":tell" := [Binding(Builtin(OnTell), HandlerContext(":tell", s))],
      ":confirm" := [Binding(Builtin(OnConfirm), HandlerContext(":confirm", s))],
      ":elicit" := [Binding(Builtin(OnElicit), HandlerContext(":elicit", s))],
      ":delegate" := [Binding(Builtin(OnDelegate), HandlerContext(":delegate", s))],
      ":responseReady" := [Binding(Builtin(OnResponseReady), HandlerContext(":responseReady", s))]]
  }

  /** Registering the exported object of `lib/response.js` on an empty table. */
  lemma {:induction false} BuiltinRegistration(s: Scope)
    ensures RegisterFrom(map[], [ResponseHandlers], 0, s) == (Normal, BuiltinTable(s))
  {
    var obj := ResponseHandlers;
    var keys := KeysOf(obj.props);
    assert keys == [":tell", ":confirm", ":elicit", ":delegate", ":responseReady"];
    var b := BuiltinTable(s);
    var e: Table := map[];
    var t1 := On(e, ":tell", b[":tell"][0]);
    var t2 := On(t1, ":confirm", b[":confirm"][0]);
    var t3 := On(t2, ":elicit", b[":elicit"][0]);
    var t4 := On(t3, ":delegate", b[":delegate"][0]);
    BuiltinTableSteps(s);
    RegisterKeyStep(t4, obj, keys, 4, s, b[":responseReady"][0]);
    RegisterKeyStep(t3, obj, keys, 3, s, b[":delegate"][0]);
    RegisterKeyStep(t2, obj, keys, 2, s, b[":elicit"][0]);
    RegisterKeyStep(t1, obj, keys, 1, s, b[":confirm"][0]);
    RegisterKeyStep(e, obj, keys, 0, s, b[":tell"][0]);
  }

  /** One registration step for a key whose value is the function of `b`. */
  lemma RegisterKeyStep(tbl: Table, obj: JsValue, keys: seq<string>, i: nat, s: Scope, b: Binding)
    requires i < |keys| && b.ctx == HandlerContext(keys[i], s) && Get(obj, keys[i]) == Function(b.listener)
    ensures RegisterKeys(tbl, obj, keys, i, s) == RegisterKeys(On(tbl, keys[i], b), obj, keys, i + 1, s)
  {
  }

  lemma BuiltinTableSteps(s: Scope)
    ensures var b := BuiltinTable(s); var e: Table := map[];
      On(On(On(On(On(e, ":tell", b[":tell"][0]), ":confirm", b[":confirm"][0]), ":elicit", b[":elicit"][0]),
         ":delegate", b[":delegate"][0]), ":responseReady", b[":responseReady"][0]) == b
  {
    var b := BuiltinTable(s);
    var e: Table := map[];
    var t1 := On(e, ":tell", b[":tell"][0]);
    var t2 := On(t1, ":confirm", b[":confirm"][0]);
    var t3 := On(t2, ":elicit", b[":elicit"][0]);
    var t4 := On(t3, ":delegate", b[":delegate"][0]);
    assert Listeners(e, ":tell") + [b[":tell"][0]] == b[":tell"];
    assert Listeners(t1, ":confirm") + [b[":confirm"][0]] == b[":confirm"];
    assert Listeners(t2, ":elicit") + [b[":elicit"][0]] == b[":elicit"];
    assert Listeners(t3, ":delegate") + [b[":delegate"][0]] == b[":delegate"];
    assert Listeners(t4, ":responseReady") + [b[":responseReady"][0]] == b[":responseReady"];
  }

  // ---------------------------------------------------------------------
  // Emission (`emit`), as a function of the old turn state. `fuel` is the
  // call depth still available: each nested emission uses one level, and
  // an emission with none left throws StackExhausted.

  /** The observable state of a turn: the pending response and what `context.succeed` received. */
  datatype Turn = Turn(response: JsValue, delivered: seq<JsValue>)

  /** A listener argument; a missing one is `undefined`. */
  function Arg(args: seq<JsValue>, i: nat): JsValue {
    if i < |args| then args[i] else Undefined
  }

  /**
   * The document a non-overridden built-in action writes into
   * `handler.response`. Slots are always `undefined` (so `{}`), and
   * `:elicit` passes its own event name as `intentName`.
   */
  function ActionDocument(action: Action, ctx: HandlerContext, args: seq<JsValue>): LexResponse
    requires action != OnResponseReady
  {
    var attributes := ctx.scope.attributes;
    match action
    case OnTell => BuildResponse(Options(Undefined, attributes, Undefined, Arg(args, 0)))
    case OnConfirm => BuildConfirmResponse(Options(Arg(args, 0), attributes, Undefined, Arg(args, 1)))
    case OnElicit => BuildElicitResponse(Arg(args, 0), Options(Str(ctx.name), attributes, Undefined, Arg(args, 1)))
    case OnDelegate => BuildDelegateResponse(Options(Undefined, attributes, Undefined, Undefined))
  }

  function EmitEffect(tbl: Table, name: string, args: seq<JsValue>, fuel: nat, t: Turn): (Outcome, Turn)
    decreases fuel, 0, 0
  {
    if fuel == 0 then (Thrown(StackExhausted), t)
    else FireEffect(tbl, Listeners(tbl, name), args, fuel - 1, t)
  }

  /** The listeners `bs` called in order; the first one that throws ends the emission. */
  function FireEffect(tbl: Table, bs: seq<Binding>, args: seq<JsValue>, fuel: nat, t: Turn): (Outcome, Turn)
    decreases fuel, 3, |bs|
  {
    if bs == [] then (Normal, t)
    else
      var (o, t1) := InvokeEffect(tbl, bs[0], args, fuel, t);
      if o.Thrown? then (o, t1) else FireEffect(tbl, bs[1..], args, fuel, t1)
  }

  function InvokeEffect(tbl: Table, b: Binding, args: seq<JsValue>, fuel: nat, t: Turn): (Outcome, Turn)
    decreases fuel, 2, 0
  {
    match b.listener
    case Builtin(action) => BuiltinEffect(tbl, action, b.ctx, args, fuel, t)
    case App(script) => ScriptEffect(tbl, script, fuel, t)
  }

  /**
   * A built-in listener: nothing when overridden; `:responseReady` delivers
   * the pending response; every other action writes its document and emits
   * `:responseReady`.
   */
  function BuiltinEffect(tbl: Table, action: Action, ctx: HandlerContext, args: seq<JsValue>, fuel: nat, t: Turn)
    : (Outcome, Turn)
    decreases fuel, 1, 0
  {
    if IsOverridden(tbl, ctx.name) then (Normal, t)
    else if action == OnResponseReady then (Normal, Turn(t.response, t.delivered + [t.response]))
    else EmitEffect(tbl, ":responseReady", [], fuel, Turn(Render(ActionDocument(action, ctx, args)), t.delivered))
  }

  /** An application handler: its emissions in order, stopping at the first that throws. */
  function ScriptEffect(tbl: Table, script: seq<Emission>, fuel: nat, t: Turn): (Outcome, Turn)
    decreases fuel, 1, |script|
  {
    if script == [] then (Normal, t)
    else
      var (o, t1) := EmitEffect(tbl, script[0].name, script[0].args, fuel, t);
      if o.Thrown? then (o, t1) else ScriptEffect(tbl, script[1..], fuel, t1)
  }

  // ---------------------------------------------------------------------
  // `execute`

  /** A code-hook invocation source. */
  predicate IsCodeHook(source: JsValue) {
    source == Str("FulfillmentCodeHook") || source == Str("DialogCodeHook")
  }

  /**
   * The event name `execute` emits: the intent name (as a property key)
   * for either code hook, `''` for any other invocation source.
   */
  function EventName(event: seq<Prop>): Result<string> {
    if IsCodeHook(GetProp(event, "invocationSource")) then
      var intent := GetProp(event, "currentIntent");
      if intent.Undefined? || intent.Null? then Failure(NoCurrentIntent(intent))
      else Value(ToString(Get(intent, "name")))
    else Value("")
  }

  function ExecuteEffect(tbl: Table, event: seq<Prop>, fuel: nat, t: Turn): (Outcome, Turn) {
    match EventName(event)
    case Failure(e) => (Thrown(e), t)
    case Value(name) =>
      if ListenerCount(tbl, name) < 1 then (Thrown(NoHandler(name)), t)
      else EmitEffect(tbl, name, [], fuel, t)
  }

  // ---------------------------------------------------------------------

  /** The request handler returned by `lexRequestHandler`. */
  class LexRequestHandler {
    const event: LexEvent      // `_event`, not writable
    const context: JsValue     // `_context`, not writable
    const callback: JsValue    // `_callback`, not writable and never called
    var response: JsValue      // writable, starts as `{}`
    var listeners: Table
    /** Every document handed to `context.succeed`, in order. */
    ghost var delivered: seq<JsValue>

    ghost function State(): Turn
      reads this
    {
      Turn(response, delivered)
    }

    /**
     * The call context lib/lex.js:76-86 gives every listener it registers:
     * each binding is bound to the event name it is registered under, to
     * this handler, and to this handler's event and Lambda context.
     */
    ghost predicate Valid()
      reads this`listeners
    {
      forall name, i :: name in listeners && 0 <= i < |listeners[name]| ==>
        && listeners[name][i].ctx.name == name
        && listeners[name][i].ctx.scope.handler == this
        && listeners[name][i].ctx.scope.event == event
        && listeners[name][i].ctx.scope.context == context
    }

    /** `lexRequestHandler(event, context, callback)` */
    constructor (event: LexEvent, context: JsValue, callback: JsValue)
      modifies event
      ensures Truthy(GetProp(old(event.props), "sessionAttributes")) ==> event.props == old(event.props)
      ensures !Truthy(GetProp(old(event.props), "sessionAttributes")) ==>
        event.props == SetProp(old(event.props), "sessionAttributes", EmptyObject)
      ensures Truthy(GetProp(event.props, "sessionAttributes"))
      ensures this.event == event && this.context == context && this.callback == callback
      ensures response == EmptyObject && delivered == []
      ensures listeners == BuiltinTable(Scope(event, GetProp(event.props, "sessionAttributes"), context, this))
      ensures Valid()
    {
      if !Truthy(GetProp(event.props, "sessionAttributes")) {
        event.props := SetProp(event.props, "sessionAttributes", EmptyObject);
      }
      this.event := event;
      this.context := context;
      this.callback := callback;
      response := EmptyObject;
      listeners := map[];
      delivered := [];
      new;
      BuiltinRegistration(Scope(event, GetProp(event.props, "sessionAttributes"), context, this));
      var o := RegisterHandlers([ResponseHandlers]);
    }

    /** `registerHandlers(...args)` */
    method RegisterHandlers(args: seq<JsValue>) returns (o: Outcome)
      requires Valid()
      modifies this`listeners
      ensures Valid()
      ensures (o, listeners) ==
        RegisterFrom(old(listeners), args, 0, Scope(event, GetProp(event.props, "sessionAttributes"), context, this))
    {
      var s := Scope(event, GetProp(event.props, "sessionAttributes"), context, this);
      var arg := 0;
      while arg < |args|
        invariant arg <= |args|
        invariant Valid()
        invariant RegisterFrom(listeners, args, arg, s) == RegisterFrom(old(listeners), args, 0, s)
      {
        var handlerObject := args[arg];
        if !IsObject(handlerObject) {
          return Thrown(NotAnObject(arg));
        }
        var eventNames := KeysOf(handlerObject.props);
        ghost var start := listeners;
        var i := 0;
        while i < |eventNames|
          invariant i <= |eventNames|
          invariant Valid()
          invariant RegisterFrom(start, args, arg, s) == RegisterFrom(old(listeners), args, 0, s)
          invariant RegisterKeys(listeners, handlerObject, eventNames, i, s)
                 == RegisterKeys(start, handlerObject, eventNames, 0, s)
        {
          var value := Get(handlerObject, eventNames[i]);
          if !value.Function? {
            return Thrown(NotAFunction(eventNames[i]));
          }
          listeners := On(listeners, eventNames[i], Binding(value.listener, HandlerContext(eventNames[i], s)));
          i := i + 1;
        }
        arg := arg + 1;
      }
      o := Normal;
    }

    /** `emit(name, ...args)`: every listener of `name`, in registration order. */
    method Emit(name: string, args: seq<JsValue>, fuel: nat) returns (o: Outcome)
      requires Valid()
      modifies this`response, this`delivered
      ensures (o, State()) == EmitEffect(listeners, name, args, fuel, old(State()))
      decreases fuel, 0, 0
    {
      if fuel == 0 {
        return Thrown(StackExhausted);
      }
      var bs := Listeners(listeners, name);
      var i := 0;
      while i < |bs|
        invariant i <= |bs|
        invariant FireEffect(listeners, bs[i..], args, fuel - 1, State())
               == FireEffect(listeners, bs, args, fuel - 1, old(State()))
      {
        assert bs[i..][1..] == bs[i + 1..];
        o := Invoke(bs[i], args, fuel - 1);
        if o.Thrown? {
          return;
        }
        i := i + 1;
      }
      o := Normal;
    }

    /** Calls one bound listener with the emitted arguments. */
    method Invoke(b: Binding, args: seq<JsValue>, fuel: nat) returns (o: Outcome)
      requires Valid()
      modifies this`response, this`delivered
      ensures (o, State()) == InvokeEffect(listeners, b, args, fuel, old(State()))
      decreases fuel, 2, 0
    {
      match b.listener
      case Builtin(OnTell) => o := Tell(b.ctx, Arg(args, 0), fuel);
      case Builtin(OnConfirm) => o := Confirm(b.ctx, Arg(args, 0), Arg(args, 1), fuel);
      case Builtin(OnElicit) => o := Elicit(b.ctx, Arg(args, 0), Arg(args, 1), fuel);
      case Builtin(OnDelegate) => o := Delegate(b.ctx, Arg(args, 0), fuel);
      case Builtin(OnResponseReady) => o := ResponseReady(b.ctx, fuel);
      case App(script) => o := RunScript(script, fuel);
    }

    /** `':tell'(message)` */
    method Tell(ctx: HandlerContext, message: JsValue, fuel: nat) returns (o: Outcome)
      requires Valid()
      modifies this`response, this`delivered
      ensures IsOverridden(listeners, ctx.name) ==> o == Normal && State() == old(State())
      ensures (o, State()) == BuiltinEffect(listeners, OnTell, ctx, [message], fuel, old(State()))
      decreases fuel, 1, 0
    {
      if IsOverridden(listeners, ctx.name) {
        return Normal;
      }
      response := Render(BuildResponse(Options(Undefined, ctx.scope.attributes, Undefined, message)));
      o := Emit(":responseReady", [], fuel);
    }

    /** `':confirm'(intentName, message)` */
    method Confirm(ctx: HandlerContext, intentName: JsValue, message: JsValue, fuel: nat) returns (o: Outcome)
      requires Valid()
      modifies this`response, this`delivered
      ensures IsOverridden(listeners, ctx.name) ==> o == Normal && State() == old(State())
      ensures (o, State()) == BuiltinEffect(listeners, OnConfirm, ctx, [intentName, message], fuel, old(State()))
      decreases fuel, 1, 0
    {
      if IsOverridden(listeners, ctx.name) {
        return Normal;
      }
      response := Render(BuildConfirmResponse(Options(intentName, ctx.scope.attributes, Undefined, message)));
      o := Emit(":responseReady", [], fuel);
    }

    /** `':elicit'(slot, message)`: `intentName` is this listener's own event name. */
    method Elicit(ctx: HandlerContext, slot: JsValue, message: JsValue, fuel: nat) returns (o: Outcome)
      requires Valid()
      modifies this`response, this`delivered
      ensures IsOverridden(listeners, ctx.name) ==> o == Normal && State() == old(State())
      ensures (o, State()) == BuiltinEffect(listeners, OnElicit, ctx, [slot, message], fuel, old(State()))
      decreases fuel, 1, 0
    {
      if IsOverridden(listeners, ctx.name) {
        return Normal;
      }
      response := Render(BuildElicitResponse(slot, Options(Str(ctx.name), ctx.scope.attributes, Undefined, message)));
      o := Emit(":responseReady", [], fuel);
    }

    /** `':delegate'(options)`: the argument is not used. */
    method Delegate(ctx: HandlerContext, options: JsValue, fuel: nat) returns (o: Outcome)
      requires Valid()
      modifies this`response, this`delivered
      ensures IsOverridden(listeners, ctx.name) ==> o == Normal && State() == old(State())
      ensures (o, State()) == BuiltinEffect(listeners, OnDelegate, ctx, [options], fuel, old(State()))
      decreases fuel, 1, 0
    {
      if IsOverridden(listeners, ctx.name) {
        return Normal;
      }
      response := Render(BuildDelegateResponse(Options(Undefined, ctx.scope.attributes, Undefined, Undefined)));
      o := Emit(":responseReady", [], fuel);
    }

    /** `':responseReady'()`: hands the pending response to `context.succeed`. */
    method ResponseReady(ctx: HandlerContext, fuel: nat) returns (o: Outcome)
      requires Valid()
      modifies this`response, this`delivered
      ensures IsOverridden(listeners, ctx.name) ==> o == Normal && State() == old(State())
      ensures !IsOverridden(listeners, ctx.name) ==>
        o == Normal && response == old(response) && delivered == old(delivered) + [old(response)]
      ensures (o, State()) == BuiltinEffect(listeners, OnResponseReady, ctx, [], fuel, old(State()))
      decreases fuel, 1, 0
    {
      if IsOverridden(listeners, ctx.name) {
        return Normal;
      }
      delivered := delivered + [response];
      o := Normal;
    }

    /** An application handler: the emissions its body makes, in order. */
    method RunScript(script: seq<Emission>, fuel: nat) returns (o: Outcome)
      requires Valid()
      modifies this`response, this`delivered
      ensures (o, State()) == ScriptEffect(listeners, script, fuel, old(State()))
      decreases fuel, 1, 0
    {
      var i := 0;
      while i < |script|
        invariant i <= |script|
        invariant ScriptEffect(listeners, script[i..], fuel, State()) == ScriptEffect(listeners, script, fuel, old(State()))
      {
        assert script[i..][1..] == script[i + 1..];
        o := Emit(script[i].name, script[i].args, fuel);
        if o.Thrown? {
          return;
        }
        i := i + 1;
      }
      o := Normal;
    }

    /** `execute()` */
    method Execute(fuel: nat) returns (o: Outcome)
      requires Valid()
      modifies this`response, this`delivered
      ensures (o, State()) == ExecuteEffect(listeners, event.props, fuel, old(State()))
    {
      var eventString := "";
      var source := GetProp(event.props, "invocationSource");
      if source == Str("FulfillmentCodeHook") || source == Str("DialogCodeHook") {
        var intent := GetProp(event.props, "currentIntent");
        if intent.Undefined? || intent.Null? {
          return Thrown(NoCurrentIntent(intent));
        }
        eventString := ToString(Get(intent, "name"));
      }
      if ListenerCount(listeners, eventString) < 1 {
        return Thrown(NoHandler(eventString));
      }
      o := Emit(eventString, [], fuel);
    }
  }
}

# lex-sdk dispatcher and response builders, in Dafny

`lex-sdk` helps developers write Amazon Lex code hooks. A code hook is the
function Lex calls on each conversational turn. Application code creates a
request handler from the turn description (`lexRequestHandler(event,
context, callback)`). It registers one handler per intent name
(`registerHandlers`) and calls `execute()`. The dispatcher derives an
event name from the turn, fires the listeners registered under that name in
order, and lets the application's handler emit one of four response
actions (`:tell`, `:confirm`, `:elicit`, `:delegate`). The matching built-in
listener builds a Lex response document, stores it as `handler.response`
and emits `:responseReady`. The built-in `:responseReady` listener hands
the document to `context.succeed`. An application overrides a built-in by
registering its own listener under the same name: a built-in does nothing
when more than one listener is registered under its name.

The model has four modules:

- `Js` (`js.dfy`): the JavaScript values involved. Objects are ordered
  property lists, in `Object.keys` order, with a flag for "constructor is
  `Object`". Function values are listeners: a built-in action, or an
  application handler abstracted as the list of `emit` calls its body
  makes. The module also has truthiness, `||`, property read and
  assignment, and string conversion.
- `Response` (`response.dfy`): `createSpeechObject` and the four document
  builders, as typed documents. `Render` gives a document's wire object,
  with keys in the order the builder creates them. `ParseResponse` reads a
  wire object back, and the two are proved inverse.
- `Lex` (`lex.dfy`): the request handler as a class.
  - `response` and the listener table are mutable fields; `_event`,
    `_context` and `_callback` are constants.
  - What `context.succeed` receives is kept in a ghost log, `delivered`.
  - The constructor, `RegisterHandlers`, `Emit`, the five built-in
    listeners and `Execute` are methods with loops where the source has
    them.
  - Each method is proved equal to a function of the old state:
    `RegisterFrom`, `EmitEffect`, `BuiltinEffect`, `ScriptEffect` and
    `ExecuteEffect`.
- `LexProperties` (`lex_properties.dfy`): what those functions promise.
  - Registration only appends, and its final table is given exactly:
    under each name, the functions registered there, in order, including
    those registered before a throw.
  - It fails exactly on malformed arguments, naming the first bad
    argument or the first bad key.
  - Listeners fire in registration order.
  - Overridden built-ins are inert.
  - A non-overridden action delivers exactly one document when
    `:responseReady` keeps only its built-in listener.
  - `execute` throws the no-handler error exactly when no listener
    handles the event name.
  - Whole turns from the test suite are worked through.

Behaviour of the code that a reader may not expect, modelled as written:

- Listeners read `this.slots`, but the call context has no `slots` entry.
  So every ConfirmIntent, ElicitSlot and Delegate document carries
  `slots: {}`. The turn's `currentIntent.slots` never reaches a document.
- `:elicit` passes `this.name` as `intentName`, which is the listener's own
  event name `":elicit"`, not the intent's name.
- `:delegate` ignores its argument.
- The event name is the plain intent name for both code-hook sources, with
  no stage suffix. It is `''` for any other or missing `invocationSource`.
- `context.succeed` is called once per non-overridden `:responseReady`
  emission. So "exactly one delivery per turn" holds for a turn whose
  handler emits one action, which `SingleActionTurn` proves. It is not a
  general invariant.

Handler bodies are not visible to the library. An application handler is
modeled as the sequence of `emit` calls it makes. Nested emission is
bounded by `fuel`, which stands for the call stack: running out throws
`StackExhausted`, the stand-in for JavaScript's `RangeError`.

## Model

| member | source | states |
|---|---|---|
| Js.KeysOf | lib/lex.js:67 | `Object.keys` lists one key per own property, in property order |
| Js.SetProp | lib/lex.js:13-15 | assignment makes the key read back the new value and leaves every other key's value alone; an existing key keeps its place, a new key is appended at the end |
| Js.GetPropFirst | lib/lex.js:70 | a property read finds the first own property with that key |
| Response.SpeechAbsentIffFalsy | lib/response.js:120-134 | `createSpeechObject` returns null exactly when the message is falsy |
| Response.SpeechSsml | lib/response.js:121-125 | a message with `type: 'SSML'` gives content type SSML and the `speech` text wrapped in `<speak>…</speak>` |
| Response.SpeechPlainString | lib/response.js:126-130 | a bare non-empty string becomes PlainText content equal to the string |
| Response.SpeechNonSsml | lib/response.js:126-130 | any other truthy message: content type is its `type` or PlainText, content is its `text` or, when that is falsy, the message itself |
| Response.CreateSpeechObject | lib/response.js:120-134 | `createSpeechObject`: null for a falsy message, SSML wrapped in `<speak>` tags, otherwise `type` or PlainText with `text` or the message itself; stated by `SpeechAbsentIffFalsy`, `SpeechSsml`, `SpeechPlainString` and `SpeechNonSsml` |
| Response.OrEmpty | lib/response.js:63 | `x \|\| {}` is always truthy, is `x` whenever `x` is truthy and `{}` whenever `x` is falsy; every builder defaults `sessionAttributes` and `slots` through it |
| Response.BuildResponse | lib/response.js:105-118 | `buildResponse`, the Close document; its shape is stated by `CloseShape` and `DocumentTopLevel`, and its wire form reads back by `RenderParses` |
| Response.BuildConfirmResponse | lib/response.js:89-103 | `buildConfirmResponse`; its shape is stated by `ConfirmShape` |
| Response.BuildElicitResponse | lib/response.js:72-87 | `buildElicitResponse`; its shape is stated by `ElicitShape` |
| Response.BuildDelegateResponse | lib/response.js:61-70 | `buildDelegateResponse`; its shape is stated by `DelegateShape` |
| Response.DocumentTopLevel | lib/response.js:105-118 | a document has exactly the keys `sessionAttributes`, `dialogAction`, in that order |
| Response.CloseShape | lib/response.js:105-118 | Close: attributes or `{}`, type Close, fulfillmentState Fulfilled, and a `message` key exactly when the message is truthy |
| Response.ConfirmShape | lib/response.js:89-103 | ConfirmIntent: the intent name as given, slots or `{}`, and a `message` key exactly when the message is truthy |
| Response.ElicitShape | lib/response.js:72-87 | ElicitSlot: slot to elicit, `intentName` from `options.name`, slots or `{}`, and a `message` key exactly when the message is truthy |
| Response.DelegateShape | lib/response.js:61-70 | Delegate: only `type` and `slots` (or `{}`), never a message |
| Response.WireFormRoundTrip | lib/response.js:61-134 | reading a wire document back gives a typed document exactly when the wire object is that document's rendering: every document is exactly one of the four shapes, and a present message is a `{contentType, content}` pair |
| Response.RenderParses | lib/response.js:61-118 | every built document reads back as itself |
| Response.ParsedRenders | lib/response.js:61-118 | every readable wire object is the rendering of what it reads as |
| Response.MessageRenders | lib/response.js:82-85 | a readable `message` tail is the rendering of the speech object read from it |
| Lex.BuiltinRegistration | lib/lex.js:54 | registering the exported object of `lib/response.js` on a fresh emitter succeeds and binds each of the five built-ins, once, under its own name |
| Lex.IsObject | lib/lex.js:110-112 | `isObject`: truthy and with `Object` as constructor; `RegistrationOutcome` states that an argument failing it throws `Argument #k`, and `WellFormedHandlers` requires it |
| Lex.IsOverridden | lib/lex.js:114-116 | `IsOverridden`: more than one listener under the name; `FreshHandlerCounts` states no built-in is overridden after construction, `RegisteringActionNameOverrides` that registering under an action name overrides it, and `OverriddenBuiltinIsInert` that an overridden built-in does nothing |
| Lex.LexEvent.constructor | lib/lex.js:12 | a turn description holds the properties it is given |
| Lex.LexRequestHandler.constructor | lib/lex.js:12-57 | `sessionAttributes` is set to `{}` on the event itself exactly when it is falsy: appended after the existing properties when absent, replaced in place when present but falsy; it is truthy after construction; the event, context and callback are stored; the response starts as `{}`; nothing has been delivered; the five built-ins are registered bound to this handler |
| Lex.LexRequestHandler.RegisterHandlers | lib/lex.js:59-91 | the two nested loops compute exactly `RegisterFrom` of the old table: the outcome and the new table, including the table left behind when it throws partway; every binding stays tied to its name and to this handler |
| Lex.LexRequestHandler.Emit | lib/lex.js:107 | calling every listener of the name in order, stopping at the first that throws, has exactly the effect `EmitEffect` gives on the response and on what was delivered |
| Lex.LexRequestHandler.Invoke | lib/lex.js:88 | a bound listener is called with the emitted arguments, missing ones `undefined` |
| Lex.LexRequestHandler.Tell | lib/response.js:5-14 | when overridden, nothing changes; otherwise the Close document for the message becomes the response and `:responseReady` is emitted |
| Lex.LexRequestHandler.Confirm | lib/response.js:15-27 | when overridden, nothing changes; otherwise the ConfirmIntent document for the intent name and message becomes the response and `:responseReady` is emitted |
| Lex.LexRequestHandler.Elicit | lib/response.js:28-40 | when overridden, nothing changes; otherwise the ElicitSlot document for the slot and message becomes the response, with the listener's own name as intent name, and `:responseReady` is emitted |
| Lex.LexRequestHandler.Delegate | lib/response.js:41-51 | when overridden, nothing changes; otherwise the Delegate document becomes the response and `:responseReady` is emitted |
| Lex.LexRequestHandler.ResponseReady | lib/response.js:52-57 | when overridden, nothing changes; otherwise the pending response is delivered to `context.succeed` once and stays the response |
| Lex.LexRequestHandler.RunScript | lib/lex.js:78 | an application handler's `emit` calls run in order and the first one that throws ends the handler |
| Lex.LexRequestHandler.Execute | lib/lex.js:93-108 | the event name is computed from the turn, the call throws when the name has no listener, and otherwise the name is emitted with no arguments, exactly as `ExecuteEffect` says |
| LexProperties.RegistrationOnlyAppends | lib/lex.js:59-91 | whether it returns or throws, registration keeps every name's earlier listeners as a prefix, in order, and every listener it adds is bound to that name and to the handler's scope |
| LexProperties.RegistrationOutcome | lib/lex.js:60-72 | registration returns normally iff every argument is a plain object whose values are all functions. Otherwise every argument before the failing one is well formed, and it throws "Argument #k was not an Object" for the first argument k that is not a plain object, or "Event handler for 'key' was not a function" for the first key, in `Object.keys` order, of that argument whose value is not a function |
| LexProperties.RegistrationKeepsEarlierArguments | lib/lex.js:60-90 | the handler sets before the failing argument stay registered: the final table extends the one registering them alone gives |
| LexProperties.FunctionPrefixIsLongest | lib/lex.js:67-72 | the pairs the inner loop registers from one handler set are its keys, in `Object.keys` order, each with its own function value, up to and not including the first key whose value is not a function |
| LexProperties.RegistrationTable | lib/lex.js:59-91 | whether it returns or throws, registration leaves each name's listeners as the earlier ones followed by exactly the functions registered under that name, in order, each bound to that name: all of every well-formed argument's pairs and, of the failing argument, the pairs before its first non-function key |
| LexProperties.RegisterFromSplit | lib/lex.js:60-90 | registering well-formed arguments is registering a prefix of them and then the rest |
| LexProperties.RegistrationCounts | lib/lex.js:67-89 | one well-formed handler set adds, to each name's listener count, the number of times the name occurs among its keys |
| LexProperties.RegisterSingleHandler | lib/lex.js:59-91 | a one-key handler set is one `on` call bound to that key |
| LexProperties.FreshHandlerCounts | lib/lex.js:54 | after construction each action name has exactly one listener, every other name none, and no built-in is overridden |
| LexProperties.RegisteringActionNameOverrides | lib/lex.js:114-116 | registering an application handler under an action name overrides that built-in |
| LexProperties.FireInOrder | lib/lex.js:107 | firing a listener list is firing its first part and then, unless that threw, the rest from the state it left: listeners run in registration order, depth first |
| LexProperties.OverriddenBuiltinIsInert | lib/response.js:6-8 | an overridden built-in returns without touching the response, emitting or delivering |
| LexProperties.OverriddenEmission | lib/response.js:6-8 | emitting an action name whose built-in is followed by application listeners has exactly the effect of the application listeners |
| LexProperties.ActionDeliversOnce | lib/response.js:5-57 | a non-overridden action with the default completion listener makes its document the response and delivers exactly that document once |
| LexProperties.BuiltinDocuments | lib/response.js:5-51 | each action builds its own document shape from the scope's attributes; slots are always `{}`; `:tell` speaks its first argument, `:confirm` and `:elicit` their second; `:confirm`'s intent name is its first argument; `:elicit`'s slot is its first argument and its intent name the listener's own name |
| LexProperties.EmitErrors | lib/lex.js:107 | in the model, no emission throws anything but stack exhaustion (with `FireErrors`, `InvokeErrors`, `BuiltinErrors`, `ScriptErrors`); the errors the model leaves out (a `null` context, an unhandled `'error'` event, throwing handler bodies) are listed under "Left out" |
| LexProperties.FireErrors | lib/lex.js:88 | in the model, firing a listener list throws nothing but stack exhaustion |
| LexProperties.InvokeErrors | lib/lex.js:88 | in the model, calling one listener throws nothing but stack exhaustion |
| LexProperties.BuiltinErrors | lib/response.js:5-57 | in the model, a built-in listener throws nothing but stack exhaustion; a `context` without `succeed` is left out |
| LexProperties.ScriptErrors | lib/lex.js:78 | in the model, an application handler's emissions throw nothing but stack exhaustion; handler bodies that throw their own errors are left out |
| LexProperties.EventNameCases | lib/lex.js:94-101 | the event name is the intent name, unsuffixed, for both code hooks and `''` otherwise; reading it fails exactly when a code hook's `currentIntent` is undefined or null |
| LexProperties.ExecuteNoHandler | lib/lex.js:103-105 | `execute` throws the no-handler error exactly when the event name has no listener; the error names that event and reads "No handler function registered for event: " followed by the name, and then nothing fires or is delivered |
| LexProperties.ExecuteFiresListeners | lib/lex.js:103-107 | otherwise `execute` fires every listener of the event name, in order, with no arguments |
| LexProperties.SingleActionTurn | lib/response.js:5-57 | on a fresh handler with one application handler for an intent that emits one action, emitting the intent delivers exactly one document, the one that action builds, and it is the final response |
| LexProperties.ExecuteSingleActionTurn | lib/lex.js:93-108 | the same turn started by `execute` from an event whose code hook names the intent |
| LexProperties.TellTurn | spec/lex_spec.js:110-123 | a handler built from an event without attributes, whose `TestIntent` handler emits `:tell` with a message, delivers the Close document for that message once |
| LexProperties.TellHelloWorld | spec/lex_spec.js:97-123 | `:tell` with "Hello world!" delivers exactly `{sessionAttributes: {}, dialogAction: {type: Close, fulfillmentState: Fulfilled, message: {contentType: PlainText, content: "Hello world!"}}}` |
| LexProperties.TellSsml | spec/lex_spec.js:127-154 | `:tell` with an SSML message delivers the Close document with content `<speak>Hello world!</speak>` |
| LexProperties.ExecuteInvokesIntentHandler | spec/lex_spec.js:157-176 | a fulfillment code hook for `TestIntent` has event name `TestIntent`, and `execute` on it calls the handler registered for it, with no arguments |
| LexProperties.NormalisationAddsAttributes | spec/lex_spec.js:16-20 | construction turns `{test: 123}` into `{test: 123, sessionAttributes: {}}` |

## Left out

- The `EventEmitter` machinery (`util.inherits`, `setMaxListeners(Infinity)`, the special `'error'` event, which throws when emitted with no listener, the `'newListener'` event, which Node emits on every later `on` call once a listener is registered for it, so that such a listener would run during `registerHandlers`, `once`/`removeListener`, listener arrays copied on emit) is reduced to an ordered listener table with append and in-order firing. The core never removes listeners.
- Handler bodies are arbitrary JavaScript. An application handler is modeled only as the `emit` calls it makes. Handlers that mutate `this.attributes` or the event in place, call `context.succeed` themselves, replace `handler.response`, register more handlers, or throw their own errors are not modeled.
- Sharing by reference is not modeled. The attributes object a binding sees is the value read at registration time, so a handler's in-place edits to `sessionAttributes` do not propagate to later documents.
- Emission depth is bounded by `fuel`. The real limit is the engine's call stack, whose size is not known. `StackExhausted` stands for the `RangeError` an unbounded chain of emissions throws.
- `Lex.ErrorMessage`: the texts for the TypeError (`currentIntent` undefined or null) and the RangeError are engine-specific and approximated. The three texts the library throws itself are exact, and `RegistrationOutcome` and `ExecuteNoHandler` state them.
- The `_callback` parameter is stored and never called; the model stores it too.
- The read-only `Object.defineProperty` fields (`_event`, `_context`, `_callback`, `registerHandlers`, `execute`) are modeled as `const` fields, so a write to them cannot be expressed. In JavaScript the outcome of such a write depends on the strictness of the code that writes: a sloppy-mode caller's write is silently dropped (as in `spec/lex_spec.js`, which has no `'use strict'`), and a strict-mode caller gets a TypeError. `lib/lex.js` never writes these fields itself.
- Property keys are strings. `Object.keys` puts integer-like keys first in ascending order, which the model's insertion order ignores. Symbol keys and symbol event names are out of scope, and so are getters, prototypes and inherited properties.
- Numbers are integers. `NaN`, floating point and `-0` are left out, and so is how JavaScript lists non-integer numbers as strings.
- Objects stringify as `[object Object]` and functions as one fixed text; a custom `toString` is not modeled.
- `JSON.stringify` of the delivered document is not modeled. The tests compare documents by their JSON text, and the model compares the wire objects, including key order.
- A `context` that is `null` or has no `succeed` method (the TypeError when `:responseReady` fires, lib/response.js:56; the test suite passes `null`) is not modeled; delivery is always recorded.
- Events that are not objects are not modeled; the event is always a property list. A `null` or `undefined` event makes `event.sessionAttributes` throw a TypeError. A primitive event such as `"abc"` passes the check on line 13 (its `sessionAttributes` is `undefined`), and `lib/lex.js` is sloppy (its first line is the typo `"user strict"`), so the assignment on line 14 is silently dropped and the handlers see `undefined` attributes.
- `Js.JsValue` admits objects no JavaScript program can build and are not excluded: property lists with a repeated key (a read then finds the first; `RegistrationCounts` counts every occurrence, which a real object never has), and objects flagged `plain` with an own `constructor` property (`isObject` in `lib/lex.js:111` rejects `{constructor: f}` because `obj.constructor` is then `f`; the model's `IsObject` accepts it).
- Function values have no properties in the model, so reading `name` from a function-valued `currentIntent` gives `undefined` rather than the function's name, and `EventName` is then `"undefined"`.

/**
 * What the dispatcher promises, proved about the functions that specify
 * its methods: registration only appends and fails exactly on malformed
 * arguments; listeners fire in registration order; an overridden built-in
 * does nothing; a non-overridden action delivers exactly one document;
 * `execute` derives the event name from the turn and fails exactly when
 * that name has no listener.
 */
module LexProperties {
  import opened Js
  import opened Response
  import opened Lex

  // ---------------------------------------------------------------------
  // Registration

  /** `t1`'s list for `name` is `t0`'s with bindings to `name` in scope `s` appended. */
  ghost predicate ExtendsAt(t0: Table, t1: Table, name: string, s: Scope) {
    var before, after := Listeners(t0, name), Listeners(t1, name);
    && |before| <= |after|
    && after[..|before|] == before
    && forall i :: |before| <= i < |after| ==> after[i].ctx == HandlerContext(name, s)
  }

  ghost predicate AppendsOnly(t0: Table, t1: Table, s: Scope) {
    forall name :: ExtendsAt(t0, t1, name, s)
  }

  lemma AppendsOnlyReflexive(t: Table, s: Scope)
    ensures AppendsOnly(t, t, s)
  {
    forall name ensures ExtendsAt(t, t, name, s) {
      assert Listeners(t, name)[..|Listeners(t, name)|] == Listeners(t, name);
    }
  }

  lemma AppendsOnlyTransitive(t0: Table, t1: Table, t2: Table, s: Scope)
    requires AppendsOnly(t0, t1, s) && AppendsOnly(t1, t2, s)
    ensures AppendsOnly(t0, t2, s)
  {
    forall name ensures ExtendsAt(t0, t2, name, s) {
      assert ExtendsAt(t0, t1, name, s) && ExtendsAt(t1, t2, name, s);
      var a, b, c := Listeners(t0, name), Listeners(t1, name), Listeners(t2, name);
      assert c[..|a|] == c[..|b|][..|a|];
      forall i | |a| <= i < |c| ensures c[i].ctx == HandlerContext(name, s) {
        if i < |b| {
          assert c[i] == c[..|b|][i] == b[i];
        }
      }
    }
  }

  lemma OnAppends(t: Table, name: string, b: Binding, s: Scope)
    requires b.ctx == HandlerContext(name, s)
    ensures AppendsOnly(t, On(t, name, b), s)
  {
    var t1 := On(t, name, b);
    forall n ensures ExtendsAt(t, t1, n, s) {
      if n == name {
        assert Listeners(t1, n) == Listeners(t, n) + [b];
        assert Listeners(t1, n)[..|Listeners(t, n)|] == Listeners(t, n);
      } else {
        assert Listeners(t1, n) == Listeners(t, n);
        assert Listeners(t1, n)[..|Listeners(t, n)|] == Listeners(t, n);
      }
    }
  }

  lemma {:induction false} RegisterKeysAppends(t: Table, obj: JsValue, keys: seq<string>, i: nat, s: Scope)
    requires i <= |keys|
    ensures AppendsOnly(t, RegisterKeys(t, obj, keys, i, s).1, s)
    decreases |keys| - i
  {
    if i == |keys| || !Get(obj, keys[i]).Function? {
      AppendsOnlyReflexive(t, s);
    } else {
      var t1 := On(t, keys[i], Binding(Get(obj, keys[i]).listener, HandlerContext(keys[i], s)));
      OnAppends(t, keys[i], Binding(Get(obj, keys[i]).listener, HandlerContext(keys[i], s)), s);
      RegisterKeysAppends(t1, obj, keys, i + 1, s);
      AppendsOnlyTransitive(t, t1, RegisterKeys(t1, obj, keys, i + 1, s).1, s);
    }
  }

  lemma {:induction false} RegisterFromAppends(t: Table, args: seq<JsValue>, from: nat, s: Scope)
    requires from <= |args|
    ensures AppendsOnly(t, RegisterFrom(t, args, from, s).1, s)
    decreases |args| - from
  {
    if from == |args| || !IsObject(args[from]) {
      AppendsOnlyReflexive(t, s);
    } else {
      var (o, t1) := RegisterArgument(t, args[from], from, s);
      RegisterKeysAppends(t, args[from], KeysOf(args[from].props), 0, s);
      if o.Normal? {
        RegisterFromAppends(t1, args, from + 1, s);
        AppendsOnlyTransitive(t, t1, RegisterFrom(t1, args, from + 1, s).1, s);
      }
    }
  }

  /**
   * `registerHandlers` only appends, whether it returns or throws: every
   * name keeps its listeners in order, and every added listener is bound
   * to that name and to the scope of the call.
   */
  lemma RegistrationOnlyAppends(t: Table, args: seq<JsValue>, s: Scope, name: string)
    ensures var after := Listeners(RegisterFrom(t, args, 0, s).1, name);
      && |Listeners(t, name)| <= |after|
      && after[..|Listeners(t, name)|] == Listeners(t, name)
      && forall i :: |Listeners(t, name)| <= i < |after| ==> after[i].ctx == HandlerContext(name, s)
  {
    RegisterFromAppends(t, args, 0, s);
    assert ExtendsAt(t, RegisterFrom(t, args, 0, s).1, name, s);
  }

  /** A handler set `registerHandlers` accepts: a plain object whose every value is a function. */
  ghost predicate WellFormedHandlers(a: JsValue) {
    IsObject(a) && forall i :: 0 <= i < |a.props| ==> Get(a, a.props[i].key).Function?
  }

  /**
   * `key` is the first key of `obj`, from position `from` on, in
   * `Object.keys` order, whose value is not a function.
   */
  ghost predicate FirstBadKey(obj: JsValue, from: nat, key: string) {
    && obj.Object?
    && exists m :: from <= m < |obj.props| && obj.props[m].key == key && !Get(obj, key).Function?
                   && forall j :: from <= j < m ==> Get(obj, obj.props[j].key).Function?
  }

  /** A function value at `from` does not change which key is the first bad one. */
  lemma FirstBadKeyBack(obj: JsValue, from: nat, key: string)
    requires obj.Object? && from < |obj.props| && Get(obj, obj.props[from].key).Function?
    requires FirstBadKey(obj, from + 1, key)
    ensures FirstBadKey(obj, from, key)
  {
    var m :| from + 1 <= m < |obj.props| && obj.props[m].key == key && !Get(obj, key).Function?
      && forall j :: from + 1 <= j < m ==> Get(obj, obj.props[j].key).Function?;
    assert forall j :: from <= j < m ==> Get(obj, obj.props[j].key).Function?;
  }

  /** The values of `obj`'s keys from position `from` on are all functions. */
  ghost predicate FunctionsFrom(obj: JsValue, from: nat)
    requires obj.Object?
  {
    forall j :: from <= j < |obj.props| ==> Get(obj, obj.props[j].key).Function?
  }

  /** A function value at `from` extends a run of function values after it. */
  lemma FunctionsFromBack(obj: JsValue, from: nat)
    requires obj.Object? && from < |obj.props|
    ensures FunctionsFrom(obj, from) <==> Get(obj, obj.props[from].key).Function? && FunctionsFrom(obj, from + 1)
  {
  }

  lemma {:induction false} RegisterKeysOutcome(t: Table, obj: JsValue, i: nat, s: Scope)
    requires obj.Object? && i <= |obj.props|
    ensures var o := RegisterKeys(t, obj, KeysOf(obj.props), i, s).0;
      && (o == Normal <==> forall j :: i <= j < |obj.props| ==> Get(obj, obj.props[j].key).Function?)
      && (o.Thrown? ==> o.error.NotAFunction? && FirstBadKey(obj, i, o.error.key))
    decreases |obj.props| - i
  {
    var keys := KeysOf(obj.props);
    if i < |keys| {
      var value := Get(obj, keys[i]);
      assert obj.props[i].key == keys[i];
      FunctionsFromBack(obj, i);
      if value.Function? {
        var t1 := On(t, keys[i], Binding(value.listener, HandlerContext(keys[i], s)));
        assert RegisterKeys(t, obj, keys, i, s) == RegisterKeys(t1, obj, keys, i + 1, s);
        RegisterKeysOutcome(t1, obj, i + 1, s);
        assert RegisterKeys(t1, obj, keys, i + 1, s).0 == Normal <==> FunctionsFrom(obj, i + 1);
        var o := RegisterKeys(t1, obj, keys, i + 1, s).0;
        if o.Thrown? {
          FirstBadKeyBack(obj, i, o.error.key);
        }
      } else {
        assert FirstBadKey(obj, i, keys[i]);
      }
    }
    assert RegisterKeys(t, obj, keys, i, s).0 == Normal <==> FunctionsFrom(obj, i);
  }

  /** A well-formed argument at `from` extends a run of well-formed arguments after it. */
  lemma WellFormedBefore(args: seq<JsValue>, from: nat, k: nat)
    requires from < k <= |args| && WellFormedHandlers(args[from])
    requires forall j :: from + 1 <= j < k ==> WellFormedHandlers(args[j])
    ensures forall j :: from <= j < k ==> WellFormedHandlers(args[j])
  {
  }

  lemma {:induction false} RegisterFromOutcome(t: Table, args: seq<JsValue>, from: nat, s: Scope)
    requires from <= |args|
    ensures var o := RegisterFrom(t, args, from, s).0;
      && (o == Normal <==> forall j :: from <= j < |args| ==> WellFormedHandlers(args[j]))
      && (o.Thrown? ==> o.error.NotAnObject? || o.error.NotAFunction?)
      && (o.Thrown? && o.error.NotAnObject? ==>
            var k := o.error.argument;
            from <= k < |args| && !IsObject(args[k]) && forall j :: from <= j < k ==> WellFormedHandlers(args[j]))
      && (o.Thrown? && o.error.NotAFunction? ==>
            exists k :: from <= k < |args| && IsObject(args[k]) && FirstBadKey(args[k], 0, o.error.key)
              && forall j :: from <= j < k ==> WellFormedHandlers(args[j]))
    decreases |args| - from
  {
    if from < |args| {
      var a := args[from];
      if IsObject(a) {
        RegisterKeysOutcome(t, a, 0, s);
        var (o, t1) := RegisterArgument(t, a, from, s);
        if o.Normal? {
          assert WellFormedHandlers(a);
          RegisterFromOutcome(t1, args, from + 1, s);
          var r := RegisterFrom(t, args, from, s).0;
          if r.Thrown? && r.error.NotAFunction? {
            var k :| from + 1 <= k < |args| && IsObject(args[k]) && FirstBadKey(args[k], 0, r.error.key)
              && forall j :: from + 1 <= j < k ==> WellFormedHandlers(args[j]);
            WellFormedBefore(args, from, k);
          }
        } else {
          assert !WellFormedHandlers(a);
        }
      }
    }
  }

  /**
   * `registerHandlers` returns normally iff every argument is a plain
   * object of functions. Otherwise it throws for the first bad argument:
   * `Argument #k` when argument k is not a plain object, or the first key,
   * in `Object.keys` order, of a plain object whose value is not a
   * function.
   */
  lemma RegistrationOutcome(t: Table, args: seq<JsValue>, s: Scope)
    ensures var o := RegisterFrom(t, args, 0, s).0;
      && (o == Normal <==> forall j :: 0 <= j < |args| ==> WellFormedHandlers(args[j]))
      && (o.Thrown? ==> o.error.NotAnObject? || o.error.NotAFunction?)
      && (o.Thrown? && o.error.NotAnObject? ==>
            var k := o.error.argument;
            && k < |args| && !IsObject(args[k]) && (forall j :: 0 <= j < k ==> WellFormedHandlers(args[j]))
            && ErrorMessage(o.error) == "Argument #" + NatToString(k) + " was not an Object")
      && (o.Thrown? && o.error.NotAFunction? ==>
            && (exists k :: 0 <= k < |args| && IsObject(args[k])
                 && (exists m :: 0 <= m < |args[k].props| && args[k].props[m].key == o.error.key
                       && !Get(args[k], o.error.key).Function?
                       && forall j :: 0 <= j < m ==> Get(args[k], args[k].props[j].key).Function?)
                 && forall j :: 0 <= j < k ==> WellFormedHandlers(args[j]))
            && ErrorMessage(o.error) == "Event handler for '" + o.error.key + "' was not a function")
  {
    RegisterFromOutcome(t, args, 0, s);
  }

  lemma {:induction false} RegisterFromSplit(t: Table, args: seq<JsValue>, from: nat, k: nat, s: Scope)
    requires from <= k <= |args|
    requires forall j :: from <= j < k ==> WellFormedHandlers(args[j])
    ensures RegisterFrom(t, args[..k], from, s).0 == Normal
    ensures RegisterFrom(t, args, from, s) == RegisterFrom(RegisterFrom(t, args[..k], from, s).1, args, k, s)
    decreases k - from
  {
    if from < k {
      var a := args[from];
      assert args[..k][from] == a;
      RegisterKeysOutcome(t, a, 0, s);
      var (o, t1) := RegisterArgument(t, a, from, s);
      RegisterFromSplit(t1, args, from + 1, k, s);
    }
  }

  /**
   * When registration stops at argument k, every pair of the arguments
   * before it stays registered: the table extends the one that registering
   * those arguments alone gives.
   */
  lemma RegistrationKeepsEarlierArguments(t: Table, args: seq<JsValue>, k: nat, s: Scope)
    requires k <= |args|
    requires forall j :: 0 <= j < k ==> WellFormedHandlers(args[j])
    ensures AppendsOnly(RegisterFrom(t, args[..k], 0, s).1, RegisterFrom(t, args, 0, s).1, s)
  {
    RegisterFromSplit(t, args, 0, k, s);
    RegisterFromAppends(RegisterFrom(t, args[..k], 0, s).1, args, k, s);
  }

  /**
   * The (key, function) pairs at the front of `props`, up to the first key
   * whose value in `obj` is not a function: what the inner loop registers
   * before it returns or throws.
   */
  function FunctionPrefix(obj: JsValue, props: seq<Prop>): seq<(string, Listener)> {
    if props == [] || !Get(obj, props[0].key).Function? then []
    else [(props[0].key, Get(obj, props[0].key).listener)] + FunctionPrefix(obj, props[1..])
  }

  /**
   * FunctionPrefix is the longest prefix of function-valued keys: each of
   * its pairs is a key with that key's function, and the key after it, if
   * any, is not a function.
   */
  lemma {:induction false} FunctionPrefixIsLongest(obj: JsValue, props: seq<Prop>)
    ensures var r := FunctionPrefix(obj, props);
      && |r| <= |props|
      && (forall i :: 0 <= i < |r| ==>
            Get(obj, props[i].key).Function? && r[i] == (props[i].key, Get(obj, props[i].key).listener))
      && (|r| < |props| ==> !Get(obj, props[|r|].key).Function?)
  {
    if props != [] && Get(obj, props[0].key).Function? {
      FunctionPrefixIsLongest(obj, props[1..]);
      var r := FunctionPrefix(obj, props);
      var tail := FunctionPrefix(obj, props[1..]);
      assert r == [(props[0].key, Get(obj, props[0].key).listener)] + tail;
      forall i | 0 < i < |r|
        ensures Get(obj, props[i].key).Function? && r[i] == (props[i].key, Get(obj, props[i].key).listener)
      {
        assert r[i] == tail[i - 1] && props[1..][i - 1] == props[i];
      }
      if |r| < |props| {
        assert props[1..][|tail|] == props[|r|];
      }
    }
  }

  /**
   * Every pair a `registerHandlers(args...)` call registers before it
   * returns or throws: the pairs of each argument in turn, up to the first
   * bad key or the first argument that is not a plain object.
   */
  ghost function RegisteredPairs(args: seq<JsValue>): seq<(string, Listener)> {
    if args == [] || !IsObject(args[0]) then []
    else FunctionPrefix(args[0], args[0].props) + (if WellFormedHandlers(args[0]) then RegisteredPairs(args[1..]) else [])
  }

  /** The bindings that the pairs with key `name` give, in order, in scope `s`. */
  function BindingsFor(pairs: seq<(string, Listener)>, name: string, s: Scope): (r: seq<Binding>)
    ensures |r| <= |pairs|
    ensures forall i :: 0 <= i < |r| ==> r[i].ctx == HandlerContext(name, s)
  {
    if pairs == [] then []
    else (if pairs[0].0 == name then [Binding(pairs[0].1, HandlerContext(name, s))] else []) + BindingsFor(pairs[1..], name, s)
  }

  lemma {:induction false} BindingsForConcat(p: seq<(string, Listener)>, q: seq<(string, Listener)>, name: string, s: Scope)
    ensures BindingsFor(p + q, name, s) == BindingsFor(p, name, s) + BindingsFor(q, name, s)
    decreases |p|
  {
    if p == [] {
      assert p + q == q;
    } else {
      assert (p + q)[0] == p[0];
      assert (p + q)[1..] == p[1..] + q;
      BindingsForConcat(p[1..], q, name, s);
    }
  }

  lemma BindingsForPair(l: Listener, key: string, name: string, s: Scope)
    ensures BindingsFor([(key, l)], name, s) == (if key == name then [Binding(l, HandlerContext(name, s))] else [])
  {
    assert [(key, l)][1..] == [];
  }

  lemma FunctionPrefixCons(obj: JsValue, props: seq<Prop>)
    requires props != [] && Get(obj, props[0].key).Function?
    ensures FunctionPrefix(obj, props)
         == [(props[0].key, Get(obj, props[0].key).listener)] + FunctionPrefix(obj, props[1..])
  {
  }

  /** Registering the first pending pair moves its binding from the pending pairs to the table. */
  lemma {:induction false} KeysTableStep(t: Table, obj: JsValue, props: seq<Prop>, s: Scope, name: string)
    requires props != [] && Get(obj, props[0].key).Function?
    ensures var key := props[0].key;
      var t1 := On(t, key, Binding(Get(obj, key).listener, HandlerContext(key, s)));
      Listeners(t, name) + BindingsFor(FunctionPrefix(obj, props), name, s)
        == Listeners(t1, name) + BindingsFor(FunctionPrefix(obj, props[1..]), name, s)
  {
    var key := props[0].key;
    var l := Get(obj, key).listener;
    var tail := BindingsFor(FunctionPrefix(obj, props[1..]), name, s);
    var t1 := On(t, key, Binding(l, HandlerContext(key, s)));
    FunctionPrefixCons(obj, props);
    BindingsForConcat([(key, l)], FunctionPrefix(obj, props[1..]), name, s);
    BindingsForPair(l, key, name, s);
    if key == name {
      var b := Binding(l, HandlerContext(name, s));
      assert Listeners(t1, name) == Listeners(t, name) + [b];
      assert Listeners(t, name) + ([b] + tail) == (Listeners(t, name) + [b]) + tail;
    } else {
      assert Listeners(t1, name) == Listeners(t, name);
      assert [] + tail == tail;
    }
  }

  lemma {:induction false} RegisterKeysTable(t: Table, obj: JsValue, i: nat, s: Scope, name: string)
    requires obj.Object? && i <= |obj.props|
    ensures Listeners(RegisterKeys(t, obj, KeysOf(obj.props), i, s).1, name)
         == Listeners(t, name) + BindingsFor(FunctionPrefix(obj, obj.props[i..]), name, s)
    decreases |obj.props| - i
  {
    var keys := KeysOf(obj.props);
    if i == |keys| {
      assert obj.props[i..] == [];
      assert Listeners(t, name) + [] == Listeners(t, name);
    } else {
      var key := obj.props[i].key;
      assert keys[i] == key && obj.props[i..][0].key == key;
      if !Get(obj, key).Function? {
        assert FunctionPrefix(obj, obj.props[i..]) == [];
        assert Listeners(t, name) + [] == Listeners(t, name);
      } else {
        var b := Binding(Get(obj, key).listener, HandlerContext(key, s));
        RegisterKeyStep(t, obj, keys, i, s, b);
        RegisterKeysTable(On(t, key, b), obj, i + 1, s, name);
        assert obj.props[i..][1..] == obj.props[i + 1..];
        KeysTableStep(t, obj, obj.props[i..], s, name);
      }
    }
  }

  lemma {:induction false} RegisterFromTable(t: Table, args: seq<JsValue>, from: nat, s: Scope, name: string)
    requires from <= |args|
    ensures Listeners(RegisterFrom(t, args, from, s).1, name)
         == Listeners(t, name) + BindingsFor(RegisteredPairs(args[from..]), name, s)
    decreases |args| - from
  {
    var rest := args[from..];
    if from == |args| {
      assert rest == [];
      assert Listeners(t, name) + [] == Listeners(t, name);
    } else {
      var a := args[from];
      assert rest[0] == a && rest[1..] == args[from + 1..];
      if !IsObject(a) {
        assert Listeners(t, name) + [] == Listeners(t, name);
      } else {
        RegisterKeysTable(t, a, 0, s, name);
        RegisterKeysOutcome(t, a, 0, s);
        assert a.props[0..] == a.props;
        var (o, t1) := RegisterArgument(t, a, 0, s);
        var prefix := FunctionPrefix(a, a.props);
        if o.Normal? {
          assert WellFormedHandlers(a);
          RegisterFromTable(t1, args, from + 1, s, name);
          BindingsForConcat(prefix, RegisteredPairs(args[from + 1..]), name, s);
        } else {
          assert !WellFormedHandlers(a);
          assert RegisteredPairs(rest) == prefix + [];
          assert prefix + [] == prefix;
        }
      }
    }
  }

  /**
   * The listeners `name` has after `registerHandlers(args...)`, whether it
   * returns or throws: its earlier listeners, then one binding per
   * registered pair with key `name`, carrying that pair's function, in
   * argument and key order. This includes the pairs of the failing argument
   * that precede its bad key.
   */
  lemma RegistrationTable(t: Table, args: seq<JsValue>, s: Scope, name: string)
    ensures Listeners(RegisterFrom(t, args, 0, s).1, name)
         == Listeners(t, name) + BindingsFor(RegisteredPairs(args), name, s)
  {
    RegisterFromTable(t, args, 0, s, name);
    assert args[0..] == args;
  }

  lemma {:induction false} RegisterKeysCounts(t: Table, obj: JsValue, keys: seq<string>, i: nat, s: Scope, name: string)
    requires i <= |keys|
    requires forall j :: i <= j < |keys| ==> Get(obj, keys[j]).Function?
    ensures RegisterKeys(t, obj, keys, i, s).0 == Normal
    ensures ListenerCount(RegisterKeys(t, obj, keys, i, s).1, name) == ListenerCount(t, name) + multiset(keys[i..])[name]
    decreases |keys| - i
  {
    if i < |keys| {
      var t1 := On(t, keys[i], Binding(Get(obj, keys[i]).listener, HandlerContext(keys[i], s)));
      RegisterKeysCounts(t1, obj, keys, i + 1, s, name);
      assert keys[i..] == [keys[i]] + keys[i + 1..];
    }
  }

  /**
   * Registering one well-formed handler set adds one listener per key
   * occurrence and leaves every other name's count unchanged.
   */
  lemma RegistrationCounts(t: Table, obj: JsValue, s: Scope, name: string)
    requires WellFormedHandlers(obj)
    ensures RegisterFrom(t, [obj], 0, s).0 == Normal
    ensures ListenerCount(RegisterFrom(t, [obj], 0, s).1, name) == ListenerCount(t, name) + multiset(KeysOf(obj.props))[name]
  {
    var keys := KeysOf(obj.props);
    assert forall j :: 0 <= j < |keys| ==> keys[j] == obj.props[j].key;
    RegisterKeysCounts(t, obj, keys, 0, s, name);
    assert keys[0..] == keys;
  }

  /** Right after construction every built-in name has one listener, so none is overridden. */
  lemma FreshHandlerCounts(s: Scope, name: string)
    ensures ListenerCount(BuiltinTable(s), name) == (if name in ActionNames then 1 else 0)
    ensures !IsOverridden(BuiltinTable(s), name)
  {
  }

  /** An application handler set with an action name as a key overrides that built-in. */
  lemma RegisteringActionNameOverrides(s: Scope, s': Scope, obj: JsValue, name: string)
    requires WellFormedHandlers(obj) && name in ActionNames && HasProp(obj.props, name)
    ensures IsOverridden(RegisterFrom(BuiltinTable(s), [obj], 0, s').1, name)
  {
    RegistrationCounts(BuiltinTable(s), obj, s', name);
    var i :| 0 <= i < |obj.props| && obj.props[i].key == name;
    assert KeysOf(obj.props)[i] == name;
  }

  /** Registering a one-handler object is one `on` call bound to its key. */
  lemma RegisterSingleHandler(t: Table, name: string, l: Listener, s: Scope)
    ensures RegisterFrom(t, [Object([Prop(name, Function(l))], true)], 0, s)
         == (Normal, On(t, name, Binding(l, HandlerContext(name, s))))
  {
    var obj := Object([Prop(name, Function(l))], true);
    var t1 := On(t, name, Binding(l, HandlerContext(name, s)));
    assert KeysOf(obj.props) == [name];
    assert RegisterKeys(t, obj, [name], 0, s) == RegisterKeys(t1, obj, [name], 1, s) == (Normal, t1);
    assert RegisterFrom(t1, [obj], 1, s) == (Normal, t1);
  }

  // ---------------------------------------------------------------------
  // Emission

  /**
   * Listeners fire in registration order: firing `bs1 + bs2` is firing
   * `bs1` and then, unless it threw, `bs2` from the state it left.
   */
  lemma {:induction false} FireInOrder(tbl: Table, bs1: seq<Binding>, bs2: seq<Binding>, args: seq<JsValue>, fuel: nat, t: Turn)
    ensures FireEffect(tbl, bs1 + bs2, args, fuel, t) ==
      var (o, t1) := FireEffect(tbl, bs1, args, fuel, t);
      if o.Thrown? then (o, t1) else FireEffect(tbl, bs2, args, fuel, t1)
    decreases |bs1|
  {
    if bs1 == [] {
      assert bs1 + bs2 == bs2;
    } else {
      assert (bs1 + bs2)[0] == bs1[0];
      assert (bs1 + bs2)[1..] == bs1[1..] + bs2;
      var (o, t1) := InvokeEffect(tbl, bs1[0], args, fuel, t);
      if o.Normal? {
        FireInOrder(tbl, bs1[1..], bs2, args, fuel, t1);
      }
    }
  }

  /** An overridden built-in returns without touching the response and without emitting. */
  lemma OverriddenBuiltinIsInert(tbl: Table, action: Action, ctx: HandlerContext, args: seq<JsValue>, fuel: nat, t: Turn)
    requires IsOverridden(tbl, ctx.name)
    ensures BuiltinEffect(tbl, action, ctx, args, fuel, t) == (Normal, t)
  {
  }

  /**
   * When an application listener is registered after the built-in of an
   * action name, emitting that name has exactly the effect of the
   * application listeners: the built-in contributes nothing.
   */
  lemma OverriddenEmission(tbl: Table, name: string, builtin: Binding, apps: seq<Binding>, args: seq<JsValue>, fuel: nat, t: Turn)
    requires fuel > 0 && |apps| >= 1
    requires builtin.listener.Builtin? && builtin.ctx.name == name
    requires Listeners(tbl, name) == [builtin] + apps
    ensures EmitEffect(tbl, name, args, fuel, t) == FireEffect(tbl, apps, args, fuel - 1, t)
  {
    FireInOrder(tbl, [builtin], apps, args, fuel - 1, t);
    assert FireEffect(tbl, [builtin], args, fuel - 1, t) == (Normal, t) by {
      assert [builtin][1..] == [];
      assert ListenerCount(tbl, name) == 1 + |apps|;
      assert InvokeEffect(tbl, builtin, args, fuel - 1, t)
          == BuiltinEffect(tbl, builtin.listener.action, builtin.ctx, args, fuel - 1, t)
          == (Normal, t);
    }
  }

  /** The default `:responseReady` listener, bound to its own name. */
  ghost predicate DefaultCompletion(tbl: Table) {
    var bs := Listeners(tbl, ":responseReady");
    |bs| == 1 && bs[0].listener == Builtin(OnResponseReady) && bs[0].ctx.name == ":responseReady"
  }

  /**
   * A non-overridden action writes exactly one document into the response
   * and, through the default `:responseReady`, hands exactly that document
   * to `context.succeed` once.
   */
  lemma ActionDeliversOnce(tbl: Table, action: Action, ctx: HandlerContext, args: seq<JsValue>, fuel: nat, t: Turn)
    requires action != OnResponseReady && !IsOverridden(tbl, ctx.name) && fuel > 0
    requires DefaultCompletion(tbl)
    ensures var doc := Render(ActionDocument(action, ctx, args));
      BuiltinEffect(tbl, action, ctx, args, fuel, t) == (Normal, Turn(doc, t.delivered + [doc]))
  {
    var doc := Render(ActionDocument(action, ctx, args));
    var rr := Listeners(tbl, ":responseReady")[0];
    assert Listeners(tbl, ":responseReady") == [rr];
    var t1 := Turn(doc, t.delivered);
    var t2 := Turn(doc, t.delivered + [doc]);
    assert [rr][1..] == [];
    assert !IsOverridden(tbl, rr.ctx.name);
    assert InvokeEffect(tbl, rr, [], fuel - 1, t1) == BuiltinEffect(tbl, OnResponseReady, rr.ctx, [], fuel - 1, t1) == (Normal, t2);
    assert FireEffect(tbl, [rr], [], fuel - 1, t1) == (Normal, t2);
    assert BuiltinEffect(tbl, action, ctx, args, fuel, t) == EmitEffect(tbl, ":responseReady", [], fuel, t1);
  }

  /** The documents the built-in actions build: shape per action, `{}` slots, `:elicit`'s own name. */
  lemma BuiltinDocuments(action: Action, ctx: HandlerContext, args: seq<JsValue>)
    requires action != OnResponseReady
    ensures var r := ActionDocument(action, ctx, args); var d := r.dialogAction;
      && r.sessionAttributes == OrEmpty(ctx.scope.attributes)
      && (action == OnTell <==> d.Close?)
      && (action == OnConfirm <==> d.ConfirmIntent?)
      && (action == OnElicit <==> d.ElicitSlot?)
      && (action == OnDelegate <==> d.Delegate?)
      && (!d.Close? ==> d.slots == EmptyObject)
      && (d.Close? ==> d.message == CreateSpeechObject(Arg(args, 0)))
      && (d.ConfirmIntent? ==> d.intentName == Arg(args, 0) && d.message == CreateSpeechObject(Arg(args, 1)))
      && (d.ElicitSlot? ==> d.slotToElicit == Arg(args, 0) && d.intentName == Str(ctx.name)
                            && d.message == CreateSpeechObject(Arg(args, 1)))
  {
  }

  /** No emission throws anything but StackExhausted. */
  predicate OnlyStackErrors(o: Outcome) {
    o == Normal || o == Thrown(StackExhausted)
  }

  lemma {:induction false} EmitErrors(tbl: Table, name: string, args: seq<JsValue>, fuel: nat, t: Turn)
    ensures OnlyStackErrors(EmitEffect(tbl, name, args, fuel, t).0)
    decreases fuel, 0, 0
  {
    if fuel > 0 {
      FireErrors(tbl, Listeners(tbl, name), args, fuel - 1, t);
    }
  }

  lemma {:induction false} FireErrors(tbl: Table, bs: seq<Binding>, args: seq<JsValue>, fuel: nat, t: Turn)
    ensures OnlyStackErrors(FireEffect(tbl, bs, args, fuel, t).0)
    decreases fuel, 3, |bs|
  {
    if bs != [] {
      InvokeErrors(tbl, bs[0], args, fuel, t);
      var (o, t1) := InvokeEffect(tbl, bs[0], args, fuel, t);
      if o.Normal? {
        FireErrors(tbl, bs[1..], args, fuel, t1);
      }
    }
  }

  lemma {:induction false} InvokeErrors(tbl: Table, b: Binding, args: seq<JsValue>, fuel: nat, t: Turn)
    ensures OnlyStackErrors(InvokeEffect(tbl, b, args, fuel, t).0)
    decreases fuel, 2, 0
  {
    match b.listener
    case Builtin(action) => BuiltinErrors(tbl, action, b.ctx, args, fuel, t);
    case App(script) => ScriptErrors(tbl, script, fuel, t);
  }

  lemma {:induction false} BuiltinErrors(tbl: Table, action: Action, ctx: HandlerContext, args: seq<JsValue>, fuel: nat, t: Turn)
    ensures OnlyStackErrors(BuiltinEffect(tbl, action, ctx, args, fuel, t).0)
    decreases fuel, 1, 0
  {
    if !IsOverridden(tbl, ctx.name) && action != OnResponseReady {
      EmitErrors(tbl, ":responseReady", [], fuel, Turn(Render(ActionDocument(action, ctx, args)), t.delivered));
    }
  }

  lemma {:induction false} ScriptErrors(tbl: Table, script: seq<Emission>, fuel: nat, t: Turn)
    ensures OnlyStackErrors(ScriptEffect(tbl, script, fuel, t).0)
    decreases fuel, 1, |script|
  {
    if script != [] {
      EmitErrors(tbl, script[0].name, script[0].args, fuel, t);
      var (o, t1) := EmitEffect(tbl, script[0].name, script[0].args, fuel, t);
      if o.Normal? {
        ScriptErrors(tbl, script[1..], fuel, t1);
      }
    }
  }

  // ---------------------------------------------------------------------
  // `execute`

  /**
   * The event name is the intent name, unsuffixed, for both code hooks,
   * and `''` for any other invocation source; reading it throws only when
   * a code hook's `currentIntent` is `undefined` or `null`.
   */
  lemma EventNameCases(event: seq<Prop>)
    ensures var source, intent := GetProp(event, "invocationSource"), GetProp(event, "currentIntent");
      && (!IsCodeHook(source) ==> EventName(event) == Value(""))
      && (IsCodeHook(source) && !intent.Undefined? && !intent.Null? ==>
            EventName(event) == Value(ToString(Get(intent, "name"))))
      && (EventName(event).Failure? <==> IsCodeHook(source) && (intent.Undefined? || intent.Null?))
  {
  }

  /**
   * `execute` throws NoHandler exactly when the event name has no
   * listener, and then nothing fires and nothing is delivered; the error
   * reads "No handler function registered for event: " and the name.
   */
  lemma ExecuteNoHandler(tbl: Table, event: seq<Prop>, fuel: nat, t: Turn)
    ensures var (o, t1) := ExecuteEffect(tbl, event, fuel, t);
      && ((o.Thrown? && o.error.NoHandler?) <==> (EventName(event).Value? && ListenerCount(tbl, EventName(event).value) < 1))
      && (o.Thrown? && o.error.NoHandler? ==>
            && o.error.eventName == EventName(event).value
            && ErrorMessage(o.error) == "No handler function registered for event: " + EventName(event).value
            && t1 == t)
  {
    var name := EventName(event);
    if name.Value? && ListenerCount(tbl, name.value) >= 1 {
      EmitErrors(tbl, name.value, [], fuel, t);
    }
  }

  /** Otherwise every listener of the event name fires, in registration order. */
  lemma ExecuteFiresListeners(tbl: Table, event: seq<Prop>, fuel: nat, t: Turn)
    requires EventName(event).Value? && ListenerCount(tbl, EventName(event).value) >= 1 && fuel > 0
    ensures ExecuteEffect(tbl, event, fuel, t) == FireEffect(tbl, Listeners(tbl, EventName(event).value), [], fuel - 1, t)
  {
  }

  // ---------------------------------------------------------------------
  // Whole turns

  /** The event name of each built-in action. */
  function ActionName(a: Action): string {
    match a
    case OnTell => ":tell"
    case OnConfirm => ":confirm"
    case OnElicit => ":elicit"
    case OnDelegate => ":delegate"
    case OnResponseReady => ":responseReady"
  }

  /**
   * One turn on a freshly built handler with one application handler for
   * the intent, which emits one action: exactly one document, the one that
   * action builds, is delivered, and it is the final response.
   */
  lemma SingleActionTurn(s: Scope, s': Scope, intent: string, action: Action, args: seq<JsValue>, fuel: nat, t: Turn)
    requires action != OnResponseReady && intent !in ActionNames && fuel >= 3
    ensures var tbl := On(BuiltinTable(s), intent, Binding(App([Emission(ActionName(action), args)]), HandlerContext(intent, s')));
      var doc := Render(ActionDocument(action, HandlerContext(ActionName(action), s), args));
      EmitEffect(tbl, intent, [], fuel, t) == (Normal, Turn(doc, t.delivered + [doc]))
  {
    var app := Binding(App([Emission(ActionName(action), args)]), HandlerContext(intent, s'));
    var tbl := On(BuiltinTable(s), intent, app);
    var ctx := HandlerContext(ActionName(action), s);
    var builtin := Binding(Builtin(action), ctx);
    var doc := Render(ActionDocument(action, ctx, args));
    var t2 := Turn(doc, t.delivered + [doc]);
    assert Listeners(tbl, intent) == [app];
    assert Listeners(tbl, ActionName(action)) == [builtin];
    assert Listeners(tbl, ":responseReady") == [Binding(Builtin(OnResponseReady), HandlerContext(":responseReady", s))];
    ActionDeliversOnce(tbl, action, ctx, args, fuel - 2, t);
    assert [builtin][1..] == [] && [app][1..] == [];
    assert !IsOverridden(tbl, ctx.name);
    assert InvokeEffect(tbl, builtin, args, fuel - 2, t) == BuiltinEffect(tbl, action, ctx, args, fuel - 2, t) == (Normal, t2);
    assert FireEffect(tbl, [builtin], args, fuel - 2, t) == (Normal, t2);
    assert EmitEffect(tbl, ActionName(action), args, fuel - 1, t) == (Normal, t2);
    assert [Emission(ActionName(action), args)][1..] == [];
    assert ScriptEffect(tbl, [Emission(ActionName(action), args)], fuel - 1, t) == (Normal, t2);
    assert InvokeEffect(tbl, app, [], fuel - 1, t) == (Normal, t2);
    assert FireEffect(tbl, [app], [], fuel - 1, t) == (Normal, t2);
  }

  /** The same turn started by `execute` from a code-hook event naming the intent. */
  lemma ExecuteSingleActionTurn(s: Scope, s': Scope, event: seq<Prop>, intent: string, action: Action,
                                args: seq<JsValue>, fuel: nat, t: Turn)
    requires action != OnResponseReady && intent !in ActionNames && fuel >= 3
    requires EventName(event) == Value(intent)
    ensures var tbl := On(BuiltinTable(s), intent, Binding(App([Emission(ActionName(action), args)]), HandlerContext(intent, s')));
      var doc := Render(ActionDocument(action, HandlerContext(ActionName(action), s), args));
      ExecuteEffect(tbl, event, fuel, t) == (Normal, Turn(doc, t.delivered + [doc]))
  {
    SingleActionTurn(s, s', intent, action, args, fuel, t);
  }

  /**
   * A handler built from an event without attributes, with one application
   * handler for `TestIntent` that emits `:tell` with `message`: emitting
   * `TestIntent` delivers the Close document for `message`, once.
   */
  lemma TellTurn(s: Scope, s': Scope, message: JsValue)
    requires s.attributes == EmptyObject
    ensures var app := Object([Prop("TestIntent", Function(App([Emission(":tell", [message])])))], true);
      var tbl := RegisterFrom(BuiltinTable(s), [app], 0, s').1;
      var doc := Render(LexResponse(EmptyObject, Close(CreateSpeechObject(message))));
      EmitEffect(tbl, "TestIntent", [], 3, Turn(EmptyObject, [])) == (Normal, Turn(doc, [doc]))
  {
    var script := [Emission(":tell", [message])];
    RegisterSingleHandler(BuiltinTable(s), "TestIntent", App(script), s');
    SingleActionTurn(s, s', "TestIntent", OnTell, [message], 3, Turn(EmptyObject, []));
    var ctx := HandlerContext(ActionName(OnTell), s);
    assert ctx == HandlerContext(":tell", s);
    var doc := Render(ActionDocument(OnTell, ctx, [message]));
    assert doc == Render(LexResponse(EmptyObject, Close(CreateSpeechObject(message))));
    assert [] + [doc] == [doc];
  }

  /** The same turn, with the Close document written out for a message that yields `speech`. */
  lemma TellSpeaks(s: Scope, s': Scope, message: JsValue, speech: Speech)
    requires s.attributes == EmptyObject && CreateSpeechObject(message) == Some(speech)
    ensures var app := Object([Prop("TestIntent", Function(App([Emission(":tell", [message])])))], true);
      var tbl := RegisterFrom(BuiltinTable(s), [app], 0, s').1;
      var expected := Object([
        Prop("sessionAttributes", EmptyObject),
        Prop("dialogAction", Object([
          Prop("type", Str("Close")),
          Prop("fulfillmentState", Str("Fulfilled")),
          Prop("message", Object([Prop("contentType", speech.contentType), Prop("content", speech.content)], true))],
          true))], true);
      EmitEffect(tbl, "TestIntent", [], 3, Turn(EmptyObject, [])) == (Normal, Turn(expected, [expected]))
  {
    TellTurn(s, s', message);
    assert RenderAction(Close(Some(speech))).props
        == [Prop("type", Str("Close")), Prop("fulfillmentState", Str("Fulfilled")), Prop("message", RenderSpeech(speech))];
  }

  /**
   * `:tell` with "Hello world!": the one document delivered is the Close
   * document with plain-text content.
   */
  lemma TellHelloWorld(s: Scope, s': Scope)
    requires s.attributes == EmptyObject
    ensures var app := Object([Prop("TestIntent", Function(App([Emission(":tell", [Str("Hello world!")])])))], true);
      var tbl := RegisterFrom(BuiltinTable(s), [app], 0, s').1;
      var expected := Object([
        Prop("sessionAttributes", EmptyObject),
        Prop("dialogAction", Object([
          Prop("type", Str("Close")),
          Prop("fulfillmentState", Str("Fulfilled")),
          Prop("message", Object([Prop("contentType", Str("PlainText")), Prop("content", Str("Hello world!"))], true))],
          true))], true);
      EmitEffect(tbl, "TestIntent", [], 3, Turn(EmptyObject, [])) == (Normal, Turn(expected, [expected]))
  {
    SpeechPlainString("Hello world!");
    TellSpeaks(s, s', Str("Hello world!"), Speech(Str("PlainText"), Str("Hello world!")));
  }

  /** `:tell` with an SSML message: the content is wrapped in `<speak>` tags. */
  lemma TellSsml(s: Scope, s': Scope)
    requires s.attributes == EmptyObject
    ensures var message := Object([Prop("type", Str("SSML")), Prop("speech", Str("Hello world!"))], true);
      var app := Object([Prop("TestIntent", Function(App([Emission(":tell", [message])])))], true);
      var tbl := RegisterFrom(BuiltinTable(s), [app], 0, s').1;
      var expected := Object([
        Prop("sessionAttributes", EmptyObject),
        Prop("dialogAction", Object([
          Prop("type", Str("Close")),
          Prop("fulfillmentState", Str("Fulfilled")),
          Prop("message", Object([Prop("contentType", Str("SSML")), Prop("content", Str("<speak>" + "Hello world!" + "</speak>"))], true))],
          true))], true);
      EmitEffect(tbl, "TestIntent", [], 3, Turn(EmptyObject, [])) == (Normal, Turn(expected, [expected]))
  {
    var message := Object([Prop("type", Str("SSML")), Prop("speech", Str("Hello world!"))], true);
    GetPropFirst(message.props, "type", 0);
    GetPropFirst(message.props, "speech", 1);
    SpeechSsml(message.props, true);
    TellSpeaks(s, s', message, Speech(Str("SSML"), Str("<speak>" + "Hello world!" + "</speak>")));
  }

  /**
   * `execute` on a fulfillment code hook for `TestIntent`, after one
   * application handler was registered for it: that handler is invoked,
   * with no arguments.
   */
  lemma ExecuteInvokesIntentHandler(s: Scope, s': Scope, script: seq<Emission>, fuel: nat, t: Turn)
    requires fuel > 0
    ensures var event := [
        Prop("sessionAttributes", EmptyObject),
        Prop("invocationSource", Str("FulfillmentCodeHook")),
        Prop("currentIntent", Object([Prop("name", Str("TestIntent"))], true))];
      var app := Object([Prop("TestIntent", Function(App(script)))], true);
      var tbl := RegisterFrom(BuiltinTable(s), [app], 0, s').1;
      && EventName(event) == Value("TestIntent")
      && ExecuteEffect(tbl, event, fuel, t)
        == InvokeEffect(tbl, Binding(App(script), HandlerContext("TestIntent", s')), [], fuel - 1, t)
  {
    var event := [
      Prop("sessionAttributes", EmptyObject),
      Prop("invocationSource", Str("FulfillmentCodeHook")),
      Prop("currentIntent", Object([Prop("name", Str("TestIntent"))], true))];
    var b := Binding(App(script), HandlerContext("TestIntent", s'));
    RegisterSingleHandler(BuiltinTable(s), "TestIntent", App(script), s');
    var tbl := On(BuiltinTable(s), "TestIntent", b);
    GetPropFirst(event, "invocationSource", 1);
    GetPropFirst(event, "currentIntent", 2);
    assert EventName(event) == Value("TestIntent");
    assert Listeners(tbl, "TestIntent") == [b];
    assert [b][1..] == [];
    var (o, t1) := InvokeEffect(tbl, b, [], fuel - 1, t);
    assert FireEffect(tbl, [b], [], fuel - 1, t) == (o, t1);
  }

  /** Construction adds `sessionAttributes: {}` after the existing properties of `{test: 123}`. */
  lemma NormalisationAddsAttributes()
    ensures SetProp([Prop("test", Num(123))], "sessionAttributes", EmptyObject)
         == [Prop("test", Num(123)), Prop("sessionAttributes", EmptyObject)]
  {
  }
}

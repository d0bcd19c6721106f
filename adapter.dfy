/** The adapter mixin (addon/mixins/adapter.js): the `actions` registry and
    `triggerAction`, which resolves an action name to a definition, builds the
    request body, re-keys it through the serializer and issues one `ajax` call.

    The pure part (resolution, merge, translation, URL and method) is stated as
    functions; `Adapter.TriggerAction` performs it with the source's loops and
    in-place writes, and is proved to agree with `Trigger` and
    `RegistryAfter`. */
module AdapterMixin {
  import opened Js
  import opened Records
  import opened Promises

  /** adapter.js:12 */
  const DefaultActionMethod: string := "POST"

  /** The `modelKeys` property of a definition: missing, an array of
      attribute names, or some other value (which `Array.isArray` rejects). */
  datatype ModelKeys = NoModelKeys | KeyArray(keys: seq<string>) | NotAnArray

  /** A structured definition `{url, data, method, modelKeys}`; a property
      that is missing or null is `None`. */
  datatype Definition = Definition(url: Option<string>, data: Option<Dict>, httpMethod: Option<string>, modelKeys: ModelKeys)

  /** What a definition function returns: a URL string, a structured
      definition, another function, or a primitive (null, undefined, a
      number or a boolean). */
  datatype Returned = ReturnedUrl(url: string) | ReturnedHash(def: Definition) | ReturnedFunction | ReturnedPrimitive

  /** An entry of the `actions` hash. `Absent` stands for a missing key (or a
      null or undefined entry); a definition function receives the model,
      seen through its attributes, and the action name. */
  datatype Entry =
    | Absent
    | UrlEntry(url: string)
    | HashEntry(def: Definition)
    | FunctionEntry(call: (map<string, Value>, string) -> Returned)

  /** The fallback definition of adapter.js:43. */
  const NullDefinition: Definition := Definition(None, Some(Empty), None, NoModelKeys)

  /** A function object used as a definition has none of the four properties. */
  const FunctionAsDefinition: Definition := Definition(None, None, None, NoModelKeys)

  /** The definition `{url: url}` of adapter.js:52-54. */
  function UrlDefinition(url: string): (r: Definition) {
    Definition(Some(url), None, None, NoModelKeys)
  }

  /** `this.get('actions.' + action)` */
  function Lookup(actions: map<string, Entry>, action: string): (r: Entry) {
    if action in actions then actions[action] else Absent
  }

  /** The definition object `triggerAction` ends up working on, and whether
      it is the registry's own object (so that writes into its `data` persist). */
  datatype Resolved = Resolved(def: Definition, inRegistry: bool)

  /** adapter.js:43-58: a falsy entry falls back to `NullDefinition`, a
      function is called once and its result is classified without calling it
      again, a string becomes `{url}`; setting `data` on a primitive throws. */
  function Resolve(entry: Entry, attrs: map<string, Value>, action: string): (r: Result<Resolved>) {
    match entry
    case Absent => Ok(Resolved(NullDefinition, false))
    case UrlEntry(url) =>
      if url == "" then Ok(Resolved(NullDefinition, false)) else Ok(Resolved(UrlDefinition(url), false))
    case HashEntry(def) => Ok(Resolved(def, true))
    case FunctionEntry(call) =>
      match call(attrs, action)
      case ReturnedUrl(url) => Ok(Resolved(UrlDefinition(url), false))
      case ReturnedHash(def) => Ok(Resolved(def, false))
      case ReturnedFunction => Ok(Resolved(FunctionAsDefinition, false))
      case ReturnedPrimitive => Err(DefinitionNotObject)
  }

  /** `actionDefinition.data || {}` (adapter.js:58). */
  function StaticData(def: Definition): (r: Dict) {
    if def.data.Some? then def.data.value else Empty
  }

  /** The writes `actionData[key] = model.get(key)` of adapter.js:65-67. */
  function ModelPairs(keys: seq<string>, attrs: map<string, Value>): (ps: seq<(string, Value)>)
  {
    seq(|keys|, i requires 0 <= i < |keys| => (keys[i], Read(attrs, keys[i])))
  }

  /** The writes `data[keyForAttribute(key)] = actionData[key]` of adapter.js:71-73. */
  function TranslatedPairs(merged: Dict, keyFor: string -> string): (ps: seq<(string, Value)>)
  {
    seq(|merged.keys|, i requires 0 <= i < |merged.keys| => (keyFor(merged.keys[i]), merged.vals[merged.keys[i]]))
  }

  /** `actionData` after adapter.js:59-68: a copy of the static data, the
      caller's data assigned over it, then the model's values for `modelKeys`. */
  function Merged(def: Definition, caller: Option<Dict>, attrs: map<string, Value>): (r: Dict) {
    var copied := Assign(Empty, StaticData(def));
    var withCaller := if caller.Some? then Assign(copied, caller.value) else copied;
    if def.modelKeys.KeyArray? then PutPairs(withCaller, ModelPairs(def.modelKeys.keys, attrs)) else withCaller
  }

  /** The definition's `data` after adapter.js:71-73, which is the body sent:
      every merged key is written, re-keyed, into the static data object. */
  function Translated(base: Dict, merged: Dict, keyFor: string -> string): (r: Dict) {
    PutPairs(base, TranslatedPairs(merged, keyFor))
  }

  /** `[this.urlPrefix(), url].join('/')` (adapter.js:79-86). */
  function Endpoint(prefix: string, url: string): (r: string) {
    prefix + "/" + url
  }

  /** `actionDefinition.method || this.get('defaultActionMethod')` (adapter.js:87). */
  function HttpMethodFor(def: Definition, defaultMethod: string): (r: string) {
    if def.httpMethod.Some? && def.httpMethod.value != "" then def.httpMethod.value else defaultMethod
  }

  /** The resolved definition and the body assembled for it. */
  datatype Prepared = Prepared(def: Definition, inRegistry: bool, body: Dict)

  /** adapter.js:43-73 */
  function Prepare(entry: Entry, action: string, attrs: map<string, Value>, keyFor: string -> string, caller: Option<Dict>): (r: Result<Prepared>) {
    match Resolve(entry, attrs, action)
    case Err(e) => Err(e)
    case Ok(r) => Ok(Prepared(r.def, r.inRegistry, Translated(StaticData(r.def), Merged(r.def, caller, attrs), keyFor)))
  }

  /** adapter.js:76-91: the URL check, then the `ajax` arguments. */
  function Dispatch(p: Prepared, prefix: string, defaultMethod: string): (r: Result<Request>) {
    if p.def.url.Some? && p.def.url.value != "" then
      Ok(Request(Endpoint(prefix, p.def.url.value), HttpMethodFor(p.def, defaultMethod), p.body))
    else Err(MissingUrl)
  }

  /** adapter.js:38-73: the three argument assertions, then the resolved
      definition and its body. */
  function Outcome(actions: map<string, Entry>, action: string, model: Option<map<string, Value>>,
                   serializer: Option<string -> string>, caller: Option<Dict>): (r: Result<Prepared>)
  {
    if action == "" then Err(MissingActionName)
    else if model.None? then Err(MissingModel)
    else if serializer.None? then Err(MissingSerializer)
    else Prepare(Lookup(actions, action), action, model.value, serializer.value, caller)
  }

  /** The outcome of `triggerAction(action, model, serializer, data)`: what
      it throws, or the one `ajax` call it makes. */
  function Trigger(actions: map<string, Entry>, action: string, model: Option<map<string, Value>>,
                   serializer: Option<string -> string>, caller: Option<Dict>,
                   prefix: string, defaultMethod: string): (r: Result<Request>)
  {
    match Outcome(actions, action, model, serializer, caller)
    case Err(e) => Err(e)
    case Ok(p) => Dispatch(p, prefix, defaultMethod)
  }

  /** The registry after the call: a structured entry taken from it keeps
      the body written into its `data` (adapter.js:58, 72), even when the URL
      check then fails. */
  function RegistryAfter(actions: map<string, Entry>, action: string, model: Option<map<string, Value>>,
                         serializer: Option<string -> string>, caller: Option<Dict>): (r: map<string, Entry>)
  {
    match Outcome(actions, action, model, serializer, caller)
    case Err(_) => actions
    case Ok(p) => if p.inRegistry then actions[action := HashEntry(p.def.(data := Some(p.body)))] else actions
  }

  /** The model as `triggerAction` sees it: missing, or its attributes. */
  function View(model: Entity?): (r: Option<map<string, Value>>)
    reads model
  {
    if model == null then None else Some(model.attrs)
  }

  /** adapter.js:65-67: `actionData[key] = model.get(key)` for each key, in order. */
  method PutModelValues(actionData: Dict, keys: seq<string>, model: Entity) returns (r: Dict)
    ensures r == PutPairs(actionData, ModelPairs(keys, model.attrs))
  {
    r := actionData;
    ghost var ps := ModelPairs(keys, model.attrs);
    for i := 0 to |keys|
      invariant r == PutPairs(actionData, ps[..i])
    {
      assert ps[..i + 1][..i] == ps[..i];
      r := Put(r, keys[i], model.Get(keys[i]));
    }
    assert ps[..|keys|] == ps;
  }

  /** adapter.js:71-73: writes every key of `actionData`, through the
      serializer's `keyForAttribute`, into the definition's `data`. */
  method ReKey(data: Dict, actionData: Dict, keyFor: string -> string) returns (body: Dict)
    ensures body == Translated(data, actionData, keyFor)
  {
    body := data;
    ghost var ts := TranslatedPairs(actionData, keyFor);
    assert |ts| == |actionData.keys|;
    for i := 0 to |actionData.keys|
      invariant body == PutPairs(data, ts[..i])
    {
      assert ts[..i + 1][..i] == ts[..i];
      var key := actionData.keys[i];
      body := Put(body, keyFor(key), actionData.vals[key]);
    }
    assert ts[..|actionData.keys|] == ts;
  }

  /** adapter.js:43-73: resolves the entry and builds the body, with the
      two `forEach` loops of the source. */
  method Assemble(entry: Entry, action: string, model: Entity, keyFor: string -> string, data: Option<Dict>)
    returns (r: Result<Prepared>)
    ensures r == Prepare(entry, action, model.attrs, keyFor, data)
  {
    var resolved := Resolve(entry, model.attrs, action);
    if resolved.Err? {
      return Err(resolved.error);
    }
    var def := resolved.value.def;
    var base := StaticData(def);
    var actionData := Assign(Empty, base);
    if data.Some? {
      actionData := Assign(actionData, data.value);
    }
    if def.modelKeys.KeyArray? {
      actionData := PutModelValues(actionData, def.modelKeys.keys, model);
    }
    var body := ReKey(base, actionData, keyFor);
    return Ok(Prepared(def, resolved.value.inRegistry, body));
  }

  /** An adapter using the mixin. */
  class Adapter {
    /** The `actions` hash. */
    var actions: map<string, Entry>
    /** What `this.urlPrefix()` returns for this adapter. */
    const urlPrefix: string
    var defaultActionMethod: string
    /** The `ajax` calls issued so far, oldest first. */
    var sent: seq<Request>

    constructor (actions: map<string, Entry>, urlPrefix: string)
      ensures this.actions == actions && this.urlPrefix == urlPrefix
      ensures defaultActionMethod == DefaultActionMethod && sent == []
    {
      this.actions := actions;
      this.urlPrefix := urlPrefix;
      defaultActionMethod := DefaultActionMethod;
      sent := [];
    }

    /** adapter.js:36-92. On success the result is the promise of the one
        `ajax` call made, for `model`, with nothing attached to it yet. */
    method TriggerAction(action: string, model: Entity?, serializer: Option<string -> string>, data: Option<Dict>)
      returns (r: Result<Pending>)
      modifies this`actions, this`sent
      ensures var expected := Trigger(old(actions), action, old(View(model)), serializer, data, urlPrefix, defaultActionMethod);
        && r.Ok? == expected.Ok?
        && (r.Err? ==> r.error == expected.error)
        && (r.Ok? ==> fresh(r.value) && r.value.target == model && r.value.request == expected.value)
        && (r.Ok? ==> r.value.rollback == [] && r.value.settled == None)
        && sent == old(sent) + (if expected.Ok? then [expected.value] else [])
      ensures actions == RegistryAfter(old(actions), action, old(View(model)), serializer, data)
    {
      if action == "" {
        return Err(MissingActionName);
      }
      if model == null {
        return Err(MissingModel);
      }
      if serializer.None? {
        return Err(MissingSerializer);
      }
      var prepared := Assemble(Lookup(actions, action), action, model, serializer.value, data);
      assert Outcome(actions, action, View(model), serializer, data) == prepared;
      if prepared.Err? {
        return Err(prepared.error);
      }
      r := Send(action, model, prepared.value);
    }

    /** adapter.js:58-91 once the body is built: a definition that is the
        registry's object keeps the body as its `data`; then the URL check,
        and the one `ajax` call. */
    method Send(action: string, model: Entity, p: Prepared) returns (r: Result<Pending>)
      modifies this`actions, this`sent
      ensures var expected := Dispatch(p, urlPrefix, defaultActionMethod);
        && r.Ok? == expected.Ok?
        && (r.Err? ==> r.error == expected.error)
        && (r.Ok? ==> fresh(r.value) && r.value.target == model && r.value.request == expected.value)
        && (r.Ok? ==> r.value.rollback == [] && r.value.settled == None)
        && sent == old(sent) + (if expected.Ok? then [expected.value] else [])
      ensures actions == if p.inRegistry then old(actions)[action := HashEntry(p.def.(data := Some(p.body)))] else old(actions)
    {
      if p.inRegistry {
        actions := actions[action := HashEntry(p.def.(data := Some(p.body)))];
      }
      if p.def.url.None? || p.def.url.value == "" {
        return Err(MissingUrl);
      }
      var request := Request(Endpoint(urlPrefix, p.def.url.value), HttpMethodFor(p.def, defaultActionMethod), p.body);
      sent := sent + [request];
      var promise := new Pending(model, request);
      return Ok(promise);
    }
  }

  /** A missing registry entry falls back to `{url: null, data: {}, method: null}`,
      so the URL check fails and no `ajax` call is made; the registry is untouched. */
  lemma AbsentEntryFailsUrlCheck(actions: map<string, Entry>, action: string, attrs: map<string, Value>,
                                 keyFor: string -> string, caller: Option<Dict>, prefix: string, defaultMethod: string)
    requires action != "" && Lookup(actions, action).Absent?
    ensures Trigger(actions, action, Some(attrs), Some(keyFor), caller, prefix, defaultMethod) == Err(MissingUrl)
    ensures RegistryAfter(actions, action, Some(attrs), Some(keyFor), caller) == actions
  {
  }

  /** A string entry `s` sends exactly what the structured entry `{url: s}` sends. */
  lemma UrlEntryIsUrlHash(actions: map<string, Entry>, action: string, url: string, attrs: map<string, Value>,
                          keyFor: string -> string, caller: Option<Dict>, prefix: string, defaultMethod: string)
    ensures Trigger(actions[action := UrlEntry(url)], action, Some(attrs), Some(keyFor), caller, prefix, defaultMethod)
         == Trigger(actions[action := HashEntry(UrlDefinition(url))], action, Some(attrs), Some(keyFor), caller, prefix, defaultMethod)
  {
  }

  /** A definition function that returns the string `url` acts like the entry `url`. */
  lemma FunctionReturningUrl(actions: map<string, Entry>, action: string, call: (map<string, Value>, string) -> Returned,
                             url: string, attrs: map<string, Value>, keyFor: string -> string, caller: Option<Dict>,
                             prefix: string, defaultMethod: string)
    requires action != "" && call(attrs, action) == ReturnedUrl(url)
    ensures Trigger(actions[action := FunctionEntry(call)], action, Some(attrs), Some(keyFor), caller, prefix, defaultMethod)
         == Trigger(actions[action := UrlEntry(url)], action, Some(attrs), Some(keyFor), caller, prefix, defaultMethod)
  {
    assert Lookup(actions[action := FunctionEntry(call)], action) == FunctionEntry(call);
    assert Lookup(actions[action := UrlEntry(url)], action) == UrlEntry(url);
    var viaFunction := Prepare(FunctionEntry(call), action, attrs, keyFor, caller);
    var viaUrl := Prepare(UrlEntry(url), action, attrs, keyFor, caller);
    if url == "" {
      assert Dispatch(viaFunction.value, prefix, defaultMethod) == Err(MissingUrl);
      assert Dispatch(viaUrl.value, prefix, defaultMethod) == Err(MissingUrl);
    } else {
      assert viaFunction == viaUrl;
    }
  }

  /** A definition function that returns a hash acts like that hash in the
      registry, except that the hash is not the registry's object. */
  lemma FunctionReturningHash(actions: map<string, Entry>, action: string, call: (map<string, Value>, string) -> Returned,
                              def: Definition, attrs: map<string, Value>, keyFor: string -> string, caller: Option<Dict>,
                              prefix: string, defaultMethod: string)
    requires action != "" && call(attrs, action) == ReturnedHash(def)
    ensures Trigger(actions[action := FunctionEntry(call)], action, Some(attrs), Some(keyFor), caller, prefix, defaultMethod)
         == Trigger(actions[action := HashEntry(def)], action, Some(attrs), Some(keyFor), caller, prefix, defaultMethod)
  {
    assert Lookup(actions[action := FunctionEntry(call)], action) == FunctionEntry(call);
    assert Lookup(actions[action := HashEntry(def)], action) == HashEntry(def);
    var viaFunction := Prepare(FunctionEntry(call), action, attrs, keyFor, caller);
    var viaHash := Prepare(HashEntry(def), action, attrs, keyFor, caller);
    assert viaFunction.value == viaHash.value.(inRegistry := false);
  }

  /** A definition function is called once, with the model and the action
      name; what it returns is treated like the same registry entry, except
      that a returned function is not called again (it has no URL) and a
      returned primitive throws. The function entry itself stays in the registry. */
  lemma FunctionEntryResolvesOnce(actions: map<string, Entry>, action: string, call: (map<string, Value>, string) -> Returned,
                                  attrs: map<string, Value>, keyFor: string -> string, caller: Option<Dict>,
                                  prefix: string, defaultMethod: string)
    requires action != ""
    ensures var viaFunction := Trigger(actions[action := FunctionEntry(call)], action, Some(attrs), Some(keyFor), caller, prefix, defaultMethod);
      match call(attrs, action)
      case ReturnedUrl(url) =>
        viaFunction == Trigger(actions[action := UrlEntry(url)], action, Some(attrs), Some(keyFor), caller, prefix, defaultMethod)
      case ReturnedHash(def) =>
        viaFunction == Trigger(actions[action := HashEntry(def)], action, Some(attrs), Some(keyFor), caller, prefix, defaultMethod)
      case ReturnedFunction => viaFunction == Err(MissingUrl)
      case ReturnedPrimitive => viaFunction == Err(DefinitionNotObject)
    ensures RegistryAfter(actions[action := FunctionEntry(call)], action, Some(attrs), Some(keyFor), caller)
         == actions[action := FunctionEntry(call)]
  {
    assert Lookup(actions[action := FunctionEntry(call)], action) == FunctionEntry(call);
    match call(attrs, action)
    case ReturnedUrl(url) =>
      FunctionReturningUrl(actions, action, call, url, attrs, keyFor, caller, prefix, defaultMethod);
    case ReturnedHash(def) =>
      FunctionReturningHash(actions, action, call, def, attrs, keyFor, caller, prefix, defaultMethod);
    case ReturnedFunction =>
    case ReturnedPrimitive =>
  }

  /** Merge precedence of adapter.js:59-68: the model's value wins for a key
      listed in an array `modelKeys`, then the caller's data, then the static
      data; and the merged keys are exactly the keys of the three sources. */
  lemma MergePrecedence(def: Definition, caller: Option<Dict>, attrs: map<string, Value>, k: string)
    ensures var inModelKeys := def.modelKeys.KeyArray? && k in def.modelKeys.keys;
      var inCaller := caller.Some? && k in caller.value.vals;
      && Get(Merged(def, caller, attrs), k)
         == (if inModelKeys then Read(attrs, k)
             else if inCaller then caller.value.vals[k]
             else Get(StaticData(def), k))
      && (k in Merged(def, caller, attrs).vals <==> inModelKeys || inCaller || k in StaticData(def).vals)
  {
    var copied := Assign(Empty, StaticData(def));
    AssignGet(Empty, StaticData(def), k);
    var withCaller := if caller.Some? then Assign(copied, caller.value) else copied;
    if caller.Some? {
      AssignGet(copied, caller.value, k);
    }
    if def.modelKeys.KeyArray? {
      var keys := def.modelKeys.keys;
      var ps := ModelPairs(keys, attrs);
      if k in keys {
        var i :| 0 <= i < |keys| && keys[i] == k;
        assert ps[i].0 == k;
        PutPairsAgreeingWrites(withCaller, ps, k, Read(attrs, k));
      } else {
        PutPairsUntouched(withCaller, ps, k);
      }
    }
  }

  /** When no other merged key is re-keyed to the same name, the sent body
      maps `keyForAttribute(k)` to the merged value of `k`. */
  lemma TranslatedValue(data: Dict, merged: Dict, keyFor: string -> string, k: string)
    requires k in merged.vals
    requires forall k' :: k' in merged.vals && k' != k ==> keyFor(k') != keyFor(k)
    ensures keyFor(k) in Translated(data, merged, keyFor).vals
    ensures Translated(data, merged, keyFor).vals[keyFor(k)] == merged.vals[k]
  {
    var ps := TranslatedPairs(merged, keyFor);
    var i :| 0 <= i < |merged.keys| && merged.keys[i] == k;
    assert ps[i].0 == keyFor(k);
    PutPairsAgreeingWrites(data, ps, keyFor(k), merged.vals[k]);
  }

  /** When re-keyed names collide, the body holds the value of the merged key
      that comes last in `Object.keys` order. */
  lemma TranslatedLastWrite(data: Dict, merged: Dict, keyFor: string -> string, i: int)
    requires 0 <= i < |merged.keys|
    requires forall j :: i < j < |merged.keys| ==> keyFor(merged.keys[j]) != keyFor(merged.keys[i])
    ensures keyFor(merged.keys[i]) in Translated(data, merged, keyFor).vals
    ensures Translated(data, merged, keyFor).vals[keyFor(merged.keys[i])] == merged.vals[merged.keys[i]]
  {
    PutPairsLastWrite(data, TranslatedPairs(merged, keyFor), i);
  }

  /** A key of the definition's own `data` that no merged key is re-keyed to
      stays in the body with its static value (the raw key is not removed). */
  lemma TranslatedKeepsStaticKey(data: Dict, merged: Dict, keyFor: string -> string, x: string)
    requires forall k :: k in merged.vals ==> keyFor(k) != x
    ensures x in Translated(data, merged, keyFor).vals <==> x in data.vals
    ensures Get(Translated(data, merged, keyFor), x) == Get(data, x)
  {
    var ps := TranslatedPairs(merged, keyFor);
    forall i | 0 <= i < |ps| ensures ps[i].0 != x {
      assert merged.keys[i] in merged.vals;
    }
    PutPairsUntouched(data, ps, x);
  }

  /** The body's keys are the static data's keys plus the re-keyed merged keys. */
  lemma TranslatedKeys(data: Dict, merged: Dict, keyFor: string -> string, x: string)
    ensures x in Translated(data, merged, keyFor).vals <==> x in data.vals || exists k :: k in merged.vals && keyFor(k) == x
  {
    var ps := TranslatedPairs(merged, keyFor);
    PutPairsKeys(data, ps, x);
    if exists k :: k in merged.vals && keyFor(k) == x {
      var k :| k in merged.vals && keyFor(k) == x;
      var i :| 0 <= i < |merged.keys| && merged.keys[i] == k;
      assert ps[i].0 == x;
    }
    if exists i :: 0 <= i < |ps| && ps[i].0 == x {
      var i :| 0 <= i < |ps| && ps[i].0 == x;
      assert merged.keys[i] in merged.vals;
    }
  }

  /** The `ajax` call: the URL is the prefix, one `/` and the definition's URL
      (nothing is trimmed, so a URL starting with `/` gives `//`); the method is
      the definition's own when it is non-empty, else the adapter's default;
      the body is the re-keyed data. It is made exactly when the URL is non-empty. */
  lemma DispatchedRequest(p: Prepared, prefix: string, defaultMethod: string)
    ensures Dispatch(p, prefix, defaultMethod).Ok? <==> p.def.url.Some? && p.def.url.value != ""
    ensures Dispatch(p, prefix, defaultMethod).Err? ==> Dispatch(p, prefix, defaultMethod).error == MissingUrl
    ensures Dispatch(p, prefix, defaultMethod).Ok? ==>
      var req := Dispatch(p, prefix, defaultMethod).value;
      && |req.url| == |prefix| + 1 + |p.def.url.value|
      && req.url[..|prefix|] == prefix
      && req.url[|prefix|] == '/'
      && req.url[|prefix| + 1..] == p.def.url.value
      && (p.def.httpMethod.Some? && p.def.httpMethod.value != "" ==> req.httpMethod == p.def.httpMethod.value)
      && (p.def.httpMethod.None? || p.def.httpMethod.value == "" ==> req.httpMethod == defaultMethod)
      && req.data == p.body
  {
  }

  /** A structured entry taken from the registry keeps the data written into
      it: afterwards its `data` holds every key it held before, so a later call
      starts from the previous body. */
  lemma RegistryKeepsWrittenData(actions: map<string, Entry>, action: string, attrs: map<string, Value>,
                                 keyFor: string -> string, caller: Option<Dict>, x: string)
    requires action != "" && action in actions && actions[action].HashEntry?
    requires x in StaticData(actions[action].def).vals
    ensures var after := RegistryAfter(actions, action, Some(attrs), Some(keyFor), caller);
      && action in after && after[action].HashEntry?
      && x in StaticData(after[action].def).vals
  {
    var def := actions[action].def;
    var body := Translated(StaticData(def), Merged(def, caller, attrs), keyFor);
    assert Outcome(actions, action, Some(attrs), Some(keyFor), caller) == Ok(Prepared(def, true, body));
    TranslatedKeys(StaticData(def), Merged(def, caller, attrs), keyFor, x);
  }
}

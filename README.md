# ember-data-actions, modelled in Dafny

ember-data-actions adds custom, non-CRUD endpoints to Ember Data models. An
adapter that uses the mixin declares an `actions` hash. Each entry maps an
action name to a definition:

- a URL string;
- a structured definition `{url, data, method, modelKeys}`;
- or a function of `(model, action)` that returns one of the two.

`triggerAction(action, model, serializer, data)` resolves the definition and
builds the request body. The body merges three layers: the definition's
static `data`, then the caller's `data`, then the model's values for
`modelKeys`. The body is re-keyed through the serializer's `keyForAttribute`
and sent with one `ajax` call to `urlPrefix() + '/' + url`. The method is the
definition's own, or the adapter's `defaultActionMethod` (`'POST'`).

`action(actionName, newAttributes)` makes a model method. The method
triggers the adapter action. It then writes `newAttributes` onto the model
optimistically and records every changed key as `[old, new]`. It attaches a
rejection handler to the request's promise that writes the old values back,
and it returns that same promise.

The project has five modules, one per file:

- `Js` (`js.dfy`): JavaScript values and plain objects. An object is an
  insertion-ordered dictionary, because `Object.keys` order decides which
  write wins when re-keyed names collide. `Put` is one property write,
  `PutPairs` a run of writes in order and `Assign` is `Object.assign`.
  `Ember.assert` failures and runtime TypeErrors are `Err(Failure)` results;
  this is the development-build behaviour.
- `Records` (`records.dfy`): the model record (`Entity`). It has attributes
  and the two pieces of state the wrapper touches: the value of
  `currentState` and the value of `currentState.isDirty`. The module also has
  the recorded changes and their rollback (`Revert`).
- `Promises` (`promises.dfy`): the `ajax` request and its promise
  (`Pending`). A promise settles once; `Catch` registers the rollback writes
  and `Settle` runs them on rejection.
- `AdapterMixin` (`adapter.dfy`): the `actions` registry and
  `triggerAction`. The functions `Resolve`, `Merged`, `Translated`,
  `Outcome`, `Dispatch`, `Trigger` and `RegistryAfter` state what the call
  computes. The method `Adapter.TriggerAction` performs it with the source's
  two `forEach` loops (in `Assemble`) and its final writes (in
  `Adapter.Send`), and is proved to agree with those functions.
- `ModelActions` (`action.dfy`): `setAttributes` (`SetAttributes`, specified
  by the fold `Apply`) and the model method made by `action` (`Perform`).

The code is followed as written; these behaviours may surprise a reader:

- The endpoint is `[prefix, url].join('/')`. Nothing is trimmed, so a URL
  starting with `/` gives a double `/` (`DispatchedRequest`).
- `setAttributes` stores `model.get('currentState')`, the state object, and
  writes that object into `currentState.isDirty`. The dirty flag therefore
  keeps its earlier value only when that value equals the state object's
  value, although the comment at action.js:59 says the flag is reset so
  that the model does not appear modified. `SetAttributes` states this
  condition, and `RejectedLikeScenario` shows a record whose flag goes from
  `false` to the (truthy) state object when `setAttributes` runs and the
  promise is then rejected.
- A structured registry entry is the registry's own object. The re-keyed
  body is written into its `data`, so the body stays there for later calls.
  This happens even when the URL check then fails (`RegistryAfter`,
  `RegistryKeepsWrittenData`).
- Re-keying writes into the definition's `data` without removing the raw
  keys, although the comment at adapter.js:70 says the data is re-encoded
  with the serializer's attribute names. A static key that no merged key
  maps onto stays in the body (`TranslatedKeepsStaticKey`).

## Model

| member | source | states |
|---|---|---|
| Js.PutPairsLastWrite | addon/mixins/adapter.js:71-73 | After a run of property writes, a key holds the value of the last write to it. |
| Js.PutPairsAgreeingWrites | addon/mixins/adapter.js:65-67 | When every write to a key writes the same value, the key ends up holding that value. |
| Js.PutPairsUntouched | addon/mixins/adapter.js:65-67 | A key no write touches keeps its presence and its value. |
| Js.PutPairsKeys | addon/mixins/adapter.js:71-73 | The keys after the writes are the keys before plus the written keys, and no others. |
| Js.AssignGet | addon/mixins/adapter.js:59 | `Object.assign`: the source wins on each of its keys, the target keeps every other key, and no other key appears. |
| Js.AssignCopies | addon/mixins/adapter.js:59 | `Object.assign({}, d)` is a copy of `d`: the same keys, in the same order, with the same values. |
| Records.Entity.Get | addon/utils/action.js:50 | `model.get(key)` is defined exactly when the attribute is present and not `undefined`. |
| Records.Entity.Set | addon/utils/action.js:55 | `model.set(key, value)` writes that attribute and no other. |
| Records.Entity.SetDirtyFlag | addon/utils/action.js:60 | `model.set('currentState.isDirty', v)` sets the flag to `v`. |
| Records.RevertRecorded | addon/utils/action.js:64-67 | With each key recorded once, the rollback sets every recorded key back to its recorded old value. |
| Records.RevertUnrecorded | addon/utils/action.js:64-67 | The rollback does not write a key that has no recorded change. |
| Promises.Pending.constructor | addon/mixins/adapter.js:85-91 | A new `ajax` promise is pending, for the given request and record, with no handler attached. |
| Promises.Pending.Catch | addon/utils/action.js:63-68 | `promise.catch` appends the rollback writes after any registered before. |
| Promises.Pending.Settle | addon/utils/action.js:63-68 | Only the first settlement counts. A rejection runs the registered writes in order, giving `Revert` of the attributes; a fulfilment writes nothing. |
| AdapterMixin.PutModelValues | addon/mixins/adapter.js:62-68 | The `modelKeys` loop leaves `actionData` equal to the run of `ModelPairs` writes over it. |
| AdapterMixin.ReKey | addon/mixins/adapter.js:70-73 | The re-keying loop leaves the definition's `data` equal to `Translated` of the static data and the merged data. |
| AdapterMixin.Assemble | addon/mixins/adapter.js:42-73 | Resolving the entry and building the body gives exactly `Prepare`: the resolved definition, whether it is the registry's object, and the re-keyed body. |
| AdapterMixin.Adapter.constructor | addon/mixins/adapter.js:12 | An adapter starts with its `actions`, its URL prefix and `defaultActionMethod` `'POST'`, and has sent nothing. |
| AdapterMixin.Adapter.TriggerAction | addon/mixins/adapter.js:36-92 | Each missing argument fails its assertion. Otherwise exactly one `ajax` call is made, the one `Trigger` gives, when that succeeds; no call is made when it fails. The registry becomes `RegistryAfter`. The result is a fresh pending promise for the model with no handler attached. |
| AdapterMixin.Adapter.Send | addon/mixins/adapter.js:72-91 | Once the body is built: a definition that is the registry's object keeps the body as its `data`, whatever follows. The one `ajax` call is made exactly when `Dispatch` succeeds, and is logged. The result is a fresh pending promise for the model. |
| AdapterMixin.AbsentEntryFailsUrlCheck | addon/mixins/adapter.js:43-76 | A missing entry falls back to `{url: null, data: {}}`. The URL assertion then fails, no request is made and the registry is unchanged. |
| AdapterMixin.UrlEntryIsUrlHash | addon/mixins/adapter.js:43-55 | A string entry `s` gives the same outcome as the structured entry `{url: s}`. |
| AdapterMixin.FunctionReturningUrl | addon/mixins/adapter.js:46-55 | A definition function that returns the string `url` gives the same outcome as the entry `url`, the empty string included. |
| AdapterMixin.FunctionReturningHash | addon/mixins/adapter.js:46-58 | A definition function that returns a hash gives the same outcome as that hash stored in the registry. |
| AdapterMixin.FunctionEntryResolvesOnce | addon/mixins/adapter.js:46-58 | A function entry is called once with the model and the action name. A returned string or hash acts like that registry entry; a returned function is not called again and fails the URL check; a returned primitive throws. The function entry stays in the registry. |
| AdapterMixin.MergePrecedence | addon/mixins/adapter.js:58-68 | For every key, the model's value wins when the key is listed in an array `modelKeys`, then the caller's data, then the static data. The merged keys are exactly the keys of those three sources. |
| AdapterMixin.TranslatedValue | addon/mixins/adapter.js:71-73 | When no other merged key is re-keyed to the same name, the body maps `keyForAttribute(k)` to the merged value of `k`. |
| AdapterMixin.TranslatedLastWrite | addon/mixins/adapter.js:71-73 | When re-keyed names collide, the body holds the value of the merged key that comes last in `Object.keys` order. |
| AdapterMixin.TranslatedKeepsStaticKey | addon/mixins/adapter.js:58-73 | A static key that no merged key is re-keyed to stays in the body with its static value. |
| AdapterMixin.TranslatedKeys | addon/mixins/adapter.js:58-73 | The body's keys are the static data's keys plus the re-keyed merged keys, and no others. |
| AdapterMixin.DispatchedRequest | addon/mixins/adapter.js:75-91 | A request is made exactly when the definition's URL is non-empty; otherwise the URL assertion fails. The URL is the prefix, one `/` and the definition's URL. The method is the definition's own when non-empty, else the default. The body is the re-keyed data. |
| AdapterMixin.RegistryKeepsWrittenData | addon/mixins/adapter.js:58-72 | After a call on a structured registry entry, that entry's `data` still holds every key it held before. |
| ModelActions.AttributesFor | addon/utils/action.js:30-39 | A hash is used as it is. A function is called once with the action name, and its result is used if it is a hash. Anything else fails the assertion. |
| ModelActions.ApplyOutcome | addon/utils/action.js:47-57 | Every key of the hash holds its new value afterwards. Exactly the keys whose old value is `!==` the new one are recorded, each once, as `[old, new]`. A key that is not recorded is not written. |
| ModelActions.RollbackRestores | addon/utils/action.js:47-68 | The writes followed by the rejection handler give every key back the value it read before the call. A key that was not recorded was never written. |
| ModelActions.SetAttributes | addon/utils/action.js:28-69 | A non-hash fails before any write. Otherwise the attributes become `Apply` of the hash and the recorded changes become the promise's rollback. The dirty flag becomes the `currentState` value read before the writes, so it is unchanged only when that value equals the flag. |
| ModelActions.Perform | addon/utils/action.js:100-121 | The adapter action is triggered first, with the record's attributes before any write. When the trigger fails, nothing is written. With falsy `newAttributes` the promise is returned with no handler. Otherwise the model gets `SetAttributes`'s writes, and the adapter's own promise is returned with the rollback attached. |
| ModelActions.RejectionRestoresModel | addon/utils/action.js:106-120 | When the action's promise is rejected, every attribute reads as before the call, and unrecorded attributes were never written. |
| ModelActions.FulfilmentCommits | addon/utils/action.js:106-120 | When the action's promise is fulfilled, every key of the hash holds its new value, and no other attribute was written. |
| ModelActions.LikeSetAttributes | addon/utils/action.js:42-63 | `setAttributes(model, {liked: true}, promise, 'like')` on a record with `liked: false`, `isDirty: false` and state object `Ref(1)`: `liked` becomes `true`, the one change `[false, true]` is attached to the promise, and the dirty flag becomes `Ref(1)`. |
| ModelActions.RejectedLikeScenario | addon/utils/action.js:42-68 | `setAttributes(model, {liked: true}, promise, 'like')` on that record, followed by a rejection of the promise: `liked` is `false` again, and the dirty flag is left holding the truthy state object, not its earlier `false`. |
| ModelActions.FlagPayloadScenario | addon/mixins/adapter.js:59-68 | `{url: 'flags', modelKeys: ['reason']}` on a record whose `reason` is `'spam'` gives the payload `{reason: 'spam'}`. |
| ModelActions.LikeRequestScenario | addon/mixins/adapter.js:43-91 | `{like: 'likes/create'}` with prefix `/api` sends `POST /api/likes/create` with an empty body. |
| ModelActions.LikeWrites | addon/utils/action.js:48-57 | `{liked: true}` on a record with `liked: false` writes `liked` and records one change `[false, true]`. |

## Left out

- The store lookups of action.js:12-15 (`model.get('store')`, `adapterFor`, `serializerFor`, the model name) are not modelled. `Perform` takes the adapter and the serializer as parameters.
- The serializer's `keyForAttribute` is a function parameter. The adapter's `urlPrefix()` is a constant per adapter. Their implementations are not part of this model.
- The HTTP transport behind `ajax` is not modelled. A call is logged in `Adapter.sent`, and its outcome is chosen by the caller of `Pending.Settle`.
- Promise asynchrony and the ordering of other handlers are not modelled. The rollback runs inside `Settle`, and a promise is assumed still pending when `setAttributes` attaches its handler.
- Several actions in flight on one record at once (overlapping rollbacks) are not modelled.
- `Ember.assert` is stripped from production builds. The model keeps the development behaviour, where a failed assertion throws.
- `Ember.get` path lookup is not modelled: an action name containing `.` is looked up as a flat key.
- JavaScript `typeof` corner cases are not modelled: arrays passed as `newAttributes` or `data`, a string passed as `data` to `Object.assign`, and non-string `url` or `method` values.
- Numbers are integers. `NaN` (where `x !== x`) and floating point are not modelled.
- `Object.keys` puts integer-like keys first. The model uses plain insertion order for every key.
- Ember Data's own change tracking on `model.set` is not modelled. A write changes only the attribute.
- The `newAttributes` function, called at action.js:32 with the record as `this`, is modelled as a pure function of the record's attributes and the action name. What it reads or writes through `this` is not modelled; the old values of action.js:50 are taken to be the attributes before the call.
- A definition function sees the record only through its attributes. The object it returns is taken to be fresh, not shared with the registry, so writes into its `data` are not kept.
- Records.Entity.Get: the Ember `get` of a computed property or relationship is not modelled; only stored attributes are read.
- ModelActions.SetAttributes: requires the promise to be for the same record and still pending. The wrapper always calls it that way.

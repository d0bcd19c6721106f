/** The action wrapper (addon/utils/action.js): `action(actionName,
    newAttributes)` builds a model method that triggers the adapter action,
    then optimistically writes `newAttributes` onto the model, recording each
    change so that a rejected request writes the old values back.

    One invocation's attribute set goes clean -> mutated -> committed or
    reverted: `SetAttributes` does the writes and attaches the rollback to the
    request's promise, and `Pending.Settle` commits (fulfilled) or reverts
    (rejected). */
module ModelActions {
  import opened Js
  import opened Records
  import opened Promises
  import opened AdapterMixin

  /** What an attributes function returns: a hash, or anything else. */
  datatype Produced = ProducedHash(hash: Dict) | ProducedOther

  /** The `newAttributes` argument of `action`: a falsy value, a hash, a
      function called with the model as `this` and the action name, or a
      truthy value that is not an object. */
  datatype NewAttributes =
    | NoAttributes
    | AttributeHash(hash: Dict)
    | AttributeFunction(call: (map<string, Value>, string) -> Produced)
    | NotAHash

  /** `action(actionName, newAttributes)`: the arguments the model method closes over. */
  datatype ModelAction = ModelAction(actionName: string, newAttributes: NewAttributes)

  /** action.js:31-39: a function is called once and its result used; what is
      not a hash fails the assertion (a null reaching `Object.keys` throws). */
  function AttributesFor(newAttributes: NewAttributes, attrs: map<string, Value>, actionName: string): (r: Result<Dict>)
    ensures r.Err? ==> r.error == AttributesNotHash
    ensures newAttributes.AttributeHash? ==> r == Ok(newAttributes.hash)
    ensures newAttributes.AttributeFunction? && newAttributes.call(attrs, actionName).ProducedHash?
      ==> r == Ok(newAttributes.call(attrs, actionName).hash)
    ensures r.Ok? <==> (|| newAttributes.AttributeHash?
                        || (newAttributes.AttributeFunction? && newAttributes.call(attrs, actionName).ProducedHash?))
  {
    match newAttributes
    case AttributeHash(hash) => Ok(hash)
    case AttributeFunction(call) =>
      (match call(attrs, actionName)
       case ProducedHash(hash) => Ok(hash)
       case ProducedOther => Err(AttributesNotHash))
    case NoAttributes => Err(AttributesNotHash)
    case NotAHash => Err(AttributesNotHash)
  }

  /** action.js:48-57 over `keys`: for each key whose current value is
      `!==` the new one, record `[old, new]` and write the new value. Gives
      the attributes after the writes and the recorded changes. */
  function Apply(attrs: map<string, Value>, keys: seq<string>, hash: Dict): (r: (map<string, Value>, seq<Change>))
    decreases |keys|
  {
    if keys == [] then (attrs, [])
    else
      var n := |keys| - 1;
      var (current, changes) := Apply(attrs, keys[..n], hash);
      var key := keys[n];
      if Read(current, key) != Get(hash, key) then
        (current[key := Get(hash, key)], changes + [Change(key, Read(current, key), Get(hash, key))])
      else (current, changes)
  }

  /** What the writes of action.js:48-57 achieve, for keys listed once: every
      key holds its new value; only keys whose value differed are recorded,
      each once, with its value before the call as the old value; every key
      that is not recorded (in the hash or not) is not written. */
  lemma {:induction false} ApplyOutcome(attrs: map<string, Value>, keys: seq<string>, hash: Dict)
    requires forall i, j :: 0 <= i < j < |keys| ==> keys[i] != keys[j]
    ensures var (after, changes) := Apply(attrs, keys, hash);
      && (forall k :: k in keys ==> Read(after, k) == Get(hash, k))
      && (forall x :: !Recorded(changes, x) ==> SameAt(after, attrs, x))
      && DistinctKeys(changes)
      && (forall i :: 0 <= i < |changes| ==>
            && changes[i].key in keys
            && changes[i].oldValue == Read(attrs, changes[i].key)
            && changes[i].newValue == Get(hash, changes[i].key)
            && changes[i].oldValue != changes[i].newValue)
      && (forall k :: k in keys && Read(attrs, k) != Get(hash, k) ==> Recorded(changes, k))
  {
    if keys != [] {
      var n := |keys| - 1;
      var prefix := keys[..n];
      var key := keys[n];
      ApplyOutcome(attrs, prefix, hash);
      var (current, changes) := Apply(attrs, prefix, hash);
      assert key !in prefix;
      assert !Recorded(changes, key);
      assert Read(current, key) == Read(attrs, key);
      forall k | k in keys && k != key ensures k in prefix {
        var i :| 0 <= i < |keys| && keys[i] == k;
        assert prefix[i] == k;
      }
      if Read(current, key) != Get(hash, key) {
        var c := Change(key, Read(current, key), Get(hash, key));
        forall x ensures Recorded(changes + [c], x) <==> Recorded(changes, x) || x == key {
          RecordedAppend(changes, c, x);
        }
      }
    }
  }

  /** Rolling back restores the model: after the writes and the rejection
      handler, every key reads as it did before the call, and a key that was
      not recorded was never written at all. */
  lemma RollbackRestores(attrs: map<string, Value>, hash: Dict, x: string)
    ensures var (after, changes) := Apply(attrs, hash.keys, hash);
      && Read(Revert(after, changes), x) == Read(attrs, x)
      && (!Recorded(changes, x) ==> SameAt(Revert(after, changes), attrs, x))
  {
    ApplyOutcome(attrs, hash.keys, hash);
    var (after, changes) := Apply(attrs, hash.keys, hash);
    if Recorded(changes, x) {
      var i :| 0 <= i < |changes| && changes[i].key == x;
      RevertRecorded(after, changes, i);
    } else {
      RevertUnrecorded(after, changes, x);
    }
  }

  /** `setAttributes(model, newAttributes, promise, actionName)` (action.js:28-69).
      The dirty flag is set to what `model.get('currentState')` returned before
      the writes; it is left as it was only if that value equals the flag. */
  method SetAttributes(model: Entity, newAttributes: NewAttributes, promise: Pending, actionName: string)
    returns (r: Result<seq<Change>>)
    requires promise.target == model && promise.settled == None
    modifies model`attrs, model`isDirty, promise`rollback
    ensures var hash := AttributesFor(newAttributes, old(model.attrs), actionName);
      && (hash.Err? ==> && r == Err(hash.error)
                        && model.attrs == old(model.attrs) && model.isDirty == old(model.isDirty)
                        && promise.rollback == old(promise.rollback))
      && (hash.Ok? ==> var (after, changes) := Apply(old(model.attrs), hash.value.keys, hash.value);
                       && r == Ok(changes)
                       && model.attrs == after
                       && model.isDirty == old(model.currentState)
                       && promise.rollback == old(promise.rollback) + changes)
    ensures old(model.currentState) == old(model.isDirty) ==> model.isDirty == old(model.isDirty)
  {
    var hash := AttributesFor(newAttributes, model.attrs, actionName);
    if hash.Err? {
      return Err(hash.error);
    }
    var snapshot := model.currentState;
    var changes: seq<Change> := [];
    var keys := hash.value.keys;
    for i := 0 to |keys|
      invariant (model.attrs, changes) == Apply(old(model.attrs), keys[..i], hash.value)
      invariant promise.rollback == old(promise.rollback)
    {
      assert keys[..i + 1][..i] == keys[..i];
      var key := keys[i];
      var oldValue := model.Get(key);
      var newValue := Get(hash.value, key);
      if oldValue != newValue {
        changes := changes + [Change(key, oldValue, newValue)];
        model.Set(key, newValue);
      }
    }
    assert keys[..|keys|] == keys;
    model.SetDirtyFlag(snapshot);
    promise.Catch(changes);
    return Ok(changes);
  }

  /** The model method `action(actionName, newAttributes)` returns, invoked on
      `model` with `data` (action.js:106-120; the adapter and serializer are
      the ones the store gives for the model, action.js:10-18). The adapter
      is called first; with falsy `newAttributes` nothing is written; the
      result is the adapter's own promise. */
  method Perform(act: ModelAction, model: Entity, adapter: Adapter, serializer: Option<string -> string>, data: Option<Dict>)
    returns (r: Result<Pending>)
    modifies adapter`actions, adapter`sent, model`attrs, model`isDirty
    ensures var expected := Trigger(old(adapter.actions), act.actionName, Some(old(model.attrs)), serializer, data,
                                    adapter.urlPrefix, adapter.defaultActionMethod);
      && adapter.sent == old(adapter.sent) + (if expected.Ok? then [expected.value] else [])
      && adapter.actions == RegistryAfter(old(adapter.actions), act.actionName, Some(old(model.attrs)), serializer, data)
      && (expected.Err? ==> && r == Err(expected.error)
                            && model.attrs == old(model.attrs) && model.isDirty == old(model.isDirty))
      && (expected.Ok? && act.newAttributes.NoAttributes? ==>
            && r.Ok? && fresh(r.value) && r.value.target == model && r.value.request == expected.value
            && r.value.rollback == [] && r.value.settled == None
            && model.attrs == old(model.attrs) && model.isDirty == old(model.isDirty))
      && (expected.Ok? && !act.newAttributes.NoAttributes? ==>
            var hash := AttributesFor(act.newAttributes, old(model.attrs), act.actionName);
            && (hash.Err? ==> && r == Err(hash.error)
                              && model.attrs == old(model.attrs) && model.isDirty == old(model.isDirty))
            && (hash.Ok? ==> var (after, changes) := Apply(old(model.attrs), hash.value.keys, hash.value);
                             && r.Ok? && fresh(r.value) && r.value.target == model && r.value.request == expected.value
                             && r.value.rollback == changes && r.value.settled == None
                             && model.attrs == after && model.isDirty == old(model.currentState)))
  {
    r := adapter.TriggerAction(act.actionName, model, serializer, data);
    if r.Err? || act.newAttributes.NoAttributes? {
      return;
    }
    var written := SetAttributes(model, act.newAttributes, r.value, act.actionName);
    if written.Err? {
      return Err(written.error);
    }
  }

  /** The promised end state of a rejected action: the model method is
      invoked and its promise rejected; every attribute then reads as it did
      before the call, and attributes that were not recorded were never written. */
  method RejectionRestoresModel(act: ModelAction, model: Entity, adapter: Adapter,
                                serializer: Option<string -> string>, data: Option<Dict>)
    returns (r: Result<Pending>)
    modifies adapter`actions, adapter`sent, model`attrs, model`isDirty
    ensures r.Ok? ==> r.value.settled == Some(Rejected)
    ensures forall x :: model.Get(x) == Read(old(model.attrs), x)
    ensures forall x :: !(r.Ok? && Recorded(r.value.rollback, x)) ==> SameAt(model.attrs, old(model.attrs), x)
  {
    r := Perform(act, model, adapter, serializer, data);
    if r.Ok? {
      r.value.Settle(Rejected);
      if !act.newAttributes.NoAttributes? {
        var hash := AttributesFor(act.newAttributes, old(model.attrs), act.actionName).value;
        forall x ensures Read(model.attrs, x) == Read(old(model.attrs), x)
          && (!Recorded(r.value.rollback, x) ==> SameAt(model.attrs, old(model.attrs), x))
        {
          RollbackRestores(old(model.attrs), hash, x);
        }
      }
    }
  }

  /** A fulfilled action commits: after the promise is fulfilled every key of
      the hash holds its new value, and no other attribute was written. */
  method FulfilmentCommits(act: ModelAction, model: Entity, adapter: Adapter,
                           serializer: Option<string -> string>, data: Option<Dict>)
    returns (r: Result<Pending>)
    modifies adapter`actions, adapter`sent, model`attrs, model`isDirty
    ensures r.Ok? ==> r.value.settled == Some(Fulfilled)
    ensures r.Ok? && !act.newAttributes.NoAttributes? ==>
      && AttributesFor(act.newAttributes, old(model.attrs), act.actionName).Ok?
      && var hash := AttributesFor(act.newAttributes, old(model.attrs), act.actionName).value;
      && (forall k :: k in hash.keys ==> model.Get(k) == Get(hash, k))
      && (forall x :: !Recorded(r.value.rollback, x) ==> SameAt(model.attrs, old(model.attrs), x))
  {
    r := Perform(act, model, adapter, serializer, data);
    if r.Ok? {
      r.value.Settle(Fulfilled);
      if !act.newAttributes.NoAttributes? {
        var hash := AttributesFor(act.newAttributes, old(model.attrs), act.actionName).value;
        ApplyOutcome(old(model.attrs), hash.keys, hash);
      }
    }
  }

  /** `setAttributes(model, {liked: true}, promise, 'like')` on a fresh
      record whose `liked` is false, whose `isDirty` is false and whose state
      object is `Ref(1)`: `liked` is written, one change is attached to the
      pending promise, and the dirty flag now holds the state object. */
  method LikeSetAttributes() returns (model: Entity, promise: Pending)
    ensures fresh(model) && fresh(promise) && promise.target == model
    ensures model.attrs == map["liked" := Bool(true)] && model.isDirty == Ref(1)
    ensures promise.rollback == [Change("liked", Bool(false), Bool(true))] && promise.settled == None
  {
    model := new Entity(map["liked" := Bool(false)], Ref(1), Bool(false));
    promise := new Pending(model, Request("/api/likes/create", "POST", Empty));
    var hash: Dict := Object(["liked"], map["liked" := Bool(true)]);
    LikeWrites(hash);
    var recorded := SetAttributes(model, AttributeHash(hash), promise, "like");
  }

  /** `setAttributes(model, {liked: true}, promise, 'like')` as above,
      followed by a rejection of the promise: `liked` is false again, and the
      dirty flag holds the state object that `model.get('currentState')`
      returned, a truthy value, not its earlier `false`. */
  method RejectedLikeScenario() returns (liked: Value, dirty: Value)
    ensures liked == Bool(false)
    ensures dirty == Ref(1) && Truthy(dirty)
  {
    var model, promise := LikeSetAttributes();
    var change := Change("liked", Bool(false), Bool(true));
    promise.Settle(Rejected);
    assert [change][..0] == [];
    assert model.attrs == map["liked" := Bool(true)]["liked" := Bool(false)];
    liked := model.Get("liked");
    dirty := model.isDirty;
  }

  /** `actions: {flag: {url: 'flags', modelKeys: ['reason']}}` on a record
      whose `reason` is `'spam'`, with empty caller data: the payload before
      re-keying is `{reason: 'spam'}`. */
  lemma FlagPayloadScenario()
    ensures Merged(Definition(Some("flags"), None, None, KeyArray(["reason"])), Some(Empty), map["reason" := Str("spam")])
         == Object(["reason"], map["reason" := Str("spam")])
  {
  }

  /** The prefix `/api` joined with `likes/create`. */
  lemma LikeEndpoint()
    ensures Endpoint("/api", "likes/create") == "/api/likes/create"
  {
  }

  /** `actions: {like: 'likes/create'}` with prefix `/api`: the request goes
      to `/api/likes/create` with the default method POST and an empty body. */
  lemma LikeRequestScenario(attrs: map<string, Value>, keyFor: string -> string)
    ensures Trigger(map["like" := UrlEntry("likes/create")], "like", Some(attrs), Some(keyFor), None, "/api", DefaultActionMethod)
         == Ok(Request("/api/likes/create", "POST", Empty))
  {
    assert Merged(UrlDefinition("likes/create"), None, attrs) == Empty by {
      assert Entries(Empty) == [];
    }
    assert TranslatedPairs(Empty, keyFor) == [];
    assert Outcome(map["like" := UrlEntry("likes/create")], "like", Some(attrs), Some(keyFor), None)
        == Ok(Prepared(UrlDefinition("likes/create"), false, Empty));
    LikeEndpoint();
  }

  /** `{liked: true}` on a record whose `liked` is false: one change is
      recorded, `liked: [false, true]`. */
  lemma LikeWrites(hash: Dict)
    requires hash == Object(["liked"], map["liked" := Bool(true)])
    ensures Apply(map["liked" := Bool(false)], hash.keys, hash)
         == (map["liked" := Bool(true)], [Change("liked", Bool(false), Bool(true))])
  {
    var attrs := map["liked" := Bool(false)];
    var c := Change("liked", Bool(false), Bool(true));
    assert hash.keys[..0] == [];
    assert Apply(attrs, hash.keys, hash) == (attrs["liked" := Bool(true)], [] + [c]);
    assert attrs["liked" := Bool(true)] == map["liked" := Bool(true)] && [] + [c] == [c];
  }

}

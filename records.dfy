/** The model record the actions run against: a key-value store of attributes
    (`model.get(key)` / `model.set(key, value)`) and the two pieces of
    record state the action wrapper touches, `currentState` and
    `currentState.isDirty`. */
module Records {
  import opened Js

  /** Two attribute stores agree on `x`: both lack it, or both hold the same value. */
  predicate SameAt(a: map<string, Value>, b: map<string, Value>, x: string) {
    (x in a <==> x in b) && (x in a ==> a[x] == b[x])
  }

  class Entity {
    var attrs: map<string, Value>
    /** The value `model.get('currentState')` returns: the record's state object. */
    var currentState: Value
    /** The value of `currentState.isDirty`. */
    var isDirty: Value

    constructor (attrs: map<string, Value>, currentState: Value, isDirty: Value)
      ensures this.attrs == attrs && this.currentState == currentState && this.isDirty == isDirty
    {
      this.attrs := attrs;
      this.currentState := currentState;
      this.isDirty := isDirty;
    }

    function Get(key: string): (v: Value)
      reads this
      ensures v != Undefined <==> key in attrs && attrs[key] != Undefined
    {
      Read(attrs, key)
    }

    /** `model.set(key, value)`: writes the one attribute. */
    method Set(key: string, value: Value)
      modifies this`attrs
      ensures attrs == old(attrs)[key := value]
      ensures Get(key) == value
    {
      attrs := attrs[key := value];
    }

    /** `model.set('currentState.isDirty', value)` */
    method SetDirtyFlag(value: Value)
      modifies this`isDirty
      ensures isDirty == value
    {
      isDirty := value;
    }
  }

  /** One entry of `changedAttributes`: the key with its `[oldValue, newValue]`. */
  datatype Change = Change(key: string, oldValue: Value, newValue: Value)

  /** Some recorded change is for `x`. */
  predicate Recorded(cs: seq<Change>, x: string) {
    exists i :: 0 <= i < |cs| && cs[i].key == x
  }

  /** No key is recorded twice (the keys of `changedAttributes` are an object's keys). */
  predicate DistinctKeys(cs: seq<Change>) {
    forall i, j :: 0 <= i < j < |cs| ==> cs[i].key != cs[j].key
  }

  /** The rejection handler: `model.set(key, oldValue)` for each recorded change, in order. */
  function Revert(attrs: map<string, Value>, cs: seq<Change>): (r: map<string, Value>)
    decreases |cs|
  {
    if cs == [] then attrs
    else
      var n := |cs| - 1;
      Revert(attrs, cs[..n])[cs[n].key := cs[n].oldValue]
  }

  /** A recorded key is set back to its recorded old value. */
  lemma {:induction false} RevertRecorded(attrs: map<string, Value>, cs: seq<Change>, i: int)
    requires DistinctKeys(cs) && 0 <= i < |cs|
    ensures cs[i].key in Revert(attrs, cs) && Revert(attrs, cs)[cs[i].key] == cs[i].oldValue
  {
    var n := |cs| - 1;
    if i < n {
      RevertRecorded(attrs, cs[..n], i);
    }
  }

  /** A key with no recorded change is not written by the rollback. */
  lemma {:induction false} RevertUnrecorded(attrs: map<string, Value>, cs: seq<Change>, x: string)
    requires !Recorded(cs, x)
    ensures SameAt(Revert(attrs, cs), attrs, x)
  {
    if cs != [] {
      var n := |cs| - 1;
      assert !Recorded(cs[..n], x) by {
        forall i | 0 <= i < n ensures cs[..n][i].key != x {
          assert cs[..n][i] == cs[i];
        }
      }
      RevertUnrecorded(attrs, cs[..n], x);
    }
  }

  /** Recording one more change adds exactly its key. */
  lemma RecordedAppend(cs: seq<Change>, c: Change, x: string)
    ensures Recorded(cs + [c], x) <==> Recorded(cs, x) || c.key == x
  {
    if Recorded(cs, x) {
      var i :| 0 <= i < |cs| && cs[i].key == x;
      assert (cs + [c])[i] == cs[i];
    }
    if c.key == x {
      assert (cs + [c])[|cs|] == c;
    }
  }
}

/** JavaScript values and plain objects, as far as the adapter mixin and the
    action wrapper observe them.

    A plain object is an insertion-ordered dictionary: `Object.keys` lists the
    keys in the order they were first written, and writing an existing key
    keeps its position. `Dict` is that dictionary; `Put` is a property write
    and `PutPairs` a run of property writes in order, the shape of every
    `forEach` loop and every `Object.assign` the core performs. */
module Js {

  /** A JavaScript value. `Ref(id)` is an object or function, compared by
      identity (`!==` on two references compares their ids). */
  datatype Value = Undefined | Null | Bool(b: bool) | Num(n: int) | Str(s: string) | Ref(id: nat)

  /** JavaScript truthiness. */
  predicate Truthy(v: Value) {
    match v
    case Undefined => false
    case Null => false
    case Bool(b) => b
    case Num(n) => n != 0
    case Str(s) => s != ""
    case Ref(_) => true
  }

  datatype Option<+T> = None | Some(value: T)

  /** What a call throws instead of returning: a failed `Ember.assert`, or a
      TypeError raised by the JavaScript runtime. */
  datatype Failure =
    | MissingActionName      // adapter.js:38
    | MissingModel           // adapter.js:39
    | MissingSerializer      // adapter.js:40
    | DefinitionNotObject    // adapter.js:58, a property write on a primitive
    | MissingUrl             // adapter.js:76
    | AttributesNotHash      // action.js:36-39

  datatype Result<+T> = Ok(value: T) | Err(error: Failure)

  /** The raw shape of an object: its keys in insertion order and their values. */
  datatype Object = Object(keys: seq<string>, vals: map<string, Value>)

  /** Every key is listed exactly once, and the listed keys are the defined ones. */
  predicate WellFormed(o: Object) {
    && (forall i, j :: 0 <= i < j < |o.keys| ==> o.keys[i] != o.keys[j])
    && (forall k :: k in o.vals ==> k in o.keys)
    && (forall i :: 0 <= i < |o.keys| ==> o.keys[i] in o.vals)
  }

  type Dict = o: Object | WellFormed(o) witness Object([], map[])

  /** `{}` */
  const Empty: Dict := Object([], map[])

  /** A property read on a bare key-value store: `undefined` for a key it does not have. */
  function Read(vals: map<string, Value>, k: string): (v: Value) {
    if k in vals then vals[k] else Undefined
  }

  /** `o[k]`, which is `undefined` for a key the object does not have. */
  function Get(d: Dict, k: string): (v: Value) {
    Read(d.vals, k)
  }

  /** `o[k] = v`: an existing key keeps its place, a new key goes last. */
  function Put(d: Dict, k: string, v: Value): (r: Dict) {
    if k in d.vals then Object(d.keys, d.vals[k := v])
    else Object(d.keys + [k], d.vals[k := v])
  }

  /** A property write changes the value of that one key. */
  lemma PutVals(d: Dict, k: string, v: Value)
    ensures Put(d, k, v).vals == d.vals[k := v]
  {
  }

  /** The writes `o[ps[0].0] = ps[0].1; o[ps[1].0] = ps[1].1; ...` in order. */
  function PutPairs(d: Dict, ps: seq<(string, Value)>): (r: Dict)
    decreases |ps|
  {
    if ps == [] then d
    else
      var n := |ps| - 1;
      Put(PutPairs(d, ps[..n]), ps[n].0, ps[n].1)
  }

  /** The key/value pairs of an object in `Object.keys` order. */
  function Entries(d: Dict): (ps: seq<(string, Value)>)
  {
    seq(|d.keys|, i requires 0 <= i < |d.keys| => (d.keys[i], d.vals[d.keys[i]]))
  }

  /** `Object.assign(target, source)`: copies the source's own keys in order. */
  function Assign(target: Dict, source: Dict): (r: Dict) {
    PutPairs(target, Entries(source))
  }

  /** A key written by the writes holds the value of the LAST write to it. */
  lemma {:induction false} PutPairsLastWrite(d: Dict, ps: seq<(string, Value)>, i: int)
    requires 0 <= i < |ps|
    requires forall j :: i < j < |ps| ==> ps[j].0 != ps[i].0
    ensures ps[i].0 in PutPairs(d, ps).vals && PutPairs(d, ps).vals[ps[i].0] == ps[i].1
  {
    var n := |ps| - 1;
    PutVals(PutPairs(d, ps[..n]), ps[n].0, ps[n].1);
    if i < n {
      PutPairsLastWrite(d, ps[..n], i);
    }
  }

  /** When every write to `x` writes the same `v`, `x` ends up holding `v`. */
  lemma {:induction false} PutPairsAgreeingWrites(d: Dict, ps: seq<(string, Value)>, x: string, v: Value)
    requires exists i :: 0 <= i < |ps| && ps[i].0 == x
    requires forall i :: 0 <= i < |ps| && ps[i].0 == x ==> ps[i].1 == v
    ensures x in PutPairs(d, ps).vals && PutPairs(d, ps).vals[x] == v
  {
    var n := |ps| - 1;
    if ps[n].0 != x {
      var i :| 0 <= i < |ps| && ps[i].0 == x;
      assert ps[..n][i] == ps[i];
      PutPairsAgreeingWrites(d, ps[..n], x, v);
    }
  }

  /** A key no write touches keeps its presence and its value. */
  lemma {:induction false} PutPairsUntouched(d: Dict, ps: seq<(string, Value)>, x: string)
    requires forall i :: 0 <= i < |ps| ==> ps[i].0 != x
    ensures x in PutPairs(d, ps).vals <==> x in d.vals
    ensures Get(PutPairs(d, ps), x) == Get(d, x)
  {
    if ps != [] {
      var n := |ps| - 1;
      PutPairsUntouched(d, ps[..n], x);
    }
  }

  /** Some write of `ps` is to `x`. */
  predicate Writes(ps: seq<(string, Value)>, x: string) {
    exists i :: 0 <= i < |ps| && ps[i].0 == x
  }

  /** A run of writes writes `x` exactly when its front does or its last write is to `x`. */
  lemma WritesSplit(ps: seq<(string, Value)>, x: string)
    requires ps != []
    ensures Writes(ps, x) <==> Writes(ps[..|ps| - 1], x) || ps[|ps| - 1].0 == x
  {
    var n := |ps| - 1;
    if Writes(ps[..n], x) {
      var i :| 0 <= i < n && ps[..n][i].0 == x;
      assert ps[i].0 == x;
    }
    if Writes(ps, x) {
      var i :| 0 <= i < |ps| && ps[i].0 == x;
      if i < n {
        assert ps[..n][i].0 == x;
      }
    }
  }

  /** The keys after the writes are the keys before plus the written ones. */
  lemma {:induction false} PutPairsKeys(d: Dict, ps: seq<(string, Value)>, x: string)
    ensures x in PutPairs(d, ps).vals <==> x in d.vals || Writes(ps, x)
  {
    if ps != [] {
      PutPairsKeys(d, ps[..|ps| - 1], x);
      WritesSplit(ps, x);
    }
  }

  /** `Object.assign` semantics: the source wins on every key it has, the
      target keeps every other key, and nothing else appears. */
  lemma AssignGet(target: Dict, source: Dict, x: string)
    ensures x in Assign(target, source).vals <==> x in source.vals || x in target.vals
    ensures Get(Assign(target, source), x) == if x in source.vals then source.vals[x] else Get(target, x)
  {
    var ps := Entries(source);
    PutPairsKeys(target, ps, x);
    if x in source.vals {
      var i :| 0 <= i < |source.keys| && source.keys[i] == x;
      assert ps[i].0 == x;
      PutPairsAgreeingWrites(target, ps, x, source.vals[x]);
    } else {
      PutPairsUntouched(target, ps, x);
    }
  }

  /** `before` holds the first `i` keys of `d`, in order, with their values in `d`. */
  predicate CopiedPrefix(before: Dict, d: Dict, i: nat) {
    && i <= |d.keys|
    && before.keys == d.keys[..i]
    && (forall k :: k in before.vals ==> k in d.vals && before.vals[k] == d.vals[k])
  }

  /** Copying the next key of `d` extends the copied prefix by one. */
  lemma CopyStep(before: Dict, d: Dict, i: nat)
    requires i < |d.keys| && CopiedPrefix(before, d, i)
    ensures CopiedPrefix(Put(before, d.keys[i], d.vals[d.keys[i]]), d, i + 1)
  {
    var k := d.keys[i];
    assert k !in before.vals by {
      forall j | 0 <= j < i ensures before.keys[j] != k {
        assert before.keys[j] == d.keys[j];
      }
    }
    assert d.keys[..i + 1] == d.keys[..i] + [k];
  }

  /** Copying the first `i` entries of `d` into `{}` gives its first `i`
      keys, in order, each with its value in `d`. */
  lemma {:induction false} CopyPrefix(d: Dict, i: nat)
    requires i <= |d.keys|
    ensures CopiedPrefix(PutPairs(Empty, Entries(d)[..i]), d, i)
  {
    if i > 0 {
      var ps := Entries(d);
      assert |ps| == |d.keys|;
      var front := ps[..i];
      assert front[..i - 1] == ps[..i - 1];
      assert front[i - 1] == (d.keys[i - 1], d.vals[d.keys[i - 1]]);
      CopyPrefix(d, i - 1);
      CopyStep(PutPairs(Empty, ps[..i - 1]), d, i - 1);
    }
  }

  /** Having copied every key of `d` is being equal to `d`. */
  lemma CopiedAll(r: Dict, d: Dict)
    requires CopiedPrefix(r, d, |d.keys|)
    ensures r == d
  {
    assert r.keys == d.keys;
    forall k ensures k in r.vals <==> k in d.vals {
      assert k in r.vals <==> k in r.keys;
      assert k in d.vals <==> k in d.keys;
    }
    assert r.vals == d.vals;
  }

  /** `Object.assign({}, d)` is a copy of `d`: the same keys, in the same
      order, with the same values. */
  lemma AssignCopies(d: Dict)
    ensures Assign(Empty, d) == d
  {
    var ps := Entries(d);
    assert |ps| == |d.keys|;
    assert ps[..|d.keys|] == ps;
    CopyPrefix(d, |d.keys|);
    CopiedAll(PutPairs(Empty, ps), d);
  }
}

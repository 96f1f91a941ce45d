/** JavaScript values as the front-matter decoders produce them, and the two
    object operations the transformer relies on: `Object.entries` (own
    enumerable properties, in order) and `Object.assign` (shallow overwrite). */
module Values {

  /** A decoded value. An object keeps its own properties as an ordered
      sequence of key/value pairs; numbers are integers. */
  datatype Value =
    | Undefined
    | Null
    | Bool(b: bool)
    | Num(n: int)
    | Str(s: string)
    | Arr(items: seq<Value>)
    | Obj(fields: seq<Entry>)

  type Entry = (string, Value)

  /** JavaScript truthiness (`if (v)`, `v || w`). */
  predicate Truthy(v: Value) {
    match v
    case Undefined => false
    case Null => false
    case Bool(b) => b
    case Num(n) => n != 0
    case Str(s) => s != []
    case Arr(_) => true
    case Obj(_) => true
  }

  /** `v == null`: loose equality holds for both null and undefined. */
  predicate IsNullish(v: Value) {
    v.Undefined? || v.Null?
  }

  /** `typeof v === 'object'`: true of null, arrays and objects. */
  predicate IsObjectType(v: Value) {
    v.Null? || v.Arr? || v.Obj?
  }

  function Digit(d: nat): (c: char)
    requires d < 10
    ensures '0' <= c <= '9'
  {
    (('0' as int) + d) as char
  }

  /** The property key of array or string index `i`: its decimal numeral. */
  function IndexKey(i: nat): (k: string)
    ensures k != [] && '0' <= k[0] <= '9'
    ensures forall j :: 0 <= j < |k| ==> '0' <= k[j] <= '9'
  {
    if i < 10 then [Digit(i)] else IndexKey(i / 10) + [Digit(i % 10)]
  }

  /** Distinct indices have distinct keys: the last digit and the length of
      the numeral decide the index. */
  lemma {:induction false} IndexKeyInjective(i: nat, j: nat)
    requires IndexKey(i) == IndexKey(j)
    ensures i == j
    decreases i
  {
    var k := IndexKey(i);
    if i < 10 && j < 10 {
      assert k == [Digit(i)] == [Digit(j)];
    } else if i >= 10 && j >= 10 {
      var pi, pj := IndexKey(i / 10), IndexKey(j / 10);
      assert k == pi + [Digit(i % 10)];
      assert IndexKey(j) == pj + [Digit(j % 10)];
      assert Digit(i % 10) == k[|k| - 1] == Digit(j % 10);
      assert pi == k[..|k| - 1] == pj;
      IndexKeyInjective(i / 10, j / 10);
    }
  }

  lemma IndexKeysDistinct(n: nat)
    ensures forall i, j :: 0 <= i < j < n ==> IndexKey(i) != IndexKey(j)
  {
    forall i, j | 0 <= i < j < n ensures IndexKey(i) != IndexKey(j) {
      if IndexKey(i) == IndexKey(j) { IndexKeyInjective(i, j); }
    }
  }

  /** The own enumerable properties that `Object.entries` and
      `Object.assign` see on `v`: an object's fields, an array's elements and
      a string's characters under their index keys; nothing on any other
      primitive. */
  function OwnEntries(v: Value): (es: seq<Entry>)
    ensures v.Obj? ==> es == v.fields
    ensures v.Arr? ==> |es| == |v.items| && forall i :: 0 <= i < |es| ==> es[i] == (IndexKey(i), v.items[i])
    ensures v.Str? ==> |es| == |v.s| && forall i :: 0 <= i < |es| ==> es[i] == (IndexKey(i), Str([v.s[i]]))
    ensures !(v.Obj? || v.Arr? || v.Str?) ==> es == []
    ensures !v.Obj? ==> UniqueKeys(es)
  {
    match v
    case Obj(fields) => fields
    case Arr(items) =>
      IndexKeysDistinct(|items|);
      seq(|items|, i requires 0 <= i < |items| => (IndexKey(i), items[i]))
    case Str(s) =>
      IndexKeysDistinct(|s|);
      seq(|s|, i requires 0 <= i < |s| => (IndexKey(i), Str([s[i]])))
    case _ => []
  }

  /** A JavaScript object never holds the same key twice. */
  predicate UniqueKeys(es: seq<Entry>) {
    forall i, j :: 0 <= i < j < |es| ==> es[i].0 != es[j].0
  }

  /** The dictionary a sequence of pairs denotes when the pairs are assigned
      one after the other: a later pair for a key replaces an earlier one. */
  function ToMap(es: seq<Entry>): map<string, Value> {
    if es == [] then map[] else map[es[0].0 := es[0].1] + ToMap(es[1..])
  }

  lemma {:induction false} ToMapKeys(es: seq<Entry>)
    ensures ToMap(es).Keys == set i | 0 <= i < |es| :: es[i].0
  {
    if es != [] {
      ToMapKeys(es[1..]);
      var tail := set i | 0 <= i < |es[1..]| :: es[1..][i].0;
      var all := set i | 0 <= i < |es| :: es[i].0;
      assert all == {es[0].0} + tail by {
        forall k | k in all ensures k in {es[0].0} + tail {
          var i :| 0 <= i < |es| && es[i].0 == k;
          if i > 0 { assert es[1..][i - 1].0 == k; }
        }
        forall k | k in tail ensures k in all {
          var i :| 0 <= i < |es[1..]| && es[1..][i].0 == k;
          assert es[i + 1].0 == k;
        }
      }
    }
  }

  /** `target[k] = v` on an object: an existing key keeps its position and
      takes the new value, a new key is appended at the end. */
  function Put(target: seq<Entry>, k: string, v: Value): (r: seq<Entry>)
    ensures |r| == |target| || |r| == |target| + 1
    ensures forall i :: 0 <= i < |target| ==> r[i].0 == target[i].0
    ensures |r| == |target| + 1 ==> r[|target|] == (k, v)
    ensures forall i :: 0 <= i < |target| && target[i].0 != k ==> r[i] == target[i]
    ensures UniqueKeys(target) ==> UniqueKeys(r)
  {
    if target == [] then [(k, v)]
    else if target[0].0 == k then [(k, v)] + target[1..]
    else
      var p := Put(target[1..], k, v);
      assert UniqueKeys(target) ==> UniqueKeys([target[0]] + p) by {
        if UniqueKeys(target) {
          assert UniqueKeys(target[1..]);
          forall j | 0 <= j < |p| ensures p[j].0 != target[0].0 {
            if j < |target| - 1 { assert p[j].0 == target[1..][j].0 == target[j + 1].0; }
          }
          ConsUnique(target[0], p);
        }
      }
      var r := [target[0]] + p;
      assert forall i :: 0 < i < |r| ==> r[i] == p[i - 1];
      r
  }

  /** A key that the rest does not hold can be put in front of it. */
  lemma ConsUnique(e: Entry, rest: seq<Entry>)
    requires UniqueKeys(rest)
    requires forall j :: 0 <= j < |rest| ==> rest[j].0 != e.0
    ensures UniqueKeys([e] + rest)
  {
    var r := [e] + rest;
    forall i, j | 0 <= i < j < |r| ensures r[i].0 != r[j].0 {
      assert r[j] == rest[j - 1];
      if i > 0 { assert r[i] == rest[i - 1]; }
    }
  }

  /** Seen as a dictionary, `Put` is a map update. */
  lemma {:induction false} PutView(target: seq<Entry>, k: string, v: Value)
    requires UniqueKeys(target)
    ensures ToMap(Put(target, k, v)) == ToMap(target)[k := v]
  {
    if target == [] {
    } else if target[0].0 == k {
      PutViewAtHead(target, k, v);
    } else {
      var rest := target[1..];
      assert UniqueKeys(rest);
      PutView(rest, k, v);
      PutViewPastHead(target, k, v);
    }
  }

  /** The step of `PutView` for a key that is not the first one. */
  lemma PutViewPastHead(target: seq<Entry>, k: string, v: Value)
    requires target != [] && target[0].0 != k
    requires ToMap(Put(target[1..], k, v)) == ToMap(target[1..])[k := v]
    ensures ToMap(Put(target, k, v)) == ToMap(target)[k := v]
  {
    var head, rest := map[target[0].0 := target[0].1], ToMap(target[1..]);
    var p := Put(target[1..], k, v);
    var r := [target[0]] + p;
    assert r[1..] == p;
    calc {
      ToMap(Put(target, k, v));
      ToMap(r);
      head + ToMap(p);
      head + rest[k := v];
      { OverlayThenUpdate(head, rest, k, v); }
      (head + rest)[k := v];
      ToMap(target)[k := v];
    }
  }

  lemma OverlayThenUpdate(head: map<string, Value>, rest: map<string, Value>, k: string, v: Value)
    requires k !in head
    ensures head + rest[k := v] == (head + rest)[k := v]
  {
  }

  lemma PutViewAtHead(target: seq<Entry>, k: string, v: Value)
    requires UniqueKeys(target) && target != [] && target[0].0 == k
    ensures ToMap(Put(target, k, v)) == ToMap(target)[k := v]
  {
    var rest := target[1..];
    var head := map[k := target[0].1];
    var r := Put(target, k, v);
    assert ToMap(target) == head + ToMap(rest);
    assert r[1..] == rest;
    assert ToMap(r) == map[k := v] + ToMap(rest);
    ToMapKeys(rest);
    var m := (head + ToMap(rest))[k := v];
    assert ToMap(r).Keys == m.Keys;
    assert forall x :: x in m ==> ToMap(r)[x] == m[x];
    assert ToMap(r) == m;
  }

  /** Writing a key the target does not have appends it. */
  lemma {:induction false} PutNew(target: seq<Entry>, k: string, v: Value)
    requires forall i :: 0 <= i < |target| ==> target[i].0 != k
    ensures Put(target, k, v) == target + [(k, v)]
  {
    if target != [] {
      PutNew(target[1..], k, v);
    }
  }

  /** `Object.assign(target, src)` on the pairs of `src`, one after the other:
      the keys new to the target follow its own, in the source's order. */
  function Assign(target: seq<Entry>, src: seq<Entry>): (r: seq<Entry>)
    ensures |target| <= |r| <= |target| + |src|
    ensures forall i :: 0 <= i < |target| ==> r[i].0 == target[i].0
    ensures UniqueKeys(target) ==> UniqueKeys(r)
    ensures UniqueKeys(target + src) ==> r == target + src
    decreases |src|
  {
    if src == [] then target
    else
      var t := Put(target, src[0].0, src[0].1);
      AppendFirst(target, src);
      Assign(t, src[1..])
  }

  /** When no key repeats, assigning the first source pair appends it. */
  lemma AppendFirst(target: seq<Entry>, src: seq<Entry>)
    requires src != []
    ensures UniqueKeys(target + src) ==> Put(target, src[0].0, src[0].1) + src[1..] == target + src
  {
    if !UniqueKeys(target + src) { return; }
    forall i | 0 <= i < |target| ensures target[i].0 != src[0].0 {
      assert (target + src)[i] == target[i] && (target + src)[|target|] == src[0];
    }
    PutNew(target, src[0].0, src[0].1);
  }

  /** Seen as dictionaries, `Object.assign` is a shallow overwrite: every key
      of the source wins, every other key of the target survives. */
  lemma {:induction false} AssignView(target: seq<Entry>, src: seq<Entry>)
    requires UniqueKeys(target)
    ensures ToMap(Assign(target, src)) == ToMap(target) + ToMap(src)
    decreases |src|
  {
    if src != [] {
      var k, v := src[0].0, src[0].1;
      PutView(target, k, v);
      AssignView(Put(target, k, v), src[1..]);
      UpdateThenOverlay(ToMap(target), k, v, ToMap(src[1..]));
    }
  }

  lemma UpdateThenOverlay(m: map<string, Value>, k: string, v: Value, rest: map<string, Value>)
    ensures m[k := v] + rest == m + (map[k := v] + rest)
  {
  }

  /** A key that `Object.assign` did not write keeps its position and value. */
  lemma {:induction false} AssignKeepsUntouched(target: seq<Entry>, src: seq<Entry>, i: nat)
    requires i < |target|
    requires forall j :: 0 <= j < |src| ==> src[j].0 != target[i].0
    ensures Assign(target, src)[i] == target[i]
    decreases |src|
  {
    if src != [] {
      var t := Put(target, src[0].0, src[0].1);
      assert t[i] == target[i];
      AssignKeepsUntouched(t, src[1..], i);
    }
  }
}

/**
  The part of the `yaml` library's document model that the action touches.
  A node is a scalar, a sequence (`YAMLSeq`) or a mapping (`YAMLMap`);
  a mapping is an ordered list of key/value pairs. Comments, anchors and
  formatting are not represented.
 */
module Yaml {
  import opened Wrappers

  datatype Value =
    | Null
    | Str(s: string)
    | Int(i: int)
    | OtherScalar(text: string)   // booleans, floats, timestamps, ...
    | Sequence(items: seq<Value>)
    | Mapping(pairs: seq<Pair>)

  datatype Pair = Pair(key: Value, value: Value)

  predicate IsScalar(v: Value) {
    !v.Sequence? && !v.Mapping?
  }

  /** True iff `p` is stored under the string key `k`. */
  predicate HasKey(p: Pair, k: string) {
    p.key == Str(k)
  }

  /** Position of the first pair stored under `k`, the pair `YAMLMap.get` and `YAMLMap.set` act on. */
  function FindKey(pairs: seq<Pair>, k: string): (r: Option<nat>)
    ensures r.None? <==> forall i | 0 <= i < |pairs| :: !HasKey(pairs[i], k)
    ensures r.Some? ==> r.value < |pairs| && HasKey(pairs[r.value], k)
    ensures r.Some? ==> forall i | 0 <= i < r.value :: !HasKey(pairs[i], k)
  {
    if |pairs| == 0 then None
    else if HasKey(pairs[0], k) then Some(0)
    else
      match FindKey(pairs[1..], k)
      case None => None
      case Some(i) => Some(i + 1)
  }

  /** `YAMLMap.get(k)`: the value of the first pair under `k`, `None` for `undefined`. */
  function Lookup(pairs: seq<Pair>, k: string): (r: Option<Value>)
    ensures r.None? <==> forall i | 0 <= i < |pairs| :: !HasKey(pairs[i], k)
    ensures forall i | 0 <= i < |pairs| && HasKey(pairs[i], k) ::
              (forall j | 0 <= j < i :: !HasKey(pairs[j], k)) ==> r == Some(pairs[i].value)
  {
    match FindKey(pairs, k)
    case None => None
    case Some(i) => Some(pairs[i].value)
  }

  /**
    `YAMLMap.set(k, v)`: overwrite the value of the first pair under `k`,
    keeping its key node and position, or append a new pair when there is none.
   */
  function Assign(pairs: seq<Pair>, k: string, v: Value): (r: seq<Pair>)
    ensures Lookup(r, k) == Some(v)
    ensures forall k' | k' != k :: Lookup(r, k') == Lookup(pairs, k')
    ensures Lookup(pairs, k).Some? ==> |r| == |pairs|
    ensures Lookup(pairs, k).None? ==> r == pairs + [Pair(Str(k), v)]
    ensures forall i | 0 <= i < |pairs| :: r[i].key == pairs[i].key
    ensures forall i | 0 <= i < |pairs| && !HasKey(pairs[i], k) :: r[i] == pairs[i]
  {
    match FindKey(pairs, k)
    case None =>
      var r := pairs + [Pair(Str(k), v)];
      assert HasKey(r[|pairs|], k);
      forall k' | k' != k ensures Lookup(r, k') == Lookup(pairs, k') {
        LookupCongruent(r[..|pairs|], pairs, k');
        LookupSnoc(pairs, Pair(Str(k), v), k');
      }
      r
    case Some(i) =>
      var r := pairs[i := Pair(pairs[i].key, v)];
      assert HasKey(r[i], k);
      assert forall j | 0 <= j < i :: r[j] == pairs[j];
      forall k' | k' != k ensures Lookup(r, k') == Lookup(pairs, k') {
        LookupCongruent(r, pairs, k');
      }
      r
  }

  /** `Lookup` under `k` sees only the keys and the values stored under `k`. */
  lemma LookupCongruent(a: seq<Pair>, b: seq<Pair>, k: string)
    requires |a| == |b|
    requires forall i | 0 <= i < |a| :: a[i].key == b[i].key
    requires forall i | 0 <= i < |a| && HasKey(a[i], k) :: a[i].value == b[i].value
    ensures Lookup(a, k) == Lookup(b, k)
  {
    if Lookup(a, k).Some? {
      var i := FindKey(a, k).value;
      assert HasKey(b[i], k);
    }
  }

  /** A pair appended under another key does not change what `Lookup` finds. */
  lemma LookupSnoc(pairs: seq<Pair>, p: Pair, k: string)
    requires !HasKey(p, k)
    ensures Lookup(pairs + [p], k) == Lookup(pairs, k)
  {
    var r := pairs + [p];
    if Lookup(pairs, k).Some? {
      var i := FindKey(pairs, k).value;
      assert HasKey(r[i], k);
    } else {
      assert forall i | 0 <= i < |r| :: !HasKey(r[i], k) by {
        forall i | 0 <= i < |r| ensures !HasKey(r[i], k) {
          if i < |pairs| { assert r[i] == pairs[i]; }
        }
      }
    }
  }

  /** Setting a key to the value it already holds changes nothing. */
  lemma AssignSame(pairs: seq<Pair>, k: string, v: Value)
    requires Lookup(pairs, k) == Some(v)
    ensures Assign(pairs, k, v) == pairs
  {
    var i := FindKey(pairs, k).value;
    assert pairs[i] == Pair(pairs[i].key, v);
  }

  /** Setting a key no pair holds appends a pair. */
  lemma AssignFresh(pairs: seq<Pair>, k: string, v: Value)
    requires forall i | 0 <= i < |pairs| :: pairs[i].key.Str? && pairs[i].key.s != k
    ensures Assign(pairs, k, v) == pairs + [Pair(Str(k), v)]
  {
  }
}

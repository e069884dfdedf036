/** Helpers shared by the backend and the dashboard models: optional values,
    JavaScript and Python slicing and rounding, insertion-ordered key/value lists
    (the model of a JavaScript object or a Python dict), and string search. */
module Common {

  datatype Option<T> = None | Some(value: T)

  /** A JSON field as JavaScript sees it: missing (`undefined`), `null`, or a value. */
  datatype Nullable<T> = Undefined | Null | Defined(value: T)

  function Min(a: int, b: int): int { if a < b then a else b }

  function Max(a: int, b: int): int { if a < b then b else a }

  function Abs(x: real): real { if x < 0.0 then -x else x }

  /** JavaScript `Math.round`: the nearest integer, a half rounded towards +infinity. */
  function RoundHalfUp(x: real): (r: int)
    ensures r as real - 0.5 <= x < r as real + 0.5
  {
    (x + 0.5).Floor
  }

  /** `s.slice(0, n)` in JavaScript, `s[:n]` in Python, for n >= 0. */
  function Take<T>(s: seq<T>, n: nat): (r: seq<T>)
    ensures |r| == Min(n, |s|)
    ensures r == s[..|r|]
  {
    if n < |s| then s[..n] else s
  }

  /** `s.slice(-n)` in JavaScript, `s[-n:]` in Python, for n >= 1: the last n elements. */
  function LastN<T>(s: seq<T>, n: nat): (r: seq<T>)
    ensures |r| == Min(n, |s|)
    ensures r == s[|s| - |r|..]
  {
    if n < |s| then s[|s| - n..] else s
  }

  /** Python's `s[k:]` for any integer k: a negative k counts from the end. */
  function PySliceFrom<T>(s: seq<T>, k: int): (r: seq<T>)
    ensures k >= 0 ==> r == s[Min(k, |s|)..]
    ensures k < 0 ==> r == s[Max(0, |s| + k)..]
  {
    var start := if k >= 0 then Min(k, |s|) else Max(0, |s| + k);
    s[start..]
  }

  /** JavaScript truthiness of an optional string: present and not empty. */
  predicate Truthy(s: Option<string>)
  {
    s.Some? && s.value != ""
  }

  /** Does `sub` occur in `s` (JavaScript `String.prototype.includes`)? */
  predicate Contains(s: string, sub: string)
  {
    exists i :: 0 <= i <= |s| - |sub| && OccursAt(s, sub, i)
  }

  predicate OccursAt(s: string, sub: string, i: int)
  {
    0 <= i <= |s| - |sub| && s[i..i + |sub|] == sub
  }

  /** Index of the first occurrence of x in s, or |s| when there is none. */
  function IndexOf<T(==)>(s: seq<T>, x: T): (i: nat)
    ensures i <= |s|
    ensures i < |s| ==> s[i] == x
    ensures forall j :: 0 <= j < i ==> s[j] != x
  {
    if s == [] then 0 else if s[0] == x then 0 else 1 + IndexOf(s[1..], x)
  }

  predicate Distinct<T(==)>(s: seq<T>)
  {
    forall i, j :: 0 <= i < j < |s| ==> s[i] != s[j]
  }

  lemma IndexOfDistinct<T>(s: seq<T>, i: nat)
    requires Distinct(s) && i < |s|
    ensures IndexOf(s, s[i]) == i
  {
  }

  /** Appending an element does not move the first occurrence of one already present. */
  lemma {:induction false} IndexOfAppend<T>(s: seq<T>, y: T, x: T)
    requires x in s
    ensures IndexOf(s + [y], x) == IndexOf(s, x) < |s|
  {
    if s[0] != x {
      assert (s + [y])[1..] == s[1..] + [y];
      IndexOfAppend(s[1..], y, x);
    }
  }

  /** The keys of an insertion-ordered key/value list, in order. */
  function Keys<K, V>(kvs: seq<(K, V)>): (ks: seq<K>)
    ensures |ks| == |kvs|
    ensures forall i :: 0 <= i < |kvs| ==> ks[i] == kvs[i].0
  {
    if kvs == [] then [] else [kvs[0].0] + Keys(kvs[1..])
  }

  /** `obj[k]` / `d.get(k)`: the value of the first entry with key k. */
  function Lookup<K(==), V>(kvs: seq<(K, V)>, k: K): (r: Option<V>)
    ensures r.None? <==> k !in Keys(kvs)
  {
    var i := IndexOf(Keys(kvs), k);
    if i < |kvs| then Some(kvs[i].1) else None
  }

  /** `obj[k] = v` on a JavaScript object, `d[k] = v` on a Python dict: an existing
      key keeps its position and takes the new value, a new key goes last. */
  function Assign<K(==), V>(kvs: seq<(K, V)>, k: K, v: V): (r: seq<(K, V)>)
    ensures |r| == if k in Keys(kvs) then |kvs| else |kvs| + 1
    ensures Keys(r) == if k in Keys(kvs) then Keys(kvs) else Keys(kvs) + [k]
  {
    var i := IndexOf(Keys(kvs), k);
    if i < |kvs| then
      assert Keys(kvs[i := (k, v)]) == Keys(kvs);
      kvs[i := (k, v)]
    else
      assert Keys(kvs + [(k, v)]) == Keys(kvs) + [k];
      kvs + [(k, v)]
  }

  /** After the assignment, k maps to v and every other key to what it mapped to before. */
  lemma AssignThenLookup<K, V>(kvs: seq<(K, V)>, k: K, v: V, k': K)
    ensures Lookup(Assign(kvs, k, v), k') == if k' == k then Some(v) else Lookup(kvs, k')
  {
    var ks := Keys(kvs);
    if k' != k && k !in ks && k' in ks {
      IndexOfAppend(ks, k, k');
    }
  }

  /** Assigning a key twice leaves only the second value, in the first assignment's place. */
  lemma AssignTwice<K, V>(kvs: seq<(K, V)>, k: K, v1: V, v2: V)
    ensures Assign(Assign(kvs, k, v1), k, v2) == Assign(kvs, k, v2)
  {
    var ks := Keys(kvs);
    if k !in ks {
      assert (ks + [k])[|ks|] == k;
    }
  }

  /** `Object.values(obj)`: the values, in key order. */
  function Values<K, V>(kvs: seq<(K, V)>): (vs: seq<V>)
    ensures |vs| == |kvs|
    ensures forall i :: 0 <= i < |kvs| ==> vs[i] == kvs[i].1
  {
    if kvs == [] then [] else [kvs[0].1] + Values(kvs[1..])
  }
}

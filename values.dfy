/** Python-level values shared by the whole plug-in: the scalars that fill
    table cells and query parameters, JSON members that may be absent or null,
    the exceptions the code lets escape, and insertion-ordered dictionaries. */
module Values {
  import opened Wrappers
  import opened Text

  /** A scalar as Python holds it: `None`, `str`, `int` or `bool`. */
  datatype Value = Null | Str(s: string) | Int(i: int) | Bool(b: bool)

  /** Python's truth test on a scalar. */
  predicate Truthy(v: Value) {
    match v
    case Null => false
    case Str(s) => s != ""
    case Int(i) => i != 0
    case Bool(b) => b
  }

  /** Python's `str(v)`. */
  function PyStr(v: Value): string {
    match v
    case Null => "None"
    case Str(s) => s
    case Int(i) => IntToString(i)
    case Bool(b) => if b then "True" else "False"
  }

  /** A JSON object member: absent, present with `null`, or present with a value. */
  datatype Field<+T> = Absent | JsonNull | Present(value: T) {
    /** `data.get(key)`: absent and null both read as `None`. */
    function Get(): Option<T> {
      if Present? then Some(value) else None
    }
  }

  /** The Python exceptions the modelled code lets escape to its caller. */
  datatype PyError =
    | KeyError(key: string)
    | TypeError(what: string)
    | ValueError(what: string)
    | IndexError
    | AttributeError(what: string)

  /** An insertion-ordered dictionary with string keys, as Python 3.7+ keeps it. */
  type Dict<V> = seq<(string, V)>

  predicate DistinctKeys<V>(d: Dict<V>) {
    forall i, j :: 0 <= i < j < |d| ==> d[i].0 != d[j].0
  }

  function KeysOf<V>(d: Dict<V>): (ks: seq<string>)
    ensures |ks| == |d| && forall i :: 0 <= i < |d| ==> ks[i] == d[i].0
  {
    if d == [] then [] else [d[0].0] + KeysOf(d[1..])
  }

  predicate HasKey<V>(d: Dict<V>, k: string) {
    k in KeysOf(d)
  }

  /** `d.get(k)`. */
  function Get<V(==)>(d: Dict<V>, k: string): (r: Option<V>)
    ensures r.Some? <==> HasKey(d, k)
  {
    if d == [] then None
    else if d[0].0 == k then Some(d[0].1)
    else
      assert KeysOf(d) == [d[0].0] + KeysOf(d[1..]);
      Get(d[1..], k)
  }

  lemma KeysOfCons<V>(d: Dict<V>)
    requires d != []
    ensures KeysOf(d) == [d[0].0] + KeysOf(d[1..])
  {
  }

  /** `d[k] = v`: an existing key keeps its place and takes the new value, a new key goes last. */
  function Put<V(==)>(d: Dict<V>, k: string, v: V): (r: Dict<V>)
    ensures Get(r, k) == Some(v)
    ensures forall k' :: k' != k ==> Get(r, k') == Get(d, k')
  {
    if d == [] then [(k, v)]
    else if d[0].0 == k then
      var r := [(k, v)] + d[1..];
      assert r[1..] == d[1..];
      KeysOfCons(d);
      KeysOfCons(r);
      r
    else
      var tail := Put(d[1..], k, v);
      var r := [d[0]] + tail;
      assert r[1..] == tail;
      KeysOfCons(d);
      KeysOfCons(r);
      assert HasKey(d, k) == HasKey(d[1..], k);
      r
  }

  /** Writing a key keeps the key order; a new key goes last. */
  lemma {:induction false} PutKeys<V>(d: Dict<V>, k: string, v: V)
    ensures KeysOf(Put(d, k, v)) == if HasKey(d, k) then KeysOf(d) else KeysOf(d) + [k]
  {
    if d != [] {
      var r := Put(d, k, v);
      KeysOfCons(d);
      KeysOfCons(r);
      if d[0].0 == k {
        assert r[1..] == d[1..];
      } else {
        PutKeys(d[1..], k, v);
        assert r[1..] == Put(d[1..], k, v);
        assert HasKey(d, k) == HasKey(d[1..], k);
      }
    }
  }

  /** Writing a key keeps the keys distinct. */
  lemma PutDistinct<V>(d: Dict<V>, k: string, v: V)
    requires DistinctKeys(d)
    ensures DistinctKeys(Put(d, k, v))
  {
    PutKeys(d, k, v);
    var r := Put(d, k, v);
    var ks := KeysOf(r);
    forall i, j | 0 <= i < j < |r| ensures r[i].0 != r[j].0 {
      assert ks[i] == r[i].0 && ks[j] == r[j].0;
      if j < |d| {
        assert KeysOf(d)[i] == d[i].0 && KeysOf(d)[j] == d[j].0;
      } else {
        assert KeysOf(d)[i] == d[i].0;
      }
    }
  }

  /** Writing a key the value it already has changes nothing. */
  lemma {:induction false} PutSame<V>(d: Dict<V>, k: string, v: V)
    requires Get(d, k) == Some(v)
    ensures Put(d, k, v) == d
  {
    if d != [] && d[0].0 != k {
      PutSame(d[1..], k, v);
      assert [d[0]] + d[1..] == d;
    } else if d != [] {
      assert [(k, v)] + d[1..] == d;
    }
  }

  /** Writing a key twice leaves only the second value, in the key's place. */
  lemma {:induction false} PutTwice<V>(d: Dict<V>, k: string, v1: V, v2: V)
    ensures Put(Put(d, k, v1), k, v2) == Put(d, k, v2)
  {
    if d != [] && d[0].0 != k {
      PutTwice(d[1..], k, v1, v2);
      var tail := Put(d[1..], k, v1);
      assert ([d[0]] + tail)[1..] == tail;
    } else if d != [] {
      assert ([(k, v1)] + d[1..])[1..] == d[1..];
    }
  }

  /** `d.pop(k, None)` without the returned value: every entry with key `k` removed. */
  function Remove<V(==)>(d: Dict<V>, k: string): (r: Dict<V>)
    ensures Get(r, k) == None
    ensures forall k' :: k' != k ==> Get(r, k') == Get(d, k')
  {
    if d == [] then []
    else
      var tail := Remove(d[1..], k);
      if d[0].0 == k then tail
      else
        var r := [d[0]] + tail;
        assert r[1..] == tail;
        r
  }

  /** Removing a key removes it from the key order and keeps the other keys in place. */
  lemma {:induction false} RemoveKeys<V>(d: Dict<V>, k: string)
    ensures KeysOf(Remove(d, k)) == Without(KeysOf(d), k)
  {
    if d != [] {
      KeysOfCons(d);
      RemoveKeys(d[1..], k);
      if d[0].0 != k {
        var r := Remove(d, k);
        assert r[1..] == Remove(d[1..], k);
        KeysOfCons(r);
      }
    }
  }

  /** Removing a key that is not there changes nothing. */
  lemma {:induction false} RemoveAbsent<V>(d: Dict<V>, k: string)
    requires !HasKey(d, k)
    ensures Remove(d, k) == d
  {
    if d != [] {
      assert KeysOf(d) == [d[0].0] + KeysOf(d[1..]);
      RemoveAbsent(d[1..], k);
      assert [d[0]] + d[1..] == d;
    }
  }

  /** With distinct keys, looking up the key at position `p` finds the value at position `p`. */
  lemma {:induction false} GetAt<V>(d: Dict<V>, p: nat)
    requires DistinctKeys(d) && p < |d|
    ensures Get(d, d[p].0) == Some(d[p].1)
  {
    if p > 0 {
      assert d[1..][p - 1] == d[p];
      GetAt(d[1..], p - 1);
    }
  }

  /** A lookup passes over a prefix that lacks the key. */
  lemma {:induction false} GetAfter<V>(a: Dict<V>, b: Dict<V>, k: string)
    requires forall i :: 0 <= i < |a| ==> a[i].0 != k
    ensures Get(a + b, k) == Get(b, k)
  {
    if a == [] {
      assert a + b == b;
    } else {
      assert (a + b)[0] == a[0] && (a + b)[1..] == a[1..] + b;
      GetAfter(a[1..], b, k);
    }
  }

  /** A key that is present sits at some position holding the value `Get` finds. */
  lemma {:induction false} GetIndex<V>(d: Dict<V>, k: string) returns (p: nat)
    requires HasKey(d, k)
    ensures p < |d| && d[p].0 == k && Get(d, k) == Some(d[p].1)
  {
    if d[0].0 == k {
      p := 0;
    } else {
      assert KeysOf(d) == [d[0].0] + KeysOf(d[1..]);
      var q := GetIndex(d[1..], k);
      p := q + 1;
    }
  }

  /** `xs` with every occurrence of `x` left out. */
  function Without(xs: seq<string>, x: string): (r: seq<string>)
    ensures x !in r
  {
    if xs == [] then [] else (if xs[0] == x then [] else [xs[0]]) + Without(xs[1..], x)
  }
}

/**
 * JSON values as the search engine sees them (serde_json::Value).
 *
 * Objects are sequences of (key, value) entries kept in ascending key order:
 * without the `preserve_order` feature serde_json's `Map` is a `BTreeMap`, so
 * iteration over an object's keys is in sorted byte order. Numbers carry their
 * canonical rendering next to their value, because the engine compares numbers
 * through `to_string()` and serde distinguishes `1` from `1.0`.
 */
module Json {

  datatype Option<T> = None | Some(value: T)

  datatype Value =
    | Null
    | Bool(b: bool)
    | Num(num: real, text: string)
    | Str(s: string)
    | Arr(items: seq<Value>)
    | Obj(fields: seq<(string, Value)>)

  /** The three-way result of a comparison (std::cmp::Ordering). */
  datatype Ordering = Less | Equal | Greater
  {
    function Reverse(): (r: Ordering)
      ensures r.Less? <==> this.Greater?
      ensures r.Greater? <==> this.Less?
    {
      match this
      case Less => Greater
      case Equal => Equal
      case Greater => Less
    }
  }

  // ---------------------------------------------------------------------------
  // String order (Ord for String: byte-wise, which for UTF-8 is code-point order)
  // ---------------------------------------------------------------------------

  /** Strict lexicographic order on strings. */
  predicate StrLess(a: string, b: string)
    decreases |a|
  {
    if |a| == 0 then |b| > 0
    else if |b| == 0 then false
    else if a[0] < b[0] then true
    else if a[0] > b[0] then false
    else StrLess(a[1..], b[1..])
  }

  /** `a.cmp(b)` for strings. */
  function CmpStr(a: string, b: string): (r: Ordering)
    ensures r.Less? <==> StrLess(a, b)
    ensures r.Greater? <==> StrLess(b, a)
    ensures r.Equal? <==> a == b
  {
    StrLessTotal(a, b);
    StrLessIrreflexive(a);
    StrLessAsymmetric(a, b);
    if StrLess(a, b) then Less else if a == b then Equal else Greater
  }

  lemma {:induction false} StrLessIrreflexive(a: string)
    ensures !StrLess(a, a)
    decreases |a|
  {
    if |a| > 0 {
      assert a[1..] == a[1..];
      StrLessIrreflexive(a[1..]);
    }
  }

  lemma {:induction false} StrLessAsymmetric(a: string, b: string)
    ensures StrLess(a, b) ==> !StrLess(b, a)
    decreases |a|
  {
    if |a| > 0 && |b| > 0 && a[0] == b[0] {
      StrLessAsymmetric(a[1..], b[1..]);
    }
  }

  lemma {:induction false} StrLessTotal(a: string, b: string)
    ensures StrLess(a, b) || a == b || StrLess(b, a)
    decreases |a|
  {
    if |a| > 0 && |b| > 0 && a[0] == b[0] {
      StrLessTotal(a[1..], b[1..]);
      if a[1..] == b[1..] {
        assert a == [a[0]] + a[1..] && b == [b[0]] + b[1..];
      }
    }
  }

  lemma {:induction false} StrLessTransitive(a: string, b: string, c: string)
    requires StrLess(a, b) && StrLess(b, c)
    ensures StrLess(a, c)
    decreases |a|
  {
    if |a| > 0 && a[0] == b[0] && b[0] == c[0] {
      StrLessTransitive(a[1..], b[1..], c[1..]);
    }
  }

  // ---------------------------------------------------------------------------
  // Objects
  // ---------------------------------------------------------------------------

  /** Keys strictly ascending: the shape of every serde_json object. */
  predicate Sorted(fields: seq<(string, Value)>)
  {
    forall i, j :: 0 <= i < j < |fields| ==> StrLess(fields[i].0, fields[j].0)
  }

  predicate HasKey(fields: seq<(string, Value)>, k: string)
  {
    fields != [] && (fields[0].0 == k || HasKey(fields[1..], k))
  }

  lemma {:induction false} KeyAtHasKey(fields: seq<(string, Value)>, i: nat)
    requires i < |fields|
    ensures HasKey(fields, fields[i].0)
  {
    if i > 0 { KeyAtHasKey(fields[1..], i - 1); }
  }

  /** Position of the first entry with key `k`, or -1. */
  function IndexOf(fields: seq<(string, Value)>, k: string): (r: int)
    ensures -1 <= r < |fields|
    ensures r >= 0 ==> fields[r].0 == k && forall j :: 0 <= j < r ==> fields[j].0 != k
    ensures r < 0 <==> !HasKey(fields, k)
  {
    if fields == [] then -1
    else if fields[0].0 == k then 0
    else
      var i := IndexOf(fields[1..], k);
      if i < 0 then -1 else i + 1
  }

  /** `map.get(k)`. */
  function Get(fields: seq<(string, Value)>, k: string): (r: Option<Value>)
    ensures r.Some? <==> HasKey(fields, k)
  {
    var i := IndexOf(fields, k);
    if i < 0 then None else Some(fields[i].1)
  }

  /** `value.get(k)`: the member `k` of an object, None for every other kind. */
  function Member(v: Value, k: string): (r: Option<Value>)
    ensures r.Some? <==> v.Obj? && HasKey(v.fields, k)
  {
    if v.Obj? then Get(v.fields, k) else None
  }

  /** `map.insert(k, v)`: replaces the entry for `k` or adds one in key order. */
  function Put(fields: seq<(string, Value)>, k: string, v: Value): (r: seq<(string, Value)>)
    ensures HasKey(r, k)
    ensures forall j :: HasKey(r, j) <==> j == k || HasKey(fields, j)
  {
    if fields == [] then [(k, v)]
    else if fields[0].0 == k then
      var r := [(k, v)] + fields[1..];
      assert r[1..] == fields[1..];
      r
    else if StrLess(k, fields[0].0) then
      var r := [(k, v)] + fields;
      assert r[1..] == fields;
      r
    else
      var r := [fields[0]] + Put(fields[1..], k, v);
      assert r[1..] == Put(fields[1..], k, v);
      r
  }

  /** `map.remove(k)`. */
  function Remove(fields: seq<(string, Value)>, k: string): (r: seq<(string, Value)>)
    ensures !HasKey(r, k)
    ensures |r| <= |fields|
  {
    if fields == [] then []
    else if fields[0].0 == k then Remove(fields[1..], k)
    else
      var rest := Remove(fields[1..], k);
      assert forall i :: 1 <= i < |[fields[0]] + rest| ==> ([fields[0]] + rest)[i] == rest[i - 1];
      [fields[0]] + rest
  }

  /** The keys of an object, in iteration order. */
  function Keys(fields: seq<(string, Value)>): (r: seq<string>)
    ensures |r| == |fields|
    ensures forall i :: 0 <= i < |r| ==> r[i] == fields[i].0
  {
    if fields == [] then [] else [fields[0].0] + Keys(fields[1..])
  }

  lemma {:induction false} GetPutSame(fields: seq<(string, Value)>, k: string, v: Value)
    ensures Get(Put(fields, k, v), k) == Some(v)
  {
    if fields != [] && fields[0].0 != k && !StrLess(k, fields[0].0) {
      var r := Put(fields, k, v);
      assert r[0] == fields[0] && r[1..] == Put(fields[1..], k, v);
      GetPutSame(fields[1..], k, v);
      assert IndexOf(r, k) == IndexOf(r[1..], k) + 1;
    }
  }

  lemma {:induction false} GetPutOther(fields: seq<(string, Value)>, k: string, v: Value, j: string)
    requires j != k
    ensures Get(Put(fields, k, v), j) == Get(fields, j)
  {
    if fields == [] {
    } else if fields[0].0 == k {
      assert Put(fields, k, v)[1..] == fields[1..];
    } else if StrLess(k, fields[0].0) {
      assert Put(fields, k, v)[1..] == fields;
    } else {
      GetPutOther(fields[1..], k, v, j);
      assert Put(fields, k, v)[1..] == Put(fields[1..], k, v);
    }
  }

  lemma {:induction false} PutSorted(fields: seq<(string, Value)>, k: string, v: Value)
    requires Sorted(fields)
    ensures Sorted(Put(fields, k, v))
    ensures |fields| > 0 && Put(fields, k, v)[0].0 != fields[0].0 ==> Put(fields, k, v)[0].0 == k
  {
    if fields == [] {
    } else if fields[0].0 == k {
    } else if StrLess(k, fields[0].0) {
      var r := Put(fields, k, v);
      forall i, j | 0 <= i < j < |r| ensures StrLess(r[i].0, r[j].0) {
        if i == 0 && j > 1 { StrLessTransitive(k, fields[0].0, fields[j - 1].0); }
      }
    } else {
      StrLessTotal(k, fields[0].0);
      assert Sorted(fields[1..]);
      PutSorted(fields[1..], k, v);
      var rest := Put(fields[1..], k, v);
      var r := [fields[0]] + rest;
      forall i, j | 0 <= i < j < |r| ensures StrLess(r[i].0, r[j].0) {
        if i == 0 {
          // Every key of `rest` is `k` or a key of fields[1..], all above fields[0].
          KeyAtHasKey(rest, j - 1);
          if rest[j - 1].0 != k {
            var m := IndexOf(fields[1..], rest[j - 1].0);
            assert fields[m + 1].0 == rest[j - 1].0;
          }
        }
      }
    }
  }

  lemma {:induction false} GetRemoveOther(fields: seq<(string, Value)>, k: string, j: string)
    requires j != k
    ensures Get(Remove(fields, k), j) == Get(fields, j)
  {
    if fields != [] {
      GetRemoveOther(fields[1..], k, j);
      if fields[0].0 != k {
        assert Remove(fields, k)[1..] == Remove(fields[1..], k);
      }
    }
  }

  // ---------------------------------------------------------------------------
  // Conversions
  // ---------------------------------------------------------------------------

  /** `value.as_str()`. */
  function AsStr(v: Value): (r: Option<string>)
    ensures r.Some? <==> v.Str?
  {
    if v.Str? then Some(v.s) else None
  }

  /** `value.as_f64()`: every JSON number converts. */
  function AsF64(v: Value): (r: Option<real>)
    ensures r.Some? <==> v.Num?
  {
    if v.Num? then Some(v.num) else None
  }

  predicate IsDigit(c: char) { '0' <= c <= '9' }

  predicate AllDigits(s: string) { forall i :: 0 <= i < |s| ==> IsDigit(s[i]) }

  /**
   * `value.as_u64()`: only numbers stored as non-negative integers convert;
   * serde renders those as plain digits, floats always carry '.' or 'e'.
   */
  function AsU64(v: Value): (r: Option<nat>)
    ensures r.Some? ==> v.Num? && v.num == r.value as real
  {
    if v.Num? && |v.text| > 0 && AllDigits(v.text) && v.num >= 0.0 && v.num == v.num.Floor as real
    then Some(v.num.Floor) else None
  }

  function BoolText(b: bool): string { if b then "true" else "false" }
}

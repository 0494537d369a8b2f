/**
 * Field access and result shaping (storage/search/utils.rs): dotted field
 * paths, `_source` projection and the comparator behind custom sorts.
 */
module SearchUtils {

  import opened Json
  import opened Text

  // ---------------------------------------------------------------------------
  // Dotted paths
  // ---------------------------------------------------------------------------

  /** Length of the leading run of `s` that holds no `sep`. */
  function SegmentLen(s: string, sep: char): (n: nat)
    ensures n <= |s|
    ensures forall i :: 0 <= i < n ==> s[i] != sep
    ensures n < |s| ==> s[n] == sep
  {
    if s == [] || s[0] == sep then 0 else 1 + SegmentLen(s[1..], sep)
  }

  /** `s.split(sep)`: always at least one piece, empty pieces included. */
  function Split(s: string, sep: char): (parts: seq<string>)
    ensures |parts| >= 1
    ensures forall p :: p in parts ==> sep !in p
    decreases |s|
  {
    var n := SegmentLen(s, sep);
    assert forall i :: 0 <= i < |s[..n]| ==> s[..n][i] != sep;
    if n == |s| then [s] else [s[..n]] + Split(s[n + 1..], sep)
  }

  /** The pieces glued back together with `sep` between them. */
  function Join(parts: seq<string>, sep: char): string
  {
    if parts == [] then "" else if |parts| == 1 then parts[0] else parts[0] + [sep] + Join(parts[1..], sep)
  }

  /** Splitting and joining again gives the path back. */
  lemma {:induction false} JoinSplit(s: string, sep: char)
    ensures Join(Split(s, sep), sep) == s
    decreases |s|
  {
    var n := SegmentLen(s, sep);
    if n < |s| {
      var rest := Split(s[n + 1..], sep);
      assert Split(s, sep) == [s[..n]] + rest;
      assert ([s[..n]] + rest)[1..] == rest;
      JoinSplit(s[n + 1..], sep);
      assert s == s[..n] + [sep] + s[n + 1..];
    } else {
      assert Split(s, sep) == [s];
    }
  }

  /** Splitting at a separator splits the two sides independently. */
  lemma {:induction false} SplitAppend(a: string, b: string, sep: char)
    requires sep !in a
    ensures Split(a + [sep] + b, sep) == [a] + Split(b, sep)
  {
    var s := a + [sep] + b;
    assert forall i :: 0 <= i < |a| ==> s[i] == a[i];
    SegmentLenPlain(s, a, sep);
    assert s[..|a|] == a && s[|a| + 1..] == b;
  }

  lemma {:induction false} SegmentLenPlain(s: string, a: string, sep: char)
    requires sep !in a && |a| < |s| && s[..|a|] == a && s[|a|] == sep
    ensures SegmentLen(s, sep) == |a|
  {
    if a != [] {
      assert s[1..][..|a| - 1] == a[1..];
      SegmentLenPlain(s[1..], a[1..], sep);
    }
  }

  /** A path without a separator is a single piece. */
  lemma {:induction false} SplitWithoutSeparator(s: string, sep: char)
    requires sep !in s
    ensures Split(s, sep) == [s]
  {
    if s != [] && s[0] != sep {
      SplitWithoutSeparator(s[1..], sep);
    }
  }

  /** Walk `parts` down through nested objects. */
  function Lookup(v: Value, parts: seq<string>): Option<Value>
  {
    if parts == [] then Some(v)
    else if !v.Obj? then None
    else match Get(v.fields, parts[0])
      case None => None
      case Some(child) => Lookup(child, parts[1..])
  }

  lemma {:induction false} LookupAppend(v: Value, p: seq<string>, q: seq<string>)
    ensures Lookup(v, p + q) == match Lookup(v, p) case Some(w) => Lookup(w, q) case None => None
  {
    if p == [] {
      assert p + q == q;
    } else {
      assert (p + q)[0] == p[0] && (p + q)[1..] == p[1..] + q;
      if v.Obj? {
        match Get(v.fields, p[0])
        case None =>
        case Some(child) => LookupAppend(child, p[1..], q);
      }
    }
  }

  /** `get_field_value`: `_all` and `*` name the whole document, anything else is a dotted path. */
  function FieldValue(doc: Value, field: string): Option<Value>
  {
    if field == "_all" || field == "*" then Some(doc) else Lookup(doc, Split(field, '.'))
  }

  /** The loop of `get_field_value`, which reassigns `current` one segment at a time. */
  method GetFieldValue(doc: Value, field: string) returns (r: Option<Value>)
    ensures field == "_all" || field == "*" ==> r == Some(doc)
    ensures r == FieldValue(doc, field)
  {
    if field == "_all" || field == "*" {
      return Some(doc);
    }
    var parts := Split(field, '.');
    var current := doc;
    var i := 0;
    while i < |parts|
      invariant 0 <= i <= |parts|
      invariant Lookup(doc, parts) == Lookup(current, parts[i..])
    {
      if !current.Obj? {
        return None;
      }
      match Get(current.fields, parts[i]) {
        case None =>
          return None;
        case Some(child) =>
          assert parts[i..][1..] == parts[i + 1..];
          current := child;
      }
      i := i + 1;
    }
    r := Some(current);
  }

  /** A plain key (no dot, not `_all`/`*`) is looked up among the top-level members. */
  lemma TopLevelField(doc: Value, key: string)
    requires '.' !in key && key != "_all" && key != "*"
    ensures FieldValue(doc, key) == Member(doc, key)
  {
    SplitWithoutSeparator(key, '.');
    if doc.Obj? {
      match Get(doc.fields, key)
      case None =>
      case Some(c) =>
        assert [key][1..] == [];
        assert Lookup(doc, [key]) == Lookup(c, []);
    }
  }

  /** Resolving `a.b` is resolving `a` and then resolving `b` inside the result. */
  lemma DottedPath(doc: Value, a: string, b: string)
    requires '.' !in a && a != "_all" && a != "*" && b != "_all" && b != "*"
    ensures FieldValue(doc, a + "." + b) ==
            match FieldValue(doc, a) case Some(v) => FieldValue(v, b) case None => None
  {
    SplitAppend(a, b, '.');
    assert a + "." + b == a + ['.'] + b;
    LookupAppend(doc, [a], Split(b, '.'));
    var path := a + "." + b;
    assert path[|a|] == '.';
    assert '.' in path;
  }

  // ---------------------------------------------------------------------------
  // _source projection
  // ---------------------------------------------------------------------------

  /** `names` holds the string `k`. */
  predicate Lists(names: seq<Value>, k: string)
  {
    Str(k) in names
  }

  /** The object of the listed string names that are keys of `src`, built in list order. */
  function Project(src: seq<(string, Value)>, names: seq<Value>): seq<(string, Value)>
  {
    if names == [] then []
    else
      var acc := Project(src, names[..|names| - 1]);
      var n := names[|names| - 1];
      if n.Str? && HasKey(src, n.s) then Put(acc, n.s, Get(src, n.s).value) else acc
  }

  /** `src` with every listed string name removed. */
  function Exclude(src: seq<(string, Value)>, names: seq<Value>): seq<(string, Value)>
  {
    if names == [] then src
    else
      var acc := Exclude(src, names[..|names| - 1]);
      var n := names[|names| - 1];
      if n.Str? then Remove(acc, n.s) else acc
  }

  /**
   * `filter_source`: no filter or `true` keeps the document, `false` empties
   * it, a list projects it onto the listed names, an object applies
   * `excludes` and then, when it is a list, `includes`.
   */
  function Filtered(doc: Value, filter: Option<Value>): Value
  {
    match filter
    case None => doc
    case Some(f) =>
      if f.Bool? then (if f.b then doc else Obj([]))
      else if f.Arr? then Obj(if doc.Obj? then Project(doc.fields, f.items) else [])
      else if f.Obj? then
        var excluded :=
          match Get(f.fields, "excludes")
          case Some(Arr(ex)) => if doc.Obj? then Obj(Exclude(doc.fields, ex)) else doc
          case _ => doc;
        match Get(f.fields, "includes")
        case Some(Arr(inc)) => Obj(if excluded.Obj? then Project(excluded.fields, inc) else [])
        case _ => excluded
      else doc
  }

  /** The insertion loop that builds a projection into a fresh map. */
  method ProjectLoop(src: seq<(string, Value)>, names: seq<Value>) returns (r: seq<(string, Value)>)
    ensures r == Project(src, names)
  {
    r := [];
    var i := 0;
    while i < |names|
      invariant 0 <= i <= |names|
      invariant r == Project(src, names[..i])
    {
      assert names[..i + 1][..i] == names[..i];
      var n := names[i];
      if n.Str? {
        var found := Get(src, n.s);
        if found.Some? {
          r := Put(r, n.s, found.value);
        }
      }
      i := i + 1;
    }
    assert names[..|names|] == names;
  }

  /** The removal loop over a cloned object. */
  method ExcludeLoop(src: seq<(string, Value)>, names: seq<Value>) returns (r: seq<(string, Value)>)
    ensures r == Exclude(src, names)
  {
    r := src;
    var i := 0;
    while i < |names|
      invariant 0 <= i <= |names|
      invariant r == Exclude(src, names[..i])
    {
      assert names[..i + 1][..i] == names[..i];
      if names[i].Str? {
        r := Remove(r, names[i].s);
      }
      i := i + 1;
    }
    assert names[..|names|] == names;
  }

  /** `filter_source` as the engine runs it: clone, remove, insert. */
  method FilterSource(doc: Value, filter: Option<Value>) returns (r: Value)
    ensures r == Filtered(doc, filter)
    ensures filter == None || filter == Some(Bool(true)) ==> r == doc
    ensures filter == Some(Bool(false)) ==> r == Obj([])
  {
    if filter.None? {
      return doc;
    }
    var f := filter.value;
    if f.Bool? {
      return if f.b then doc else Obj([]);
    }
    if f.Arr? {
      var fields := [];
      if doc.Obj? {
        fields := ProjectLoop(doc.fields, f.items);
      }
      return Obj(fields);
    }
    if f.Obj? {
      r := doc;
      var ex := Get(f.fields, "excludes");
      if ex.Some? && ex.value.Arr? && r.Obj? {
        var kept := ExcludeLoop(r.fields, ex.value.items);
        r := Obj(kept);
      }
      var inc := Get(f.fields, "includes");
      if inc.Some? && inc.value.Arr? {
        var fields := [];
        if r.Obj? {
          fields := ProjectLoop(r.fields, inc.value.items);
        }
        r := Obj(fields);
      }
      return r;
    }
    r := doc;
  }

  lemma {:induction false} GetProject(src: seq<(string, Value)>, names: seq<Value>, k: string)
    ensures Get(Project(src, names), k) == if Lists(names, k) then Get(src, k) else None
  {
    if names != [] {
      var init := names[..|names| - 1];
      var n := names[|names| - 1];
      GetProject(src, init, k);
      assert Lists(names, k) <==> Lists(init, k) || n == Str(k) by {
        assert names == init + [n];
      }
      if n.Str? && HasKey(src, n.s) {
        if n.s == k { GetPutSame(Project(src, init), k, Get(src, k).value); }
        else { GetPutOther(Project(src, init), n.s, Get(src, n.s).value, k); }
      }
    }
  }

  /** A projection depends only on the listed members of its source. */
  lemma {:induction false} ProjectAgree(a: seq<(string, Value)>, b: seq<(string, Value)>, names: seq<Value>)
    requires forall k :: Lists(names, k) ==> Get(a, k) == Get(b, k)
    ensures Project(a, names) == Project(b, names)
  {
    if names != [] {
      var init := names[..|names| - 1];
      assert forall k :: Lists(init, k) ==> Lists(names, k) by {
        assert names == init + [names[|names| - 1]];
      }
      ProjectAgree(a, b, init);
      var n := names[|names| - 1];
      if n.Str? {
        assert Lists(names, n.s);
      }
    }
  }

  /** Projecting twice onto the same names is projecting once. */
  lemma ProjectIdempotent(src: seq<(string, Value)>, names: seq<Value>)
    ensures Project(Project(src, names), names) == Project(src, names)
  {
    forall k | Lists(names, k) ensures Get(Project(src, names), k) == Get(src, k) {
      GetProject(src, names, k);
    }
    ProjectAgree(Project(src, names), src, names);
  }

  lemma {:induction false} ProjectOfEmpty(names: seq<Value>)
    ensures Project([], names) == []
  {
    if names != [] { ProjectOfEmpty(names[..|names| - 1]); }
  }

  /** A list filter keeps exactly the listed names that are keys of the document. */
  lemma ListFilterKeeps(doc: Value, names: seq<Value>, k: string)
    ensures Member(Filtered(doc, Some(Arr(names))), k) ==
            if doc.Obj? && Lists(names, k) then Get(doc.fields, k) else None
  {
    if doc.Obj? { GetProject(doc.fields, names, k); }
  }

  lemma {:induction false} RemoveAbsent(f: seq<(string, Value)>, k: string)
    requires !HasKey(f, k)
    ensures Remove(f, k) == f
  {
    if f != [] { RemoveAbsent(f[1..], k); }
  }

  lemma {:induction false} RemoveKeepsAbsent(f: seq<(string, Value)>, k: string, j: string)
    requires !HasKey(f, j)
    ensures !HasKey(Remove(f, k), j)
  {
    if f != [] {
      RemoveKeepsAbsent(f[1..], k, j);
    }
  }

  lemma {:induction false} ExcludeRemovesListed(src: seq<(string, Value)>, names: seq<Value>, k: string)
    requires Lists(names, k) || !HasKey(src, k)
    ensures !HasKey(Exclude(src, names), k)
  {
    if names != [] {
      var init := names[..|names| - 1];
      var n := names[|names| - 1];
      assert names == init + [n];
      if n == Str(k) {
      } else {
        ExcludeRemovesListed(src, init, k);
        if n.Str? { RemoveKeepsAbsent(Exclude(src, init), n.s, k); }
      }
    }
  }

  /** Excluding names that are no longer there changes nothing. */
  lemma {:induction false} ExcludeAbsent(src: seq<(string, Value)>, names: seq<Value>)
    requires forall k :: Lists(names, k) ==> !HasKey(src, k)
    ensures Exclude(src, names) == src
  {
    if names != [] {
      var init := names[..|names| - 1];
      var n := names[|names| - 1];
      assert names == init + [n];
      ExcludeAbsent(src, init);
      if n.Str? { assert Lists(names, n.s); RemoveAbsent(src, n.s); }
    }
  }

  /** Excluding removes exactly the listed names and keeps every other member. */
  lemma {:induction false} GetExclude(src: seq<(string, Value)>, names: seq<Value>, k: string)
    ensures Get(Exclude(src, names), k) == if Lists(names, k) then None else Get(src, k)
  {
    if names != [] {
      var init := names[..|names| - 1];
      var n := names[|names| - 1];
      GetExclude(src, init, k);
      assert Lists(names, k) <==> Lists(init, k) || n == Str(k) by {
        assert names == init + [n];
      }
      if n.Str? && n.s != k {
        GetRemoveOther(Exclude(src, init), n.s, k);
      }
    }
  }

  /**
   * An object filter with both lists keeps a member exactly when it is
   * included and not excluded: `excludes` wins over `includes`.
   */
  lemma BothListsKeep(doc: seq<(string, Value)>, f: seq<(string, Value)>, ex: seq<Value>, inc: seq<Value>, k: string)
    requires Get(f, "excludes") == Some(Arr(ex)) && Get(f, "includes") == Some(Arr(inc))
    ensures Member(Filtered(Obj(doc), Some(Obj(f))), k) ==
            if Lists(inc, k) && !Lists(ex, k) then Get(doc, k) else None
  {
    GetProject(Exclude(doc, ex), inc, k);
    GetExclude(doc, ex, k);
  }

  lemma ProjectKeys(src: seq<(string, Value)>, names: seq<Value>, k: string)
    requires HasKey(Project(src, names), k)
    ensures HasKey(src, k)
  {
    GetProject(src, names, k);
  }

  /** Applying a `_source` filter to its own output changes nothing. */
  lemma FilteredIdempotent(doc: Value, filter: Option<Value>)
    ensures Filtered(Filtered(doc, filter), filter) == Filtered(doc, filter)
  {
    match filter
    case None =>
    case Some(f) =>
      if f.Arr? {
        if doc.Obj? { ProjectIdempotent(doc.fields, f.items); } else { ProjectOfEmpty(f.items); }
      } else if f.Obj? && !f.Bool? {
        var once := Filtered(doc, filter);
        var ex := Get(f.fields, "excludes");
        var inc := Get(f.fields, "includes");
        var excluded := match ex
          case Some(Arr(e)) => if doc.Obj? then Obj(Exclude(doc.fields, e)) else doc
          case _ => doc;
        match inc
        case Some(Arr(i)) =>
          assert once == Obj(if excluded.Obj? then Project(excluded.fields, i) else []);
          if ex.Some? && ex.value.Arr? {
            forall k | Lists(ex.value.items, k) ensures !HasKey(once.fields, k) {
              if HasKey(once.fields, k) {
                ProjectKeys(excluded.fields, i, k);
                ExcludeRemovesListed(doc.fields, ex.value.items, k);
              }
            }
            ExcludeAbsent(once.fields, ex.value.items);
          }
          if excluded.Obj? { ProjectIdempotent(excluded.fields, i); } else { ProjectOfEmpty(i); }
        case _ =>
          if ex.Some? && ex.value.Arr? && doc.Obj? {
            forall k | Lists(ex.value.items, k) ensures !HasKey(once.fields, k) {
              ExcludeRemovesListed(doc.fields, ex.value.items, k);
            }
            ExcludeAbsent(once.fields, ex.value.items);
          }
      }
  }

  // ---------------------------------------------------------------------------
  // Sort comparator
  // ---------------------------------------------------------------------------

  /** The order named by one sort entry: `{"order": "desc"}` or `"desc"` reverses. */
  function SortOrder(orderSpec: Value): string
  {
    if orderSpec.Obj? then
      match Get(orderSpec.fields, "order")
      case Some(Str(o)) => o
      case _ => "asc"
    else if orderSpec.Str? then orderSpec.s
    else "asc"
  }

  function CmpReal(a: real, b: real): (r: Ordering)
    ensures r.Less? <==> a < b
    ensures r.Greater? <==> a > b
  {
    if a < b then Less else if a > b then Greater else Equal
  }

  /** Ascending comparison of two resolved sort values. */
  function CompareValues(a: Option<Value>, b: Option<Value>): Ordering
  {
    match (a, b)
    case (Some(Str(x)), Some(Str(y))) => CmpStr(x, y)
    case (Some(Num(x, _)), Some(Num(y, _))) => CmpReal(x, y)
    case (Some(_), None) => Greater
    case (None, Some(_)) => Less
    case _ => Equal
  }

  /** `compare_documents`: only the first key of the sort object is consulted. */
  function CompareDocuments(a: Value, b: Value, sortSpec: Value): Ordering
  {
    if sortSpec.Obj? && |sortSpec.fields| > 0 then
      var field := sortSpec.fields[0].0;
      var cmp := CompareValues(FieldValue(a, field), FieldValue(b, field));
      if SortOrder(sortSpec.fields[0].1) == "desc" then cmp.Reverse() else cmp
    else Equal
  }

  /** Swapping the two documents reverses the answer, for every sort spec. */
  lemma CompareDocumentsAntisymmetric(a: Value, b: Value, sortSpec: Value)
    ensures CompareDocuments(b, a, sortSpec) == CompareDocuments(a, b, sortSpec).Reverse()
  {
    if sortSpec.Obj? && |sortSpec.fields| > 0 {
      var field := sortSpec.fields[0].0;
      CompareValuesAntisymmetric(FieldValue(a, field), FieldValue(b, field));
    }
  }

  /** Swapping the two values reverses the answer. */
  lemma CompareValuesAntisymmetric(x: Option<Value>, y: Option<Value>)
    ensures CompareValues(y, x) == CompareValues(x, y).Reverse()
  {
    match (x, y)
    case (Some(Str(p)), Some(Str(q))) =>
      StrLessAsymmetric(p, q);
    case _ =>
  }

  /** What the comparator does with present, missing and mismatched values. */
  lemma CompareDocumentsCases(a: Value, b: Value, field: string, orderSpec: Value, rest: seq<(string, Value)>)
    ensures var spec := Obj([(field, orderSpec)] + rest);
            var cmp := CompareDocuments(a, b, spec);
            var x, y := FieldValue(a, field), FieldValue(b, field);
            var asc := SortOrder(orderSpec) != "desc";
            (x.Some? && y.None? ==> cmp == (if asc then Greater else Less))
            && (x.None? && y.Some? ==> cmp == (if asc then Less else Greater))
            && (x.None? && y.None? ==> cmp == Equal)
            && (x.Some? && y.Some? && x.value.Str? != y.value.Str? && !(x.value.Num? && y.value.Num?) ==> cmp == Equal)
            && (x.Some? && y.Some? && x.value.Num? && y.value.Num? ==>
                 (cmp == Less <==> (if asc then x.value.num < y.value.num else x.value.num > y.value.num)))
  {
  }

  /** An empty or non-object sort spec leaves every pair Equal. */
  lemma CompareDocumentsNoKey(a: Value, b: Value, sortSpec: Value)
    requires !sortSpec.Obj? || sortSpec.fields == []
    ensures CompareDocuments(a, b, sortSpec) == Equal
  {
  }
}

/**
 * Query scoring (storage/search/query.rs): a query object is tried clause
 * kind by clause kind in a fixed order (match, match_phrase, multi_match,
 * range, term, terms, prefix, wildcard); the first kind with a field that
 * matches decides the score. Otherwise a `bool` clause is scored from its
 * must / should / must_not / filter lists, and `match_all` scores 1.
 *
 * `Score` and `BoolScore` are the specification; `ScoreDocument` and
 * `ScoreBoolQuery` are the loops with early exits that the engine runs,
 * proved equal to it.
 */
module Query {

  import opened Json
  import opened Text
  import opened SearchUtils
  import opened Matchers

  /** The leaf clause kinds, in the order the scorer tries them. */
  datatype Kind = MatchK | PhraseK | MultiK | RangeK | TermK | TermsK | PrefixK | WildcardK

  const Kinds: seq<Kind> := [MatchK, PhraseK, MultiK, RangeK, TermK, TermsK, PrefixK, WildcardK]

  /** The key of the query object that holds a clause of this kind. */
  function KeyOf(k: Kind): string
  {
    match k
    case MatchK => "match"
    case PhraseK => "match_phrase"
    case MultiK => "multi_match"
    case RangeK => "range"
    case TermK => "term"
    case TermsK => "terms"
    case PrefixK => "prefix"
    case WildcardK => "wildcard"
  }

  /** `{"<key>": "text"}` or a bare string, as `.as_str().unwrap_or("")` reads them. */
  function TextParam(v: Value, key: string): string
  {
    match v
    case Obj(fields) => (match Get(fields, key) case Some(Str(s)) => s case _ => "")
    case Str(s) => s
    case _ => ""
  }

  /** The string elements of an array, in order (`filter_map(as_str)`). */
  function StrItems(items: seq<Value>): (r: seq<string>)
    ensures |r| <= |items|
    ensures forall s :: s in r ==> Str(s) in items
  {
    if items == [] then []
    else (if items[0].Str? then [items[0].s] else []) + StrItems(items[1..])
  }

  /** The `fields` of a multi_match: an array's strings, one string, or `_all`. */
  function MultiFields(m: seq<(string, Value)>): seq<string>
  {
    match Get(m, "fields")
    case Some(Arr(items)) => StrItems(items)
    case Some(Str(s)) => [s]
    case _ => ["_all"]
  }

  /** The score one `field: argument` entry of a leaf clause gives, when it matches. */
  function EntryScore(k: Kind, doc: Value, field: string, arg: Value): (r: Option<real>)
    ensures r.Some? ==> 0.0 < r.value <= 1.0
    ensures Binary(k) && r.Some? ==> r.value == 1.0
  {
    match k
    case MatchK => MatchField(doc, field, TextParam(arg, "query"))
    case PhraseK => MatchPhraseField(doc, field, TextParam(arg, "query"))
    case MultiK => None
    case RangeK => if arg.Obj? && RangeMatch(doc, field, arg.fields) then Some(1.0) else None
    case TermK => if TermMatch(doc, field, arg) then Some(1.0) else None
    case TermsK => if arg.Arr? && TermsMatch(doc, field, arg.items) then Some(1.0) else None
    case PrefixK => if PrefixMatch(doc, field, TextParam(arg, "value")) then Some(1.0) else None
    case WildcardK => if WildcardMatch(doc, field, TextParam(arg, "value")) then Some(1.0) else None
  }

  /** The score of the first entry, in iteration order, that matches. */
  function FirstScore(k: Kind, doc: Value, entries: seq<(string, Value)>): (r: Option<real>)
    ensures r.Some? ==> 0.0 < r.value <= 1.0
    ensures r.None? <==> forall j :: 0 <= j < |entries| ==> EntryScore(k, doc, entries[j].0, entries[j].1).None?
    ensures r.Some? ==> exists j :: 0 <= j < |entries| && EntryScore(k, doc, entries[j].0, entries[j].1) == r
                          && forall i :: 0 <= i < j ==> EntryScore(k, doc, entries[i].0, entries[i].1).None?
  {
    if entries == [] then None
    else
      var here := EntryScore(k, doc, entries[0].0, entries[0].1);
      if here.Some? then here
      else
        var rest := FirstScore(k, doc, entries[1..]);
        assert forall j :: 1 <= j < |entries| ==> entries[j] == entries[1..][j - 1];
        if rest.Some? then
          var j :| 0 <= j < |entries[1..]| && EntryScore(k, doc, entries[1..][j].0, entries[1..][j].1) == rest
                   && forall i :: 0 <= i < j ==> EntryScore(k, doc, entries[1..][i].0, entries[1..][i].1).None?;
          assert EntryScore(k, doc, entries[j + 1].0, entries[j + 1].1) == rest;
          rest
        else rest
  }

  /** The score the clause of kind `k` in query object `q` gives, when present and matching. */
  function ClauseScore(k: Kind, doc: Value, q: seq<(string, Value)>): (r: Option<real>)
    ensures r.Some? ==> 0.0 < r.value <= 1.0
    ensures r.Some? ==> HasKey(q, KeyOf(k))
  {
    match Get(q, KeyOf(k))
    case Some(Obj(entries)) =>
      if k == MultiK then MultiMatch(doc, MultiFields(entries), TextParam(Obj(entries), "query"))
      else FirstScore(k, doc, entries)
    case _ => None
  }

  /** The first kind, from `kinds[i..]`, whose clause scores. */
  function LeafScore(doc: Value, q: seq<(string, Value)>, i: nat): (r: Option<real>)
    requires i <= |Kinds|
    ensures r.Some? ==> 0.0 < r.value <= 1.0
    decreases |Kinds| - i
  {
    if i == |Kinds| then None
    else
      var here := ClauseScore(Kinds[i], doc, q);
      if here.Some? then here else LeafScore(doc, q, i + 1)
  }

  /** The leaf kinds from position `i` on give nothing exactly when none of them scores. */
  lemma {:induction false} LeafScoreNone(doc: Value, q: seq<(string, Value)>, i: nat)
    requires i <= |Kinds|
    ensures LeafScore(doc, q, i).None? <==> forall j :: i <= j < |Kinds| ==> ClauseScore(Kinds[j], doc, q).None?
    decreases |Kinds| - i
  {
    if i < |Kinds| {
      LeafScoreNone(doc, q, i + 1);
      var here := ClauseScore(Kinds[i], doc, q);
      assert LeafScore(doc, q, i) == if here.Some? then here else LeafScore(doc, q, i + 1);
      if here.None? {
        assert (forall j :: i <= j < |Kinds| ==> ClauseScore(Kinds[j], doc, q).None?)
           <==> (forall j :: i + 1 <= j < |Kinds| ==> ClauseScore(Kinds[j], doc, q).None?);
      }
    }
  }

  // ---------------------------------------------------------------------------
  // The specification
  // ---------------------------------------------------------------------------

  /** `score_document`: never negative; a non-object query scores 0, `{}` scores 1. */
  function Score(doc: Value, query: Value): (r: real)
    ensures 0.0 <= r
    ensures !query.Obj? ==> r == 0.0
    ensures query == Obj([]) ==> r == 1.0
    decreases query, 2
  {
    match query
    case Obj(q) =>
      if q == [] then 1.0
      else
        var leaf := LeafScore(doc, q, 0);
        if leaf.Some? then leaf.value
        else (match Get(q, "bool")
          case Some(b) => BoolScore(doc, b)
          case None => if HasKey(q, "match_all") then 1.0 else 0.0)
    case _ => 0.0
  }

  /** The scores of the clauses of a bool list; a value that is not an array holds none. */
  function ListScores(doc: Value, list: Value): (r: seq<real>)
    ensures forall j :: 0 <= j < |r| ==> 0.0 <= r[j]
    ensures list.Arr? ==> |r| == |list.items|
    ensures !list.Arr? ==> r == []
    decreases list, 1
  {
    match list
    case Arr(items) => seq(|items|, j requires 0 <= j < |items| => Score(doc, items[j]))
    case _ => []
  }

  /** The scores of the list stored under `key` of a bool object. */
  function Clauses(doc: Value, bf: seq<(string, Value)>, key: string, ghost b: Value): (r: seq<real>)
    requires b == Obj(bf)
    ensures forall j :: 0 <= j < |r| ==> 0.0 <= r[j]
    decreases b, 1
  {
    match Get(bf, key)
    case Some(list) => ListScores(doc, list)
    case None => []
  }

  function Sum(xs: seq<real>): real
  {
    if xs == [] then 0.0 else xs[0] + Sum(xs[1..])
  }

  predicate AnyPositive(xs: seq<real>) { exists j :: 0 <= j < |xs| && xs[j] > 0.0 }

  /**
   * `score_bool_query`: 0 when a must clause scores 0, a must_not clause
   * scores or a filter clause scores 0; otherwise the must scores plus half
   * the should scores, or 1 when that is 0.
   */
  function BoolScore(doc: Value, b: Value): (r: real)
    ensures 0.0 <= r
    decreases b, 2
  {
    match b
    case Obj(bf) =>
      Combine(Clauses(doc, bf, "must", b), Clauses(doc, bf, "should", b),
              Clauses(doc, bf, "must_not", b), Clauses(doc, bf, "filter", b))
    case _ => 0.0
  }

  /** How the four lists of clause scores make the bool score. */
  function Combine(must: seq<real>, should: seq<real>, mustNot: seq<real>, filter: seq<real>): (r: real)
    requires forall j :: 0 <= j < |must| ==> 0.0 <= must[j]
    requires forall j :: 0 <= j < |should| ==> 0.0 <= should[j]
    ensures 0.0 <= r
  {
    if 0.0 in must || AnyPositive(mustNot) || 0.0 in filter then 0.0
    else
      SumNonNegative(must);
      SumNonNegative(should);
      var score := Sum(must) + ShouldBoost(should);
      if score > 0.0 then score else 1.0
  }

  /** Half the should scores, when they add up to more than 0. */
  function ShouldBoost(should: seq<real>): real
    requires forall j :: 0 <= j < |should| ==> 0.0 <= should[j]
    ensures ShouldBoost(should) >= 0.0
  {
    SumNonNegative(should);
    var s := Sum(should);
    if s > 0.0 then 0.5 * s else 0.0
  }

  lemma {:induction false} SumNonNegative(xs: seq<real>)
    requires forall j :: 0 <= j < |xs| ==> 0.0 <= xs[j]
    ensures 0.0 <= Sum(xs)
  {
    if xs != [] {
      SumNonNegative(xs[1..]);
    }
  }

  // ---------------------------------------------------------------------------
  // The engine's loops
  // ---------------------------------------------------------------------------

  /** The `for (field, value) in clause_obj` loop of one leaf kind, returning at the first match. */
  method FirstMatchingEntry(k: Kind, doc: Value, entries: seq<(string, Value)>) returns (r: Option<real>)
    ensures r == FirstScore(k, doc, entries)
  {
    var i := 0;
    while i < |entries|
      invariant 0 <= i <= |entries|
      invariant FirstScore(k, doc, entries[i..]) == FirstScore(k, doc, entries)
    {
      assert entries[i..][1..] == entries[i + 1..];
      var s := EntryScore(k, doc, entries[i].0, entries[i].1);
      if s.Some? {
        return s;
      }
      i := i + 1;
    }
    return None;
  }

  /** `score_document`. */
  method ScoreDocument(doc: Value, query: Value) returns (r: real)
    ensures r == Score(doc, query)
    decreases query, 2
  {
    if !query.Obj? {
      return 0.0;
    }
    var q := query.fields;
    if q == [] {
      return 1.0;
    }
    var leaf := LeafLoop(doc, q);
    if leaf.Some? {
      return leaf.value;
    }
    var b := Get(q, "bool");
    if b.Some? {
      r := ScoreBoolQuery(doc, b.value);
      return;
    }
    r := if HasKey(q, "match_all") then 1.0 else 0.0;
  }

  /** The loop over the clause kinds in their fixed order, returning at the first that scores. */
  method LeafLoop(doc: Value, q: seq<(string, Value)>) returns (leaf: Option<real>)
    ensures leaf == LeafScore(doc, q, 0)
  {
    var i := 0;
    while i < |Kinds|
      invariant 0 <= i <= |Kinds|
      invariant LeafScore(doc, q, i) == LeafScore(doc, q, 0)
    {
      var s := ClauseScoreOf(Kinds[i], doc, q);
      if s.Some? {
        return s;
      }
      i := i + 1;
    }
    return None;
  }

  /** The clause of kind `k`, when the query has one as an object, scored. */
  method ClauseScoreOf(k: Kind, doc: Value, q: seq<(string, Value)>) returns (s: Option<real>)
    ensures s == ClauseScore(k, doc, q)
  {
    var clause := Get(q, KeyOf(k));
    s := None;
    if clause.Some? && clause.value.Obj? {
      var entries := clause.value.fields;
      if k == MultiK {
        s := MultiMatchFields(doc, MultiFields(entries), TextParam(clause.value, "query"));
      } else {
        s := FirstMatchingEntry(k, doc, entries);
      }
    }
  }

  /** `score_bool_query`, with its break and early returns. */
  method ScoreBoolQuery(doc: Value, b: Value) returns (r: real)
    ensures r == BoolScore(doc, b)
    decreases b, 2
  {
    if !b.Obj? {
      return 0.0;
    }
    var bf := b.fields;
    var zero, score := MustStage(doc, bf, b);
    if zero {
      return 0.0;
    }
    var s := ShouldStage(doc, bf, b);
    if s > 0.0 {
      score := score + s * 0.5;
    }
    var found := MustNotStage(doc, bf, b);
    if found {
      return 0.0;
    }
    var all := FilterStage(doc, bf, b);
    if !all {
      return 0.0;
    }
    r := if score > 0.0 then score else 1.0;
  }

  /** The must list, when it is an array: does a clause score 0, and else the sum of the scores. */
  method MustStage(doc: Value, bf: seq<(string, Value)>, ghost b: Value) returns (zero: bool, sum: real)
    requires b == Obj(bf)
    ensures zero <==> 0.0 in Clauses(doc, bf, "must", b)
    ensures !zero ==> sum == Sum(Clauses(doc, bf, "must", b))
    decreases b, 1
  {
    zero, sum := false, 0.0;
    var list := Get(bf, "must");
    if list.Some? && list.value.Arr? {
      zero, sum := SumUntilZero(doc, list.value.items, list.value);
    }
  }

  /** The should list, when it is an array: the sum of the scores. */
  method ShouldStage(doc: Value, bf: seq<(string, Value)>, ghost b: Value) returns (sum: real)
    requires b == Obj(bf)
    ensures sum == Sum(Clauses(doc, bf, "should", b))
    decreases b, 1
  {
    sum := 0.0;
    var list := Get(bf, "should");
    if list.Some? && list.value.Arr? {
      sum := SumAll(doc, list.value.items, list.value);
    }
  }

  /** The must_not list, when it is an array: does a clause score above 0? */
  method MustNotStage(doc: Value, bf: seq<(string, Value)>, ghost b: Value) returns (found: bool)
    requires b == Obj(bf)
    ensures found == AnyPositive(Clauses(doc, bf, "must_not", b))
    decreases b, 1
  {
    found := false;
    var list := Get(bf, "must_not");
    if list.Some? && list.value.Arr? {
      found := AnyScores(doc, list.value.items, list.value);
    }
  }

  /** The filter list, when it is an array: does every clause score above 0? */
  method FilterStage(doc: Value, bf: seq<(string, Value)>, ghost b: Value) returns (all: bool)
    requires b == Obj(bf)
    ensures all == (0.0 !in Clauses(doc, bf, "filter", b))
    decreases b, 1
  {
    all := true;
    var list := Get(bf, "filter");
    if list.Some? && list.value.Arr? {
      all := AllScore(doc, list.value.items, list.value);
    }
  }

  /** The must loop: stops at the first clause scoring 0, else sums the scores. */
  method SumUntilZero(doc: Value, items: seq<Value>, ghost parent: Value) returns (zero: bool, sum: real)
    requires parent == Arr(items)
    ensures zero <==> 0.0 in ListScores(doc, parent)
    ensures !zero ==> sum == Sum(ListScores(doc, parent))
    decreases parent, 0
  {
    ghost var s := ListScores(doc, parent);
    sum := 0.0;
    var i := 0;
    while i < |items|
      invariant 0 <= i <= |items|
      invariant 0.0 !in s[..i]
      invariant sum + Sum(s[i..]) == Sum(s)
    {
      var c := ScoreDocument(doc, items[i]);
      ListScoresAt(doc, items, parent, i);
      if c == 0.0 {
        return true, sum;
      }
      SumStep(s, i);
      sum := sum + c;
      NoZeroSnoc(s, i);
      i := i + 1;
    }
    assert s[..i] == s;
    zero := false;
  }

  /** The should loop: the sum of all clause scores. */
  method SumAll(doc: Value, items: seq<Value>, ghost parent: Value) returns (sum: real)
    requires parent == Arr(items)
    ensures sum == Sum(ListScores(doc, parent))
    decreases parent, 0
  {
    ghost var s := ListScores(doc, parent);
    sum := 0.0;
    var i := 0;
    while i < |items|
      invariant 0 <= i <= |items|
      invariant sum + Sum(s[i..]) == Sum(s)
    {
      var c := ScoreDocument(doc, items[i]);
      ListScoresAt(doc, items, parent, i);
      SumStep(s, i);
      sum := sum + c;
      i := i + 1;
    }
  }

  /** The must_not loop: does some clause score above 0? */
  method AnyScores(doc: Value, items: seq<Value>, ghost parent: Value) returns (found: bool)
    requires parent == Arr(items)
    ensures found == AnyPositive(ListScores(doc, parent))
    decreases parent, 0
  {
    ghost var s := ListScores(doc, parent);
    var i := 0;
    assert s[..0] == [];
    while i < |items|
      invariant 0 <= i <= |items|
      invariant !AnyPositive(s[..i])
    {
      var c := ScoreDocument(doc, items[i]);
      ListScoresAt(doc, items, parent, i);
      if c > 0.0 {
        return true;
      }
      NoPositiveSnoc(s, i);
      i := i + 1;
    }
    assert s[..i] == s;
    return false;
  }


  /** The filter loop: does every clause score above 0? */
  method AllScore(doc: Value, items: seq<Value>, ghost parent: Value) returns (all: bool)
    requires parent == Arr(items)
    ensures all == (0.0 !in ListScores(doc, parent))
    decreases parent, 0
  {
    ghost var s := ListScores(doc, parent);
    var i := 0;
    while i < |items|
      invariant 0 <= i <= |items|
      invariant 0.0 !in s[..i]
    {
      var c := ScoreDocument(doc, items[i]);
      ListScoresAt(doc, items, parent, i);
      if c == 0.0 {
        return false;
      }
      NoZeroSnoc(s, i);
      i := i + 1;
    }
    assert s[..i] == s;
    return true;
  }

  // ---------------------------------------------------------------------------
  // Properties
  // ---------------------------------------------------------------------------

  /** A bool query excludes a document (scores 0) exactly when a must or filter clause fails or a must_not clause matches. */
  lemma BoolExcludes(doc: Value, bf: seq<(string, Value)>)
    ensures var b := Obj(bf);
            BoolScore(doc, b) == 0.0 <==>
              0.0 in Clauses(doc, bf, "must", b) || AnyPositive(Clauses(doc, bf, "must_not", b))
              || 0.0 in Clauses(doc, bf, "filter", b)
  {
    var b := Obj(bf);
    CombineExcludes(Clauses(doc, bf, "must", b), Clauses(doc, bf, "should", b),
                    Clauses(doc, bf, "must_not", b), Clauses(doc, bf, "filter", b));
  }

  /** Combine gives 0 exactly on exclusion, and otherwise at least the must sum and the should boost. */
  lemma CombineExcludes(must: seq<real>, should: seq<real>, mustNot: seq<real>, filter: seq<real>)
    requires forall j :: 0 <= j < |must| ==> 0.0 <= must[j]
    requires forall j :: 0 <= j < |should| ==> 0.0 <= should[j]
    ensures var r := Combine(must, should, mustNot, filter);
            (r == 0.0 <==> 0.0 in must || AnyPositive(mustNot) || 0.0 in filter)
            && (r > 0.0 ==> r >= Sum(must) && r >= ShouldBoost(should))
  {
    SumNonNegative(must);
  }

  /** Filter clauses that all pass leave the score as if they were absent. */
  lemma {:induction false} FilterDoesNotScore(doc: Value, bf: seq<(string, Value)>)
    requires 0.0 !in Clauses(doc, bf, "filter", Obj(bf))
    ensures BoolScore(doc, Obj(bf)) == BoolScore(doc, Obj(Remove(bf, "filter")))
  {
    var rf := Remove(bf, "filter");
    GetRemoveOther(bf, "filter", "must");
    GetRemoveOther(bf, "filter", "should");
    GetRemoveOther(bf, "filter", "must_not");
    assert Clauses(doc, rf, "must", Obj(rf)) == Clauses(doc, bf, "must", Obj(bf));
    assert Clauses(doc, rf, "should", Obj(rf)) == Clauses(doc, bf, "should", Obj(bf));
    assert Clauses(doc, rf, "must_not", Obj(rf)) == Clauses(doc, bf, "must_not", Obj(bf));
    assert Clauses(doc, rf, "filter", Obj(rf)) == [];
  }

  /** Should clauses never exclude a document: with none scoring, the rest decides and the score is at least 1 without must. */
  lemma {:induction false} ShouldIsOptional(must: seq<real>, should: seq<real>, mustNot: seq<real>, filter: seq<real>)
    requires forall j :: 0 <= j < |must| ==> 0.0 <= must[j]
    requires forall j :: 0 <= j < |should| ==> should[j] == 0.0
    ensures Combine(must, should, mustNot, filter) == Combine(must, [], mustNot, filter)
  {
    SumOfZeros(should);
  }

  lemma {:induction false} SumOfZeros(xs: seq<real>)
    requires forall j :: 0 <= j < |xs| ==> xs[j] == 0.0
    ensures Sum(xs) == 0.0
  {
    if xs != [] {
      SumOfZeros(xs[1..]);
    }
  }

  /** The first leaf kind that matches decides the score, before any bool clause. */
  lemma {:induction false} LeafPrecedes(doc: Value, q: seq<(string, Value)>, i: nat)
    requires i < |Kinds| && ClauseScore(Kinds[i], doc, q).Some?
    requires forall j :: 0 <= j < i ==> ClauseScore(Kinds[j], doc, q).None?
    ensures Score(doc, Obj(q)) == ClauseScore(Kinds[i], doc, q).value
  {
    assert q != [];
    LeafFrom(doc, q, 0, i);
  }

  lemma {:induction false} LeafFrom(doc: Value, q: seq<(string, Value)>, k: nat, i: nat)
    requires k <= i < |Kinds| && ClauseScore(Kinds[i], doc, q).Some?
    requires forall j :: k <= j < i ==> ClauseScore(Kinds[j], doc, q).None?
    ensures LeafScore(doc, q, k) == ClauseScore(Kinds[i], doc, q)
    decreases i - k
  {
    if k < i {
      LeafFrom(doc, q, k + 1, i);
    }
  }

  /** The kinds whose entries either match or not: range, term, terms, prefix and wildcard. */
  predicate Binary(k: Kind)
  {
    k.RangeK? || k.TermK? || k.TermsK? || k.PrefixK? || k.WildcardK?
  }

  /** A range, term, terms, prefix or wildcard clause that scores gives exactly 1. */
  lemma BinaryClauseScore(k: Kind, doc: Value, q: seq<(string, Value)>)
    requires Binary(k) && ClauseScore(k, doc, q).Some?
    ensures ClauseScore(k, doc, q).value == 1.0
  {
    var entries := Get(q, KeyOf(k)).value.fields;
    var r := FirstScore(k, doc, entries);
    var j :| 0 <= j < |entries| && EntryScore(k, doc, entries[j].0, entries[j].1) == r;
  }

  /** When the first leaf kind that scores is range, term, terms, prefix or wildcard, the query scores exactly 1. */
  lemma BinaryLeafScoresOne(doc: Value, q: seq<(string, Value)>, i: nat)
    requires i < |Kinds| && Binary(Kinds[i]) && ClauseScore(Kinds[i], doc, q).Some?
    requires forall j :: 0 <= j < i ==> ClauseScore(Kinds[j], doc, q).None?
    ensures Score(doc, Obj(q)) == 1.0
  {
    LeafPrecedes(doc, q, i);
    BinaryClauseScore(Kinds[i], doc, q);
  }

  /**
   * With no leaf clause scoring and no bool clause, a query object scores 1
   * when it holds `match_all`, and a non-empty one without it scores 0.
   */
  lemma MatchAllScores(doc: Value, q: seq<(string, Value)>)
    requires forall j :: 0 <= j < |Kinds| ==> ClauseScore(Kinds[j], doc, q).None?
    requires !HasKey(q, "bool")
    ensures HasKey(q, "match_all") ==> Score(doc, Obj(q)) == 1.0
    ensures q != [] && !HasKey(q, "match_all") ==> Score(doc, Obj(q)) == 0.0
  {
    LeafScoreNone(doc, q, 0);
    assert Get(q, "bool").None?;
  }

  /** Without a bool clause, a query scores at most 1. */
  lemma LeafQueryAtMostOne(doc: Value, q: seq<(string, Value)>)
    requires !HasKey(q, "bool")
    ensures Score(doc, Obj(q)) <= 1.0
  {
  }

  /** A query holding only a bool clause scores what the bool clause scores. */
  lemma BoolOnlyQuery(doc: Value, b: Value)
    ensures Score(doc, Obj([("bool", b)])) == BoolScore(doc, b)
  {
    var q := [("bool", b)];
    forall j | 0 <= j < |Kinds| ensures !HasKey(q, KeyOf(Kinds[j])) {
      assert KeyOf(Kinds[j])[0] != 'b';
      assert q[1..] == [];
    }
    NoLeafClause(doc, q, 0);
    assert Get(q, "bool") == Some(b);
  }

  lemma {:induction false} NoLeafClause(doc: Value, q: seq<(string, Value)>, i: nat)
    requires i <= |Kinds|
    requires forall j :: 0 <= j < |Kinds| ==> !HasKey(q, KeyOf(Kinds[j]))
    ensures LeafScore(doc, q, i).None?
    decreases |Kinds| - i
  {
    if i < |Kinds| {
      NoLeafClause(doc, q, i + 1);
    }
  }

  /** A bool query whose four lists are all empty scores 1 on every document. */
  lemma EmptyBoolMatchesAll(doc: Value)
    ensures var bf := [("filter", Arr([])), ("must", Arr([])), ("must_not", Arr([])), ("should", Arr([]))];
            Score(doc, Obj([("bool", Obj(bf))])) == 1.0
  {
    var bf := [("filter", Arr([])), ("must", Arr([])), ("must_not", Arr([])), ("should", Arr([]))];
    BoolOnlyQuery(doc, Obj(bf));
    assert Clauses(doc, bf, "must", Obj(bf)) == [];
    assert Clauses(doc, bf, "should", Obj(bf)) == [];
    assert Clauses(doc, bf, "must_not", Obj(bf)) == [];
    assert Clauses(doc, bf, "filter", Obj(bf)) == [];
  }

  /** The `i`-th score of a list is the score of its `i`-th clause. */
  lemma ListScoresAt(doc: Value, items: seq<Value>, parent: Value, i: nat)
    requires parent == Arr(items) && i < |items|
    ensures |ListScores(doc, parent)| == |items|
    ensures ListScores(doc, parent)[i] == Score(doc, items[i])
  {
  }

  lemma NoPositiveSnoc(xs: seq<real>, i: nat)
    requires i < |xs| && !AnyPositive(xs[..i]) && xs[i] <= 0.0
    ensures !AnyPositive(xs[..i + 1])
  {
    assert xs[..i + 1] == xs[..i] + [xs[i]];
  }

  lemma NoZeroSnoc(xs: seq<real>, i: nat)
    requires i < |xs| && 0.0 !in xs[..i] && xs[i] != 0.0
    ensures 0.0 !in xs[..i + 1]
  {
    assert xs[..i + 1] == xs[..i] + [xs[i]];
  }

  lemma SumStep(xs: seq<real>, i: nat)
    requires i < |xs|
    ensures Sum(xs[i..]) == xs[i] + Sum(xs[i + 1..])
  {
    assert xs[i..][1..] == xs[i + 1..];
  }
}

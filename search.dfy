/**
 * The search pipeline over one index (search_impl.rs; storage.rs holds a copy
 * of the same function): score every document, keep those scoring above 0,
 * sort by score descending, re-sort stably for each sort key from the last to
 * the first, skip `from` and take `size`, then shape each hit.
 *
 * The documents live in a hash map, so the order in which they are visited is
 * not fixed: the model names it explicitly as `order`, an enumeration of the
 * ids, which the method chooses and returns as a ghost result.
 */
module Search {

  import opened Json
  import opened Text
  import opened Errors
  import opened SearchUtils
  import opened Query
  import opened Sorting
  import opened Highlighting
  import opened Indexes

  /** One scored document: `(id, doc, score)`. */
  datatype Hit = Hit(id: string, doc: Value, score: real)

  /** The search response, before it is rendered as JSON. */
  datatype SearchResponse = SearchResponse(took: nat, total: nat, maxScore: Option<real>, hits: seq<Value>)

  /** `order` lists every id of `docs` exactly once. */
  ghost predicate Enumerates(order: seq<string>, docs: map<string, Value>)
  {
    (forall id :: id in order <==> id in docs)
    && (forall i, j :: 0 <= i < j < |order| ==> order[i] != order[j])
  }

  // ---------------------------------------------------------------------------
  // Candidates
  // ---------------------------------------------------------------------------

  /** The documents, visited in `order`, that score above 0, with their scores. */
  function Candidates(docs: map<string, Value>, order: seq<string>, query: Value): (r: seq<Hit>)
    requires forall id :: id in order ==> id in docs
    ensures |r| <= |order|
  {
    if order == [] then [] else Scored(docs, order[0], query) + Candidates(docs, order[1..], query)
  }

  /** One document as a candidate, or nothing when it scores 0. */
  function Scored(docs: map<string, Value>, id: string, query: Value): seq<Hit>
    requires id in docs
  {
    var s := Score(docs[id], query);
    if s > 0.0 then [Hit(id, docs[id], s)] else []
  }

  /** Every candidate is a listed document with its own score, which is above 0. */
  lemma {:induction false} CandidatesSound(docs: map<string, Value>, order: seq<string>, query: Value, h: Hit)
    requires forall id :: id in order ==> id in docs
    requires h in Candidates(docs, order, query)
    ensures h.id in order && h.doc == docs[h.id] && h.score == Score(h.doc, query) && h.score > 0.0
  {
    var s := Score(docs[order[0]], query);
    if h != Hit(order[0], docs[order[0]], s) || s <= 0.0 {
      CandidatesSound(docs, order[1..], query, h);
    }
  }

  /** A document is a candidate exactly when it is listed and scores above 0. */
  lemma {:induction false} CandidatesComplete(docs: map<string, Value>, order: seq<string>, query: Value, id: string)
    requires forall k :: k in order ==> k in docs
    ensures (exists h :: h in Candidates(docs, order, query) && h.id == id)
            <==> id in order && Score(docs[id], query) > 0.0
  {
    if order != [] {
      var rest := order[1..];
      CandidatesComplete(docs, rest, query, id);
      var c := Candidates(docs, order, query);
      var tail := Candidates(docs, rest, query);
      var s := Score(docs[order[0]], query);
      assert c == (if s > 0.0 then [Hit(order[0], docs[order[0]], s)] else []) + tail;
      if id == order[0] && s > 0.0 {
        assert c[0] in c && c[0].id == id;
      }
      if id in order && id != order[0] {
        assert id in rest;
      }
      if exists h :: h in tail && h.id == id {
        var h :| h in tail && h.id == id;
        assert h in c;
      }
      if exists h :: h in c && h.id == id {
        var h :| h in c && h.id == id;
        if h !in tail {
          assert h == Hit(order[0], docs[order[0]], s);
        }
      }
    }
  }

  /** Prepending a hit whose id the distinct tail lacks keeps the ids distinct. */
  lemma ConsDistinct(h: Hit, tail: seq<Hit>)
    requires forall i, j :: 0 <= i < j < |tail| ==> tail[i].id != tail[j].id
    requires forall k :: 0 <= k < |tail| ==> tail[k].id != h.id
    ensures forall i, j :: 0 <= i < j < |[h] + tail| ==> ([h] + tail)[i].id != ([h] + tail)[j].id
  {
    var c := [h] + tail;
    forall i, j | 0 <= i < j < |c| ensures c[i].id != c[j].id {
      assert c[j] == tail[j - 1];
      if i > 0 {
        assert c[i] == tail[i - 1];
      }
    }
  }

  /** With the ids listed once, no document is a candidate twice. */
  lemma {:induction false} CandidatesDistinct(docs: map<string, Value>, order: seq<string>, query: Value)
    requires forall k :: k in order ==> k in docs
    requires forall i, j :: 0 <= i < j < |order| ==> order[i] != order[j]
    ensures forall i, j :: 0 <= i < j < |Candidates(docs, order, query)| ==>
              Candidates(docs, order, query)[i].id != Candidates(docs, order, query)[j].id
  {
    if order != [] {
      var rest := order[1..];
      assert forall i, j :: 0 <= i < j < |rest| ==> rest[i] != rest[j] by {
        forall i, j | 0 <= i < j < |rest| ensures rest[i] != rest[j] {
          assert rest[i] == order[i + 1] && rest[j] == order[j + 1];
        }
      }
      CandidatesDistinct(docs, rest, query);
      var c := Candidates(docs, order, query);
      var tail := Candidates(docs, rest, query);
      var s := Score(docs[order[0]], query);
      if s > 0.0 {
        var h := Hit(order[0], docs[order[0]], s);
        assert c == [h] + tail;
        assert order[0] !in rest by {
          forall m | 0 <= m < |rest| ensures rest[m] != order[0] {
            assert rest[m] == order[m + 1];
          }
        }
        forall k | 0 <= k < |tail| ensures tail[k].id != h.id {
          CandidatesSound(docs, rest, query, tail[k]);
        }
        ConsDistinct(h, tail);
      } else {
        assert c == tail;
      }
    }
  }

  // ---------------------------------------------------------------------------
  // Ordering
  // ---------------------------------------------------------------------------

  /** `b.2.partial_cmp(&a.2)`: higher scores first. */
  function ByScore(a: Hit, b: Hit): Ordering
  {
    CmpReal(b.score, a.score)
  }

  lemma ByScorePreorder(dom: set<Hit>)
    ensures PreorderOn(ByScore, dom)
  {
  }

  /** The comparator one sort entry stands for. */
  function ByKey(item: Value): (Hit, Hit) -> Ordering
  {
    (a: Hit, b: Hit) => CompareDocuments(a.doc, b.doc, item)
  }

  /** The sort entries: the items of an array, a lone object, or none. */
  function SortKeys(sort: Option<Value>): seq<Value>
  {
    match sort
    case Some(Arr(items)) => items
    case Some(Obj(f)) => [Obj(f)]
    case _ => []
  }

  function KeyComparators(items: seq<Value>): (r: seq<(Hit, Hit) -> Ordering>)
    ensures |r| == |items|
    ensures forall i :: 0 <= i < |items| ==> r[i] == ByKey(items[i])
  {
    if items == [] then [] else [ByKey(items[0])] + KeyComparators(items[1..])
  }

  /** The score sort, then one stable sort per sort entry, the last entry first. */
  function Rank(cands: seq<Hit>, sort: Option<Value>): (r: seq<Hit>)
    ensures multiset(r) == multiset(cands)
  {
    SortAll(Sort(cands, ByScore), KeyComparators(SortKeys(sort)))
  }

  /** The candidates after the score sort and the custom sorts. */
  function Ranked(docs: map<string, Value>, order: seq<string>, query: Value, sort: Option<Value>): seq<Hit>
    requires forall id :: id in order ==> id in docs
  {
    Rank(Candidates(docs, order, query), sort)
  }

  /** Without sort entries the hits come in non-increasing score order. */
  lemma ScoreOrderWithoutSort(docs: map<string, Value>, order: seq<string>, query: Value, sort: Option<Value>, i: nat, j: nat)
    requires forall id :: id in order ==> id in docs
    requires SortKeys(sort) == []
    requires i <= j < |Ranked(docs, order, query, sort)|
    ensures Ranked(docs, order, query, sort)[i].score >= Ranked(docs, order, query, sort)[j].score
  {
    var c := Candidates(docs, order, query);
    var dom := set h | h in c;
    ByScorePreorder(dom);
    var r := Sort(c, ByScore);
    assert Within(r, dom) by { WithinPermutation(c, r, dom); }
    SortSorted(c, ByScore, dom);
    SortedByGlobal(r, ByScore, dom, i, j);
  }

  /**
   * With sort entries, the hits are ordered by the first entry, ties by the
   * next, and remaining ties by score, provided each entry's comparator is
   * consistent on the candidates (see `ConsistentKey`).
   */
  lemma CustomSortOrder(docs: map<string, Value>, order: seq<string>, query: Value, sort: Option<Value>)
    requires forall id :: id in order ==> id in docs
    requires AllPreorders(KeyComparators(SortKeys(sort)), set h | h in Candidates(docs, order, query))
    ensures SortedBy(Ranked(docs, order, query, sort), Lex(KeyComparators(SortKeys(sort)) + [ByScore]))
  {
    var c := Candidates(docs, order, query);
    var dom := set h | h in c;
    ByScorePreorder(dom);
    var r := Sort(c, ByScore);
    assert Within(r, dom) by { WithinPermutation(c, r, dom); }
    SortSorted(c, ByScore, dom);
    SortAllLex(r, KeyComparators(SortKeys(sort)), ByScore, dom);
  }

  /** The values of the first sort field on the hits are all numbers or all strings (or missing). */
  predicate Uniform(hits: set<Hit>, field: string)
  {
    (forall h :: h in hits && FieldValue(h.doc, field).Some? ==> FieldValue(h.doc, field).value.Num?)
    || (forall h :: h in hits && FieldValue(h.doc, field).Some? ==> FieldValue(h.doc, field).value.Str?)
  }

  /** Present values of one kind. */
  predicate SameKind3(x: Option<Value>, y: Option<Value>, z: Option<Value>)
  {
    (forall v :: v in [x, y, z] && v.Some? ==> v.value.Num?)
    || (forall v :: v in [x, y, z] && v.Some? ==> v.value.Str?)
  }

  /** Ascending comparison is transitive over values of one kind. */
  lemma CompareValuesTransitive(x: Option<Value>, y: Option<Value>, z: Option<Value>)
    requires SameKind3(x, y, z)
    requires CompareValues(x, y) != Greater && CompareValues(y, z) != Greater
    ensures CompareValues(x, z) != Greater
  {
    assert x in [x, y, z] && y in [x, y, z] && z in [x, y, z];
    if x.Some? && y.Some? && z.Some? && x.value.Str? {
      var p, q, s := x.value.s, y.value.s, z.value.s;
      if StrLess(p, q) && StrLess(q, s) { StrLessTransitive(p, q, s); }
    }
  }

  /**
   * A sort entry orders consistently when its field holds values of one kind
   * across the hits; mixing numbers and strings makes them compare Equal to
   * each other, which is not transitive.
   */
  lemma ConsistentKey(hits: set<Hit>, item: Value)
    requires item.Obj? && |item.fields| > 0 && Uniform(hits, item.fields[0].0)
    ensures PreorderOn(ByKey(item), hits)
  {
    var cmp := ByKey(item);
    forall a, b | a in hits && b in hits ensures cmp(b, a) == cmp(a, b).Reverse() {
      CompareDocumentsAntisymmetric(a.doc, b.doc, item);
    }
    var field := item.fields[0].0;
    var desc := SortOrder(item.fields[0].1) == "desc";
    forall a, b, c | a in hits && b in hits && c in hits && cmp(a, b) != Greater && cmp(b, c) != Greater
      ensures cmp(a, c) != Greater
    {
      var x, y, z := FieldValue(a.doc, field), FieldValue(b.doc, field), FieldValue(c.doc, field);
      assert SameKind3(x, y, z);
      assert SameKind3(z, y, x);
      if desc {
        CompareValuesAntisymmetric(x, y);
        CompareValuesAntisymmetric(y, z);
        CompareValuesAntisymmetric(x, z);
        CompareValuesTransitive(z, y, x);
      } else {
        CompareValuesTransitive(x, y, z);
      }
    }
  }

  // ---------------------------------------------------------------------------
  // Pagination
  // ---------------------------------------------------------------------------

  /** `skip(from).take(size)`. */
  function Page<T>(xs: seq<T>, from: nat, size: nat): (r: seq<T>)
    ensures |r| == if from >= |xs| then 0 else if size < |xs| - from then size else |xs| - from
    ensures forall i :: 0 <= i < |r| ==> r[i] == xs[from + i]
  {
    if from >= |xs| then []
    else if size < |xs| - from then xs[from..from + size]
    else xs[from..]
  }

  /** Two adjacent pages make the page that spans both. */
  lemma PagesJoin<T>(xs: seq<T>, from: nat, a: nat, b: nat)
    ensures Page(xs, from, a) + Page(xs, from + a, b) == Page(xs, from, a + b)
  {
    var l, r, w := Page(xs, from, a), Page(xs, from + a, b), Page(xs, from, a + b);
    assert |l + r| == |w|;
    forall i | 0 <= i < |w| ensures (l + r)[i] == w[i] {
      if i >= |l| { assert (l + r)[i] == r[i - |l|]; }
    }
  }

  /** The first `n` pages of `size` hits, one after the other. */
  function Pages<T>(xs: seq<T>, size: nat, n: nat): seq<T>
  {
    if n == 0 then [] else Pages(xs, size, n - 1) + Page(xs, (n - 1) * size, size)
  }

  /** Pages taken at from = k·size join back to the whole list once they cover it. */
  lemma {:induction false} PagesCover<T>(xs: seq<T>, size: nat, n: nat)
    ensures Pages(xs, size, n) == Page(xs, 0, n * size)
    ensures n * size >= |xs| ==> Pages(xs, size, n) == xs
  {
    if n > 0 {
      PagesCover(xs, size, n - 1);
      PagesJoin(xs, 0, (n - 1) * size, size);
      assert (n - 1) * size + size == n * size;
    }
    assert n * size >= |xs| ==> Page(xs, 0, n * size) == xs[0..];
  }

  // ---------------------------------------------------------------------------
  // Shaping the response
  // ---------------------------------------------------------------------------

  /** A score as a JSON number; the decimal text of an `f64` is not modelled. */
  function ScoreValue(x: real): Value { Num(x, "") }

  function NatValue(n: nat): Value { Num(n as real, NatText(n)) }

  /** The highlight of one document, when the request configured one. */
  function HighlightOf(doc: Value, query: Value, highlight: Option<Value>): Option<Value>
  {
    match highlight
    case Some(config) => HighlightDoc(doc, query, config)
    case None => None
  }

  /** One hit: `_index`, `_type`, `_id`, `_score`, `_source`, and `highlight` when there is one. */
  function HitValue(index: string, h: Hit, query: Value, filter: Option<Value>, highlight: Option<Value>): Value
  {
    var fields := [("_id", Str(h.id)), ("_index", Str(index)), ("_score", ScoreValue(h.score)),
                   ("_source", Filtered(h.doc, filter)), ("_type", Str("_doc"))];
    match HighlightOf(h.doc, query, highlight)
    case Some(hl) => Obj(Put(fields, "highlight", hl))
    case None => Obj(fields)
  }

  /** A hit's `_source` is the projected document, and it has a `highlight` exactly when one was produced. */
  lemma HitMembers(index: string, h: Hit, query: Value, filter: Option<Value>, highlight: Option<Value>)
    ensures Member(HitValue(index, h, query, filter, highlight), "_source") == Some(Filtered(h.doc, filter))
    ensures Member(HitValue(index, h, query, filter, highlight), "_id") == Some(Str(h.id))
    ensures Member(HitValue(index, h, query, filter, highlight), "highlight") == HighlightOf(h.doc, query, highlight)
  {
    var fields := [("_id", Str(h.id)), ("_index", Str(index)), ("_score", ScoreValue(h.score)),
                   ("_source", Filtered(h.doc, filter)), ("_type", Str("_doc"))];
    assert fields[1..][1..][1..] == [("_source", Filtered(h.doc, filter)), ("_type", Str("_doc"))];
    assert IndexOf(fields[1..][1..][1..], "_source") == 0;
    assert IndexOf(fields[1..][1..], "_source") == 1;
    assert IndexOf(fields[1..], "_source") == 2;
    assert IndexOf(fields, "_source") == 3;
    assert IndexOf(fields, "_id") == 0;
    assert !HasKey(fields[1..][1..][1..][1..], "highlight");
    assert !HasKey(fields[1..][1..][1..], "highlight");
    assert !HasKey(fields[1..][1..], "highlight");
    assert !HasKey(fields[1..], "highlight");
    assert !HasKey(fields, "highlight");
    match HighlightOf(h.doc, query, highlight)
    case Some(hl) =>
      GetPutSame(fields, "highlight", hl);
      GetPutOther(fields, "highlight", hl, "_source");
      GetPutOther(fields, "highlight", hl, "_id");
    case None =>
  }

  /** A hit's `_score` is its score. */
  lemma HitScore(index: string, h: Hit, query: Value, filter: Option<Value>, highlight: Option<Value>)
    ensures Member(HitValue(index, h, query, filter, highlight), "_score") == Some(ScoreValue(h.score))
  {
    var fields := [("_id", Str(h.id)), ("_index", Str(index)), ("_score", ScoreValue(h.score)),
                   ("_source", Filtered(h.doc, filter)), ("_type", Str("_doc"))];
    assert IndexOf(fields[1..][1..], "_score") == 0;
    assert IndexOf(fields[1..], "_score") == 1;
    assert IndexOf(fields, "_score") == 2;
    match HighlightOf(h.doc, query, highlight)
    case Some(hl) => GetPutOther(fields, "highlight", hl, "_score");
    case None =>
  }

  function HitValues(index: string, page: seq<Hit>, query: Value, filter: Option<Value>, highlight: Option<Value>): seq<Value>
  {
    seq(|page|, i requires 0 <= i < |page| => HitValue(index, page[i], query, filter, highlight))
  }

  /** `max_score`: the score of the first hit returned. */
  function MaxScore(page: seq<Hit>): Option<real>
  {
    if page == [] then None else Some(page[0].score)
  }

  function FromOrDefault(from: Option<nat>): nat { match from case Some(f) => f case None => 0 }

  function SizeOrDefault(size: Option<nat>): nat { match size case Some(s) => s case None => 10 }

  /** The response built from the candidates: rank, paginate, shape the hits. */
  function Answer(name: string, cands: seq<Hit>, query: Value,
                  from: Option<nat>, size: Option<nat>, sort: Option<Value>,
                  filter: Option<Value>, highlight: Option<Value>, took: nat): SearchResponse
  {
    var ranked := Rank(cands, sort);
    var page := Page(ranked, FromOrDefault(from), SizeOrDefault(size));
    SearchResponse(took, |ranked|, MaxScore(page), HitValues(name, page, query, filter, highlight))
  }

  /** The response for an index whose documents are `docs`, visited in `order`. */
  function Respond(name: string, docs: map<string, Value>, order: seq<string>, query: Value,
                   from: Option<nat>, size: Option<nat>, sort: Option<Value>,
                   filter: Option<Value>, highlight: Option<Value>, took: nat): SearchResponse
    requires forall id :: id in order ==> id in docs
  {
    Answer(name, Candidates(docs, order, query), query, from, size, sort, filter, highlight, took)
  }

  /** `search` on the catalog `indices`: IndexNotFound exactly when the index is absent. */
  function SearchResult(indices: map<string, Index>, name: string, order: seq<string>, query: Value,
                        from: Option<nat>, size: Option<nat>, sort: Option<Value>,
                        filter: Option<Value>, highlight: Option<Value>, took: nat): (r: Result<SearchResponse>)
    requires name in indices ==> forall id :: id in order ==> id in indices[name].documents
    ensures r.Err? <==> name !in indices
    ensures r.Err? ==> r.error == IndexNotFound(name)
  {
    if name !in indices then Err(IndexNotFound(name))
    else Ok(Respond(name, indices[name].documents, order, query, from, size, sort, filter, highlight, took))
  }

  /** The rendered response body. */
  function ResponseValue(r: SearchResponse): Value
  {
    Obj([
      ("_shards", Obj([("failed", NatValue(0)), ("skipped", NatValue(0)), ("successful", NatValue(1)), ("total", NatValue(1))])),
      ("hits", Obj([
        ("hits", Arr(r.hits)),
        ("max_score", match r.maxScore case Some(s) => ScoreValue(s) case None => Null),
        ("total", Obj([("relation", Str("eq")), ("value", NatValue(r.total))]))])),
      ("timed_out", Bool(false)),
      ("took", NatValue(r.took))])
  }

  /**
   * What a search of an existing index answers: `total` counts the candidates
   * before pagination, and `max_score` is the first hit's score.
   */
  lemma AnswerCounts(name: string, cands: seq<Hit>, query: Value,
                     from: Option<nat>, size: Option<nat>, sort: Option<Value>,
                     filter: Option<Value>, highlight: Option<Value>, took: nat)
    ensures var r := Answer(name, cands, query, from, size, sort, filter, highlight, took);
            var ranked := Rank(cands, sort);
            && r.total == |cands|
            && |r.hits| <= SizeOrDefault(size)
            && (r.maxScore.Some? <==> |r.hits| > 0)
            && (|r.hits| > 0 ==> r.maxScore == Some(ranked[FromOrDefault(from)].score))
  {
    var ranked := Rank(cands, sort);
    assert |multiset(ranked)| == |multiset(cands)|;
  }

  /** The hits are the page of the ranked candidates, each shaped by `HitValue`. */
  lemma AnswerHits(name: string, cands: seq<Hit>, query: Value,
                   from: Option<nat>, size: Option<nat>, sort: Option<Value>,
                   filter: Option<Value>, highlight: Option<Value>, took: nat, i: nat)
    requires i < |Answer(name, cands, query, from, size, sort, filter, highlight, took).hits|
    ensures FromOrDefault(from) + i < |Rank(cands, sort)|
    ensures Answer(name, cands, query, from, size, sort, filter, highlight, took).hits[i]
            == HitValue(name, Rank(cands, sort)[FromOrDefault(from) + i], query, filter, highlight)
  {
  }

  // ---------------------------------------------------------------------------
  // The pipeline
  // ---------------------------------------------------------------------------

  /** `for (id, doc) in &index.documents`: score each document once, in whatever order the map yields. */
  method ScoreAll(docs: map<string, Value>, query: Value) returns (cands: seq<Hit>, ghost order: seq<string>)
    ensures Enumerates(order, docs)
    ensures cands == Candidates(docs, order, query)
  {
    cands := [];
    order := [];
    var remaining := docs.Keys;
    while remaining != {}
      invariant Visiting(docs, order, remaining)
      invariant cands == Candidates(docs, order, query)
      decreases remaining
    {
      var id :| id in remaining;
      var s := ScoreDocument(docs[id], query);
      ScoreStep(docs, order, id, query, cands, s);
      if s > 0.0 {
        cands := cands + [Hit(id, docs[id], s)];
      }
      VisitStep(docs, order, remaining, id);
      order := order + [id];
      remaining := remaining - {id};
    }
  }

  /** While scoring: `order` lists the documents visited so far, each once, and `remaining` the others. */
  ghost predicate Visiting(docs: map<string, Value>, order: seq<string>, remaining: set<string>)
  {
    && remaining <= docs.Keys
    && (forall id :: id in order ==> id in docs && id !in remaining)
    && (forall id :: id in docs ==> id in order || id in remaining)
    && (forall i, j :: 0 <= i < j < |order| ==> order[i] != order[j])
  }

  /** Visiting one more document keeps `Visiting`, and visiting them all enumerates the map. */
  lemma VisitStep(docs: map<string, Value>, order: seq<string>, remaining: set<string>, id: string)
    requires Visiting(docs, order, remaining) && id in remaining
    ensures Visiting(docs, order + [id], remaining - {id})
    ensures remaining - {id} == {} ==> Enumerates(order + [id], docs)
  {
    var order' := order + [id];
    forall i, j | 0 <= i < j < |order'| ensures order'[i] != order'[j] {
      if j == |order| {
        assert order'[i] == order[i] && order[i] in order;
      } else {
        assert order'[i] == order[i] && order'[j] == order[j];
      }
    }
  }

  /** One turn of `ScoreAll`: the document just scored joins the candidates exactly when it scores above 0. */
  lemma ScoreStep(docs: map<string, Value>, order: seq<string>, id: string, query: Value, cands: seq<Hit>, s: real)
    requires (forall k :: k in order ==> k in docs) && id in docs
    requires cands == Candidates(docs, order, query) && s == Score(docs[id], query)
    ensures (if s > 0.0 then cands + [Hit(id, docs[id], s)] else cands) == Candidates(docs, order + [id], query)
  {
    CandidatesAppend(docs, order, id, query);
    assert Candidates(docs, [id], query) == Scored(docs, id, query) + Candidates(docs, [], query);
  }

  lemma {:induction false} CandidatesAppend(docs: map<string, Value>, order: seq<string>, id: string, query: Value)
    requires forall k :: k in order ==> k in docs
    requires id in docs
    ensures Candidates(docs, order + [id], query) == Candidates(docs, order, query) + Candidates(docs, [id], query)
  {
    if order == [] {
      assert [id][1..] == [];
      assert order + [id] == [id];
    } else {
      assert (order + [id])[1..] == order[1..] + [id];
      CandidatesAppend(docs, order[1..], id, query);
      ConcatAssoc(Scored(docs, order[0], query), Candidates(docs, order[1..], query), Candidates(docs, [id], query));
    }
  }

  lemma ConcatAssoc(a: seq<Hit>, b: seq<Hit>, c: seq<Hit>)
    ensures a + (b + c) == (a + b) + c
  {
  }

  /** The score sort, then one stable sort per entry, the last entry first. */
  method RankCandidates(cands: seq<Hit>, sort: Option<Value>) returns (ranked: seq<Hit>)
    ensures ranked == Rank(cands, sort)
  {
    var base := InsertionSort(cands, ByScore);
    var keys := SortKeys(sort);
    ranked := base;
    var i := |keys|;
    assert keys[i..] == [];
    while i > 0
      invariant 0 <= i <= |keys|
      invariant ranked == SortAll(base, KeyComparators(keys[i..]))
    {
      i := i - 1;
      assert keys[i..][1..] == keys[i + 1..];
      ranked := InsertionSort(ranked, ByKey(keys[i]));
    }
    assert keys[0..] == keys;
  }

  /** Shape each hit of the page: project `_source`, attach the highlight. */
  method BuildHits(index: string, page: seq<Hit>, query: Value, filter: Option<Value>, highlight: Option<Value>)
    returns (hits: seq<Value>)
    ensures hits == HitValues(index, page, query, filter, highlight)
  {
    hits := [];
    var i := 0;
    while i < |page|
      invariant 0 <= i <= |page|
      invariant |hits| == i
      invariant forall k :: 0 <= k < i ==> hits[k] == HitValue(index, page[k], query, filter, highlight)
    {
      var hit := BuildHit(index, page[i], query, filter, highlight);
      hits := hits + [hit];
      i := i + 1;
    }
  }

  /** One hit: `_id`, `_index`, `_score`, the projected `_source`, `_type`, and `highlight` when produced. */
  method BuildHit(index: string, h: Hit, query: Value, filter: Option<Value>, highlight: Option<Value>)
    returns (hit: Value)
    ensures hit == HitValue(index, h, query, filter, highlight)
  {
    var source := FilterSource(h.doc, filter);
    var fields := [("_id", Str(h.id)), ("_index", Str(index)), ("_score", ScoreValue(h.score)),
                   ("_source", source), ("_type", Str("_doc"))];
    hit := Obj(fields);
    if highlight.Some? {
      var hl := HighlightDocument(h.doc, query, highlight.value);
      if hl.Some? {
        hit := Obj(Put(fields, "highlight", hl.value));
      }
    }
  }

  /** `search`: the whole pipeline; `took` stands for the elapsed milliseconds. */
  method RunSearch(indices: map<string, Index>, name: string, query: Value,
                   from: Option<nat>, size: Option<nat>, sort: Option<Value>,
                   filter: Option<Value>, highlight: Option<Value>, took: nat)
    returns (r: Result<SearchResponse>, ghost order: seq<string>)
    ensures name in indices ==> Enumerates(order, indices[name].documents)
    ensures r == SearchResult(indices, name, order, query, from, size, sort, filter, highlight, took)
  {
    if name !in indices {
      return Err(IndexNotFound(name)), [];
    }
    var resp;
    resp, order := SearchIndex(name, indices[name].documents, query, from, size, sort, filter, highlight, took);
    r := Ok(resp);
  }

  /** The pipeline over the documents of one index. */
  method SearchIndex(name: string, docs: map<string, Value>, query: Value,
                     from: Option<nat>, size: Option<nat>, sort: Option<Value>,
                     filter: Option<Value>, highlight: Option<Value>, took: nat)
    returns (resp: SearchResponse, ghost order: seq<string>)
    ensures Enumerates(order, docs)
    ensures resp == Respond(name, docs, order, query, from, size, sort, filter, highlight, took)
  {
    var cands;
    cands, order := ScoreAll(docs, query);
    resp := Finish(name, cands, query, from, size, sort, filter, highlight, took);
  }

  /** Rank, paginate and shape the candidates. */
  method Finish(name: string, cands: seq<Hit>, query: Value,
                from: Option<nat>, size: Option<nat>, sort: Option<Value>,
                filter: Option<Value>, highlight: Option<Value>, took: nat)
    returns (resp: SearchResponse)
    ensures resp == Answer(name, cands, query, from, size, sort, filter, highlight, took)
  {
    var ranked := RankCandidates(cands, sort);
    var total := |ranked|;
    var page := Page(ranked, FromOrDefault(from), SizeOrDefault(size));
    var maxScore := if page == [] then None else Some(page[0].score);
    assert maxScore == MaxScore(page);
    var hits := BuildHits(name, page, query, filter, highlight);
    resp := SearchResponse(took, total, maxScore, hits);
  }
}

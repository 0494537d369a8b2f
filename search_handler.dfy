/**
 * The search endpoints (server/handlers/search.rs): how `GET` and `POST
 * /{index}/_search` turn a request into one call of the search pipeline, and
 * how `POST /_search` searches every index some pattern names and merges the
 * answers. The elapsed time of a single-index search is a parameter.
 */
module SearchHandler {

  import opened Json
  import opened Text
  import opened Errors
  import opened Sorting
  import opened SearchUtils
  import opened Glob
  import opened Indexes
  import opened Storages
  import Pipeline = Search

  /** The arguments a handler passes to `search`. */
  datatype Request = Request(query: Value, from: Option<nat>, size: Option<nat>,
                             sort: Option<Value>, filter: Option<Value>, highlight: Option<Value>)

  /** `{"match_all": {}}`, the query of a request that names none. */
  const MatchAll: Value := Obj([("match_all", Obj([]))])

  /** `u32::MAX`. */
  const U32Max: nat := 0xFFFF_FFFF

  // ---------------------------------------------------------------------------
  // Request extraction
  // ---------------------------------------------------------------------------

  /** `search_get`'s query: `{"match": {"_all": q}}` for a `q` parameter, else match_all. */
  function GetQuery(params: map<string, string>): Value
  {
    if "q" in params then Obj([("match", Obj([("_all", Str(params["q"]))]))]) else MatchAll
  }

  /** A query parameter read with `parse::<u32>().ok()`: absent when missing or malformed. */
  function ParamU32(params: map<string, string>, key: string): Option<nat>
  {
    if key in params then ParseUnsigned(params[key], U32Max) else None
  }

  /** `search_get` passes no sort, source filter or highlight. */
  function GetRequest(params: map<string, string>): Request
  {
    Request(GetQuery(params), ParamU32(params, "from"), ParamU32(params, "size"), None, None, None)
  }

  /** A body member read with `as_u64().map(|v| v as u32)`: the low 32 bits of a non-negative integer. */
  function BodyU32(body: Value, key: string): Option<nat>
  {
    match Member(body, key)
    case Some(v) => (match AsU64(v) case Some(n) => Some(n % 0x1_0000_0000) case None => None)
    case None => None
  }

  /** `search_post` and `search_multi_index`: `query` (default match_all), `from`, `size`, `sort`, `_source`, `highlight`. */
  function BodyRequest(body: Value): Request
  {
    var query := match Member(body, "query") case Some(q) => q case None => MatchAll;
    Request(query, BodyU32(body, "from"), BodyU32(body, "size"),
            Member(body, "sort"), Member(body, "_source"), Member(body, "highlight"))
  }

  /** What one search of `index` answers, rendered; `order` is the order its documents are visited in. */
  function Answer(indices: map<string, Index>, index: string, order: seq<string>, req: Request, took: nat)
    : (r: Result<Value>)
    requires index in indices ==> forall id :: id in order ==> id in indices[index].documents
  {
    match Pipeline.SearchResult(indices, index, order, req.query, req.from, req.size, req.sort, req.filter,
                                req.highlight, took)
    case Ok(resp) => Ok(Pipeline.ResponseValue(resp))
    case Err(e) => Err(e)
  }

  // ---------------------------------------------------------------------------
  // Single-index handlers
  // ---------------------------------------------------------------------------

  /** `search_get`. */
  method SearchGet(storage: Storage, index: string, params: map<string, string>, took: nat)
    returns (r: Result<Value>, ghost order: seq<string>)
    ensures index in storage.indices ==> Pipeline.Enumerates(order, storage.indices[index].documents)
    ensures r == Answer(storage.indices, index, order, GetRequest(params), took)
  {
    var query := if "q" in params then Obj([("match", Obj([("_all", Str(params["q"]))]))]) else MatchAll;
    var from := if "from" in params then ParseUnsigned(params["from"], U32Max) else None;
    var size := if "size" in params then ParseUnsigned(params["size"], U32Max) else None;
    var result;
    result, order := storage.Search(index, query, from, size, None, None, None, took);
    r := if result.Ok? then Ok(Pipeline.ResponseValue(result.value)) else Err(result.error);
  }

  /** `search_post`. */
  method SearchPost(storage: Storage, index: string, body: Value, took: nat)
    returns (r: Result<Value>, ghost order: seq<string>)
    ensures index in storage.indices ==> Pipeline.Enumerates(order, storage.indices[index].documents)
    ensures r == Answer(storage.indices, index, order, BodyRequest(body), took)
  {
    var req := BodyRequest(body);
    var result;
    result, order := storage.Search(index, req.query, req.from, req.size, req.sort, req.filter, req.highlight, took);
    r := if result.Ok? then Ok(Pipeline.ResponseValue(result.value)) else Err(result.error);
  }

  // ---------------------------------------------------------------------------
  // Multi-index search: specification
  // ---------------------------------------------------------------------------

  /** The string items of an array, in order (`filter_map(as_str)`). */
  function StringItems(items: seq<Value>): (r: seq<string>)
    ensures |r| <= |items|
    ensures forall s :: s in r <==> Str(s) in items
  {
    if items == [] then []
    else
      var rest := StringItems(items[1..]);
      assert forall v :: v in items <==> v == items[0] || v in items[1..];
      (if items[0].Str? then [items[0].s] else []) + rest
  }

  /** The index patterns of the body: the strings of its `indices` array, else `["*"]`. */
  function Patterns(body: Value): seq<string>
  {
    match Member(body, "indices")
    case Some(Arr(items)) => StringItems(items)
    case _ => ["*"]
  }

  /** One search the handler runs: the index and the order its documents are visited in. */
  datatype Visit = Visit(name: string, order: seq<string>)

  /** Every visited index exists and its order enumerates its documents. */
  ghost predicate Admissible(indices: map<string, Index>, visits: seq<Visit>)
  {
    forall k :: 0 <= k < |visits| ==>
      visits[k].name in indices && Pipeline.Enumerates(visits[k].order, indices[visits[k].name].documents)
  }

  /** Visit `v` names an index of the catalog, enumerates its documents, and searching it answered `result`. */
  ghost predicate Answered(indices: map<string, Index>, v: Visit, req: Request, result: Result<Pipeline.SearchResponse>)
  {
    && v.name in indices && Pipeline.Enumerates(v.order, indices[v.name].documents)
    && result == Pipeline.SearchResult(indices, v.name, v.order, req.query, req.from, req.size, req.sort,
                                       req.filter, req.highlight, 0)
  }

  /** `results[k]` is what searching the `k`-th visit answered. */
  ghost predicate Searched(indices: map<string, Index>, visits: seq<Visit>, req: Request,
                           results: seq<Result<Pipeline.SearchResponse>>)
  {
    && |results| == |visits|
    && forall k {:trigger Answered(indices, visits[k], req, results[k])} ::
         0 <= k < |visits| ==> Answered(indices, visits[k], req, results[k])
  }

  /** `result["hits"]["hits"]` when it is an array, else nothing. */
  function HitsArray(result: Value): seq<Value>
  {
    match Member(result, "hits")
    case Some(h) => (match Member(h, "hits") case Some(Arr(a)) => a case _ => [])
    case None => []
  }

  /** `result["hits"]["total"]["value"].as_u64()`, else 0. */
  function TotalValue(result: Value): nat
  {
    match Member(result, "hits")
    case Some(h) =>
      (match Member(h, "total")
       case Some(t) => (match Member(t, "value") case Some(v) => (match AsU64(v) case Some(n) => n case None => 0)
                                                 case None => 0)
       case None => 0)
    case None => 0
  }

  /**
   * The hits and the total gathered from the search results, in order: a
   * failed search adds nothing (what the handler reads back from the
   * rendered result is exactly these, see `ReadBack`).
   */
  function Gather(results: seq<Result<Pipeline.SearchResponse>>): (seq<Value>, nat)
    decreases |results|
  {
    if results == [] then ([], 0)
    else
      var before := Gather(results[..|results| - 1]);
      match results[|results| - 1]
      case Ok(resp) => (before.0 + resp.hits, before.1 + resp.total)
      case Err(_) => before
  }

  /** `_score` as `f64`, 0.0 when missing. */
  function ScoreOf(hit: Value): real
  {
    match Member(hit, "_score")
    case Some(s) => (match AsF64(s) case Some(x) => x case None => 0.0)
    case None => 0.0
  }

  /** `score_b.partial_cmp(&score_a)`: higher scores first. */
  function ByScoreDesc(a: Value, b: Value): Ordering
  {
    CmpReal(ScoreOf(b), ScoreOf(a))
  }

  /** `max_score`: the first returned hit's `_score`, when it is a number. */
  function FirstScore(page: seq<Value>): Option<real>
  {
    if page == [] then None
    else match Member(page[0], "_score") case Some(s) => AsF64(s) case None => None
  }

  /** The merged response: all hits re-sorted by score, paginated again, `took` 0. */
  function MergedFrom(hits: seq<Value>, total: nat, req: Request): Value
  {
    var page := Pipeline.Page(Sort(hits, ByScoreDesc), Pipeline.FromOrDefault(req.from), Pipeline.SizeOrDefault(req.size));
    Pipeline.ResponseValue(Pipeline.SearchResponse(0, total, FirstScore(page), page))
  }

  /** `names` lists each catalog name the pattern matches, once. */
  ghost predicate MatchList(indices: map<string, Index>, pattern: string, names: seq<string>)
  {
    (forall n :: n in names <==> n in indices && RegexIsMatch(pattern, n))
    && (forall i, j :: 0 <= i < j < |names| ==> names[i] != names[j])
  }

  /** `groups[k]` is what `match_indices` returned for `patterns[k]`, for every `k`. */
  ghost predicate MatchedAll(indices: map<string, Index>, patterns: seq<string>, groups: seq<seq<string>>)
    decreases |groups|
  {
    && |groups| == |patterns|
    && (groups != [] ==>
          && MatchedAll(indices, patterns[..|patterns| - 1], groups[..|groups| - 1])
          && MatchList(indices, patterns[|patterns| - 1], groups[|groups| - 1]))
  }

  /** The matched names of all patterns, one pattern after the other. */
  function Flatten(groups: seq<seq<string>>): seq<string>
    decreases |groups|
  {
    if groups == [] then [] else Flatten(groups[..|groups| - 1]) + groups[|groups| - 1]
  }

  function VisitNames(visits: seq<Visit>): seq<string>
    decreases |visits|
  {
    if visits == [] then [] else VisitNames(visits[..|visits| - 1]) + [visits[|visits| - 1].name]
  }

  // ---------------------------------------------------------------------------
  // Multi-index search: the handler
  // ---------------------------------------------------------------------------

  /**
   * `search_multi_index`. `groups` holds what `match_indices` returned for
   * each pattern, `visits` the searches run, in order, and `results` what
   * each of them answered.
   */
  method SearchMultiIndex(storage: Storage, body: Value)
    returns (r: Value, ghost groups: seq<seq<string>>, ghost visits: seq<Visit>,
             ghost results: seq<Result<Pipeline.SearchResponse>>)
    ensures MatchedAll(storage.indices, Patterns(body), groups)
    ensures VisitNames(visits) == Flatten(groups)
    ensures Searched(storage.indices, visits, BodyRequest(body), results)
    ensures r == MergedFrom(Gather(results).0, Gather(results).1, BodyRequest(body))
  {
    var patterns := Patterns(body);
    var req := BodyRequest(body);
    var allHits: seq<Value> := [];
    var total: nat := 0;
    groups, visits, results := [], [], [];
    var i := 0;
    while i < |patterns|
      invariant 0 <= i <= |patterns|
      invariant MatchedAll(storage.indices, patterns[..i], groups)
      invariant VisitNames(visits) == Flatten(groups)
      invariant Searched(storage.indices, visits, req, results) && (allHits, total) == Gather(results)
    {
      allHits, total, groups, visits, results := SearchPattern(storage, patterns, i, req, allHits, total, groups, visits, results);
      i := i + 1;
    }
    PrefixAll(patterns);
    r := Merge(allHits, total, req);
  }

  /** One step of the outer loop: search every index `patterns[i]` matches. */
  method SearchPattern(storage: Storage, patterns: seq<string>, i: nat, req: Request, allHits: seq<Value>, total: nat,
                       ghost groups: seq<seq<string>>, ghost visits: seq<Visit>,
                       ghost results: seq<Result<Pipeline.SearchResponse>>)
    returns (allHits': seq<Value>, total': nat, ghost groups': seq<seq<string>>, ghost visits': seq<Visit>,
             ghost results': seq<Result<Pipeline.SearchResponse>>)
    requires i < |patterns| && MatchedAll(storage.indices, patterns[..i], groups)
    requires VisitNames(visits) == Flatten(groups)
    requires Searched(storage.indices, visits, req, results) && (allHits, total) == Gather(results)
    ensures MatchedAll(storage.indices, patterns[..i + 1], groups')
    ensures VisitNames(visits') == Flatten(groups')
    ensures Searched(storage.indices, visits', req, results') && (allHits', total') == Gather(results')
  {
    var matched := storage.MatchIndices(patterns[i]);
    ghost var vs, rs;
    allHits', total', vs, rs := SearchNames(storage, matched, req, allHits, total);
    SearchedJoin(storage.indices, req, visits, results, vs, rs);
    GatherJoin(results, rs);
    VisitNamesJoin(visits, vs);
    FlattenSnoc(groups, matched);
    MatchedSnoc(storage.indices, patterns, i, groups, matched);
    groups', visits', results' := groups + [matched], visits + vs, results + rs;
  }

  /** Re-sort all the hits by score, take the requested page, and render the merged response. */
  method Merge(allHits: seq<Value>, total: nat, req: Request) returns (r: Value)
    ensures r == MergedFrom(allHits, total, req)
  {
    var sorted := InsertionSort(allHits, ByScoreDesc);
    var page := Pipeline.Page(sorted, Pipeline.FromOrDefault(req.from), Pipeline.SizeOrDefault(req.size));
    var maxScore := if page == [] then None
                    else match Member(page[0], "_score") case Some(s) => AsF64(s) case None => None;
    r := Pipeline.ResponseValue(Pipeline.SearchResponse(0, total, maxScore, page));
  }

  /**
   * The inner loop: search each matched index in turn, adding what it
   * answers to the running hits and total; `visits` and `results` are this
   * loop's own searches.
   */
  method SearchNames(storage: Storage, names: seq<string>, req: Request, allHits0: seq<Value>, total0: nat)
    returns (allHits: seq<Value>, total: nat, ghost visits: seq<Visit>, ghost results: seq<Result<Pipeline.SearchResponse>>)
    requires forall n :: n in names ==> n in storage.indices
    ensures Searched(storage.indices, visits, req, results) && VisitNames(visits) == names
    ensures allHits == allHits0 + Gather(results).0 && total == total0 + Gather(results).1
  {
    allHits, total, visits, results := allHits0, total0, [], [];
    var j := 0;
    while j < |names|
      invariant 0 <= j <= |names|
      invariant VisitNames(visits) == names[..j]
      invariant Searched(storage.indices, visits, req, results)
      invariant allHits == allHits0 + Gather(results).0 && total == total0 + Gather(results).1
    {
      assert names[j] in names;
      allHits, total, visits, results := SearchStep(storage, names[j], req, allHits0, total0, allHits, total, visits, results);
      PrefixSnoc(names, j);
      j := j + 1;
    }
    PrefixAll(names);
  }

  /** One step of the inner loop: search `name` and add what it answered. */
  method SearchStep(storage: Storage, name: string, req: Request, ghost allHits0: seq<Value>, ghost total0: nat,
                    hits: seq<Value>, count: nat, ghost visits: seq<Visit>, ghost results: seq<Result<Pipeline.SearchResponse>>)
    returns (hits': seq<Value>, count': nat, ghost visits': seq<Visit>, ghost results': seq<Result<Pipeline.SearchResponse>>)
    requires name in storage.indices
    requires Searched(storage.indices, visits, req, results)
    requires hits == allHits0 + Gather(results).0 && count == total0 + Gather(results).1
    ensures Searched(storage.indices, visits', req, results') && VisitNames(visits') == VisitNames(visits) + [name]
    ensures hits' == allHits0 + Gather(results').0 && count' == total0 + Gather(results').1
  {
    var result, order := storage.Search(name, req.query, req.from, req.size, req.sort, req.filter, req.highlight, 0);
    ghost var v := Visit(name, order);
    assert Answered(storage.indices, v, req, result);
    SearchedSnoc(storage.indices, visits, req, results, v, result);
    VisitNamesSnoc(visits, v);
    hits', count' := AddAnswer(result, results, allHits0, total0, hits, count);
    visits', results' := visits + [v], results + [result];
  }

  /** Read the hits and the total back from an answered search and add them to the running ones. */
  method AddAnswer(result: Result<Pipeline.SearchResponse>, ghost results: seq<Result<Pipeline.SearchResponse>>,
                   ghost allHits0: seq<Value>, ghost total0: nat, hits: seq<Value>, count: nat)
    returns (hits': seq<Value>, count': nat)
    requires result.Ok? && hits == allHits0 + Gather(results).0 && count == total0 + Gather(results).1
    ensures hits' == allHits0 + Gather(results + [result]).0 && count' == total0 + Gather(results + [result]).1
  {
    var more, n := ReadResult(result.value);
    hits', count' := hits + more, count + n;
    GatherOk(results, Gather(results).0, Gather(results).1, result.value);
  }

  /** The hits array and the total the handler reads from one rendered search result. */
  method ReadResult(resp: Pipeline.SearchResponse) returns (hits: seq<Value>, total: nat)
    ensures hits == resp.hits && total == resp.total
  {
    var rendered := Pipeline.ResponseValue(resp);
    ReadBack(resp);
    hits := HitsArray(rendered);
    total := TotalValue(rendered);
  }

  /** Reading `hits.hits` and `hits.total.value` back from a rendered response gives its hits and its total. */
  lemma ReadBack(resp: Pipeline.SearchResponse)
    ensures HitsArray(Pipeline.ResponseValue(resp)) == resp.hits
    ensures TotalValue(Pipeline.ResponseValue(resp)) == resp.total
  {
    var v := Pipeline.ResponseValue(resp);
    var top := v.fields;
    assert IndexOf(top[1..], "hits") == 0;
    assert IndexOf(top, "hits") == 1;
    var h := top[1].1;
    assert Member(v, "hits") == Some(h);
    var inner := h.fields;
    assert IndexOf(inner, "hits") == 0;
    assert IndexOf(inner[1..][1..], "total") == 0;
    assert IndexOf(inner[1..], "total") == 1;
    assert IndexOf(inner, "total") == 2;
    var t := inner[2].1;
    assert IndexOf(t.fields[1..], "value") == 0;
    assert IndexOf(t.fields, "value") == 1;
    var n := t.fields[1].1;
    assert n == Pipeline.NatValue(resp.total);
    assert AsU64(n) == Some(resp.total);
  }

  lemma SearchedSnoc(indices: map<string, Index>, visits: seq<Visit>, req: Request,
                     results: seq<Result<Pipeline.SearchResponse>>, v: Visit, result: Result<Pipeline.SearchResponse>)
    requires Searched(indices, visits, req, results) && Answered(indices, v, req, result)
    ensures Searched(indices, visits + [v], req, results + [result])
  {
    forall k | 0 <= k < |visits| + 1
      ensures Answered(indices, (visits + [v])[k], req, (results + [result])[k])
    {
      if k < |visits| {
        assert Answered(indices, visits[k], req, results[k]);
      }
    }
  }

  /** Every searched index exists, and each result is its search's answer. */
  lemma SearchedAt(indices: map<string, Index>, visits: seq<Visit>, req: Request,
                   results: seq<Result<Pipeline.SearchResponse>>, k: nat)
    requires Searched(indices, visits, req, results) && k < |visits|
    ensures visits[k].name in indices && Pipeline.Enumerates(visits[k].order, indices[visits[k].name].documents)
    ensures results[k] == Pipeline.SearchResult(indices, visits[k].name, visits[k].order, req.query, req.from,
                                                req.size, req.sort, req.filter, req.highlight, 0)
  {
    assert Answered(indices, visits[k], req, results[k]);
  }

  /** Searches recorded one after the other make one record. */
  lemma SearchedJoin(indices: map<string, Index>, req: Request,
                     visits: seq<Visit>, results: seq<Result<Pipeline.SearchResponse>>,
                     vs: seq<Visit>, rs: seq<Result<Pipeline.SearchResponse>>)
    requires Searched(indices, visits, req, results) && Searched(indices, vs, req, rs)
    ensures Searched(indices, visits + vs, req, results + rs)
  {
  }

  /** Gathering one more answered search adds its hits and its total. */
  lemma GatherOk(results: seq<Result<Pipeline.SearchResponse>>, hits: seq<Value>, total: nat, resp: Pipeline.SearchResponse)
    requires Gather(results) == (hits, total)
    ensures Gather(results + [Ok(resp)]) == (hits + resp.hits, total + resp.total)
  {
    assert (results + [Ok(resp)])[..|results|] == results;
  }

  /** Gathering two runs of results one after the other joins what each gathers. */
  lemma {:induction false} GatherJoin(results: seq<Result<Pipeline.SearchResponse>>, rs: seq<Result<Pipeline.SearchResponse>>)
    ensures Gather(results + rs) == (Gather(results).0 + Gather(rs).0, Gather(results).1 + Gather(rs).1)
    decreases |rs|
  {
    if rs == [] {
      assert results + rs == results;
      assert Gather(results).0 + Gather(rs).0 == Gather(results).0;
    } else {
      var n := |rs| - 1;
      GatherJoin(results, rs[..n]);
      assert (results + rs)[..|results| + n] == results + rs[..n];
      assert (results + rs)[|results| + n] == rs[n];
      match rs[n]
      case Ok(resp) =>
        var a, b := Gather(results), Gather(rs[..n]);
        assert Gather(rs) == (b.0 + resp.hits, b.1 + resp.total);
        assert Gather(results + rs) == ((a.0 + b.0) + resp.hits, (a.1 + b.1) + resp.total);
        assert (a.0 + b.0) + resp.hits == a.0 + (b.0 + resp.hits);
      case Err(_) =>
    }
  }

  lemma {:induction false} VisitNamesJoin(visits: seq<Visit>, vs: seq<Visit>)
    ensures VisitNames(visits + vs) == VisitNames(visits) + VisitNames(vs)
    decreases |vs|
  {
    if vs == [] {
      assert visits + vs == visits;
    } else {
      var n := |vs| - 1;
      VisitNamesJoin(visits, vs[..n]);
      assert (visits + vs)[..|visits| + n] == visits + vs[..n];
    }
  }

  lemma MatchedSnoc(indices: map<string, Index>, patterns: seq<string>, i: nat, groups: seq<seq<string>>, names: seq<string>)
    requires i < |patterns| && MatchedAll(indices, patterns[..i], groups) && MatchList(indices, patterns[i], names)
    ensures MatchedAll(indices, patterns[..i + 1], groups + [names])
  {
    assert patterns[..i + 1][..i] == patterns[..i];
    assert (groups + [names])[..|groups|] == groups;
  }

  /** Each group lists exactly the catalog names its pattern matches, each once. */
  lemma {:induction false} MatchedAt(indices: map<string, Index>, patterns: seq<string>, groups: seq<seq<string>>, k: nat)
    requires MatchedAll(indices, patterns, groups) && k < |groups|
    ensures forall n :: n in groups[k] <==> n in indices && RegexIsMatch(patterns[k], n)
    ensures forall a, b :: 0 <= a < b < |groups[k]| ==> groups[k][a] != groups[k][b]
    decreases |groups|
  {
    if k < |groups| - 1 {
      MatchedAt(indices, patterns[..|patterns| - 1], groups[..|groups| - 1], k);
    }
  }

  lemma FlattenSnoc(groups: seq<seq<string>>, names: seq<string>)
    ensures Flatten(groups + [names]) == Flatten(groups) + names
  {
    assert (groups + [names])[..|groups|] == groups;
  }

  lemma PrefixSnoc<T>(xs: seq<T>, j: nat)
    requires j < |xs|
    ensures xs[..j + 1] == xs[..j] + [xs[j]]
  {
  }

  lemma PrefixAll<T>(xs: seq<T>)
    ensures xs[..|xs|] == xs && xs[..0] == []
  {
  }

  lemma VisitNamesSnoc(visits: seq<Visit>, v: Visit)
    ensures VisitNames(visits + [v]) == VisitNames(visits) + [v.name]
  {
    assert (visits + [v])[..|visits|] == visits;
  }

  // ---------------------------------------------------------------------------
  // Properties of the request extraction
  // ---------------------------------------------------------------------------

  /** A decimal `u32` query parameter reads back as itself; a larger one, or none, reads as absent. */
  lemma ParamU32Reads(params: map<string, string>, key: string, n: nat)
    ensures ParamU32(params[key := NatText(n)], key) == if n <= U32Max then Some(n) else None
    ensures key !in params ==> ParamU32(params, key) == None
  {
    if n <= U32Max {
      ParseUnsignedNatText(n, U32Max);
    } else {
      DigitsValueOfNatText(n);
    }
  }

  /** A body `from` or `size` keeps only the low 32 bits of the integer written. */
  lemma BodyU32Wraps(key: string, n: nat)
    ensures BodyU32(Obj([(key, Pipeline.NatValue(n))]), key) == Some(n % 0x1_0000_0000)
    ensures n <= U32Max ==> BodyU32(Obj([(key, Pipeline.NatValue(n))]), key) == Some(n)
  {
    assert IndexOf([(key, Pipeline.NatValue(n))], key) == 0;
    assert AsU64(Pipeline.NatValue(n)) == Some(n);
  }

  // ---------------------------------------------------------------------------
  // Properties of the merged response
  // ---------------------------------------------------------------------------

  /** `ByScoreDesc` compares two reals, so it orders any collection of hits consistently. */
  lemma ByScoreDescPreorder(dom: set<Value>)
    ensures PreorderOn(ByScoreDesc, dom)
  {
  }

  /** A page holds elements of the list it is taken from, and the whole list when it starts at 0 and has room for all. */
  lemma PageWithin<T>(xs: seq<T>, from: nat, size: nat)
    ensures multiset(Pipeline.Page(xs, from, size)) <= multiset(xs)
    ensures from == 0 && size >= |xs| ==> Pipeline.Page(xs, from, size) == xs
  {
    if from < |xs| {
      var end := if size < |xs| - from then from + size else |xs|;
      assert Pipeline.Page(xs, from, size) == xs[from..end];
      assert xs == xs[..from] + xs[from..end] + xs[end..];
    }
  }

  /** The hits are read back as the page of the re-sorted hits. */
  lemma MergedReadBack(hits: seq<Value>, total: nat, req: Request)
    ensures TotalValue(MergedFrom(hits, total, req)) == total
    ensures HitsArray(MergedFrom(hits, total, req))
            == Pipeline.Page(Sort(hits, ByScoreDesc), Pipeline.FromOrDefault(req.from), Pipeline.SizeOrDefault(req.size))
  {
    var page := Pipeline.Page(Sort(hits, ByScoreDesc), Pipeline.FromOrDefault(req.from), Pipeline.SizeOrDefault(req.size));
    ReadBack(Pipeline.SearchResponse(0, total, FirstScore(page), page));
  }

  /** The hits re-sorted by score are in non-increasing score order. */
  lemma SortedByScore(hits: seq<Value>, i: nat, j: nat)
    requires i <= j < |hits|
    ensures ScoreOf(Sort(hits, ByScoreDesc)[i]) >= ScoreOf(Sort(hits, ByScoreDesc)[j])
  {
    var sorted := Sort(hits, ByScoreDesc);
    var dom := set h | h in hits;
    ByScoreDescPreorder(dom);
    WithinPermutation(hits, sorted, dom);
    SortSorted(hits, ByScoreDesc, dom);
    SortedByGlobal(sorted, ByScoreDesc, dom, i, j);
  }

  /** A page of values in non-increasing score order is in non-increasing score order. */
  lemma PageKeepsOrder(sorted: seq<Value>, from: nat, size: nat)
    requires forall i, j :: 0 <= i <= j < |sorted| ==> ScoreOf(sorted[i]) >= ScoreOf(sorted[j])
    ensures var page := Pipeline.Page(sorted, from, size);
            forall i, j :: 0 <= i <= j < |page| ==> ScoreOf(page[i]) >= ScoreOf(page[j])
  {
    var page := Pipeline.Page(sorted, from, size);
    forall i, j | 0 <= i <= j < |page| ensures ScoreOf(page[i]) >= ScoreOf(page[j]) {
      assert page[i] == sorted[from + i] && page[j] == sorted[from + j];
    }
  }

  /** A page of the hits re-sorted by score is in non-increasing score order and holds hits it was taken from. */
  lemma SortedPage(hits: seq<Value>, from: nat, size: nat)
    ensures var page := Pipeline.Page(Sort(hits, ByScoreDesc), from, size);
            && (forall i, j :: 0 <= i <= j < |page| ==> ScoreOf(page[i]) >= ScoreOf(page[j]))
            && multiset(page) <= multiset(hits)
            && (from == 0 && size >= |hits| ==> multiset(page) == multiset(hits))
  {
    var sorted := Sort(hits, ByScoreDesc);
    forall i, j | 0 <= i <= j < |sorted| ensures ScoreOf(sorted[i]) >= ScoreOf(sorted[j]) {
      SortedByScore(hits, i, j);
    }
    PageKeepsOrder(sorted, from, size);
    PageWithin(sorted, from, size);
  }

  /**
   * The merged response reports the gathered total; its hits are the
   * `from`-th to the `from + size`-th of the gathered hits in non-increasing
   * score order, so at most `size` of them, and all of them when `from` is
   * 0 and there is room.
   */
  lemma MergedShape(hits: seq<Value>, total: nat, req: Request)
    ensures TotalValue(MergedFrom(hits, total, req)) == total
    ensures var page := HitsArray(MergedFrom(hits, total, req));
            var from, size := Pipeline.FromOrDefault(req.from), Pipeline.SizeOrDefault(req.size);
            && |page| == (if from >= |hits| then 0 else if size < |hits| - from then size else |hits| - from)
            && (forall i, j :: 0 <= i <= j < |page| ==> ScoreOf(page[i]) >= ScoreOf(page[j]))
            && multiset(page) <= multiset(hits)
            && (from == 0 && size >= |hits| ==> multiset(page) == multiset(hits))
  {
    MergedReadBack(hits, total, req);
    SortedPage(hits, Pipeline.FromOrDefault(req.from), Pipeline.SizeOrDefault(req.size));
  }

  // ---------------------------------------------------------------------------
  // Properties of the visits
  // ---------------------------------------------------------------------------

  /** How many of `patterns` match `n`. */
  function PatternsMatching(patterns: seq<string>, n: string): nat
    decreases |patterns|
  {
    if patterns == [] then 0
    else PatternsMatching(patterns[..|patterns| - 1], n) + (if RegexIsMatch(patterns[|patterns| - 1], n) then 1 else 0)
  }

  /** A list without repeats holds each element once. */
  lemma {:induction false} DistinctOnce(names: seq<string>, n: string)
    requires forall i, j :: 0 <= i < j < |names| ==> names[i] != names[j]
    ensures multiset(names)[n] == if n in names then 1 else 0
    decreases |names|
  {
    if names != [] {
      var k := |names| - 1;
      DistinctOnce(names[..k], n);
      assert names == names[..k] + [names[k]];
      assert forall i :: 0 <= i < k ==> names[..k][i] != names[k];
      assert names[k] !in names[..k];
    }
  }

  /**
   * An index is searched once for every pattern that matches it: an index two
   * patterns match is searched, and its hits gathered, twice.
   */
  lemma {:induction false} VisitCount(indices: map<string, Index>, patterns: seq<string>, groups: seq<seq<string>>, n: string)
    requires MatchedAll(indices, patterns, groups)
    ensures multiset(Flatten(groups))[n] == if n in indices then PatternsMatching(patterns, n) else 0
    decreases |groups|
  {
    if groups != [] {
      var k := |groups| - 1;
      VisitCount(indices, patterns[..k], groups[..k], n);
      DistinctOnce(groups[k], n);
    }
  }

  // ---------------------------------------------------------------------------
  // Properties of the gathered total
  // ---------------------------------------------------------------------------

  /** The number of documents matching the query in each visited index, added up. */
  ghost function Matches(indices: map<string, Index>, visits: seq<Visit>, req: Request): nat
    requires Admissible(indices, visits)
    decreases |visits|
  {
    if visits == [] then 0
    else
      var v := visits[|visits| - 1];
      Matches(indices, visits[..|visits| - 1], req) + |Pipeline.Candidates(indices[v.name].documents, v.order, req.query)|
  }

  lemma SearchedAdmissible(indices: map<string, Index>, visits: seq<Visit>, req: Request,
                           results: seq<Result<Pipeline.SearchResponse>>)
    requires Searched(indices, visits, req, results)
    ensures Admissible(indices, visits)
  {
    forall k | 0 <= k < |visits|
      ensures visits[k].name in indices && Pipeline.Enumerates(visits[k].order, indices[visits[k].name].documents)
    {
      SearchedAt(indices, visits, req, results, k);
    }
  }

  lemma SearchedPrefix(indices: map<string, Index>, visits: seq<Visit>, req: Request,
                       results: seq<Result<Pipeline.SearchResponse>>, n: nat)
    requires Searched(indices, visits, req, results) && n <= |visits|
    ensures Searched(indices, visits[..n], req, results[..n])
  {
  }

  /**
   * The merged total counts every document that matches the query in every
   * visited index, once per visit, whatever `from` and `size` say.
   */
  lemma {:induction false} GatherTotal(indices: map<string, Index>, visits: seq<Visit>, req: Request,
                                       results: seq<Result<Pipeline.SearchResponse>>)
    requires Searched(indices, visits, req, results)
    ensures Admissible(indices, visits) && Gather(results).1 == Matches(indices, visits, req)
    decreases |visits|
  {
    SearchedAdmissible(indices, visits, req, results);
    if visits != [] {
      var n := |visits| - 1;
      SearchedPrefix(indices, visits, req, results, n);
      GatherTotal(indices, visits[..n], req, results[..n]);
      SearchedAt(indices, visits, req, results, n);
      var v := visits[n];
      var cands := Pipeline.Candidates(indices[v.name].documents, v.order, req.query);
      Pipeline.AnswerCounts(v.name, cands, req.query, req.from, req.size, req.sort, req.filter, req.highlight, 0);
    }
  }

  // ---------------------------------------------------------------------------
  // Pagination applied twice
  // ---------------------------------------------------------------------------

  /**
   * As written, each index is searched with the request's own `from` and
   * `size`, so it answers at most `size` hits, and the merged hits are then
   * paginated with the same `from` again. With one visited index and `from`
   * at least `size`, the merged response has no hits at all, although the
   * index alone answers some whenever it has more than `from` matches and
   * `size` is not 0.
   */
  lemma OffsetAppliedTwice(indices: map<string, Index>, v: Visit, req: Request, result: Result<Pipeline.SearchResponse>)
    requires Answered(indices, v, req, result)
    requires Pipeline.FromOrDefault(req.from) >= Pipeline.SizeOrDefault(req.size)
    ensures result.Ok?
    ensures var matches := Pipeline.Candidates(indices[v.name].documents, v.order, req.query);
            |matches| > Pipeline.FromOrDefault(req.from) && Pipeline.SizeOrDefault(req.size) > 0 ==> |result.value.hits| > 0
    ensures HitsArray(MergedFrom(Gather([result]).0, Gather([result]).1, req)) == []
  {
    var cands := Pipeline.Candidates(indices[v.name].documents, v.order, req.query);
    Pipeline.AnswerCounts(v.name, cands, req.query, req.from, req.size, req.sort, req.filter, req.highlight, 0);
    var ranked := Pipeline.Rank(cands, req.sort);
    assert |multiset(ranked)| == |multiset(cands)|;
    var resp := result.value;
    assert resp.hits == Pipeline.HitValues(v.name, Pipeline.Page(ranked, Pipeline.FromOrDefault(req.from),
                                                                Pipeline.SizeOrDefault(req.size)),
                                           req.query, req.filter, req.highlight);
    GatherOne(resp);
    MergedEmpty(resp.hits, resp.total, req);
  }

  /** Gathering a single answered search gives its hits and its total. */
  lemma GatherOne(resp: Pipeline.SearchResponse)
    ensures Gather([Ok(resp)]) == (resp.hits, resp.total)
  {
    assert [Ok(resp)][..0] == [];
    assert [] + resp.hits == resp.hits;
  }

  /** A merge that skips at least as many hits as it was given returns none. */
  lemma MergedEmpty(hits: seq<Value>, total: nat, req: Request)
    requires |hits| <= Pipeline.FromOrDefault(req.from)
    ensures HitsArray(MergedFrom(hits, total, req)) == []
  {
    MergedShape(hits, total, req);
  }

  /**
   * The request each index is searched with once pagination is left to the
   * merge: the first `from + size` hits of each index.
   */
  function PerIndexRequest(req: Request): (r: Request)
    ensures Pipeline.FromOrDefault(r.from) == 0
    ensures Pipeline.SizeOrDefault(r.size) == Pipeline.FromOrDefault(req.from) + Pipeline.SizeOrDefault(req.size)
    ensures r.query == req.query && r.sort == req.sort && r.filter == req.filter && r.highlight == req.highlight
  {
    req.(from := Some(0), size := Some(Pipeline.FromOrDefault(req.from) + Pipeline.SizeOrDefault(req.size)))
  }

  /** A hit's `_score`, read back, is its score. */
  lemma ScoreOfHit(index: string, h: Pipeline.Hit, req: Request)
    ensures ScoreOf(Pipeline.HitValue(index, h, req.query, req.filter, req.highlight)) == h.score
  {
    Pipeline.HitScore(index, h, req.query, req.filter, req.highlight);
  }

  /** Values whose scores are those of a score-ordered list are already in the merge's order. */
  lemma ScoresInOrder(vals: seq<Value>, top: seq<Pipeline.Hit>)
    requires |vals| == |top|
    requires forall i :: 0 <= i < |top| ==> ScoreOf(vals[i]) == top[i].score
    requires forall i, j :: 0 <= i <= j < |top| ==> top[i].score >= top[j].score
    ensures SortedBy(vals, ByScoreDesc)
  {
    forall i | 0 < i < |vals| ensures ByScoreDesc(vals[i - 1], vals[i]) != Greater {
      assert top[i - 1].score >= top[i].score;
    }
  }

  lemma ScoreOfShaped(name: string, top: seq<Pipeline.Hit>, req: Request, i: nat)
    requires i < |top|
    ensures i < |Pipeline.HitValues(name, top, req.query, req.filter, req.highlight)|
    ensures ScoreOf(Pipeline.HitValues(name, top, req.query, req.filter, req.highlight)[i]) == top[i].score
  {
    ScoreOfHit(name, top[i], req);
  }

  /** Paginating the shaped first `from + size` hits at `from` shapes the page at `from`. */
  lemma ShapedPage(name: string, ranked: seq<Pipeline.Hit>, from: nat, size: nat, req: Request)
    ensures Pipeline.Page(Pipeline.HitValues(name, Pipeline.Page(ranked, 0, from + size), req.query, req.filter, req.highlight), from, size)
            == Pipeline.HitValues(name, Pipeline.Page(ranked, from, size), req.query, req.filter, req.highlight)
  {
    var top := Pipeline.Page(ranked, 0, from + size);
    var first := Pipeline.HitValues(name, top, req.query, req.filter, req.highlight);
    var lhs := Pipeline.Page(first, from, size);
    var rhs := Pipeline.HitValues(name, Pipeline.Page(ranked, from, size), req.query, req.filter, req.highlight);
    assert |lhs| == |rhs|;
    forall i | 0 <= i < |lhs| ensures lhs[i] == rhs[i] {
      assert lhs[i] == first[from + i];
      assert top[from + i] == ranked[from + i];
    }
  }

  /** A leading page of a score-ordered list is score-ordered. */
  lemma PrefixOrdered(ranked: seq<Pipeline.Hit>, n: nat)
    requires forall i, j :: 0 <= i <= j < |ranked| ==> ranked[i].score >= ranked[j].score
    ensures var top := Pipeline.Page(ranked, 0, n);
            forall i, j :: 0 <= i <= j < |top| ==> top[i].score >= top[j].score
  {
    var top := Pipeline.Page(ranked, 0, n);
    forall i, j | 0 <= i <= j < |top| ensures top[i].score >= top[j].score {
      assert top[i] == ranked[i] && top[j] == ranked[j];
    }
  }

  /** The first `n` hits of a score-ordered list, shaped, are left as they are by the merge's sort. */
  lemma ShapedSorted(name: string, ranked: seq<Pipeline.Hit>, n: nat, req: Request)
    requires forall i, j :: 0 <= i <= j < |ranked| ==> ranked[i].score >= ranked[j].score
    ensures var shaped := Pipeline.HitValues(name, Pipeline.Page(ranked, 0, n), req.query, req.filter, req.highlight);
            Sort(shaped, ByScoreDesc) == shaped
  {
    var top := Pipeline.Page(ranked, 0, n);
    PrefixOrdered(ranked, n);
    var shaped := Pipeline.HitValues(name, top, req.query, req.filter, req.highlight);
    forall i | 0 <= i < |top| ensures ScoreOf(shaped[i]) == top[i].score {
      ScoreOfShaped(name, top, req, i);
    }
    ScoresInOrder(shaped, top);
    SortOfSorted(shaped, ByScoreDesc);
  }

  /**
   * Taking the first `from + size` hits of a score-ordered list, re-sorting
   * them by score and paginating once gives the page the list itself has at
   * `from`.
   */
  lemma RepaginateRanked(name: string, ranked: seq<Pipeline.Hit>, req: Request)
    requires forall i, j :: 0 <= i <= j < |ranked| ==> ranked[i].score >= ranked[j].score
    ensures var from, size := Pipeline.FromOrDefault(req.from), Pipeline.SizeOrDefault(req.size);
            var first := Pipeline.HitValues(name, Pipeline.Page(ranked, 0, from + size), req.query, req.filter, req.highlight);
            Pipeline.Page(Sort(first, ByScoreDesc), from, size)
              == Pipeline.HitValues(name, Pipeline.Page(ranked, from, size), req.query, req.filter, req.highlight)
  {
    var from, size := Pipeline.FromOrDefault(req.from), Pipeline.SizeOrDefault(req.size);
    ShapedSorted(name, ranked, from + size, req);
    ShapedPage(name, ranked, from, size, req);
  }

  /**
   * Corrected: with each index searched by `PerIndexRequest` and the merge
   * paginating once, a search of a single index without sort entries answers
   * exactly the hits and the total the index's own search answers.
   */
  lemma PerIndexAgrees(indices: map<string, Index>, v: Visit, req: Request,
                       result: Result<Pipeline.SearchResponse>, single: Result<Pipeline.SearchResponse>)
    requires Answered(indices, v, PerIndexRequest(req), result)
    requires Answered(indices, v, req, single)
    requires Pipeline.SortKeys(req.sort) == []
    ensures result.Ok? && single.Ok?
    ensures HitsArray(MergedFrom(Gather([result]).0, Gather([result]).1, req)) == single.value.hits
    ensures TotalValue(MergedFrom(Gather([result]).0, Gather([result]).1, req)) == single.value.total
  {
    var docs := indices[v.name].documents;
    var cands := Pipeline.Candidates(docs, v.order, req.query);
    var ranked := Pipeline.Rank(cands, req.sort);
    forall i, j | 0 <= i <= j < |ranked| ensures ranked[i].score >= ranked[j].score {
      Pipeline.ScoreOrderWithoutSort(docs, v.order, req.query, req.sort, i, j);
    }
    var wide := PerIndexRequest(req);
    assert result == Ok(Pipeline.Answer(v.name, cands, wide.query, wide.from, wide.size, wide.sort, wide.filter, wide.highlight, 0));
    assert single == Ok(Pipeline.Answer(v.name, cands, req.query, req.from, req.size, req.sort, req.filter, req.highlight, 0));
    AnswersAgree(v.name, cands, req);
    GatherOne(result.value);
  }

  /** `PerIndexAgrees` for the answers themselves, once the candidates rank in score order. */
  lemma AnswersAgree(name: string, cands: seq<Pipeline.Hit>, req: Request)
    requires var ranked := Pipeline.Rank(cands, req.sort);
             forall i, j :: 0 <= i <= j < |ranked| ==> ranked[i].score >= ranked[j].score
    ensures var wide := PerIndexRequest(req);
            var r := Pipeline.Answer(name, cands, wide.query, wide.from, wide.size, wide.sort, wide.filter, wide.highlight, 0);
            var s := Pipeline.Answer(name, cands, req.query, req.from, req.size, req.sort, req.filter, req.highlight, 0);
            && HitsArray(MergedFrom(r.hits, r.total, req)) == s.hits
            && TotalValue(MergedFrom(r.hits, r.total, req)) == s.total
  {
    var ranked := Pipeline.Rank(cands, req.sort);
    RepaginateRanked(name, ranked, req);
    var wide := PerIndexRequest(req);
    var r := Pipeline.Answer(name, cands, wide.query, wide.from, wide.size, wide.sort, wide.filter, wide.highlight, 0);
    var s := Pipeline.Answer(name, cands, req.query, req.from, req.size, req.sort, req.filter, req.highlight, 0);
    var from, size := Pipeline.FromOrDefault(req.from), Pipeline.SizeOrDefault(req.size);
    Pipeline.AnswerCounts(name, cands, wide.query, wide.from, wide.size, wide.sort, wide.filter, wide.highlight, 0);
    Pipeline.AnswerCounts(name, cands, req.query, req.from, req.size, req.sort, req.filter, req.highlight, 0);
    assert r.hits == Pipeline.HitValues(name, Pipeline.Page(ranked, 0, from + size), req.query, req.filter, req.highlight);
    assert s.hits == Pipeline.HitValues(name, Pipeline.Page(ranked, from, size), req.query, req.filter, req.highlight);
    MergedReadBack(r.hits, r.total, req);
  }

}

/**
 * Highlighting (storage/search/highlighting.rs): the query's terms are
 * collected, every occurrence of each term in a field's text is found
 * (case-insensitively), the occurrences are sorted by position, overlapping
 * ones are dropped (the first one kept), and the text is rebuilt with each
 * kept occurrence wrapped in the pre and post tags.
 */
module Highlighting {

  import opened Json
  import opened Text
  import opened SearchUtils
  import opened Sorting

  // ---------------------------------------------------------------------------
  // Query terms
  // ---------------------------------------------------------------------------

  /** Every term is already lowercase. */
  predicate AllLower(ts: seq<string>)
  {
    forall t :: t in ts ==> Lower(t) == t
  }

  /** No term is empty. */
  predicate NoneEmpty(ts: seq<string>)
  {
    forall t :: t in ts ==> t != ""
  }

  /** `tokenize_query`: the whitespace-separated words, lowercased. */
  function Tokenize(q: string): (r: seq<string>)
    ensures |r| == |Words(q)|
    ensures AllLower(r) && NoneEmpty(r)
  {
    var ws := Words(q);
    var r := seq(|ws|, i requires 0 <= i < |ws| => Lower(ws[i]));
    forall t | t in r ensures t != "" && Lower(t) == t {
      var i :| 0 <= i < |r| && r[i] == t;
      assert ws[i] in ws;
      LowerIdempotent(ws[i]);
    }
    r
  }

  /** The text of one match or match_phrase entry: `{"query": s}` or a bare string. */
  function EntryText(v: Value): Option<string>
  {
    match v
    case Obj(q) => (match Get(q, "query") case Some(Str(s)) => Some(s) case _ => None)
    case Str(s) => Some(s)
    case _ => None
  }

  /** The tokens of every entry of a match or match_phrase clause, in order. */
  function EntryTerms(entries: seq<(string, Value)>): (r: seq<string>)
    ensures AllLower(r) && NoneEmpty(r)
  {
    if entries == [] then []
    else
      (match EntryText(entries[0].1) case Some(s) => Tokenize(s) case None => [])
      + EntryTerms(entries[1..])
  }

  /** The string values of a term clause, lowercased whole (not split). */
  function TermValues(entries: seq<(string, Value)>): (r: seq<string>)
    ensures AllLower(r)
  {
    if entries == [] then []
    else
      (if entries[0].1.Str? then LowerIdempotent(entries[0].1.s); [Lower(entries[0].1.s)] else [])
      + TermValues(entries[1..])
  }

  /** The terms of the clause stored under `key`, for the non-recursive clause kinds. */
  function ClauseTerms(q: seq<(string, Value)>, key: string): (r: seq<string>)
    ensures AllLower(r)
    ensures key != "term" ==> NoneEmpty(r)
  {
    match Get(q, key)
    case Some(Obj(e)) =>
      if key == "multi_match" then
        (match Get(e, "query") case Some(Str(s)) => Tokenize(s) case _ => [])
      else if key == "term" then TermValues(e)
      else EntryTerms(e)
    case _ => []
  }

  const BoolKeys: seq<string> := ["must", "should", "must_not", "filter"]

  /** `extract_query_terms`: match, match_phrase, multi_match and term, then the bool lists recursively. */
  function QueryTerms(query: Value): (r: seq<string>)
    ensures AllLower(r)
    decreases query, 3
  {
    match query
    case Obj(q) =>
      ClauseTerms(q, "match") + ClauseTerms(q, "match_phrase") + ClauseTerms(q, "multi_match")
      + ClauseTerms(q, "term")
      + (match Get(q, "bool") case Some(Obj(bf)) => BoolTerms(bf, 0, Obj(bf)) case _ => [])
    case _ => []
  }

  function BoolTerms(bf: seq<(string, Value)>, k: nat, ghost b: Value): (r: seq<string>)
    requires b == Obj(bf) && k <= |BoolKeys|
    ensures AllLower(r)
    decreases b, 2, |BoolKeys| - k
  {
    if k == |BoolKeys| then []
    else
      (match Get(bf, BoolKeys[k]) case Some(list) => ListTerms(list) case None => [])
      + BoolTerms(bf, k + 1, b)
  }

  function ListTerms(list: Value): (r: seq<string>)
    ensures AllLower(r)
    decreases list, 1
  {
    match list
    case Arr(items) => TermsFrom(items, 0, list)
    case _ => []
  }

  function TermsFrom(items: seq<Value>, i: nat, ghost parent: Value): (r: seq<string>)
    requires parent == Arr(items) && i <= |items|
    ensures AllLower(r)
    decreases parent, 0, |items| - i
  {
    if i == |items| then [] else QueryTerms(items[i]) + TermsFrom(items, i + 1, parent)
  }

  /** Only a term clause can contribute the empty term: the other kinds split on whitespace. */
  lemma EmptyTermOnlyFromTerm(q: seq<(string, Value)>)
    ensures "" !in ClauseTerms(q, "match") + ClauseTerms(q, "match_phrase") + ClauseTerms(q, "multi_match")
  {
  }

  /** A term clause holding the empty string yields the empty term. */
  lemma EmptyTermExample()
    ensures QueryTerms(Obj([("term", Obj([("title", Str(""))]))])) == [""]
  {
    var q := [("term", Obj([("title", Str(""))]))];
    assert Get(q, "term") == Some(Obj([("title", Str(""))]));
    assert Get(q, "match") == None && Get(q, "match_phrase") == None;
    assert Get(q, "multi_match") == None && Get(q, "bool") == None;
    assert ClauseTerms(q, "match") == [] && ClauseTerms(q, "match_phrase") == [];
    assert ClauseTerms(q, "multi_match") == [];
    assert Lower("") == "";
    assert TermValues([("title", Str(""))]) == [""];
    assert ClauseTerms(q, "term") == [""];
  }

  // ---------------------------------------------------------------------------
  // Occurrences
  // ---------------------------------------------------------------------------

  /** One occurrence: the characters `start` to `end` (exclusive). */
  datatype Span = Span(start: nat, end: nat)

  /** Position `p` lies inside one of `spans`. */
  predicate Covered(spans: seq<Span>, p: int)
    decreases |spans|
  {
    spans != [] && ((spans[0].start <= p < spans[0].end) || Covered(spans[1..], p))
  }

  /**
   * One step of the scanning loop as written: the next occurrence of `term`
   * at or after `start`, and the position the scan continues from.
   */
  function ScanStep(lower: string, term: string, start: nat): (r: Option<(nat, nat)>)
    requires start <= |lower|
    ensures r.Some? ==> OccursAt(lower, term, r.value.0) && r.value.1 == r.value.0 + |term|
  {
    match FindFrom(lower, term, start)
    case Some(pos) => Some((pos, pos + |term|))
    case None => None
  }

  /** With the empty term the scan finds it where it stands and stays there: the loop never ends. */
  lemma EmptyTermStalls(lower: string, start: nat)
    requires start <= |lower|
    ensures ScanStep(lower, "", start) == Some((start, start))
  {
    assert OccursAt(lower, "", start);
  }

  /** With a non-empty term every step moves the scan forward, so the loop ends. */
  lemma ScanAdvances(lower: string, term: string, start: nat)
    requires start <= |lower| && term != ""
    ensures ScanStep(lower, term, start).Some? ==>
              start < ScanStep(lower, term, start).value.1 <= |lower|
  {
  }

  /**
   * The occurrences the scanning loop collects for one non-empty term, from
   * `from` on: the first occurrence at or after `from`, then the scan goes on
   * from its end. They do not overlap, and every occurrence of the term from
   * `from` on lies inside one of them.
   */
  function Occurrences(lower: string, term: string, from: nat): (r: seq<Span>)
    requires term != "" && from <= |lower|
    ensures forall m :: m in r ==> from <= m.start && m.end == m.start + |term| && OccursAt(lower, term, m.start)
    ensures r == [] <==> FindFrom(lower, term, from).None?
    ensures r != [] ==> r[0] == Span(FindFrom(lower, term, from).value, FindFrom(lower, term, from).value + |term|)
    ensures Chain(r, from)
    ensures forall p {:trigger Covered(r, p)} :: from <= p && OccursAt(lower, term, p) ==> Covered(r, p)
    decreases |lower| - from
  {
    match ScanStep(lower, term, from)
    case None => []
    case Some((pos, next)) =>
      var rest := Occurrences(lower, term, next);
      var r := [Span(pos, next)] + rest;
      assert r[1..] == rest;
      r
  }

  /** The occurrence of a non-empty lowercased term from the list. */
  ghost predicate IsTermAt(lower: string, terms: seq<string>, m: Span)
  {
    exists t :: t in terms && Lower(t) != "" && OccursAt(lower, Lower(t), m.start) && m.end == m.start + |t|
  }

  /** Each span lies in `lower` and is an occurrence of one of the terms. */
  ghost predicate TermsAt(lower: string, terms: seq<string>, ms: seq<Span>)
  {
    forall m :: m in ms ==> m.start <= m.end <= |lower| && IsTermAt(lower, terms, m)
  }

  /**
   * The occurrences the scan collects for one term; none for an empty term.
   * Every occurrence of a non-empty term lies inside one of them.
   */
  function TermOccurrences(lower: string, term: string): (r: seq<Span>)
    ensures forall m :: m in r ==> Lower(term) != "" && m.end == m.start + |term| && OccursAt(lower, Lower(term), m.start)
    ensures Chain(r, 0)
    ensures Lower(term) != "" ==> forall p {:trigger Covered(r, p)} :: OccursAt(lower, Lower(term), p) ==> Covered(r, p)
  {
    if Lower(term) != "" then Occurrences(lower, Lower(term), 0) else []
  }

  /** Every term's occurrences, term by term; an empty term is skipped. */
  function AllMatches(lower: string, terms: seq<string>): (r: seq<Span>)
    ensures TermsAt(lower, terms, r)
    ensures forall t, m {:trigger m in TermOccurrences(lower, t)} :: t in terms && m in TermOccurrences(lower, t) ==> m in r
  {
    if terms == [] then []
    else
      var t := Lower(terms[0]);
      var here := TermOccurrences(lower, terms[0]);
      var rest := AllMatches(lower, terms[1..]);
      assert forall m :: m in rest ==> IsTermAt(lower, terms, m) by {
        forall m | m in rest ensures IsTermAt(lower, terms, m) {
          var u :| u in terms[1..] && Lower(u) != "" && OccursAt(lower, Lower(u), m.start) && m.end == m.start + |u|;
          assert u in terms;
        }
      }
      assert forall m :: m in here ==> IsTermAt(lower, terms, m) by {
        forall m | m in here ensures IsTermAt(lower, terms, m) {
          assert terms[0] in terms && |t| == |terms[0]|;
        }
      }
      CollectComplete(lower, terms, rest);
      here + rest
  }

  /** With the later terms' occurrences collected in `rest`, every term's are collected. */
  lemma CollectComplete(lower: string, terms: seq<string>, rest: seq<Span>)
    requires terms != []
    requires forall t, m :: t in terms[1..] && m in TermOccurrences(lower, t) ==> m in rest
    ensures forall t, m :: t in terms && m in TermOccurrences(lower, t) ==> m in TermOccurrences(lower, terms[0]) + rest
  {
    assert terms == [terms[0]] + terms[1..];
  }

  /** Order occurrences by their start. */
  function ByStart(a: Span, b: Span): Ordering
  {
    if a.start < b.start then Less else if a.start == b.start then Equal else Greater
  }

  lemma ByStartPreorder()
    ensures TotalPreorder(ByStart)
  {
  }

  /** `spans` start at or after `last`, each ends before the next starts. */
  predicate Chain(spans: seq<Span>, last: nat)
    decreases |spans|
  {
    spans == [] || (last <= spans[0].start <= spans[0].end && Chain(spans[1..], spans[0].end))
  }

  /** The spans are ordered by start. */
  predicate StartOrdered(ms: seq<Span>)
  {
    forall i, j :: 0 <= i < j < |ms| ==> ms[i].start <= ms[j].start
  }

  /**
   * Keep an occurrence when it starts at or after the end of the last one
   * kept. Over spans ordered by start, an occurrence from `last` on that is
   * dropped starts inside one that is kept.
   */
  function Keep(ms: seq<Span>, last: nat): (r: seq<Span>)
    requires forall m :: m in ms ==> m.start <= m.end
    ensures Chain(r, last)
    ensures forall m :: m in r ==> m in ms
    ensures StartOrdered(ms) ==> forall m {:trigger m in ms} :: m in ms && last <= m.start ==> m in r || Covered(r, m.start)
  {
    if ms == [] then []
    else
      assert forall m :: m in ms[1..] ==> m in ms;
      if ms[0].start >= last then
        var rest := Keep(ms[1..], ms[0].end);
        KeepKept(ms, last, rest);
        [ms[0]] + rest
      else
        var r := Keep(ms[1..], last);
        KeepDropped(ms, last, r);
        r
  }

  /** Without its first span an ordered list stays ordered, and that span starts first. */
  lemma OrderedTail(ms: seq<Span>)
    requires ms != [] && StartOrdered(ms)
    ensures StartOrdered(ms[1..])
    ensures forall m :: m in ms[1..] ==> ms[0].start <= m.start
  {
    forall m | m in ms[1..] ensures ms[0].start <= m.start {
      var j :| 0 <= j < |ms[1..]| && ms[1..][j] == m;
      assert ms[j + 1] == m;
    }
  }

  /** The covering property of `Keep` when the first span is kept. */
  lemma KeepKept(ms: seq<Span>, last: nat, rest: seq<Span>)
    requires ms != [] && last <= ms[0].start <= ms[0].end
    requires StartOrdered(ms[1..]) ==> forall m :: m in ms[1..] && ms[0].end <= m.start ==> m in rest || Covered(rest, m.start)
    ensures StartOrdered(ms) ==>
              forall m :: m in ms && last <= m.start ==> m in [ms[0]] + rest || Covered([ms[0]] + rest, m.start)
  {
    if StartOrdered(ms) {
      OrderedTail(ms);
      var r := [ms[0]] + rest;
      assert r[1..] == rest;
      assert ms == [ms[0]] + ms[1..];
      forall m | m in ms && last <= m.start ensures m in r || Covered(r, m.start) {
        if m != ms[0] && m.start < ms[0].end {
          assert m in ms[1..];
          assert Covered(r, m.start);
        }
      }
    }
  }

  /** The covering property of `Keep` when the first span is dropped. */
  lemma KeepDropped(ms: seq<Span>, last: nat, r: seq<Span>)
    requires ms != [] && ms[0].start < last
    requires StartOrdered(ms[1..]) ==> forall m :: m in ms[1..] && last <= m.start ==> m in r || Covered(r, m.start)
    ensures StartOrdered(ms) ==> forall m {:trigger m in ms} :: m in ms && last <= m.start ==> m in r || Covered(r, m.start)
  {
    if StartOrdered(ms) {
      OrderedTail(ms);
      assert ms == [ms[0]] + ms[1..];
    }
  }

  /**
   * The kept occurrences: sorted by start, overlaps dropped. Every collected
   * occurrence is kept or starts inside a kept one. Not every occurrence in
   * the text is collected: the scan of one term resumes after each
   * occurrence, so in "abbb" with the terms "ab" and "bb" the scan of "bb"
   * takes 1..3 and never sees 2..4, and only 0..2 is kept.
   */
  function Spans(text: string, terms: seq<string>): (r: seq<Span>)
    ensures Fits(text, r, 0)
    ensures TermsAt(Lower(text), terms, r)
    ensures forall m {:trigger m in AllMatches(Lower(text), terms)} :: m in AllMatches(Lower(text), terms) ==> m in r || Covered(r, m.start)
  {
    var ms := AllMatches(Lower(text), terms);
    var sorted := Sort(ms, ByStart);
    assert forall m :: m in sorted <==> m in ms by {
      forall m ensures m in sorted <==> m in ms {
        assert m in sorted <==> m in multiset(sorted);
      }
    }
    ByStartPreorder();
    SortSorted(ms, ByStart, set m | m in ms);
    OrderedByStart(sorted);
    var r := Keep(sorted, 0);
    assert forall k :: 0 <= k < |r| ==> r[k].end <= |text| by {
      forall k | 0 <= k < |r| ensures r[k].end <= |text| {
        assert r[k] in r;
      }
    }
    r
  }

  /** Sorted by `ByStart`, the spans are ordered by start. */
  lemma {:induction false} OrderedByStart(ms: seq<Span>)
    requires SortedBy(ms, ByStart)
    ensures StartOrdered(ms)
  {
    if ms != [] {
      assert SortedBy(ms[1..], ByStart) by {
        forall i | 0 < i < |ms[1..]| ensures ByStart(ms[1..][i - 1], ms[1..][i]) != Greater {
          assert ms[1..][i - 1] == ms[i] && ms[1..][i] == ms[i + 1];
        }
      }
      OrderedByStart(ms[1..]);
      forall i, j | 0 <= i < j < |ms| ensures ms[i].start <= ms[j].start {
        if i > 0 {
          assert ms[i] == ms[1..][i - 1] && ms[j] == ms[1..][j - 1];
        } else if j > 1 {
          assert ms[1] == ms[1..][0] && ms[j] == ms[1..][j - 1];
        }
      }
    }
  }

  /** The spans are a chain from `last` inside the text. */
  predicate Fits(text: string, spans: seq<Span>, last: nat)
  {
    last <= |text| && Chain(spans, last) && forall k :: 0 <= k < |spans| ==> spans[k].end <= |text|
  }

  /** The text from `last` on, with each span wrapped in the tags. */
  function Render(text: string, spans: seq<Span>, pre: string, post: string, last: nat): string
    requires Fits(text, spans, last)
    decreases |spans|
  {
    if spans == [] then (if last < |text| then text[last..] else "")
    else
      var s := spans[0];
      (if s.start > last then text[last..s.start] else "") + pre + text[s.start..s.end] + post
        + Render(text, spans[1..], pre, post, s.end)
  }

  /** `highlight_text`. */
  function Highlight(text: string, terms: seq<string>, pre: string, post: string): string
  {
    if terms == [] then text
    else
      var spans := Spans(text, terms);
      Render(text, spans, pre, post, 0)
  }

  // ---------------------------------------------------------------------------
  // Which occurrence is kept
  // ---------------------------------------------------------------------------

  /** Some span of `spans` starts at `p`. */
  predicate StartsAt(spans: seq<Span>, p: nat)
    decreases |spans|
  {
    spans != [] && (spans[0].start == p || StartsAt(spans[1..], p))
  }

  /** The scan of term `t` collects an occurrence starting at `p`. */
  predicate ScanHits(lower: string, t: string, p: nat)
  {
    StartsAt(TermOccurrences(lower, t), p)
  }

  /** The spans tied with `m` by start are those starting at `m.start`. */
  lemma {:induction false} TiesStartsAt(spans: seq<Span>, m: Span)
    ensures Ties(spans, ByStart, m) != [] <==> StartsAt(spans, m.start)
    decreases |spans|
  {
    if spans != [] {
      TiesStartsAt(spans[1..], m);
    }
  }

  /** Term `i` is the first of `terms` whose scan collects an occurrence at `p`. */
  predicate FirstHit(lower: string, terms: seq<string>, p: nat, i: nat)
  {
    i < |terms| && ScanHits(lower, terms[i], p) && forall j :: 0 <= j < i ==> !ScanHits(lower, terms[j], p)
  }

  /** A kept span starts at or after `last`. */
  lemma {:induction false} KeptAfter(ms: seq<Span>, last: nat, m: Span)
    requires forall s :: s in ms ==> s.start <= s.end
    requires m in Keep(ms, last)
    ensures last <= m.start
  {
    assert ms[0] in ms;
    assert forall s :: s in ms[1..] ==> s in ms;
    if ms[0].start >= last {
      if m != ms[0] {
        KeptAfter(ms[1..], ms[0].end, m);
      }
    } else {
      KeptAfter(ms[1..], last, m);
    }
  }

  /** Of the occurrences starting where a kept span starts, the kept one is the first. */
  lemma {:induction false} KeepFirstAtStart(ms: seq<Span>, last: nat, m: Span)
    requires forall s :: s in ms ==> s.start < s.end
    requires m in Keep(ms, last)
    ensures Ties(ms, ByStart, m) != [] && Ties(ms, ByStart, m)[0] == m
  {
    assert ms[0] in ms;
    assert forall s :: s in ms[1..] ==> s in ms;
    if ms[0].start >= last && m == ms[0] {
      assert ByStart(ms[0], m) == Equal;
    } else {
      var last' := if ms[0].start >= last then ms[0].end else last;
      KeptAfter(ms[1..], last', m);
      assert ByStart(ms[0], m) != Equal;
      KeepFirstAtStart(ms[1..], last', m);
    }
  }

  /** One term's occurrences at `m.start`: there are some exactly when its scan reached there, and the first is the term's span. */
  lemma HeadTies(lower: string, term: string, m: Span)
    ensures var ties := Ties(TermOccurrences(lower, term), ByStart, m);
            (ties != [] <==> ScanHits(lower, term, m.start))
            && (ties != [] ==> ties[0] == Span(m.start, m.start + |term|))
  {
    var here := TermOccurrences(lower, term);
    var ties := Ties(here, ByStart, m);
    TiesStartsAt(here, m);
    if ties != [] {
      assert ties[0] in ties;
    }
  }

  /**
   * Of the collected occurrences that start at `m.start`, the first comes
   * from the first term, in the order of `terms`, whose scan reached there.
   */
  lemma {:induction false} FirstAtStartTerm(lower: string, terms: seq<string>, m: Span)
    requires Ties(AllMatches(lower, terms), ByStart, m) != []
    ensures exists i: nat :: FirstHit(lower, terms, m.start, i)
              && Ties(AllMatches(lower, terms), ByStart, m)[0] == Span(m.start, m.start + |terms[i]|)
  {
    var here := TermOccurrences(lower, terms[0]);
    var rest := AllMatches(lower, terms[1..]);
    assert AllMatches(lower, terms) == here + rest;
    TiesAppend(here, rest, ByStart, m);
    HeadTies(lower, terms[0], m);
    if ScanHits(lower, terms[0], m.start) {
      assert FirstHit(lower, terms, m.start, 0);
    } else {
      FirstAtStartTerm(lower, terms[1..], m);
      var i: nat :| FirstHit(lower, terms[1..], m.start, i)
                && Ties(rest, ByStart, m)[0] == Span(m.start, m.start + |terms[1..][i]|);
      FirstHitCons(lower, terms, m.start, i);
    }
  }

  /** A first hit among the later terms is a first hit of the whole list when the first term misses. */
  lemma FirstHitCons(lower: string, terms: seq<string>, p: nat, i: nat)
    requires terms != [] && !ScanHits(lower, terms[0], p) && FirstHit(lower, terms[1..], p, i)
    ensures FirstHit(lower, terms, p, i + 1) && terms[i + 1] == terms[1..][i]
  {
    forall j | 0 <= j < i + 1 ensures !ScanHits(lower, terms[j], p) {
      if j > 0 {
        assert terms[j] == terms[1..][j - 1];
      }
    }
  }

  /**
   * Where occurrences of several terms start at the same place, the span
   * kept there is the occurrence of the first term, in the order of
   * `terms`, whose scan reached that place: the sort by start is stable and
   * the keep takes the first.
   */
  lemma SpanTieBreak(text: string, terms: seq<string>, m: Span)
    requires m in Spans(text, terms)
    ensures exists i: nat :: FirstHit(Lower(text), terms, m.start, i) && m == Span(m.start, m.start + |terms[i]|)
  {
    var ms := AllMatches(Lower(text), terms);
    var sorted := Sort(ms, ByStart);
    var dom := (set s | s in ms) + {m};
    ByStartPreorder();
    assert forall s :: s in ms ==> s.start < s.end by {
      forall s | s in ms ensures s.start < s.end {
        assert IsTermAt(Lower(text), terms, s);
      }
    }
    forall s | s in sorted ensures s.start < s.end {
      assert s in multiset(sorted);
    }
    KeepFirstAtStart(sorted, 0, m);
    SortStable(ms, ByStart, dom, m);
    FirstAtStartTerm(Lower(text), terms, m);
  }

  /** No term occurs: nothing is collected. */
  lemma {:induction false} NoMatches(lower: string, terms: seq<string>)
    requires forall t, p :: t in terms && Lower(t) != "" ==> !OccursAt(lower, Lower(t), p)
    ensures AllMatches(lower, terms) == []
  {
    if terms != [] {
      assert terms[0] in terms;
      assert forall t :: t in terms[1..] ==> t in terms;
      NoMatches(lower, terms[1..]);
      var here := TermOccurrences(lower, terms[0]);
      assert here == [] by {
        if Lower(terms[0]) != "" {
          assert FindFrom(lower, Lower(terms[0]), 0).None?;
        }
      }
    }
  }

  /** A text in which no term occurs yields no spans. */
  lemma NoOccurrenceNoSpans(text: string, terms: seq<string>)
    requires forall t, p :: t in terms && Lower(t) != "" ==> !OccursAt(Lower(text), Lower(t), p)
    ensures Spans(text, terms) == []
  {
    NoMatches(Lower(text), terms);
    assert Sort([], ByStart) == [];
  }

  /** A position inside one of the spans lies inside a particular one. */
  lemma {:induction false} CoveredBy(spans: seq<Span>, p: int) returns (m: Span)
    requires Covered(spans, p)
    ensures m in spans && m.start <= p < m.end
    decreases |spans|
  {
    if spans[0].start <= p < spans[0].end {
      m := spans[0];
    } else {
      m := CoveredBy(spans[1..], p);
    }
  }

  /** A non-empty span of the list covers its own start. */
  lemma {:induction false} CoversOwnStart(spans: seq<Span>, m: Span)
    requires m in spans && m.start < m.end
    ensures Covered(spans, m.start)
    decreases |spans|
  {
    if spans[0] != m {
      assert m in spans[1..];
      CoversOwnStart(spans[1..], m);
    }
  }

  /**
   * Where a non-empty term occurs, something is highlighted: the occurrence
   * lies inside one its scan collected, and that one starts inside a kept
   * span.
   */
  lemma OccurrenceReachesSpan(text: string, terms: seq<string>, t: string, p: int)
    requires t in terms && Lower(t) != "" && OccursAt(Lower(text), Lower(t), p)
    ensures Spans(text, terms) != []
    ensures exists m :: m in TermOccurrences(Lower(text), t) && m.start <= p < m.end && Covered(Spans(text, terms), m.start)
  {
    var lower := Lower(text);
    var m := CoveredBy(TermOccurrences(lower, t), p);
    var r := Spans(text, terms);
    if m in r {
      CoversOwnStart(r, m);
    }
  }

  /**
   * The scan of one term skips occurrences that overlap one it collected, so
   * an occurrence can go unhighlighted: "bb" occurs at 2 in "abbb", yet only
   * "ab" at 0 is kept.
   */
  lemma OverlappedOccurrenceSkipped()
    ensures OccursAt("abbb", "bb", 2)
    ensures Spans("abbb", ["ab", "bb"]) == [Span(0, 2)]
  {
    ScanOfAbbb();
    LowerOfAbbb();
    MatchesOfAbbb();
    SortOfAbbb();
    KeepOfAbbb();
  }

  /** "abbb" is already lowercase. */
  lemma LowerOfAbbb()
    ensures Lower("abbb") == "abbb"
  {
    assert "abbb"[1..] == "bbb" && "bbb"[1..] == "bb" && "bb"[1..] == "b" && "b"[1..] == "";
  }

  /** The occurrences collected for "ab" and "bb" over "abbb". */
  lemma MatchesOfAbbb()
    ensures AllMatches("abbb", ["ab", "bb"]) == [Span(0, 2), Span(1, 3)]
  {
    ScanOfAbbb();
    MatchesOfBb();
    assert ["ab", "bb"][1..] == ["bb"];
  }

  /** The second term alone matches once in "abbb". */
  lemma MatchesOfBb()
    ensures AllMatches("abbb", ["bb"]) == [Span(1, 3)]
  {
    ScanOfAbbb();
    assert ["bb"][1..] == [];
  }

  /** Those occurrences are already ordered by start. */
  lemma SortOfAbbb()
    ensures Sort([Span(0, 2), Span(1, 3)], ByStart) == [Span(0, 2), Span(1, 3)]
  {
    assert [Span(0, 2), Span(1, 3)][1..] == [Span(1, 3)];
    assert Sort([Span(1, 3)], ByStart) == [Span(1, 3)];
  }

  /** The keep drops the occurrence that overlaps the first. */
  lemma KeepOfAbbb()
    ensures Keep([Span(0, 2), Span(1, 3)], 0) == [Span(0, 2)]
  {
    assert [Span(0, 2), Span(1, 3)][1..] == [Span(1, 3)];
  }

  /** The scans of "ab" and "bb" over "abbb". */
  lemma ScanOfAbbb()
    ensures TermOccurrences("abbb", "ab") == [Span(0, 2)]
    ensures TermOccurrences("abbb", "bb") == [Span(1, 3)]
    ensures OccursAt("abbb", "bb", 2)
  {
    var w := "abbb"[2..4];
    assert |w| == 2 && w[0] == 'b' && w[1] == 'b';
    assert w == "bb";
    assert Lower("ab") == "ab" && Lower("bb") == "bb";
    assert FindFrom("abbb", "ab", 0) == Some(0);
    assert FindFrom("abbb", "ab", 2) == None;
    assert FindFrom("abbb", "bb", 0) == Some(1);
    assert FindFrom("abbb", "bb", 3) == None;
  }

  /** Without spans the text comes back unchanged, whatever the tags. */
  lemma NoSpansUnchanged(text: string, terms: seq<string>, pre: string, post: string)
    requires Spans(text, terms) == []
    ensures Highlight(text, terms, pre, post) == text
  {
    if terms != [] {
      assert Render(text, [], pre, post, 0) == text[0..];
    }
  }

  /** The first span lies between `last` and the end of the text, and the others fit after it. */
  lemma FitsTail(text: string, spans: seq<Span>, last: nat)
    requires Fits(text, spans, last) && spans != []
    ensures last <= spans[0].start <= spans[0].end <= |text|
    ensures Fits(text, spans[1..], spans[0].end)
  {
    var tail := spans[1..];
    forall k | 0 <= k < |tail|
      ensures tail[k] == spans[k + 1]
    {
    }
  }

  /** With empty tags the rendering gives back the text. */
  lemma {:induction false} RenderPlain(text: string, spans: seq<Span>, last: nat)
    requires Fits(text, spans, last)
    ensures Render(text, spans, "", "", last) == text[last..]
    decreases |spans|
  {
    if spans != [] {
      var s := spans[0];
      FitsTail(text, spans, last);
      RenderPlain(text, spans[1..], s.end);
      assert text[last..] == text[last..s.start] + text[s.start..s.end] + text[s.end..];
    }
  }

  lemma MulSucc(n: nat, k: nat)
    ensures (n + 1) * k == n * k + k
  {
  }

  /** Each span adds exactly the two tags. */
  lemma {:induction false} RenderLength(text: string, spans: seq<Span>, pre: string, post: string, last: nat)
    requires Fits(text, spans, last)
    ensures |Render(text, spans, pre, post, last)| == |text| - last + |spans| * (|pre| + |post|)
    decreases |spans|
  {
    if spans != [] {
      var s := spans[0];
      FitsTail(text, spans, last);
      RenderLength(text, spans[1..], pre, post, s.end);
      var gap := if s.start > last then text[last..s.start] else "";
      assert |gap| == s.start - last;
      assert |Render(text, spans, pre, post, last)|
             == |gap| + |pre| + (s.end - s.start) + |post| + |Render(text, spans[1..], pre, post, s.end)|;
      MulSucc(|spans[1..]|, |pre| + |post|);
    }
  }

  /** Highlighting with empty tags changes nothing, and otherwise only inserts tags. */
  lemma HighlightPlain(text: string, terms: seq<string>)
    ensures Highlight(text, terms, "", "") == text
  {
    if terms != [] {
      var spans := Spans(text, terms);
      RenderPlain(text, spans, 0);
    }
  }

  lemma HighlightLength(text: string, terms: seq<string>, pre: string, post: string)
    requires terms != []
    ensures |Highlight(text, terms, pre, post)| == |text| + |Spans(text, terms)| * (|pre| + |post|)
  {
    var spans := Spans(text, terms);
    RenderLength(text, spans, pre, post, 0);
  }

  // ---------------------------------------------------------------------------
  // The engine's loops
  // ---------------------------------------------------------------------------

  lemma Associative<T>(a: seq<T>, b: seq<T>, c: seq<T>)
    ensures (a + b) + c == a + (b + c)
  {
  }

  /** The end of the last kept occurrence; 0 stands for "nothing kept yet". */
  function LastEnd(kept: seq<Span>): nat
  {
    if kept == [] then 0 else kept[|kept| - 1].end
  }

  /** `highlight_text`: scan, sort by start, drop overlaps, rebuild. */
  method HighlightText(text: string, terms: seq<string>, pre: string, post: string) returns (out: string)
    ensures out == Highlight(text, terms, pre, post)
  {
    if terms == [] {
      return text;
    }
    var matches := CollectMatches(Lower(text), terms);
    ByStartPreorder();
    var sorted := InsertionSort(matches, ByStart);
    assert forall m :: m in sorted ==> m.start <= m.end by {
      forall m | m in sorted ensures m.start <= m.end {
        assert m in multiset(sorted);
      }
    }
    var kept := KeepLoop(sorted);
    assert kept == Spans(text, terms);
    out := BuildLoop(text, kept, pre, post);
  }

  /** The scanning loop of every term; an empty term is skipped rather than scanned forever. */
  method CollectMatches(lower: string, terms: seq<string>) returns (matches: seq<Span>)
    ensures matches == AllMatches(lower, terms)
  {
    matches := [];
    var t := 0;
    assert terms[t..] == terms;
    assert matches + AllMatches(lower, terms) == AllMatches(lower, terms);
    while t < |terms|
      invariant 0 <= t <= |terms|
      invariant matches + AllMatches(lower, terms[t..]) == AllMatches(lower, terms)
    {
      var term := Lower(terms[t]);
      var here: seq<Span> := [];
      if term != "" {
        here := ScanTerm(lower, term);
      }
      ghost var rest := AllMatches(lower, terms[t + 1..]);
      assert terms[t..][1..] == terms[t + 1..];
      assert AllMatches(lower, terms[t..]) == here + rest;
      Associative(matches, here, rest);
      matches := matches + here;
      t := t + 1;
    }
    assert terms[|terms|..] == [];
  }

  /** One round of the scan peels the first occurrence off the ones still to collect. */
  lemma ScanUnrolls(lower: string, term: string, start: nat)
    requires term != "" && start <= |lower|
    ensures ScanStep(lower, term, start).None? ==> Occurrences(lower, term, start) == []
    ensures ScanStep(lower, term, start).Some? ==>
              var (pos, next) := ScanStep(lower, term, start).value;
              start < next <= |lower| && Occurrences(lower, term, start) == [Span(pos, next)] + Occurrences(lower, term, next)
  {
    ScanAdvances(lower, term, start);
  }

  /** The scanning loop of one non-empty term: each search resumes at the end of the last occurrence. */
  method ScanTerm(lower: string, term: string) returns (found: seq<Span>)
    requires term != ""
    ensures found == Occurrences(lower, term, 0)
  {
    found := [];
    var start := 0;
    while true
      invariant start <= |lower|
      invariant found + Occurrences(lower, term, start) == Occurrences(lower, term, 0)
      decreases |lower| - start
    {
      var step := ScanStep(lower, term, start);
      ScanUnrolls(lower, term, start);
      if step.None? {
        break;
      }
      found := found + [Span(step.value.0, step.value.1)];
      start := step.value.1;
    }
  }

  /** The overlap filter: an occurrence is kept when nothing is kept yet or it starts after the last kept end. */
  method KeepLoop(sorted: seq<Span>) returns (kept: seq<Span>)
    requires forall m :: m in sorted ==> m.start <= m.end
    ensures kept == Keep(sorted, 0)
  {
    kept := [];
    var i := 0;
    while i < |sorted|
      invariant 0 <= i <= |sorted|
      invariant kept + Keep(sorted[i..], LastEnd(kept)) == Keep(sorted, 0)
    {
      var m := sorted[i];
      ghost var before := kept;
      if kept == [] || m.start >= kept[|kept| - 1].end {
        kept := kept + [m];
      }
      KeepStep(sorted, i, before, kept);
      i := i + 1;
    }
    assert sorted[|sorted|..] == [];
  }

  /** One turn of `KeepLoop`: the `i`-th occurrence is kept exactly when `Keep` keeps it. */
  lemma KeepStep(sorted: seq<Span>, i: nat, kept: seq<Span>, kept': seq<Span>)
    requires i < |sorted| && forall m :: m in sorted ==> m.start <= m.end
    requires kept' == if kept == [] || sorted[i].start >= kept[|kept| - 1].end then kept + [sorted[i]] else kept
    ensures kept' + Keep(sorted[i + 1..], LastEnd(kept')) == kept + Keep(sorted[i..], LastEnd(kept))
  {
    var ms := sorted[i..];
    assert ms[0] == sorted[i] && ms[1..] == sorted[i + 1..];
    assert forall m :: m in ms ==> m in sorted;
    if kept == [] || sorted[i].start >= kept[|kept| - 1].end {
      assert Keep(ms, LastEnd(kept)) == [sorted[i]] + Keep(sorted[i + 1..], sorted[i].end);
      assert LastEnd(kept') == sorted[i].end;
      Associative(kept, [sorted[i]], Keep(sorted[i + 1..], sorted[i].end));
    } else {
      assert Keep(ms, LastEnd(kept)) == Keep(sorted[i + 1..], LastEnd(kept));
    }
  }

  /** The building loop: the text between occurrences, each occurrence in its tags, then the tail. */
  method BuildLoop(text: string, kept: seq<Span>, pre: string, post: string) returns (out: string)
    requires Fits(text, kept, 0)
    ensures out == Render(text, kept, pre, post, 0)
  {
    out := "";
    var last: nat := 0;
    var k := 0;
    assert kept[k..] == kept;
    while k < |kept|
      invariant 0 <= k <= |kept|
      invariant Fits(text, kept[k..], last)
      invariant out + Render(text, kept[k..], pre, post, last) == Render(text, kept, pre, post, 0)
    {
      var s := kept[k];
      assert kept[k..][1..] == kept[k + 1..];
      var gap := if s.start > last then text[last..s.start] else "";
      var piece := gap + pre + text[s.start..s.end] + post;
      ghost var rest := Render(text, kept[k + 1..], pre, post, s.end);
      assert Render(text, kept[k..], pre, post, last) == piece + rest;
      Associative(out, piece, rest);
      out := out + piece;
      last := s.end;
      k := k + 1;
    }
    if last < |text| {
      out := out + text[last..];
    }
  }

  /** The tokens of every entry, entry by entry. */
  method EntryTermsLoop(entries: seq<(string, Value)>) returns (r: seq<string>)
    ensures r == EntryTerms(entries)
  {
    r := [];
    var i := 0;
    while i < |entries|
      invariant 0 <= i <= |entries|
      invariant r + EntryTerms(entries[i..]) == EntryTerms(entries)
    {
      ghost var r0 := r;
      var text := EntryText(entries[i].1);
      if text.Some? {
        r := r + Tokenize(text.value);
      }
      EntryTermsStep(entries, i, r0, r);
      i := i + 1;
    }
    assert entries[|entries|..] == [];
  }

  /** One turn of `EntryTermsLoop`: the tokens of entry `i` move from the pending terms to the collected ones. */
  lemma EntryTermsStep(entries: seq<(string, Value)>, i: nat, r0: seq<string>, r: seq<string>)
    requires i < |entries| && r0 + EntryTerms(entries[i..]) == EntryTerms(entries)
    requires r == r0 + match EntryText(entries[i].1) case Some(s) => Tokenize(s) case None => []
    ensures r + EntryTerms(entries[i + 1..]) == EntryTerms(entries)
  {
    assert entries[i..][1..] == entries[i + 1..];
    var here := match EntryText(entries[i].1) case Some(s) => Tokenize(s) case None => [];
    assert EntryTerms(entries[i..]) == here + EntryTerms(entries[i + 1..]);
    Associative(r0, here, EntryTerms(entries[i + 1..]));
  }

  /** The lowercased string values of a term clause. */
  method TermValuesLoop(entries: seq<(string, Value)>) returns (r: seq<string>)
    ensures r == TermValues(entries)
  {
    r := [];
    var i := 0;
    while i < |entries|
      invariant 0 <= i <= |entries|
      invariant r + TermValues(entries[i..]) == TermValues(entries)
    {
      assert entries[i..][1..] == entries[i + 1..];
      if entries[i].1.Str? {
        r := r + [Lower(entries[i].1.s)];
      }
      i := i + 1;
    }
    assert entries[|entries|..] == [];
  }

  method ClauseTermsOf(q: seq<(string, Value)>, key: string) returns (r: seq<string>)
    ensures r == ClauseTerms(q, key)
  {
    var clause := Get(q, key);
    if clause.Some? && clause.value.Obj? {
      var e := clause.value.fields;
      if key == "multi_match" {
        var text := Get(e, "query");
        r := if text.Some? && text.value.Str? then Tokenize(text.value.s) else [];
      } else if key == "term" {
        r := TermValuesLoop(e);
      } else {
        r := EntryTermsLoop(e);
      }
    } else {
      r := [];
    }
  }

  /** `extract_query_terms`. */
  method ExtractQueryTerms(query: Value) returns (r: seq<string>)
    ensures r == QueryTerms(query)
    decreases query, 3
  {
    if !query.Obj? {
      return [];
    }
    var q := query.fields;
    var m := ClauseTermsOf(q, "match");
    var p := ClauseTermsOf(q, "match_phrase");
    var mm := ClauseTermsOf(q, "multi_match");
    var t := ClauseTermsOf(q, "term");
    r := m + p + mm + t;
    var b := Get(q, "bool");
    if b.Some? && b.value.Obj? {
      var nested := BoolTermsLoop(b.value.fields, b.value);
      r := r + nested;
    }
  }

  /** The four clause lists of a bool query, in the order must, should, must_not, filter. */
  method BoolTermsLoop(bf: seq<(string, Value)>, ghost b: Value) returns (r: seq<string>)
    requires b == Obj(bf)
    ensures r == BoolTerms(bf, 0, b)
    decreases b, 2
  {
    r := [];
    var k := 0;
    while k < |BoolKeys|
      invariant 0 <= k <= |BoolKeys|
      invariant r + BoolTerms(bf, k, b) == BoolTerms(bf, 0, b)
    {
      ghost var r0 := r;
      var list := Get(bf, BoolKeys[k]);
      if list.Some? && list.value.Arr? {
        var ts := ListTermsLoop(list.value.items, list.value);
        r := r + ts;
      }
      BoolTermsStep(bf, k, b, r0, r);
      k := k + 1;
    }
  }

  /** One turn of `BoolTermsLoop`: the terms of the `k`-th bool list move from the pending terms to the collected ones. */
  lemma BoolTermsStep(bf: seq<(string, Value)>, k: nat, b: Value, r0: seq<string>, r: seq<string>)
    requires b == Obj(bf) && k < |BoolKeys| && r0 + BoolTerms(bf, k, b) == BoolTerms(bf, 0, b)
    requires r == r0 + match Get(bf, BoolKeys[k]) case Some(list) => ListTerms(list) case None => []
    ensures r + BoolTerms(bf, k + 1, b) == BoolTerms(bf, 0, b)
  {
    var here := match Get(bf, BoolKeys[k]) case Some(list) => ListTerms(list) case None => [];
    assert BoolTerms(bf, k, b) == here + BoolTerms(bf, k + 1, b);
    Associative(r0, here, BoolTerms(bf, k + 1, b));
  }

  method ListTermsLoop(items: seq<Value>, ghost parent: Value) returns (r: seq<string>)
    requires parent == Arr(items)
    ensures r == ListTerms(parent)
    decreases parent, 1
  {
    r := [];
    var i := 0;
    while i < |items|
      invariant 0 <= i <= |items|
      invariant r + TermsFrom(items, i, parent) == TermsFrom(items, 0, parent)
    {
      var ts := ExtractQueryTerms(items[i]);
      r := r + ts;
      i := i + 1;
    }
  }

  // ---------------------------------------------------------------------------
  // Highlighting a document
  // ---------------------------------------------------------------------------

  /** The first string of the tag list under `key`, else the default. */
  function Tag(c: seq<(string, Value)>, key: string, default: string): string
  {
    match Get(c, key)
    case Some(Arr(items)) => if |items| > 0 && items[0].Str? then items[0].s else default
    case _ => default
  }

  /** The entry for one field: its highlighted text in a one-element array, unless empty. */
  function FieldEntry(doc: Value, f: string, terms: seq<string>, pre: string, post: string): Option<Value>
  {
    match FieldValue(doc, f)
    case Some(Str(s)) =>
      var h := Highlight(s, terms, pre, post);
      if h != "" then Some(Arr([Str(h)])) else None
    case _ => None
  }

  /** `FieldEntry` for every field of one document, query and pair of tags. */
  function EntryOf(doc: Value, terms: seq<string>, pre: string, post: string): string -> Option<Value>
  {
    f => FieldEntry(doc, f, terms, pre, post)
  }

  /** The result object after the first `n` configured fields, each given its entry by `entry`. */
  function HighlightFields(entry: string -> Option<Value>, fields: seq<string>, n: nat): seq<(string, Value)>
    requires n <= |fields|
  {
    if n == 0 then []
    else
      var acc := HighlightFields(entry, fields, n - 1);
      match entry(fields[n - 1])
      case Some(e) => Put(acc, fields[n - 1], e)
      case None => acc
  }

  /** The configured field names, or None when the configuration names none. */
  function ConfiguredFields(config: Value): Option<seq<string>>
  {
    match config
    case Obj(c) => (match Get(c, "fields") case Some(Obj(fo)) => Some(Keys(fo)) case _ => None)
    case _ => None
  }

  /** `highlight_document`. */
  function HighlightDoc(doc: Value, query: Value, config: Value): Option<Value>
  {
    match ConfiguredFields(config)
    case None => None
    case Some(fields) =>
      var pre := Tag(config.fields, "pre_tags", "<em>");
      var post := Tag(config.fields, "post_tags", "</em>");
      var terms := QueryTerms(query);
      if terms == [] then None
      else
        var e := HighlightFields(EntryOf(doc, terms, pre, post), fields, |fields|);
        if e == [] then None else Some(Obj(e))
  }

  /** Storing an optional entry under `g` changes what `f` reads only when `f` is `g` and the entry is present. */
  lemma PutIfSome(acc: seq<(string, Value)>, g: string, entry: Option<Value>, f: string)
    ensures Get(match entry case Some(e) => Put(acc, g, e) case None => acc, f)
            == if f == g && entry.Some? then entry else Get(acc, f)
  {
    if entry.Some? {
      if f == g {
        GetPutSame(acc, g, entry.value);
      } else {
        GetPutOther(acc, g, entry.value, f);
      }
    }
  }

  /** A configured field appears in the result exactly when it has a non-empty entry. */
  lemma {:induction false} HighlightFieldsGet(entry: string -> Option<Value>, fields: seq<string>, n: nat, f: string)
    requires n <= |fields|
    ensures Get(HighlightFields(entry, fields, n), f) == if f in fields[..n] then entry(f) else None
  {
    if n > 0 {
      HighlightFieldsGet(entry, fields, n - 1, f);
      var g := fields[n - 1];
      assert f in fields[..n] <==> f in fields[..n - 1] || f == g by {
        assert fields[..n] == fields[..n - 1] + [g];
      }
      PutIfSome(HighlightFields(entry, fields, n - 1), g, entry(g), f);
    }
  }

  /**
   * The result names only configured fields, and each one holds the
   * highlighted text of the document's string field.
   */
  lemma HighlightDocFields(doc: Value, query: Value, config: Value, f: string)
    requires HighlightDoc(doc, query, config).Some?
    ensures ConfiguredFields(config).Some?
    ensures Get(HighlightDoc(doc, query, config).value.fields, f)
            == if f in ConfiguredFields(config).value
               then FieldEntry(doc, f, QueryTerms(query), Tag(config.fields, "pre_tags", "<em>"),
                               Tag(config.fields, "post_tags", "</em>"))
               else None
  {
    var fields := ConfiguredFields(config).value;
    assert fields[..|fields|] == fields;
    HighlightFieldsGet(EntryOf(doc, QueryTerms(query), Tag(config.fields, "pre_tags", "<em>"),
                               Tag(config.fields, "post_tags", "</em>")), fields, |fields|, f);
  }

  /** A query without terms highlights nothing. */
  lemma NoTermsNoHighlight(doc: Value, query: Value, config: Value)
    requires QueryTerms(query) == []
    ensures HighlightDoc(doc, query, config) == None
  {
  }

  /** `highlight_document`, with its loop over the configured fields. */
  method HighlightDocument(doc: Value, query: Value, config: Value) returns (r: Option<Value>)
    ensures r == HighlightDoc(doc, query, config)
  {
    var fields := ConfiguredFields(config);
    if fields.None? {
      return None;
    }
    var fs := fields.value;
    var pre := Tag(config.fields, "pre_tags", "<em>");
    var post := Tag(config.fields, "post_tags", "</em>");
    var terms := ExtractQueryTerms(query);
    if terms == [] {
      return None;
    }
    var result := HighlightFieldsLoop(doc, fs, terms, pre, post);
    r := if result == [] then None else Some(Obj(result));
  }

  /** The loop over the configured fields, inserting each non-empty entry. */
  method HighlightFieldsLoop(doc: Value, fs: seq<string>, terms: seq<string>, pre: string, post: string)
    returns (result: seq<(string, Value)>)
    ensures result == HighlightFields(EntryOf(doc, terms, pre, post), fs, |fs|)
  {
    result := [];
    var i := 0;
    while i < |fs|
      invariant 0 <= i <= |fs|
      invariant result == HighlightFields(EntryOf(doc, terms, pre, post), fs, i)
    {
      result := AddFieldEntry(doc, fs, terms, pre, post, i, result);
      i := i + 1;
    }
  }

  /** One turn of the loop: highlight field `fs[i]` and insert its entry, if it has one. */
  method AddFieldEntry(doc: Value, fs: seq<string>, terms: seq<string>, pre: string, post: string,
                       i: nat, result: seq<(string, Value)>) returns (next: seq<(string, Value)>)
    requires i < |fs|
    requires result == HighlightFields(EntryOf(doc, terms, pre, post), fs, i)
    ensures next == HighlightFields(EntryOf(doc, terms, pre, post), fs, i + 1)
  {
    var e := FieldEntryOf(doc, fs[i], terms, pre, post);
    HighlightFieldsStep(doc, fs, terms, pre, post, i, result, e);
    next := result;
    if e.Some? {
      next := Put(result, fs[i], e.value);
    }
  }

  /** One more configured field adds its entry, if it has one. */
  lemma HighlightFieldsStep(doc: Value, fs: seq<string>, terms: seq<string>, pre: string, post: string,
                            i: nat, result: seq<(string, Value)>, e: Option<Value>)
    requires i < |fs|
    requires result == HighlightFields(EntryOf(doc, terms, pre, post), fs, i)
    requires e == FieldEntry(doc, fs[i], terms, pre, post)
    ensures HighlightFields(EntryOf(doc, terms, pre, post), fs, i + 1)
            == if e.Some? then Put(result, fs[i], e.value) else result
  {
    assert EntryOf(doc, terms, pre, post)(fs[i]) == e;
  }

  /** One configured field: highlight it when it is a string, keep the result when not empty. */
  method FieldEntryOf(doc: Value, f: string, terms: seq<string>, pre: string, post: string) returns (e: Option<Value>)
    ensures e == FieldEntry(doc, f, terms, pre, post)
  {
    var v := GetFieldValue(doc, f);
    e := None;
    if v.Some? && v.value.Str? {
      var h := HighlightText(v.value.s, terms, pre, post);
      if h != "" {
        e := Some(Arr([Str(h)]));
      }
    }
  }
}

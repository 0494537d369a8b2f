# gbs in Dafny

gbs (gummy-bear-search) is an in-memory document store that speaks a subset of the Elasticsearch HTTP API. It holds a catalog of indices, each a map from document ids to JSON documents, and can optionally mirror them into a sled key-value tree. It scores documents against Elasticsearch-style queries (match, match_phrase, multi_match, term, terms, range, prefix, wildcard, bool, match_all) and answers searches with sorting, pagination, `_source` filtering and highlighting. It also executes newline-delimited `_bulk` requests and merges searches across several indices.

This project models that core and proves properties of it. Each module follows one part of the program:

| module | file | models |
|---|---|---|
| `Json` | json.dfy | `serde_json::Value`; objects are key-ordered entry lists, because serde's `Map` is a `BTreeMap` |
| `Text` | text.dfy | ASCII lowercasing, whitespace splitting, substring search and line splitting from the Rust standard library |
| `Errors` | errors.dfy | `GbsError`: messages, HTTP statuses and the error body |
| `Config` | config.dfy | configuration defaults and environment overrides |
| `SearchUtils` | search_utils.dfy | dotted field paths, `_source` filtering and the sort comparator |
| `Glob` | glob.dfy | the wildcard-to-regex translation and the matching of the regex fragment it produces |
| `Matchers` | matchers.dfy | the leaf matchers |
| `Query` | query.dfy | `score_document` and `score_bool_query` |
| `Sorting` | sorting.dfy | the stable `sort_by` the pipeline relies on |
| `Highlighting` | highlighting.dfy | term extraction and tag insertion |
| `Search` | search.dfy | the single-index search pipeline of `search_impl.rs` |
| `Indexes` | index.dfy | the `Index` record and the object merges used by mappings, settings and bulk Update |
| `Backend` | backend.dfy | the sled key layout and the operations of `SledBackend`, as a class over an ordered key list |
| `Bulk` | bulk.dfy | `BulkAction` and `parse_bulk_ndjson` |
| `Catalog` | catalog.dfy | every catalog operation as a function from the state before to its result and the state after |
| `Storages` | storage.dfy | the `Storage` class that runs those operations in place |
| `BulkHandler` | bulk_handler.dfy | the `_bulk` endpoint's execute-and-record loop |
| `SearchHandler` | search_handler.dfy | the search endpoints and the multi-index merge |

The pattern is the same in every module. Where the program works step by step (loops, in-place sorts, map updates), a method with loop invariants runs it. That method is proved equal to a specification function, and the lemmas state what the program promises about that function.

`Json` and `Text` stand for library behaviour the program calls: serde_json and `str`. They carry no rows of their own in the table below.

`src/storage.rs` holds a second copy of the search pipeline. It is identical to `src/storage/search_impl.rs`, and both are modelled once, by `Search`.

Some lines of the source vary in ways the model cannot see:
- The order of a hash map's iteration is passed in explicitly as `order`, an enumeration of the document ids. The search methods choose it and return it as a ghost result.
- Parsing one bulk line as JSON is a function parameter `parse`.
- The elapsed time `took` is a parameter.

## Model

| member | source | states |
|---|---|---|
| Errors.Message | src/error.rs:11-30 | a message is the kind's fixed prefix followed by the payload, so it is longer than the payload |
| Errors.PrefixesDiffer | src/error.rs:11-30 | the prefixes of two different kinds differ at a position both have |
| Errors.KindsDisagreeInMessage | src/error.rs:11-30 | errors of two different kinds never render the same message |
| Errors.MessageInjective | src/error.rs:11-30 | equal messages mean equal errors: kind and payload are read back from the text |
| Errors.Status | src/error.rs:35-43 | 404 exactly for IndexNotFound and DocumentNotFound, 400 exactly for InvalidRequest and Json, 500 exactly for Elasticsearch, Storage and TaskJoin |
| Errors.ErrorBody | src/error.rs:45-50 | the body's `error` member has `type` "error" and `reason` the message |
| Config.Default | src/config.rs:51-87 | host "0.0.0.0", port 9200, data_dir "./data", level "info", es_version "6.4.0" |
| Config.WithEnvOverrides | src/config.rs:152-186 | the field-by-field updates give `Overridden(c, env)`, and the port stays a u16 |
| Config.NoOverrides | src/config.rs:152-186 | with no variable set the configuration is unchanged |
| Config.OverridesIdempotent | src/config.rs:152-186 | applying the overrides twice equals applying them once |
| Config.BadPortIgnored | src/config.rs:159-165 | a GUMMY_PORT that does not parse as a u16 leaves the port unchanged |
| Config.LogLevelYieldsToRustLog | src/config.rs:173-178 | GUMMY_LOG_LEVEL sets the level exactly when RUST_LOG is unset |
| SearchUtils.JoinSplit | src/storage/search/utils.rs:9 | splitting a path at '.' and joining the parts again gives the path back |
| SearchUtils.SplitAppend | src/storage/search/utils.rs:9 | a dot after a dot-free segment splits off exactly that segment |
| SearchUtils.SplitWithoutSeparator | src/storage/search/utils.rs:9 | a path without a dot is a single segment |
| SearchUtils.LookupAppend | src/storage/search/utils.rs:9-20 | following a path `p + q` is following `p` and then `q` from where it ends, and fails if `p` fails |
| SearchUtils.GetFieldValue | src/storage/search/utils.rs:4-21 | `_all` and `*` give the whole document; any other field gives the value reached by walking its dotted path through objects |
| SearchUtils.TopLevelField | src/storage/search/utils.rs:9-20 | a name without a dot is an ordinary member lookup |
| SearchUtils.DottedPath | src/storage/search/utils.rs:9-20 | `a.b` resolves `a` first and then `b` inside the result, and is absent when `a` is |
| SearchUtils.ProjectLoop | src/storage/search/utils.rs:45-57 | the insertion loop builds the projection of the source onto the listed names |
| SearchUtils.ExcludeLoop | src/storage/search/utils.rs:64-74 | the removal loop over the cloned object builds the source without the listed names |
| SearchUtils.FilterSource | src/storage/search/utils.rs:30-98 | the loop implementation equals the `_source` filter; no filter or `true` keeps the document and `false` empties it |
| SearchUtils.GetProject | src/storage/search/utils.rs:45-57 | a member is in the projection exactly when it is listed, and then with the source's value |
| SearchUtils.ListFilterKeeps | src/storage/search/utils.rs:45-57 | a list filter keeps exactly the listed members of an object and gives `{}` for anything else |
| SearchUtils.ProjectAgree | src/storage/search/utils.rs:45-57 | a projection depends only on the listed members of its source |
| SearchUtils.ProjectIdempotent | src/storage/search/utils.rs:45-57 | projecting twice onto the same list is projecting once |
| SearchUtils.ExcludeRemovesListed | src/storage/search/utils.rs:64-74 | no listed name survives exclusion, and exclusion adds no member |
| SearchUtils.GetExclude | src/storage/search/utils.rs:64-74 | exclusion removes exactly the listed names and keeps every other member's value |
| SearchUtils.ExcludeAbsent | src/storage/search/utils.rs:64-74 | excluding names that are absent changes nothing |
| SearchUtils.BothListsKeep | src/storage/search/utils.rs:60-94 | with both `excludes` and `includes`, a member survives exactly when it is included and not excluded |
| SearchUtils.FilteredIdempotent | src/storage/search/utils.rs:30-98 | applying a `_source` filter to its own output changes nothing |
| SearchUtils.CmpReal | src/storage/search/utils.rs:123-128 | the f64 comparison is Less, Greater or Equal exactly as the numbers compare |
| SearchUtils.CompareValuesAntisymmetric | src/storage/search/utils.rs:119-133 | swapping two field values reverses their comparison |
| SearchUtils.CompareDocumentsAntisymmetric | src/storage/search/utils.rs:101-143 | swapping two documents reverses the comparator's answer |
| SearchUtils.CompareDocumentsCases | src/storage/search/utils.rs:106-139 | a present value sorts after a missing one (before it when descending), two missing are equal, mixed kinds are equal, numbers compare by value in the requested order |
| SearchUtils.CompareDocumentsNoKey | src/storage/search/utils.rs:106-142 | a sort specification that is not an object with an entry treats every pair as equal |
| Matchers.FieldText | src/storage/search/matchers.rs:18-23 | a field has comparable text exactly when it is a string (lowercased), a number or a boolean |
| Matchers.WordHits | src/storage/search/matchers.rs:34-38 | counts at most one hit per query word, and is zero exactly when no query word occurs inside any field word |
| Matchers.TextScore | src/storage/search/matchers.rs:28-44 | 1.0 exactly for equal text, 0.8 exactly for a proper substring, a share of 0.5 in (0, 0.5] exactly when only some words hit, 0 otherwise |
| Matchers.LeafMax | src/storage/search/matchers.rs:67-108 | the best leaf score over a whole value lies in [0, 1] |
| Matchers.LeafMaxBoundsMembers | src/storage/search/matchers.rs:96-100 | the score of a document is at least the score of each of its members |
| Matchers.NumberLeafScore | src/storage/search/matchers.rs:90-95 | a number scores 0.5 when its text contains the query and 0 otherwise |
| Matchers.SearchValue | src/storage/search/matchers.rs:67-108 | the recursive walk leaves the larger of the running best and the value's best leaf score |
| Matchers.MatchAllFields | src/storage/search/matchers.rs:48-64 | an empty query scores 1.0; any score returned lies in (0, 1] |
| Matchers.MatchField | src/storage/search/matchers.rs:7-45 | an empty query scores 1.0; any score returned lies in (0, 1] |
| Matchers.MatchFieldScores | src/storage/search/matchers.rs:17-44 | a missing field, or one without text, never matches; otherwise 1.0 exactly on equality, 0.8 exactly on containment, at most 0.5 exactly on a partial word match, and no match exactly when no word hits |
| Matchers.EmbedsTail | src/storage/search/matchers.rs:163-178 | a phrase embedded in order stays embedded after dropping its first word |
| Matchers.EmbedsSkip | src/storage/search/matchers.rs:163-178 | adding a field word in front keeps an embedding |
| Matchers.GreedyStep | src/storage/search/matchers.rs:169-176 | taking the first field word for the next phrase word whenever it fits loses no embedding |
| Matchers.WordsInOrder | src/storage/search/matchers.rs:163-178 | the greedy loop answers exactly whether the phrase words occur in order, each inside its own later field word |
| Matchers.PhraseScore | src/storage/search/matchers.rs:141-159 | 0 exactly without containment; 1.0 exactly for containment by a single word or an in-order embedding; only 0, 0.6 or 1.0 |
| Matchers.PhraseLeafMax | src/storage/search/matchers.rs:200-226 | the best phrase score over a whole value lies in [0, 1] |
| Matchers.SearchPhraseValue | src/storage/search/matchers.rs:200-226 | the recursive walk leaves the larger of the running best and the value's best phrase score |
| Matchers.MatchPhraseAllFields | src/storage/search/matchers.rs:181-197 | an empty phrase scores 1.0; any score returned lies in (0, 1] |
| Matchers.MatchPhraseField | src/storage/search/matchers.rs:120-160 | an empty phrase scores 1.0; a single field scores only 0.6 or 1.0 |
| Matchers.MatchPhraseFieldNeedsPhrase | src/storage/search/matchers.rs:130-159 | a single field matches a phrase exactly when its text contains the lowercased phrase |
| Matchers.FieldsBest | src/storage/search/matchers.rs:234-239 | the best score is at least every field's score and is attained by one of the fields when positive |
| Matchers.MultiMatch | src/storage/search/matchers.rs:229-246 | an empty query scores 1.0; otherwise no match exactly when no listed field matches |
| Matchers.MultiMatchFields | src/storage/search/matchers.rs:229-246 | the loop over the fields computes the multi-field score |
| Matchers.TermsMatchAny | src/storage/search/matchers.rs:388-406 | a non-empty list matches exactly when some single term of it matches |
| Matchers.RangeNeedsNumber | src/storage/search/matchers.rs:254-269 | a missing field, or a value that is neither a number nor a numeric string, never matches a range |
| Matchers.RangeBounds | src/storage/search/matchers.rs:272-304 | for a numeric field value, the range matches exactly when every present numeric bound holds (at least `gte`, above `gt`, at most `lte`, below `lt`); absent and non-numeric bounds are ignored |
| Matchers.WildcardLiteral | src/storage/search/matchers.rs:308-362 | a pattern without wildcards matches exactly the strings equal to it up to case |
| Matchers.WildcardTrailingStar | src/storage/search/matchers.rs:325-362 | a literal followed by '*' matches the strings that start with it up to case and have no newline after it |
| Matchers.PrefixIsTrailingStar | src/storage/search/matchers.rs:308-385 | on a one-line string field, `prefix p` and `wildcard p*` accept the same documents |
| Glob.Tokens | src/storage/search/matchers.rs:332-354 | one token per pattern character: '*' any run, '?' any one character, everything else itself |
| Glob.BuildRegex | src/storage/search/matchers.rs:331-357 | the translation loop builds `^` + translated body + `$`, and that source parses back to the pattern's tokens |
| Glob.ParseTranslate | src/storage/search/matchers.rs:332-354 | the escaped translation of a pattern parses back to exactly the pattern's tokens |
| Glob.RegexCompiles | src/storage/search/matchers.rs:357-362 | the anchored source always compiles, so the `Err` branch that answers false is never taken |
| Glob.LiteralMatchesOnlyItself | src/storage/search/matchers.rs:348-352 | a pattern without wildcards matches exactly itself |
| Glob.StarMatchesAnyLine | src/storage/search/matchers.rs:334 | `.*` matches exactly the strings without a newline, since `.` does not match one |
| Glob.LiteralStarIsPrefix | src/storage/search/matchers.rs:334-357 | a literal followed by '*' matches the strings that start with it and have no newline after it |
| Glob.RegexLiteralStar | src/storage/search/matchers.rs:357-360 | the compiled regex for a literal followed by '*' answers that same prefix test |
| Glob.EmptyPatternMatchesEmpty | src/storage/search/matchers.rs:357-360 | the regex `^$` matches only the empty string |
| Query.StrItems | src/storage/search/query.rs:56-59 | only string elements of the `fields` array are kept, never more than there are elements |
| Query.EntryScore | src/storage/search/query.rs:17-140 | one `field: argument` entry scores in (0, 1] when it matches, and exactly 1 for range, term, terms, prefix and wildcard |
| Query.FirstScore | src/storage/search/query.rs:17-27 | the clause scores with its first matching entry in iteration order, and scores nothing exactly when no entry matches |
| Query.FirstMatchingEntry | src/storage/search/query.rs:17-27 | the loop with its early return gives the first matching entry's score |
| Query.ClauseScore | src/storage/search/query.rs:15-142 | a clause scores in (0, 1] only when the query holds its key |
| Query.ClauseScoreOf | src/storage/search/query.rs:15-142 | the per-kind code, multi_match included, computes the clause's score |
| Query.LeafScoreNone | src/storage/search/query.rs:15-142 | the leaf kinds scored from position i on give nothing exactly when none of them scores |
| Query.Score | src/storage/search/query.rs:7-157 | never negative; a query that is not an object scores 0 and `{}` scores 1 |
| Query.ScoreDocument | src/storage/search/query.rs:7-157 | the engine's sequence of early returns computes the specified score |
| Query.LeafPrecedes | src/storage/search/query.rs:15-142 | the first leaf kind, in the fixed order, that scores decides the score, whatever follows |
| Query.BinaryClauseScore | src/storage/search/query.rs:80-139 | a range, term, terms, prefix or wildcard clause that scores gives exactly 1 |
| Query.BinaryLeafScoresOne | src/storage/search/query.rs:80-139 | when the first scoring leaf kind is range, term, terms, prefix or wildcard, the query scores exactly 1 |
| Query.MatchAllScores | src/storage/search/query.rs:144-156 | with no leaf clause scoring and no bool clause, `match_all` scores 1 and a non-empty query without it scores 0 |
| Query.LeafFrom | src/storage/search/query.rs:15-142 | skipping kinds that do not score reaches the first one that does |
| Query.NoLeafClause | src/storage/search/query.rs:15-142 | a query without any leaf key scores no leaf clause |
| Query.LeafQueryAtMostOne | src/storage/search/query.rs:15-152 | a query without `bool` scores at most 1 |
| Query.BoolOnlyQuery | src/storage/search/query.rs:145-147 | `{"bool": b}` scores exactly as the bool query b |
| Query.ListScores | src/storage/search/query.rs:167-187 | a clause list has one non-negative score per element, and a value that is not an array has none |
| Query.Clauses | src/storage/search/query.rs:166-167 | the scores of a bool query's named list are non-negative |
| Query.BoolScore | src/storage/search/query.rs:160-224 | never negative |
| Query.Combine | src/storage/search/query.rs:179-220 | never negative, given non-negative must and should scores |
| Query.ShouldBoost | src/storage/search/query.rs:186-192 | half the should sum when positive, else nothing; never negative |
| Query.ScoreBoolQuery | src/storage/search/query.rs:160-224 | the engine's staged loops with early returns compute the specified bool score |
| Query.MustStage | src/storage/search/query.rs:166-177 | stops with must_match false exactly when some must clause scores 0, and otherwise sums them all |
| Query.SumUntilZero | src/storage/search/query.rs:168-175 | the loop that breaks at a zero sees a zero exactly when the list has one, and otherwise sums the list |
| Query.ShouldStage | src/storage/search/query.rs:184-194 | sums every should clause |
| Query.SumAll | src/storage/search/query.rs:187-189 | the loop sums the whole list |
| Query.MustNotStage | src/storage/search/query.rs:197-206 | excludes exactly when some must_not clause scores above 0 |
| Query.AnyScores | src/storage/search/query.rs:199-204 | the loop finds a positive score exactly when the list has one |
| Query.FilterStage | src/storage/search/query.rs:209-218 | passes exactly when no filter clause scores 0 |
| Query.AllScore | src/storage/search/query.rs:211-216 | the loop finds no zero exactly when the list has none |
| Query.BoolExcludes | src/storage/search/query.rs:160-224 | a bool query scores 0 exactly when a must clause scores 0, a must_not clause scores, or a filter clause scores 0 |
| Query.CombineExcludes | src/storage/search/query.rs:179-220 | the combined score is 0 exactly on those three exclusions, and a positive score is at least the must sum and the should boost |
| Query.FilterDoesNotScore | src/storage/search/query.rs:208-218 | when every filter clause passes, removing the filter list leaves the score unchanged |
| Query.ShouldIsOptional | src/storage/search/query.rs:184-223 | should clauses that all score 0 leave the score as if there were none |
| Query.EmptyBoolMatchesAll | src/storage/search/query.rs:220 | a bool query with four empty lists scores 1 |
| Sorting.InsertPermutes | src/storage/search_impl.rs:64 | inserting one element keeps every element and adds exactly that one |
| Sorting.Sort | src/storage/search_impl.rs:64 | the sorted sequence is a permutation of the input |
| Sorting.Ties | src/storage/search/highlighting.rs:182 | the tied elements listed are drawn from the input and tie with the key |
| Sorting.InsertTies | src/storage/search/highlighting.rs:182 | insertion puts the new element ahead of the elements it ties with and leaves their order alone |
| Sorting.SortStable | src/storage/search/highlighting.rs:182 | stability: for every key, the elements that tie with it leave the sort in the order they entered it |
| Sorting.InsertSorted | src/storage/search_impl.rs:64 | inserting into a sorted sequence under a consistent comparator keeps it sorted |
| Sorting.SortSorted | src/storage/search_impl.rs:64 | under a comparator consistent on the elements the result is sorted |
| Sorting.SortOfSorted | src/storage/search_impl.rs:64 | sorting a sequence that is already in order leaves it unchanged |
| Sorting.InsertionSort | src/storage/search_impl.rs:64 | the sorting loop computes the specified stable sort |
| Sorting.InsertLoop | src/storage/search_impl.rs:64 | the insertion loop places the element before the first one it is not greater than |
| Sorting.SortAll | src/storage/search_impl.rs:69-71 | sorting once per key, last key first, permutes the input |
| Sorting.LexPreorder | src/storage/search_impl.rs:69-71 | comparing key by key with consistent keys is itself consistent |
| Sorting.InsertLex | src/storage/search_impl.rs:69-71 | a stable insertion by the first key keeps order by the pair when the new element does not exceed any other by the second key |
| Sorting.SortLex | src/storage/search_impl.rs:69-71 | re-sorting stably by a new key input that was sorted by an old key orders by the new key, then the old |
| Sorting.SortAllLex | src/storage/search_impl.rs:64-71 | the repeated stable sorts leave the hits ordered lexicographically by the listed keys, first key first, with score order breaking the remaining ties |
| Highlighting.Tokenize | src/storage/search/highlighting.rs:151-156 | one lowercase, non-empty term per whitespace-separated word of the query text |
| Highlighting.EntryTerms | src/storage/search/highlighting.rs:84-92 | the terms of match and match_phrase entries are lowercase and non-empty |
| Highlighting.EntryTermsLoop | src/storage/search/highlighting.rs:84-92 | the loop over the entries collects the entries' terms in order |
| Highlighting.TermValues | src/storage/search/highlighting.rs:123-127 | term values are taken lowercased |
| Highlighting.TermValuesLoop | src/storage/search/highlighting.rs:123-127 | the loop collects each string term value, lowercased, in order |
| Highlighting.ClauseTerms | src/storage/search/highlighting.rs:82-129 | clause terms are lowercase, and only a `term` clause can contribute an empty one |
| Highlighting.ClauseTermsOf | src/storage/search/highlighting.rs:82-129 | the per-clause extraction computes the clause's terms |
| Highlighting.QueryTerms | src/storage/search/highlighting.rs:77-148 | every extracted term is lowercase |
| Highlighting.ExtractQueryTerms | src/storage/search/highlighting.rs:77-148 | the recursive extraction computes the query's terms |
| Highlighting.BoolTerms | src/storage/search/highlighting.rs:132-144 | the terms of the bool lists are lowercase |
| Highlighting.BoolTermsLoop | src/storage/search/highlighting.rs:134-142 | the loop over must, should, must_not and filter gathers their terms in that order |
| Highlighting.ListTerms | src/storage/search/highlighting.rs:136-140 | the terms of a clause list are lowercase |
| Highlighting.ListTermsLoop | src/storage/search/highlighting.rs:137-139 | the loop over a clause list gathers each clause's terms in order |
| Highlighting.EmptyTermOnlyFromTerm | src/storage/search/highlighting.rs:82-118 | match, match_phrase and multi_match never contribute an empty term |
| Highlighting.EmptyTermExample | src/storage/search/highlighting.rs:121-127 | `{"term": {"title": ""}}` yields the single term "" |
| Highlighting.ScanStep | src/storage/search/highlighting.rs:173-177 | one step of the scan finds an occurrence of the term and continues from its end |
| Highlighting.EmptyTermStalls | src/storage/search/highlighting.rs:172-178 | with the empty term the scan finds it where it stands and never moves on |
| Highlighting.ScanAdvances | src/storage/search/highlighting.rs:172-178 | with a non-empty term each step moves the scan strictly forward within the text |
| Highlighting.Occurrences | src/storage/search/highlighting.rs:172-178 | every collected span is an occurrence of the term, as long as the term; the first is the first occurrence at or after the starting point, and there are none exactly when `find` finds none; the spans do not overlap, and every occurrence from the starting point lies inside one of them |
| Highlighting.ScanUnrolls | src/storage/search/highlighting.rs:172-178 | one round of the scan takes the first occurrence at or after the position and moves strictly forward, or ends the list |
| Highlighting.ScanTerm | src/storage/search/highlighting.rs:172-178 | the scanning loop for one non-empty term collects its occurrences from the start |
| Highlighting.AllMatches | src/storage/search/highlighting.rs:169-179 | every collected span is an occurrence of a non-empty term of the list, inside the text, and every span the scan of a listed term collects is among them |
| Highlighting.TermOccurrences | src/storage/search/highlighting.rs:170-178 | one term's collected spans are occurrences of its lowercased form, as long as the term, and do not overlap; an empty term gives none; every occurrence of a non-empty term lies inside one of them |
| Highlighting.CollectMatches | src/storage/search/highlighting.rs:169-179 | the loop over the terms collects every term's occurrences, skipping an empty term |
| Highlighting.ByStartPreorder | src/storage/search/highlighting.rs:182 | ordering by start position is a consistent comparator |
| Highlighting.Keep | src/storage/search/highlighting.rs:185-190 | the kept spans are taken from the input and form a chain, each ending before the next starts; over spans ordered by start, a span from the starting point that is dropped starts inside a kept one |
| Highlighting.KeepLoop | src/storage/search/highlighting.rs:185-190 | the loop keeps a span exactly when it starts at or after the end of the last one kept |
| Highlighting.Spans | src/storage/search/highlighting.rs:164-190 | the kept spans lie inside the text, do not overlap, and are each an occurrence of a query term; every collected occurrence is kept or starts inside a kept span |
| Highlighting.KeepFirstAtStart | src/storage/search/highlighting.rs:185-190 | a kept span is the first of the input's spans that start where it starts |
| Highlighting.FirstAtStartTerm | src/storage/search/highlighting.rs:169-179 | the first collected span at a position belongs to the first term, in list order, whose scan reached that position |
| Highlighting.SpanTieBreak | src/storage/search/highlighting.rs:168-190 | where spans of several terms start together, the one kept is that of the first term in the query's order whose scan reached there |
| Highlighting.NoMatches | src/storage/search/highlighting.rs:169-179 | when no non-empty term occurs in the text, nothing is collected |
| Highlighting.NoOccurrenceNoSpans | src/storage/search/highlighting.rs:164-190 | when no non-empty term occurs in the text, no span is kept |
| Highlighting.OccurrenceReachesSpan | src/storage/search/highlighting.rs:164-190 | where a non-empty term occurs, some span is kept: the occurrence lies inside one the scan collected, which starts inside a kept span |
| Highlighting.OverlappedOccurrenceSkipped | src/storage/search/highlighting.rs:172-178 | not every occurrence is wrapped: in "abbb" with the terms "ab" and "bb", "bb" occurs at 2 but only 0..2 is kept |
| Highlighting.NoSpansUnchanged | src/storage/search/highlighting.rs:192-210 | without kept spans the highlighted text is the text itself, whatever the tags |
| Highlighting.BuildLoop | src/storage/search/highlighting.rs:193-208 | the rebuilding loop wraps each kept span in the tags and copies the text between them |
| Highlighting.RenderPlain | src/storage/search/highlighting.rs:193-208 | with empty tags the rebuilt text is the original text |
| Highlighting.RenderLength | src/storage/search/highlighting.rs:193-208 | the rebuilt text is the original length plus one pair of tags per kept span |
| Highlighting.HighlightPlain | src/storage/search/highlighting.rs:159-211 | highlighting with empty tags gives back the text |
| Highlighting.HighlightLength | src/storage/search/highlighting.rs:159-211 | the highlighted text is longer than the text by exactly one pair of tags per kept span |
| Highlighting.HighlightText | src/storage/search/highlighting.rs:159-211 | the engine's scan, sort, keep and build steps compute the highlighted text |
| Highlighting.HighlightFieldsGet | src/storage/search/highlighting.rs:58-67 | after the loop, a configured field appears exactly when its entry is non-empty, with that entry |
| Highlighting.AddFieldEntry | src/storage/search/highlighting.rs:59-65 | one round of the field loop inserts that field's entry when it is non-empty and otherwise leaves the result as it was |
| Highlighting.HighlightFieldsLoop | src/storage/search/highlighting.rs:58-67 | the loop over the configured fields inserts each non-empty entry |
| Highlighting.FieldEntryOf | src/storage/search/highlighting.rs:59-65 | a string field gives its highlighted text in a one-element array unless that is empty |
| Highlighting.HighlightDocFields | src/storage/search/highlighting.rs:12-74 | a result exists only for a configuration with `fields`, names only configured fields, and holds each one's highlighted text with the configured or default tags |
| Highlighting.NoTermsNoHighlight | src/storage/search/highlighting.rs:50-53 | a query without terms highlights nothing |
| Highlighting.HighlightDocument | src/storage/search/highlighting.rs:12-74 | the engine's steps compute the document's highlight |
| Search.Candidates | src/storage/search_impl.rs:54-61 | at most one candidate per visited document |
| Search.CandidatesSound | src/storage/search_impl.rs:56-61 | every candidate is a visited document with its own body and its query score, and that score is above 0 |
| Search.CandidatesComplete | src/storage/search_impl.rs:56-61 | a document is a candidate exactly when it is visited and scores above 0 |
| Search.CandidatesDistinct | src/storage/search_impl.rs:56-61 | visiting each id once gives candidates with distinct ids |
| Search.CandidatesAppend | src/storage/search_impl.rs:56-61 | visiting one more document appends its candidate, if any, after the others |
| Search.ScoreAll | src/storage/search_impl.rs:54-61 | the loop over the hash map visits every id once, in an order it chooses, and collects the candidates in that order |
| Search.ByScorePreorder | src/storage/search_impl.rs:64 | descending score order is a consistent comparator |
| Search.KeyComparators | src/storage/search_impl.rs:67-75 | one comparator per sort entry, in the order listed |
| Search.Rank | src/storage/search_impl.rs:63-76 | ranking permutes the candidates |
| Search.RankCandidates | src/storage/search_impl.rs:63-76 | the score sort and the stable per-entry sorts, last entry first, compute the ranking |
| Search.ScoreOrderWithoutSort | src/storage/search_impl.rs:64 | without sort entries the ranked hits come in non-increasing score order |
| Search.CustomSortOrder | src/storage/search_impl.rs:63-76 | with sort entries that order consistently, the ranked hits are ordered by the first entry, ties by the next, and remaining ties by descending score |
| Search.CompareValuesTransitive | src/storage/search_impl.rs:70 | ascending comparison of field values is transitive over values of one kind |
| Search.ConsistentKey | src/storage/search_impl.rs:70 | a sort entry whose field holds values of one kind across the hits orders them consistently, ascending or descending |
| Search.Page | src/storage/search_impl.rs:79-86 | skip `from`, take `size`: the page holds the ranked hits from `from` on, at most `size` of them |
| Search.PagesJoin | src/storage/search_impl.rs:82-86 | two adjacent pages make the page that spans both |
| Search.PagesCover | src/storage/search_impl.rs:82-86 | consecutive pages of one size join back to the whole list once they cover it |
| Search.HitMembers | src/storage/search_impl.rs:97-114 | a hit holds its id, its filtered source, and a highlight exactly when one was produced |
| Search.HitScore | src/storage/search_impl.rs:99-105 | a hit's `_score` is its score |
| Search.BuildHits | src/storage/search_impl.rs:95-118 | the loop shapes each paginated hit in order |
| Search.BuildHit | src/storage/search_impl.rs:97-116 | one hit carries `_id`, `_index`, `_score`, the projected `_source` and `_type`, plus `highlight` exactly when highlighting was asked for and produced something |
| Search.SearchResult | src/storage/search_impl.rs:40-44 | the search fails with IndexNotFound exactly when the index is missing |
| Search.AnswerCounts | src/storage/search_impl.rs:79-92 | `total` counts all candidates before pagination, at most `size` hits (10 by default) are returned, and `max_score` is present exactly when a hit is, as the first hit's score |
| Search.AnswerHits | src/storage/search_impl.rs:82-118 | hit i of the response is the shaped ranked candidate at `from + i` |
| Search.Finish | src/storage/search_impl.rs:63-154 | ranking, pagination and shaping compute the answer from the candidates |
| Search.SearchIndex | src/storage/search_impl.rs:46-154 | the engine's steps on one index compute the specified response for the order it visited |
| Search.RunSearch | src/storage/search_impl.rs:25-155 | the search answers the specified result: IndexNotFound for a missing index, else the response for the visiting order it chose |
| Indexes.NewIndex | src/storage/index.rs:13-21 | a new index has the given name, settings and mappings, no documents and no aliases |
| Indexes.PutAll | src/storage/index_ops.rs:263-265 | after copying the new members in, the keys are those of the old object and of the new one |
| Indexes.GetPutAll | src/storage/index_ops.rs:263-265 | a key of the new object takes the new value, every other key keeps the old one |
| Indexes.MergeFields | src/storage/index_ops.rs:263-265 | the insertion loop computes the merge |
| Indexes.MappingCases | src/storage/index_ops.rs:258-280 | no mappings yet: `{"properties": new}`; old or new not an object: replaced; no `properties` yet: set to the new object, other keys kept; `properties` not an object: unchanged |
| Indexes.MappingMergesProperties | src/storage/index_ops.rs:261-266 | existing object properties are merged with the new fields, new values winning, and the other mapping keys are kept |
| Indexes.SettingsCases | src/storage/index_ops.rs:319-332 | both objects: merged key by key with the new value winning; otherwise the new settings replace the old |
| Catalog.GeneratedId | src/storage/document_ops.rs:57 | a generated id is never empty |
| Catalog.GeneratedIdsDiffer | src/storage/document_ops.rs:57 | distinct counter values give distinct ids |
| Catalog.NextFree | src/storage/document_ops.rs:57 | the first counter value at or after the start whose id is not taken: it is free and every value before it is taken |
| Catalog.IssueId | src/storage/document_ops.rs:57 | a generated id is never one the target index already holds, and the counter moves forward with nothing else changed |
| Catalog.IssuedIdsDiffer | src/storage/document_ops.rs:135-141 | two ids generated one after the other differ, whichever indices they are for |
| Catalog.CreateIndexEffect | src/storage/index_ops.rs:14-50 | an existing name fails with InvalidRequest and changes nothing; otherwise the empty index is added with its settings and mappings, every other index is untouched, and the backend holds its metadata |
| Catalog.DeleteIndexEffect | src/storage/index_ops.rs:171-201 | IndexNotFound exactly when the index is absent; the index is gone afterwards, the others are untouched, and the backend loses its metadata and documents whether or not the index existed |
| Catalog.DeleteEachKeepsAbsent | src/storage/index_ops.rs:224-229 | a key that is absent stays absent while indices are deleted one by one |
| Catalog.DeleteEachRemoves | src/storage/index_ops.rs:224-229 | deleting each listed index leaves none of its metadata or documents |
| Catalog.DeleteAllEffect | src/storage/index_ops.rs:204-237 | succeeds, empties the catalog, and removes from the backend every index it listed |
| Catalog.UpdateMappingEffect | src/storage/index_ops.rs:240-298 | IndexNotFound and no change when the index is absent; otherwise only that index's mappings change, to the merged mappings, and the backend stores them |
| Catalog.UpdateSettingsEffect | src/storage/index_ops.rs:301-350 | IndexNotFound and no change when the index is absent; otherwise only that index's settings change, to the merged settings, and the backend stores them |
| Catalog.IndexViewMembers | src/storage/index_ops.rs:152-168 | IndexNotFound exactly when the index is absent; otherwise its stored settings and mappings (null when unset) and empty aliases |
| Catalog.AliasFields | src/storage/index_ops.rs:135-138 | the alias object has exactly the index's aliases as keys |
| Catalog.AliasesComplete | src/storage/index_ops.rs:128-149 | one entry per index, whatever the order visited, holding exactly that index's aliases |
| Catalog.IndexDocumentEffect | src/storage/document_ops.rs:15-48 | IndexNotFound exactly when the index is absent; the backend holds the document either way; on success the id holds the document and nothing else in the catalog changes |
| Catalog.CreateDocumentEffect | src/storage/document_ops.rs:51-60 | the returned id was not in the index, the index's documents become the old ones plus this one (nothing is replaced), and a second creation returns another id and keeps both |
| Catalog.DocumentViewCases | src/storage/document_ops.rs:63-85 | IndexNotFound, then DocumentNotFound, else `_index`, `_type` "_doc", `_id`, `_version` 1 and the stored `_source` |
| Catalog.IndexThenGet | src/storage/document_ops.rs:15-85 | a document indexed and then fetched is the one indexed |
| Catalog.DeleteDocumentEffect | src/storage/document_ops.rs:88-126 | IndexNotFound or DocumentNotFound exactly in those cases, with no change; otherwise only that id is removed; the backend key goes in every case |
| Catalog.BulkIndexEffect | src/storage/document_ops.rs:135-139 | index stores under the given id, or under a generated id the index did not hold, changing only that entry, and reports 201 "created"; it fails with IndexNotFound and no index change exactly when the index is missing |
| Catalog.BulkCreateEffect | src/storage/document_ops.rs:140-155 | create fails with InvalidRequest when the id already exists in an existing index, and otherwise acts as index; without `_id` it always acts as index |
| Catalog.BulkUpdateEffect | src/storage/document_ops.rs:156-179 | update merges an object patch into an existing object key by key, the patch winning, else stores the patch, and reports 200 "updated" |
| Catalog.BulkDeleteEffect | src/storage/document_ops.rs:180-183 | delete is the document deletion, reporting 200 "deleted" |
| Catalog.DocsFromEntries | src/storage/persistence.rs:59-61 | every loaded id is present, each with the document of one of its entries |
| Catalog.LoadNamesContents | src/storage/persistence.rs:49-66 | the loaded map holds exactly the listed names that have metadata, each built from the tree |
| Catalog.LoadEffect | src/storage/persistence.rs:37-81 | without a backend nothing changes; with one the catalog becomes exactly the indices the tree lists with metadata, with their settings, mappings and documents |
| Catalog.CreateThenReload | src/storage/persistence.rs:37-81 | an index created with a backend is found again after reloading, with its settings and mappings (null when unset) |
| Storages.Storage.constructor | src/storage.rs:41-46 | the new engine has an empty catalog, no backend and no ids handed out |
| Storages.Storage.WithSled | src/storage.rs:49-58 | the engine opened on a backend has that backend and an empty catalog until it is loaded |
| Storages.Storage.Flush | src/storage/persistence.rs:13-21 | flushing reports success; the flush itself is I/O |
| Storages.Storage.RefreshIndex | src/storage/persistence.rs:24-34 | refreshing any name, present or not, reports success |
| Storages.Storage.LoadFromBackend | src/storage/persistence.rs:37-81 | the catalog and result are those the load specification gives |
| Storages.Storage.LoadIndex | src/storage/persistence.rs:53-63 | the loop over the stored documents builds the loaded index |
| Storages.Storage.CreateIndex | src/storage/index_ops.rs:14-50 | the new state and result are those the create specification gives |
| Storages.Storage.IndexExists | src/storage/index_ops.rs:53-59 | true exactly when the catalog holds the name |
| Storages.Storage.ListIndices | src/storage/index_ops.rs:62-67 | every index name, each once |
| Storages.Storage.MatchIndices | src/storage/index_ops.rs:70-115 | exactly the index names the anchored wildcard pattern matches, each once |
| Storages.Storage.GetIndicesStats | src/storage/index_ops.rs:118-125 | one entry per index, each once, with its document count |
| Storages.Storage.GetAliases | src/storage/index_ops.rs:128-149 | an object with one entry per index, holding that index's aliases |
| Storages.Storage.GetIndex | src/storage/index_ops.rs:152-168 | the index view, or IndexNotFound |
| Storages.Storage.DeleteIndex | src/storage/index_ops.rs:171-201 | the new state and result are those the delete specification gives |
| Storages.Storage.DeleteAllIndices | src/storage/index_ops.rs:204-237 | the new state and result are those the delete-all specification gives |
| Storages.Storage.UpdateMapping | src/storage/index_ops.rs:240-298 | the new state and result are those the mapping-update specification gives |
| Storages.Storage.UpdateSettings | src/storage/index_ops.rs:301-350 | the new state and result are those the settings-update specification gives |
| Storages.Storage.IndexDocument | src/storage/document_ops.rs:15-48 | the new state and result are those the index-document specification gives |
| Storages.Storage.NewId | src/storage/document_ops.rs:57 | the skipping loop hands out exactly `IssueId`'s id and state |
| Storages.Storage.CreateDocument | src/storage/document_ops.rs:51-60 | the new state and result are those the create-document specification gives |
| Storages.Storage.GetDocument | src/storage/document_ops.rs:63-85 | the document view, IndexNotFound or DocumentNotFound |
| Storages.Storage.DeleteDocument | src/storage/document_ops.rs:88-126 | the new state and result are those the delete-document specification gives |
| Storages.Storage.ExecuteBulkAction | src/storage/document_ops.rs:129-185 | the new state and outcome are those the bulk-action specification gives |
| Storages.Storage.Search | src/storage.rs:236-361 | the search answers the specified result for the catalog, for the visiting order it chose |
| Storages.AliasesOf | src/storage/index_ops.rs:135-144 | the loop builds one index's alias entry |
| Storages.MergeMappings | src/storage/index_ops.rs:258-280 | the in-place update leaves the merged mappings |
| Storages.MergeSettings | src/storage/index_ops.rs:319-332 | the in-place update leaves the merged settings |
| Storages.MergeDocument | src/storage/document_ops.rs:163-175 | the in-place update leaves the merged document |
| Backend.DocKey | src/storage_backend.rs:133 | a document key is the index's document prefix followed by the id, so the id can be read back |
| Backend.KeysWith | src/storage_backend.rs:105-110 | only keys that carry the prefix are collected |
| Backend.CollectKeys | src/storage_backend.rs:105-110 | the prefix scan collects the keys with the prefix, in key order |
| Backend.SledBackend.constructor | src/storage_backend.rs:24-28 | the opened tree holds the given contents |
| Backend.SledBackend.StoreIndexMetadata | src/storage_backend.rs:36-63 | the tree gains, or replaces, the record `{mappings, name, settings}` under "index::" + name |
| Backend.SledBackend.LoadIndexMetadata | src/storage_backend.rs:66-79 | the stored record's settings and mappings, or None without a record |
| Backend.SledBackend.ListIndices | src/storage_backend.rs:82-96 | the names of the metadata keys in key order, each stripped of "index:" and one ':' |
| Backend.SledBackend.DeleteIndexMetadata | src/storage_backend.rs:99-123 | the metadata key and every key under the index's document prefix are removed |
| Backend.SledBackend.RemoveKeys | src/storage_backend.rs:116-118 | the removal loop removes every listed key |
| Backend.SledBackend.StoreDocument | src/storage_backend.rs:126-145 | the tree gains, or replaces, the document under its key |
| Backend.SledBackend.LoadDocument | src/storage_backend.rs:148-160 | the document stored under the key, if any |
| Backend.SledBackend.DeleteDocument | src/storage_backend.rs:163-167 | the document key is removed |
| Backend.SledBackend.LoadAllDocuments | src/storage_backend.rs:170-185 | (id, document) for every key under the index's document prefix, in key order |
| Backend.MetaKeyName | src/storage_backend.rs:43-90 | listing reads back the name a metadata key was stored under |
| Backend.StoreThenLoadMeta | src/storage_backend.rs:36-96 | metadata stored and loaded gives back the settings and mappings, absent ones as null, and the name is listed |
| Backend.AbsentSettingsLoadAsNull | src/storage_backend.rs:46-73 | settings stored as None come back as `Some(null)`, not None |
| Backend.UnknownLoadsNothing | src/storage_backend.rs:71-77 | a missing key loads nothing |
| Backend.StoreThenLoadDocument | src/storage_backend.rs:126-185 | a stored document loads back, is among the index's documents, and no other key changes |
| Backend.DeleteDocumentEffect | src/storage_backend.rs:163-167 | after deletion the document key is absent and no other key changes |
| Backend.GetRemoveAll | src/storage_backend.rs:116-118 | removing a list of keys removes exactly those keys |
| Backend.KeysWithComplete | src/storage_backend.rs:107-110 | every present key with the prefix is collected |
| Backend.DeleteIndexEffect | src/storage_backend.rs:99-123 | deleting an index removes exactly its metadata key and the keys under its document prefix |
| Backend.PrefixReachesNestedIndex | src/storage_backend.rs:170-185 | the document prefix of `name` also covers the documents of an index named `name:more`, so loading or deleting `name` reaches them |
| Bulk.NonBlank | src/bulk_ops.rs:79 | exactly the non-blank lines are kept, none added |
| Text.LastLineKeepsCr | src/bulk_ops.rs:79 | `lines()` returns a last line with no newline after it whole, keeping a trailing carriage return |
| Text.CrLfEndsLine | src/bulk_ops.rs:79 | `lines()` ends a line at "\r\n" without the carriage return and continues with the lines after it |
| Bulk.StrMember | src/bulk_ops.rs:92-93 | a string member is read only when present and a string |
| Bulk.TargetIndex | src/bulk_ops.rs:91-98 | the action's string `_index`, else the default index, else InvalidRequest "Missing _index in bulk action" |
| Bulk.DocAction | src/bulk_ops.rs:90-139 | an index or create action targets that index and consumes two lines, and an index error comes first |
| Bulk.UpdateAction | src/bulk_ops.rs:140-170 | an update targets that index and consumes two lines, and an index error comes first |
| Bulk.DeleteAction | src/bulk_ops.rs:171-188 | a delete targets that index and consumes one line, and an index error comes first |
| Bulk.ParseAction | src/bulk_ops.rs:84-222 | a successful step consumes at least one line and no more than remain |
| Bulk.FirstKind | src/bulk_ops.rs:90-194 | the chosen key is the first of index, create, update, delete that the action line holds; none means it holds none of them |
| Bulk.ActionLineNotJson | src/bulk_ops.rs:85-86 | an action line that is not JSON fails with "Invalid JSON in bulk action: " and the parser's message |
| Bulk.ActionKindPriority | src/bulk_ops.rs:89-194 | an action line with none of the four keys fails with "Unknown bulk action: " and the line; otherwise the action is of the first kind present |
| Bulk.ActionTarget | src/bulk_ops.rs:91-98 | the target index comes from the chosen key's `_index` or the default, and its absence fails the whole parse |
| Bulk.DocumentActionLines | src/bulk_ops.rs:99-139 | no next line: "Missing document for <kind> action"; a next line that is not JSON: "Invalid document JSON: "; otherwise the document is that line, the id the optional `_id` |
| Bulk.UpdateActionLines | src/bulk_ops.rs:149-170 | a missing `_id` fails with "Missing _id in update action"; the document is the wrapper's `doc` member, or the whole wrapper |
| Bulk.DeleteActionLine | src/bulk_ops.rs:180-188 | a missing `_id` fails with "Missing _id in delete action"; otherwise a delete consuming one line |
| Bulk.Prepend | src/bulk_ops.rs:224 | prepending parsed actions passes an error through unchanged |
| Bulk.PrependTwice | src/bulk_ops.rs:224 | prepending in two steps is prepending the concatenation |
| Bulk.ParseLinesAdvance | src/bulk_ops.rs:83-226 | after one successful action the loop's remaining parse still accounts for the whole body |
| Bulk.ParseLinesFails | src/bulk_ops.rs:83-226 | the first failing action is the error of the whole parse |
| Bulk.ParseOne | src/bulk_ops.rs:84-225 | one turn of the loop either fails with the whole parse's error or advances it |
| Bulk.ParseEach | src/bulk_ops.rs:80-228 | the loop over the non-blank lines computes the specified parse |
| Bulk.ParseBulkNdjson | src/bulk_ops.rs:78-229 | the parser's result is the specified parse of the body |
| Bulk.BlankBodyNoActions | src/bulk_ops.rs:79 | a blank body parses to no actions |
| Bulk.ParseActionPrefix | src/bulk_ops.rs:84-222 | what follows a complete action does not change how it parses |
| Bulk.ParseAppend | src/bulk_ops.rs:83-226 | a body that parses followed by more lines parses to its actions followed by theirs |
| Bulk.InvalidLineRejects | src/bulk_ops.rs:85-86 | after a prefix that parses, an action line that is not JSON rejects the whole body |
| Bulk.ActionCount | src/bulk_ops.rs:83-226 | a non-empty body that parses yields at least one action and never more actions than lines |
| BulkHandler.BulkOperations | src/server/handlers/bulk.rs:18-142 | a body that does not parse is rejected with the store unchanged; otherwise every action runs in order and the response is the specified one; with `refresh` set to `true` or `wait_for` exactly the affected indices are refreshed, otherwise none |
| BulkHandler.ExecuteAll | src/server/handlers/bulk.rs:42-117 | the loop yields one item per action against the evolving store, `errors` is set exactly when some item failed, and the affected set is every action's index |
| BulkHandler.ExecuteOne | src/server/handlers/bulk.rs:48-116 | one action's item reports its outcome, and it failed exactly when the storage call failed |
| BulkHandler.RunSnoc | src/server/handlers/bulk.rs:46-117 | running one more action appends its item and continues from the store the earlier actions left |
| BulkHandler.AffectedSnoc | src/server/handlers/bulk.rs:48-65 | each action adds its own index to the affected set |
| BulkHandler.HasErrorsAppend | src/server/handlers/bulk.rs:85 | the error flag after one more item is the old flag or that item's failure |
| BulkHandler.HasErrorsSome | src/server/handlers/bulk.rs:43-85 | the error flag is set exactly when some item failed |
| BulkHandler.RefreshEach | src/server/handlers/bulk.rs:129-133 | every affected index is refreshed, whatever each refresh returns |
| BulkHandler.ParseErrorRejects | src/server/handlers/bulk.rs:40 | a parse error fails the whole request before anything is executed |
| BulkHandler.RunAppend | src/server/handlers/bulk.rs:46-117 | running two batches one after the other is running their concatenation |
| BulkHandler.RunLength | src/server/handlers/bulk.rs:46-117 | there is one item per action |
| BulkHandler.ItemsFollowActions | src/server/handlers/bulk.rs:46-117 | the i-th item answers the i-th action, run against the store the earlier actions left, and has that action's kind |
| BulkHandler.ItemShape | src/server/handlers/bulk.rs:67-114 | a success carries the outcome's index, id, status and result with version 1 and shards 1/1/0; a failure carries status 400, an `invalid_request_exception` with the error's message, the action's index, its id or "unknown", and shards 1/0/1 |
| BulkHandler.ErrorsFlag | src/server/handlers/bulk.rs:40-141 | a parsed request always answers, with one item per action and `errors` set exactly when some item failed |
| BulkHandler.AffectedIndices | src/server/handlers/bulk.rs:44-65 | an index is affected exactly when some action targets it |
| SearchHandler.SearchGet | src/server/handlers/search.rs:13-46 | a GET search runs the index's search with `match` on `_all` for `q` or `match_all`, `from`/`size` read as u32 text, and no sort, filter or highlight |
| SearchHandler.SearchPost | src/server/handlers/search.rs:48-67 | a POST search runs the index's search with the body's `query` or `match_all`, its `from`/`size` truncated to u32, and its `sort`, `_source` and `highlight` |
| SearchHandler.StringItems | src/server/handlers/search.rs:77-80 | the index list keeps exactly the string entries of `indices` |
| SearchHandler.SearchMultiIndex | src/server/handlers/search.rs:69-157 | every pattern in order is matched against the live indices, every matched index is searched with the same request, hits and totals of the successful searches are gathered, and the merged answer is built from them |
| SearchHandler.SearchPattern | src/server/handlers/search.rs:95-119 | one pattern's turn extends the matched groups, the visits and the gathered hits and total by that pattern's indices |
| SearchHandler.Merge | src/server/handlers/search.rs:121-156 | the merged answer re-sorts, re-pages and reports the gathered total |
| SearchHandler.SearchNames | src/server/handlers/search.rs:99-118 | each named index is searched in order and its answer gathered |
| SearchHandler.SearchStep | src/server/handlers/search.rs:100-117 | one index's search is recorded and, when it succeeds, its hits and total are added |
| SearchHandler.AddAnswer | src/server/handlers/search.rs:101-111 | a successful answer adds its hits and its total |
| SearchHandler.ReadResult | src/server/handlers/search.rs:102-110 | reading back a response's JSON yields its hits and its total |
| SearchHandler.ReadBack | src/server/handlers/search.rs:102-110 | the response's `hits.hits` array and `hits.total.value` are the response's hits and total |
| SearchHandler.SearchedSnoc | src/server/handlers/search.rs:99-117 | one more searched index extends the record of answers |
| SearchHandler.SearchedAt | src/server/handlers/search.rs:99-117 | the k-th answer is the search of the k-th visited index, which exists |
| SearchHandler.SearchedJoin | src/server/handlers/search.rs:95-119 | the records of two runs of searches concatenate |
| SearchHandler.GatherOk | src/server/handlers/search.rs:101-111 | gathering one more successful answer appends its hits and adds its total |
| SearchHandler.GatherJoin | src/server/handlers/search.rs:92-119 | gathering two runs of answers is gathering each and joining |
| SearchHandler.VisitNamesJoin | src/server/handlers/search.rs:95-119 | the visited names of two runs concatenate |
| SearchHandler.MatchedSnoc | src/server/handlers/search.rs:95-97 | one more pattern appends its matched names |
| SearchHandler.MatchedAt | src/server/handlers/search.rs:96 | each pattern's group is exactly the live indices it matches, each once |
| SearchHandler.ParamU32Reads | src/server/handlers/search.rs:38-39 | a query parameter reads as its number only when it fits in u32, and an absent one as none |
| SearchHandler.BodyU32Wraps | src/server/handlers/search.rs:59-60 | a body number is truncated modulo 2^32, and one that fits is kept |
| SearchHandler.PageWithin | src/server/handlers/search.rs:131-134 | the page holds some of the hits, and all of them from 0 with a size at least their count |
| SearchHandler.MergedReadBack | src/server/handlers/search.rs:121-156 | the merged answer reports the gathered total and the page of the hits sorted by descending score |
| SearchHandler.SortedByScore | src/server/handlers/search.rs:122-126 | the merged sort orders hits by descending score |
| SearchHandler.PageKeepsOrder | src/server/handlers/search.rs:128-134 | a page of score-ordered hits is still score-ordered |
| SearchHandler.SortedPage | src/server/handlers/search.rs:121-134 | the merged page is score-ordered, drawn from the hits, and is all of them from 0 with a size at least their count |
| SearchHandler.MergedShape | src/server/handlers/search.rs:121-156 | the merged page has `min(size, hits - from)` hits or none, is score-ordered and drawn from the hits, and the total is the gathered total |
| SearchHandler.DistinctOnce | src/server/handlers/search.rs:96 | a list of distinct names holds each name at most once |
| SearchHandler.VisitCount | src/server/handlers/search.rs:95-99 | a live index is searched once per pattern that matches it, and an index that does not exist never |
| SearchHandler.SearchedAdmissible | src/server/handlers/search.rs:99-117 | every searched index exists and its documents are enumerated |
| SearchHandler.SearchedPrefix | src/server/handlers/search.rs:99-117 | any prefix of the run of searches is itself a run of searches |
| SearchHandler.GatherTotal | src/server/handlers/search.rs:99-111 | the gathered total is the sum of every searched index's match count |
| SearchHandler.OffsetAppliedTwice | src/server/handlers/search.rs:85-134 | when `from` is at least `size`, the merged page is empty even though one index searched alone answers with hits |
| SearchHandler.GatherOne | src/server/handlers/search.rs:101-111 | one successful answer gathers to its own hits and total |
| SearchHandler.MergedEmpty | src/server/handlers/search.rs:128-134 | no more gathered hits than `from` gives an empty merged page |
| SearchHandler.PerIndexRequest | src/server/handlers/search.rs:85-134 | the per-index request asks from 0 for `from + size` hits and keeps query, sort, filter and highlight |
| SearchHandler.ScoreOfHit | src/server/handlers/search.rs:123-124 | a shaped hit's `_score` is the hit's score |
| SearchHandler.ScoresInOrder | src/server/handlers/search.rs:122-126 | hits shaped from score-ordered results are already in merge order |
| SearchHandler.ScoreOfShaped | src/server/handlers/search.rs:123-124 | the i-th shaped hit carries the i-th result's score |
| SearchHandler.ShapedPage | src/server/handlers/search.rs:129-134 | paging the shaped first `from + size` results is shaping the page of results |
| SearchHandler.PrefixOrdered | src/server/handlers/search.rs:131-133 | the first n of score-ordered results are score-ordered |
| SearchHandler.ShapedSorted | src/server/handlers/search.rs:122-126 | the merge sort leaves the shaped first n of score-ordered results as they are |
| SearchHandler.RepaginateRanked | src/server/handlers/search.rs:121-134 | re-paging the first `from + size` score-ordered results gives the page the index alone would give |
| SearchHandler.PerIndexAgrees | src/server/handlers/search.rs:69-157 | with the per-index request and no custom sort, a single index merged agrees with searching it alone, hits and total |
| SearchHandler.AnswersAgree | src/server/handlers/search.rs:121-134 | over the same candidates, the widened answer merged equals the direct answer when ranking is by score |

## Left out

- Async runtime and locking: every operation is modelled as one critical section on a single-threaded object, so `RwLock`, `spawn_blocking` and `TaskJoin` failures are not modelled.
- HTTP plumbing: routing, reading and UTF-8-decoding the request body, the index, document, cluster, web and websocket handlers, and `main`. They do I/O or only forward to the modelled operations.
- sled itself: the tree is an ordered list of (key, JSON value) pairs and (de)serialisation is the identity. I/O errors of sled and of its `flush` are not modelled.
- Storages.Storage.Flush: always succeeds, because a sled flush failure is I/O.
- Storages.Storage.RefreshIndex: always succeeds, for the same reason as `Flush`.
- `src/storage/stats.rs` and cluster statistics: constant JSON plus the wall clock and the CPU count.
- `Config::load_from_file` and `Config::server_addr`: file system, YAML and socket-address parsing.
- Floating point: scores are `real`, so the model drops the rounding of `f64`. The engine rounds word-count ratios such as 1/3 and the `must` and `should` sums. Two scores the model orders or ties may therefore tie or order the other way in the engine, which can change hit order and `max_score`. NaN, infinities and the decimal text of an `f64` score are not modelled.
- Matchers.ParseDecimal: reads `[+-]digits[.digits][e[+-]digits]`. The special spellings `str::parse::<f64>` also accepts (`inf`, `NaN`, `infinity`) are not modelled.
- Unicode: lowercasing is ASCII only. Whitespace (`Text.IsSpace`) is the full Unicode White_Space set that `split_whitespace` uses. With ASCII lowercasing, byte offsets into lowercased text coincide with offsets into the original. A non-ASCII character whose lowercase form has a different length breaks this in the engine.
- UUID v4 ids: ids come from a counter, not from randomness (`Catalog.IssueId`). The counter skips ids the target index already holds, so a generated id never replaces a document there, as a v4 UUID practically never does. That a generated id is also new across all indices and the backend is not modelled.
- The regex crate: only the fragment that the wildcard translation produces is modelled. Compiling it cannot fail, so the regex error branches of `wildcard_match` and `match_indices` are unreachable in the model.
- Logging (`tracing`) and the clock: `took` is a parameter, and the multi-index answer reports 0 as the source does.
- SearchUtils.CompareDocuments: not a total order when the values of a sort field mix kinds, since mixed kinds compare Equal. The model keeps the comparator as written; the stable sort is proved to sort only where the comparator is a preorder. For a comparator that is not a total order, Rust's `sort_by` leaves the order unspecified and may panic. The model's insertion order is then one possible outcome, not necessarily the engine's.
- SearchHandler.PerIndexAgrees: the multi-index merge re-sorts by `_score` alone. The agreement with a single-index search is therefore stated only for requests without a custom sort.
- Error type name: `src/error.rs` defines `GbsError`, and several modules use that name. Others refer to `GummySearchError`: `src/storage.rs`, `src/storage/index_ops.rs`, `src/storage/document_ops.rs`, `src/storage/persistence.rs`, `src/server.rs`, `src/server/handlers/bulk.rs` and `src/server/handlers/index.rs`. The model uses the one type for all of them.
- Configuration default: `Config::default` sets `es_version` to "6.4.0" while `tests/config.rs` expects "6.8.23". The model follows the code.
- Backend.PrefixReachesNestedIndex: documents of an index named `name:more` share the key prefix of index `name`. Loading or deleting `name` therefore also reaches them; the model keeps this behaviour and states it as a lemma.

## Findings

| source | as written | input that shows it | evidently intended | confidence | as-written member | corrected member |
|---|---|---|---|---|---|---|
| src/storage/search/highlighting.rs:170-178 | the scan for a term resumes at the end of each occurrence; an empty term occurs where the scan stands and ends there, so `start` never moves and `highlight_text` never returns | a `term` query `{"term": {"title": ""}}` with a highlight on `title` | empty terms contribute no highlight and the scan terminates | not executed | Highlighting.EmptyTermStalls | Highlighting.CollectMatches |
| src/server/handlers/search.rs:85-134 | `from` and `size` are passed to each per-index search and then applied again to the merged hits, so the first `from` hits are skipped twice | one index with 15 matching documents and the body `{"from": 10, "size": 10}`: the index answers 5 hits, and the merge skips 10 of those 5 and returns none | each index is searched from 0 for `from + size` hits, and the merge alone paginates | not executed | SearchHandler.OffsetAppliedTwice | SearchHandler.PerIndexAgrees |

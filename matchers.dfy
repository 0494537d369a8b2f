/**
 * Leaf matchers (storage/search/matchers.rs): full-text match and phrase
 * scoring, term, terms, range, prefix and wildcard tests. Scores are the
 * constants 1.0, 0.8, 0.6 and 0.5 and ratios of word counts, taken as exact
 * `real` values: the rounding of `f64` is not modelled.
 */
module Matchers {

  import opened Json
  import opened Text
  import opened Glob
  import opened SearchUtils

  // ---------------------------------------------------------------------------
  // Text scoring shared by match and the all-fields search
  // ---------------------------------------------------------------------------

  /** The text a leaf field is compared as: strings lowercased, numbers and booleans rendered. */
  function FieldText(v: Value): (r: Option<string>)
    ensures r.Some? <==> v.Str? || v.Num? || v.Bool?
  {
    match v
    case Str(s) => Some(Lower(s))
    case Num(_, text) => Some(text)
    case Bool(b) => Some(BoolText(b))
    case _ => None
  }

  /** `field_words.iter().any(|fw| fw.contains(w))`. */
  predicate InSomeWord(fieldWords: seq<string>, w: string)
  {
    exists fw :: fw in fieldWords && Contains(fw, w)
  }

  /** How many query words occur inside some field word. */
  function WordHits(queryWords: seq<string>, fieldWords: seq<string>): (n: nat)
    ensures n <= |queryWords|
    ensures n == 0 <==> forall w :: w in queryWords ==> !InSomeWord(fieldWords, w)
  {
    if queryWords == [] then 0
    else (if InSomeWord(fieldWords, queryWords[0]) then 1 else 0) + WordHits(queryWords[1..], fieldWords)
  }

  /**
   * The score of one lowercased text against the lowercased query: 1.0 when
   * equal, 0.8 when it contains the query, else half the share of query words
   * found inside field words (0 when none is).
   */
  function TextScore(text: string, query: string): (r: real)
    ensures 0.0 <= r <= 1.0
    ensures r == 1.0 <==> text == query
    ensures r == 0.8 <==> text != query && Contains(text, query)
    ensures 0.0 < r <= 0.5 <==> !Contains(text, query) && WordHits(Words(query), Words(text)) > 0
    ensures r == 0.0 <==> !Contains(text, query) && WordHits(Words(query), Words(text)) == 0
  {
    if text == query then ContainsSelf(text); 1.0
    else if Contains(text, query) then 0.8
    else
      var words := Words(query);
      var hits := WordHits(words, Words(text));
      if hits > 0 then RatioAtMostOne(hits, |words|); 0.5 * (hits as real / |words| as real) else 0.0
  }

  lemma RatioAtMostOne(a: nat, b: nat)
    requires 0 < b && a <= b
    ensures 0.0 <= a as real / b as real <= 1.0
  {
  }

  function Max(a: real, b: real): real { if a >= b then a else b }

  // ---------------------------------------------------------------------------
  // match
  // ---------------------------------------------------------------------------

  /** The best score of any leaf of `v` (search_value): strings by TextScore, numbers 0.5 on containment. */
  function LeafMax(v: Value, query: string): (r: real)
    ensures 0.0 <= r <= 1.0
    decreases v, 1, 0
  {
    match v
    case Str(s) => TextScore(Lower(s), query)
    case Num(_, text) => if Contains(text, query) then 0.5 else 0.0
    case Obj(fields) => FieldsMax(fields, 0, query)
    case Arr(items) => ItemsMax(items, 0, query)
    case _ => 0.0
  }

  function FieldsMax(fields: seq<(string, Value)>, i: nat, query: string): (r: real)
    requires i <= |fields|
    ensures 0.0 <= r <= 1.0
    ensures forall j :: i <= j < |fields| ==> LeafMax(fields[j].1, query) <= r
    decreases Obj(fields), 0, |fields| - i
  {
    if i == |fields| then 0.0 else Max(LeafMax(fields[i].1, query), FieldsMax(fields, i + 1, query))
  }

  function ItemsMax(items: seq<Value>, i: nat, query: string): (r: real)
    requires i <= |items|
    ensures 0.0 <= r <= 1.0
    ensures forall j :: i <= j < |items| ==> LeafMax(items[j], query) <= r
    decreases Arr(items), 0, |items| - i
  {
    if i == |items| then 0.0 else Max(LeafMax(items[i], query), ItemsMax(items, i + 1, query))
  }

  /**
   * `search_value`: walks the value recursively and raises the running
   * maximum `best` with every leaf's score.
   */
  method SearchValue(v: Value, query: string, best: real) returns (r: real)
    requires 0.0 <= best
    ensures r == Max(best, LeafMax(v, query))
    decreases v
  {
    match v {
      case Str(s) =>
        r := Max(best, TextScore(Lower(s), query));
      case Num(_, text) =>
        r := if Contains(text, query) then Max(best, 0.5) else best;
        assert r == Max(best, LeafMax(v, query));
      case Obj(fields) =>
        r := best;
        var i := 0;
        while i < |fields|
          invariant 0 <= i <= |fields|
          invariant 0.0 <= r
          invariant Max(r, FieldsMax(fields, i, query)) == Max(best, FieldsMax(fields, 0, query))
        {
          r := SearchValue(fields[i].1, query, r);
          i := i + 1;
        }
      case Arr(items) =>
        r := best;
        var i := 0;
        while i < |items|
          invariant 0 <= i <= |items|
          invariant 0.0 <= r
          invariant Max(r, ItemsMax(items, i, query)) == Max(best, ItemsMax(items, 0, query))
        {
          r := SearchValue(items[i], query, r);
          i := i + 1;
        }
      case _ =>
        r := best;
        assert LeafMax(v, query) == 0.0;
    }
  }

  /** `match_all_fields`. */
  function MatchAllFields(doc: Value, query: string): (r: Option<real>)
    ensures query == "" ==> r == Some(1.0)
    ensures r.Some? ==> 0.0 < r.value <= 1.0
  {
    if query == "" then Some(1.0)
    else
      var best := LeafMax(doc, Lower(query));
      if best > 0.0 then Some(best) else None
  }

  /** `match_field`. */
  function MatchField(doc: Value, field: string, query: string): (r: Option<real>)
    ensures query == "" ==> r == Some(1.0)
    ensures r.Some? ==> 0.0 < r.value <= 1.0
  {
    if query == "" then Some(1.0)
    else if field == "_all" || field == "*" then MatchAllFields(doc, query)
    else match FieldValue(doc, field)
      case None => None
      case Some(v) =>
        match FieldText(v)
        case None => None
        case Some(text) =>
          var score := TextScore(text, Lower(query));
          if score > 0.0 then Some(score) else None
  }

  /** How a single field scores for a non-empty query. */
  lemma MatchFieldScores(doc: Value, field: string, query: string)
    requires query != "" && field != "_all" && field != "*"
    ensures var r := MatchField(doc, field, query);
            var v := FieldValue(doc, field);
            var q := Lower(query);
            (v.None? || FieldText(v.value).None? ==> r.None?)
            && (v.Some? && FieldText(v.value).Some? ==>
                  var t := FieldText(v.value).value;
                  (r == Some(1.0) <==> t == q)
                  && (r == Some(0.8) <==> t != q && Contains(t, q))
                  && (r.Some? && r.value <= 0.5 <==> !Contains(t, q) && WordHits(Words(q), Words(t)) > 0)
                  && (r.None? <==> !Contains(t, q) && WordHits(Words(q), Words(t)) == 0))
  {
  }

  /** A number scores 0.5 in the all-fields search whenever its text contains the query, even when equal. */
  lemma NumberLeafScore(x: real, text: string, query: string)
    ensures LeafMax(Num(x, text), query) == if Contains(text, query) then 0.5 else 0.0
  {
  }

  /** The all-fields score of an object is at least the score of each member. */
  lemma {:induction false} LeafMaxBoundsMembers(fields: seq<(string, Value)>, query: string, j: nat)
    requires j < |fields|
    ensures LeafMax(fields[j].1, query) <= LeafMax(Obj(fields), query)
  {
  }

  // ---------------------------------------------------------------------------
  // match_phrase
  // ---------------------------------------------------------------------------

  /**
   * The phrase words match, in order, inside strictly increasing field words
   * (each phrase word a substring of its field word).
   */
  predicate Embeds(fieldWords: seq<string>, phraseWords: seq<string>)
    decreases |fieldWords|
  {
    phraseWords == [] ||
    (fieldWords != [] &&
      ((Contains(fieldWords[0], phraseWords[0]) && Embeds(fieldWords[1..], phraseWords[1..]))
       || Embeds(fieldWords[1..], phraseWords)))
  }

  /** Dropping the first phrase word keeps an embedding. */
  lemma {:induction false} EmbedsTail(fieldWords: seq<string>, phraseWords: seq<string>)
    requires phraseWords != [] && Embeds(fieldWords, phraseWords)
    ensures Embeds(fieldWords, phraseWords[1..])
    decreases |fieldWords|
  {
    if phraseWords[1..] != [] {
      if Contains(fieldWords[0], phraseWords[0]) && Embeds(fieldWords[1..], phraseWords[1..]) {
        EmbedsSkip(fieldWords, phraseWords[1..]);
      } else {
        EmbedsTail(fieldWords[1..], phraseWords);
      }
    }
  }

  lemma EmbedsSkip(fieldWords: seq<string>, phraseWords: seq<string>)
    requires fieldWords != [] && Embeds(fieldWords[1..], phraseWords)
    ensures Embeds(fieldWords, phraseWords)
  {
  }

  /** Taking the first field word that fits is never worse than skipping it. */
  lemma GreedyStep(fieldWords: seq<string>, phraseWords: seq<string>)
    requires fieldWords != [] && phraseWords != []
    ensures Contains(fieldWords[0], phraseWords[0]) ==>
              (Embeds(fieldWords, phraseWords) <==> Embeds(fieldWords[1..], phraseWords[1..]))
    ensures !Contains(fieldWords[0], phraseWords[0]) ==>
              (Embeds(fieldWords, phraseWords) <==> Embeds(fieldWords[1..], phraseWords))
  {
    if Contains(fieldWords[0], phraseWords[0]) && Embeds(fieldWords[1..], phraseWords) {
      EmbedsTail(fieldWords[1..], phraseWords);
    }
  }

  /** `words_in_order`: the greedy scan advancing `phrase_idx` decides `Embeds`. */
  method WordsInOrder(fieldWords: seq<string>, phraseWords: seq<string>) returns (r: bool)
    ensures r == Embeds(fieldWords, phraseWords)
  {
    if phraseWords == [] {
      return true;
    }
    var k := 0;
    var i := 0;
    while i < |fieldWords|
      invariant 0 <= i <= |fieldWords| && 0 <= k < |phraseWords|
      invariant Embeds(fieldWords, phraseWords) == Embeds(fieldWords[i..], phraseWords[k..])
    {
      GreedyStep(fieldWords[i..], phraseWords[k..]);
      assert fieldWords[i..][1..] == fieldWords[i + 1..];
      assert phraseWords[k..][1..] == phraseWords[k + 1..];
      if Contains(fieldWords[i], phraseWords[k]) {
        k := k + 1;
        if k == |phraseWords| {
          return true;
        }
      }
      i := i + 1;
    }
    return false;
  }

  /**
   * The score of one lowercased text against the lowercased phrase: it must
   * contain the whole phrase; then 1.0 for one word or words in order, else 0.6.
   */
  function PhraseScore(text: string, phrase: string): (r: real)
    ensures r == 0.0 <==> !Contains(text, phrase)
    ensures r == 1.0 <==> Contains(text, phrase) && (|Words(phrase)| == 1 || Embeds(Words(text), Words(phrase)))
    ensures r == 0.0 || r == 0.6 || r == 1.0
  {
    if !Contains(text, phrase) then 0.0
    else
      var pw := Words(phrase);
      if |pw| == 1 || Embeds(Words(text), pw) then 1.0 else 0.6
  }

  /** The best phrase score of any string leaf (search_phrase_value); numbers and booleans are skipped. */
  function PhraseLeafMax(v: Value, phrase: string): (r: real)
    ensures 0.0 <= r <= 1.0
    decreases v, 1, 0
  {
    match v
    case Str(s) => PhraseScore(Lower(s), phrase)
    case Obj(fields) => PhraseFieldsMax(fields, 0, phrase)
    case Arr(items) => PhraseItemsMax(items, 0, phrase)
    case _ => 0.0
  }

  function PhraseFieldsMax(fields: seq<(string, Value)>, i: nat, phrase: string): (r: real)
    requires i <= |fields|
    ensures 0.0 <= r <= 1.0
    ensures forall j :: i <= j < |fields| ==> PhraseLeafMax(fields[j].1, phrase) <= r
    decreases Obj(fields), 0, |fields| - i
  {
    if i == |fields| then 0.0 else Max(PhraseLeafMax(fields[i].1, phrase), PhraseFieldsMax(fields, i + 1, phrase))
  }

  function PhraseItemsMax(items: seq<Value>, i: nat, phrase: string): (r: real)
    requires i <= |items|
    ensures 0.0 <= r <= 1.0
    ensures forall j :: i <= j < |items| ==> PhraseLeafMax(items[j], phrase) <= r
    decreases Arr(items), 0, |items| - i
  {
    if i == |items| then 0.0 else Max(PhraseLeafMax(items[i], phrase), PhraseItemsMax(items, i + 1, phrase))
  }

  /** `search_phrase_value`, raising the running maximum `best`. */
  method SearchPhraseValue(v: Value, phrase: string, best: real) returns (r: real)
    requires 0.0 <= best
    ensures r == Max(best, PhraseLeafMax(v, phrase))
    decreases v
  {
    match v {
      case Str(s) =>
        var text := Lower(s);
        r := best;
        if Contains(text, phrase) {
          var pw := Words(phrase);
          var inOrder := WordsInOrder(Words(text), pw);
          if |pw| == 1 || inOrder {
            r := Max(r, 1.0);
          } else {
            r := Max(r, 0.6);
          }
        }
      case Obj(fields) =>
        r := best;
        var i := 0;
        while i < |fields|
          invariant 0 <= i <= |fields|
          invariant 0.0 <= r
          invariant Max(r, PhraseFieldsMax(fields, i, phrase)) == Max(best, PhraseFieldsMax(fields, 0, phrase))
        {
          r := SearchPhraseValue(fields[i].1, phrase, r);
          i := i + 1;
        }
      case Arr(items) =>
        r := best;
        var i := 0;
        while i < |items|
          invariant 0 <= i <= |items|
          invariant 0.0 <= r
          invariant Max(r, PhraseItemsMax(items, i, phrase)) == Max(best, PhraseItemsMax(items, 0, phrase))
        {
          r := SearchPhraseValue(items[i], phrase, r);
          i := i + 1;
        }
      case _ =>
        r := best;
        assert PhraseLeafMax(v, phrase) == 0.0;
    }
  }

  /** `match_phrase_all_fields`. */
  function MatchPhraseAllFields(doc: Value, phrase: string): (r: Option<real>)
    ensures phrase == "" ==> r == Some(1.0)
    ensures r.Some? ==> 0.0 < r.value <= 1.0
  {
    if phrase == "" then Some(1.0)
    else
      var best := PhraseLeafMax(doc, Lower(phrase));
      if best > 0.0 then Some(best) else None
  }

  /** `match_phrase_field`. */
  function MatchPhraseField(doc: Value, field: string, phrase: string): (r: Option<real>)
    ensures phrase == "" ==> r == Some(1.0)
    ensures r.Some? ==> r.value == 0.6 || r.value == 1.0 || (field == "_all" || field == "*")
    ensures r.Some? ==> 0.0 < r.value <= 1.0
  {
    if phrase == "" then Some(1.0)
    else if field == "_all" || field == "*" then MatchPhraseAllFields(doc, phrase)
    else match FieldValue(doc, field)
      case None => None
      case Some(v) =>
        match FieldText(v)
        case None => None
        case Some(text) =>
          var score := PhraseScore(text, Lower(phrase));
          if score > 0.0 then Some(score) else None
  }

  /** A single field scores only when it contains the whole phrase. */
  lemma MatchPhraseFieldNeedsPhrase(doc: Value, field: string, phrase: string)
    requires phrase != "" && field != "_all" && field != "*"
    ensures MatchPhraseField(doc, field, phrase).Some? <==>
            FieldValue(doc, field).Some? && FieldText(FieldValue(doc, field).value).Some?
            && Contains(FieldText(FieldValue(doc, field).value).value, Lower(phrase))
  {
  }

  // ---------------------------------------------------------------------------
  // multi_match
  // ---------------------------------------------------------------------------

  /** The best match score over `fields` (missing matches count as 0). */
  function FieldsBest(doc: Value, fields: seq<string>, query: string): (r: real)
    ensures 0.0 <= r <= 1.0
    ensures forall j :: 0 <= j < |fields| && MatchField(doc, fields[j], query).Some? ==>
              MatchField(doc, fields[j], query).value <= r
    ensures r > 0.0 ==> exists j :: 0 <= j < |fields| && MatchField(doc, fields[j], query) == Some(r)
  {
    if fields == [] then 0.0
    else
      var first := match MatchField(doc, fields[0], query) case Some(s) => s case None => 0.0;
      var rest := FieldsBest(doc, fields[1..], query);
      assert forall j :: 1 <= j < |fields| ==> fields[j] == fields[1..][j - 1];
      Max(first, rest)
  }

  /** The multi_match result: the best field score, when some field scores. */
  function MultiMatch(doc: Value, fields: seq<string>, query: string): (r: Option<real>)
    ensures query == "" ==> r == Some(1.0)
    ensures r.Some? ==> 0.0 < r.value <= 1.0
    ensures query != "" ==> (r.None? <==> forall j :: 0 <= j < |fields| ==> MatchField(doc, fields[j], query).None?)
  {
    if query == "" then Some(1.0)
    else
      var best := FieldsBest(doc, fields, query);
      if best > 0.0 then Some(best) else None
  }

  /** `multi_match_fields`: the loop accumulating `max_score`. */
  method MultiMatchFields(doc: Value, fields: seq<string>, query: string) returns (r: Option<real>)
    ensures r == MultiMatch(doc, fields, query)
  {
    if query == "" {
      return Some(1.0);
    }
    var best := 0.0;
    var i := 0;
    while i < |fields|
      invariant 0 <= i <= |fields|
      invariant Max(best, FieldsBest(doc, fields[i..], query)) == FieldsBest(doc, fields, query)
      invariant 0.0 <= best
    {
      assert fields[i..][1..] == fields[i + 1..];
      var score := MatchField(doc, fields[i], query);
      if score.Some? {
        best := Max(best, score.value);
      }
      i := i + 1;
    }
    r := if best > 0.0 then Some(best) else None;
  }

  // ---------------------------------------------------------------------------
  // term, terms
  // ---------------------------------------------------------------------------

  /** `term_match`: the resolved value equals the term exactly. */
  predicate TermMatch(doc: Value, field: string, value: Value)
  {
    FieldValue(doc, field) == Some(value)
  }

  /** `terms_match`: an empty list matches everything, else some listed value equals the field. */
  predicate TermsMatch(doc: Value, field: string, values: seq<Value>)
  {
    values == [] || (FieldValue(doc, field).Some? && FieldValue(doc, field).value in values)
  }

  lemma TermsMatchAny(doc: Value, field: string, values: seq<Value>)
    requires values != []
    ensures TermsMatch(doc, field, values) <==> exists j :: 0 <= j < |values| && TermMatch(doc, field, values[j])
  {
    if TermsMatch(doc, field, values) {
      var j :| 0 <= j < |values| && values[j] == FieldValue(doc, field).value;
      assert TermMatch(doc, field, values[j]);
    }
  }

  // ---------------------------------------------------------------------------
  // range
  // ---------------------------------------------------------------------------

  function Pow10(e: nat): (r: real)
    ensures r >= 1.0
  {
    if e == 0 then 1.0 else 10.0 * Pow10(e - 1)
  }

  /** The value of a digit string read as a fraction after the decimal point. */
  function FractionValue(s: string): real
    requires AllDigits(s)
  {
    DigitsValue(s) as real / Pow10(|s|)
  }

  /** `[+-]? digits [. digits]? ([eE] [+-]? digits)?` with at least one mantissa digit. */
  function ParseDecimal(s: string): (r: Option<real>)
  {
    var neg := |s| > 0 && s[0] == '-';
    var body := if |s| > 0 && (s[0] == '+' || s[0] == '-') then s[1..] else s;
    var intLen := DigitRun(body);
    var afterInt := body[intLen..];
    var fracLen := if |afterInt| > 0 && afterInt[0] == '.' then DigitRun(afterInt[1..]) else 0;
    var hasDot := |afterInt| > 0 && afterInt[0] == '.';
    var mantEnd := intLen + (if hasDot then 1 + fracLen else 0);
    var rest := body[mantEnd..];
    if intLen + fracLen == 0 then None
    else
      var mantissa := DigitsValue(body[..intLen]) as real
        + (if hasDot then FractionValue(afterInt[1..][..fracLen]) else 0.0);
      var signed := if neg then -mantissa else mantissa;
      if rest == [] then Some(signed)
      else if rest[0] == 'e' || rest[0] == 'E' then
        var exp := rest[1..];
        var expNeg := |exp| > 0 && exp[0] == '-';
        var digits := if |exp| > 0 && (exp[0] == '+' || exp[0] == '-') then exp[1..] else exp;
        if digits == [] || !AllDigits(digits) then None
        else
          var e := DigitsValue(digits);
          Some(if expNeg then signed / Pow10(e) else signed * Pow10(e))
      else None
  }

  /** Length of the leading run of digits. */
  function DigitRun(s: string): (n: nat)
    ensures n <= |s| && AllDigits(s[..n])
    ensures n < |s| ==> !IsDigit(s[n])
  {
    if s == [] || !IsDigit(s[0]) then 0
    else
      var n := 1 + DigitRun(s[1..]);
      assert s[..n] == [s[0]] + s[1..][..n - 1];
      n
  }

  /** The number a range test compares: a JSON number, or a string that parses as one. */
  function RangeNumber(v: Value): Option<real>
  {
    match v
    case Num(x, _) => Some(x)
    case Str(s) => ParseDecimal(s)
    case _ => None
  }

  /** The bound `key` of the range holds for `x`, or is absent or not a number. */
  predicate BoundHolds(params: seq<(string, Value)>, key: string, x: real)
  {
    match Get(params, key)
    case Some(Num(b, _)) =>
      if key == "gte" then x >= b
      else if key == "gt" then x > b
      else if key == "lte" then x <= b
      else x < b
    case _ => true
  }

  /** `range_match`: every present numeric bound holds for the field's number. */
  predicate RangeMatch(doc: Value, field: string, params: seq<(string, Value)>)
  {
    match FieldValue(doc, field)
    case None => false
    case Some(v) =>
      match RangeNumber(v)
      case None => false
      case Some(x) =>
        BoundHolds(params, "gte", x) && BoundHolds(params, "gt", x)
        && BoundHolds(params, "lte", x) && BoundHolds(params, "lt", x)
  }

  /** A range on a missing field, or on a value that is not numeric, never matches. */
  lemma RangeNeedsNumber(doc: Value, field: string, params: seq<(string, Value)>)
    ensures RangeMatch(doc, field, params) ==>
              FieldValue(doc, field).Some? && RangeNumber(FieldValue(doc, field).value).Some?
  {
  }

  /** The bound `key` of a range when it is a JSON number. */
  function NumBound(params: seq<(string, Value)>, key: string): Option<real>
  {
    match Get(params, key)
    case Some(Num(b, _)) => Some(b)
    case _ => None
  }

  /**
   * For a field holding the number `x`, the range matches exactly when each
   * bound that is present and numeric holds: `gte` at most `x`, `gt` below
   * it, `lte` at least `x`, `lt` above it. Absent and non-numeric bounds are
   * ignored.
   */
  lemma RangeBounds(doc: Value, field: string, params: seq<(string, Value)>, x: real)
    requires FieldValue(doc, field).Some? && RangeNumber(FieldValue(doc, field).value) == Some(x)
    ensures RangeMatch(doc, field, params) <==>
              (NumBound(params, "gte").Some? ==> NumBound(params, "gte").value <= x)
              && (NumBound(params, "gt").Some? ==> NumBound(params, "gt").value < x)
              && (NumBound(params, "lte").Some? ==> x <= NumBound(params, "lte").value)
              && (NumBound(params, "lt").Some? ==> x < NumBound(params, "lt").value)
  {
  }

  // ---------------------------------------------------------------------------
  // prefix, wildcard
  // ---------------------------------------------------------------------------

  /** `prefix_match`: case-insensitive starts-with on strings, numbers and booleans. */
  predicate PrefixMatch(doc: Value, field: string, prefix: string)
  {
    prefix == "" ||
    (FieldValue(doc, field).Some? && FieldText(FieldValue(doc, field).value).Some?
     && StartsWith(FieldText(FieldValue(doc, field).value).value, Lower(prefix)))
  }

  /** `wildcard_match`: an anchored glob on the lowercased string, with the lowercased pattern. */
  predicate WildcardMatch(doc: Value, field: string, pattern: string)
  {
    pattern == "" ||
    (FieldValue(doc, field).Some? && FieldValue(doc, field).value.Str?
     && RegexIsMatch(Lower(pattern), Lower(FieldValue(doc, field).value.s)))
  }

  /** A wildcard-free pattern matches exactly the strings equal to it up to case. */
  lemma WildcardLiteral(doc: Value, field: string, pattern: string)
    requires pattern != "" && Literal(Lower(pattern))
    requires FieldValue(doc, field).Some? && FieldValue(doc, field).value.Str?
    ensures WildcardMatch(doc, field, pattern) <==> Lower(FieldValue(doc, field).value.s) == Lower(pattern)
  {
    RegexCompiles(Lower(pattern));
    LiteralMatchesOnlyItself(Lower(pattern), Lower(FieldValue(doc, field).value.s));
  }

  /** A literal pattern followed by '*' tests, case-insensitively, that the string starts with it. */
  lemma WildcardTrailingStar(doc: Value, field: string, p: string, s: string)
    requires Literal(Lower(p))
    requires FieldValue(doc, field) == Some(Str(s))
    ensures WildcardMatch(doc, field, p + "*") <==>
            StartsWith(Lower(s), Lower(p)) && NoNewline(Lower(s)[|Lower(p)|..])
  {
    WildcardLowersPattern(doc, field, p, s);
    RegexLiteralStar(Lower(p), Lower(s));
  }

  lemma WildcardLowersPattern(doc: Value, field: string, p: string, s: string)
    requires FieldValue(doc, field) == Some(Str(s))
    ensures WildcardMatch(doc, field, p + "*") == RegexIsMatch(Lower(p) + "*", Lower(s))
  {
    LowerAppend(p, "*");
    assert Lower(p + "*") == Lower(p) + "*";
  }

  /**
   * On a one-line string field, `prefix p` and `wildcard p*` (with `p` free of
   * wildcards) accept the same documents.
   */
  lemma PrefixIsTrailingStar(doc: Value, field: string, p: string, s: string)
    requires Literal(Lower(p)) && NoNewline(Lower(s))
    requires FieldValue(doc, field) == Some(Str(s))
    ensures PrefixMatch(doc, field, p) <==> WildcardMatch(doc, field, p + "*")
  {
    WildcardTrailingStar(doc, field, p, s);
    if StartsWith(Lower(s), Lower(p)) {
      var rest := Lower(s)[|Lower(p)|..];
      assert NoNewline(rest) by {
        forall i | 0 <= i < |rest| ensures rest[i] != '\n' {
          assert rest[i] == Lower(s)[|Lower(p)| + i];
        }
      }
    }
  }
}

/**
 * The bulk request body (bulk_ops.rs): newline-delimited JSON where each
 * action line names one of index, create, update or delete, and every action
 * but delete is followed by a document line. Parsing a line as JSON is a
 * foreign call; it is given to the parser as the function `parse`, whose
 * failure carries serde's error text.
 */
module Bulk {

  import opened Json
  import opened Text
  import opened Errors

  /** One parsed action. Index and Create may lack an id; Update and Delete need one. */
  datatype BulkAction =
    | BulkIndex(index: string, docId: Option<string>, document: Value)
    | BulkCreate(index: string, docId: Option<string>, document: Value)
    | BulkUpdate(index: string, id: string, document: Value)
    | BulkDelete(index: string, id: string)
  {
    /** The key the action line used. */
    function Kind(): string
    {
      match this
      case BulkIndex(_, _, _) => "index"
      case BulkCreate(_, _, _) => "create"
      case BulkUpdate(_, _, _) => "update"
      case BulkDelete(_, _) => "delete"
    }

    /** The id the action names, if any. */
    function IdOf(): Option<string>
    {
      match this
      case BulkIndex(_, id, _) => id
      case BulkCreate(_, id, _) => id
      case BulkUpdate(_, id, _) => Some(id)
      case BulkDelete(_, id) => Some(id)
    }
  }

  /** The outcome of `serde_json::from_str` on one line. */
  datatype Parsed = Parsed(value: Value) | ParseError(message: string)

  /** `body.lines().filter(|l| !l.trim().is_empty())`. */
  function NonBlank(lines: seq<string>): (r: seq<string>)
    ensures forall l :: l in r ==> l in lines && !IsBlank(l)
    ensures forall l :: l in lines && !IsBlank(l) ==> l in r
    ensures |r| <= |lines|
  {
    if lines == [] then []
    else if IsBlank(lines[0]) then NonBlank(lines[1..])
    else [lines[0]] + NonBlank(lines[1..])
  }

  /** The lines the parser walks over. */
  function ActionLines(body: string): seq<string>
  {
    NonBlank(Lines(body))
  }

  /** `v.get(key).and_then(|v| v.as_str())`. */
  function StrMember(v: Value, key: string): (r: Option<string>)
    ensures r.Some? <==> Member(v, key).Some? && Member(v, key).value.Str?
  {
    match Member(v, key)
    case Some(Str(s)) => Some(s)
    case _ => None
  }

  /** The target index: the metadata's `_index` string, else the default. */
  function TargetIndex(meta: Value, default: Option<string>): (r: Result<string>)
    ensures r.Err? <==> StrMember(meta, "_index").None? && default.None?
    ensures r.Err? ==> r.error == InvalidRequest("Missing _index in bulk action")
    ensures r.Ok? && StrMember(meta, "_index").Some? ==> r.value == StrMember(meta, "_index").value
    ensures r.Ok? && StrMember(meta, "_index").None? ==> r.value == default.value
  {
    match StrMember(meta, "_index")
    case Some(s) => Ok(s)
    case None =>
      match default
      case Some(d) => Ok(d)
      case None => Err(InvalidRequest("Missing _index in bulk action"))
  }

  /** Reading the document line that follows an index, create or update action line. */
  function DocumentLine(lines: seq<string>, kind: string, parse: string -> Parsed): Result<Value>
    requires |lines| >= 1
  {
    if |lines| < 2 then Err(InvalidRequest("Missing document for " + kind + " action"))
    else
      match parse(lines[1])
      case ParseError(m) => Err(InvalidRequest("Invalid document JSON: " + m))
      case Parsed(d) => Ok(d)
  }

  /** An index or create action line with metadata `meta`. */
  function DocAction(lines: seq<string>, kind: string, meta: Value, default: Option<string>,
                     parse: string -> Parsed): (r: Result<(BulkAction, nat)>)
    requires |lines| >= 1 && (kind == "index" || kind == "create")
    ensures TargetIndex(meta, default).Err? ==> r == Err(TargetIndex(meta, default).error)
    ensures r.Ok? ==> r.value.0.Kind() == kind && r.value.0.index == TargetIndex(meta, default).value && r.value.1 == 2
  {
    match TargetIndex(meta, default)
    case Err(e) => Err(e)
    case Ok(index) =>
      var id := StrMember(meta, "_id");
      match DocumentLine(lines, kind, parse)
      case Err(e) => Err(e)
      case Ok(doc) =>
        Ok((if kind == "index" then BulkIndex(index, id, doc) else BulkCreate(index, id, doc), 2))
  }

  /** An update action line with metadata `meta`: the `doc` member of the next line, or the whole line. */
  function UpdateAction(lines: seq<string>, meta: Value, default: Option<string>,
                        parse: string -> Parsed): (r: Result<(BulkAction, nat)>)
    requires |lines| >= 1
    ensures TargetIndex(meta, default).Err? ==> r == Err(TargetIndex(meta, default).error)
    ensures r.Ok? ==> r.value.0.BulkUpdate? && r.value.0.index == TargetIndex(meta, default).value && r.value.1 == 2
  {
    match TargetIndex(meta, default)
    case Err(e) => Err(e)
    case Ok(index) =>
      match StrMember(meta, "_id")
      case None => Err(InvalidRequest("Missing _id in update action"))
      case Some(id) =>
        match DocumentLine(lines, "update", parse)
        case Err(e) => Err(e)
        case Ok(wrapper) =>
          var doc := match Member(wrapper, "doc") case Some(d) => d case None => wrapper;
          Ok((BulkUpdate(index, id, doc), 2))
  }

  /** A delete action line with metadata `meta`; no document line follows. */
  function DeleteAction(meta: Value, default: Option<string>): (r: Result<(BulkAction, nat)>)
    ensures TargetIndex(meta, default).Err? ==> r == Err(TargetIndex(meta, default).error)
    ensures r.Ok? ==> r.value.0.BulkDelete? && r.value.0.index == TargetIndex(meta, default).value && r.value.1 == 1
  {
    match TargetIndex(meta, default)
    case Err(e) => Err(e)
    case Ok(index) =>
      match StrMember(meta, "_id")
      case None => Err(InvalidRequest("Missing _id in delete action"))
      case Some(id) => Ok((BulkDelete(index, id), 1))
  }

  /**
   * The action whose line is `lines[0]` and the number of lines it takes:
   * the first of the keys index, create, update, delete present decides.
   */
  function ParseAction(lines: seq<string>, default: Option<string>, parse: string -> Parsed): (r: Result<(BulkAction, nat)>)
    requires |lines| >= 1
    ensures r.Ok? ==> 1 <= r.value.1 <= |lines|
  {
    match parse(lines[0])
    case ParseError(m) => Err(InvalidRequest("Invalid JSON in bulk action: " + m))
    case Parsed(a) =>
      if Member(a, "index").Some? then DocAction(lines, "index", Member(a, "index").value, default, parse)
      else if Member(a, "create").Some? then DocAction(lines, "create", Member(a, "create").value, default, parse)
      else if Member(a, "update").Some? then UpdateAction(lines, Member(a, "update").value, default, parse)
      else if Member(a, "delete").Some? then DeleteAction(Member(a, "delete").value, default)
      else Err(InvalidRequest("Unknown bulk action: " + lines[0]))
  }

  /** All actions of `lines`, in order; the first error ends the parse. */
  function ParseLines(lines: seq<string>, default: Option<string>, parse: string -> Parsed): Result<seq<BulkAction>>
    decreases |lines|
  {
    if lines == [] then Ok([])
    else
      match ParseAction(lines, default, parse)
      case Err(e) => Err(e)
      case Ok((a, n)) => Prepend([a], ParseLines(lines[n..], default, parse))
  }

  /** `actions` in front of a successful parse; an error stays an error. */
  function Prepend(actions: seq<BulkAction>, rest: Result<seq<BulkAction>>): (r: Result<seq<BulkAction>>)
    ensures r.Err? <==> rest.Err?
    ensures r.Err? ==> r.error == rest.error
  {
    match rest
    case Err(e) => Err(e)
    case Ok(xs) => Ok(actions + xs)
  }

  lemma PrependNothing(rest: Result<seq<BulkAction>>)
    ensures Prepend([], rest) == rest
  {
    if rest.Ok? {
      assert [] + rest.value == rest.value;
    }
  }

  lemma PrependTwice(xs: seq<BulkAction>, ys: seq<BulkAction>, rest: Result<seq<BulkAction>>)
    ensures Prepend(xs, Prepend(ys, rest)) == Prepend(xs + ys, rest)
  {
    if rest.Ok? {
      assert xs + (ys + rest.value) == xs + ys + rest.value;
    }
  }

  /** The parser's step: reading the action at line `i` moves it from the unparsed lines to the parsed ones. */
  lemma ParseLinesAdvance(lines: seq<string>, i: nat, actions: seq<BulkAction>, a: BulkAction, n: nat,
                          actions': seq<BulkAction>, i': nat, default: Option<string>, parse: string -> Parsed)
    requires i < |lines| && ParseAction(lines[i..], default, parse) == Ok((a, n))
    requires ParseLines(lines, default, parse) == Prepend(actions, ParseLines(lines[i..], default, parse))
    requires actions' == actions + [a] && i' == i + n
    ensures i < i' <= |lines|
    ensures ParseLines(lines, default, parse) == Prepend(actions', ParseLines(lines[i'..], default, parse))
  {
    assert ParseLines(lines[i..], default, parse) == Prepend([a], ParseLines(lines[i..][n..], default, parse));
    assert lines[i..][n..] == lines[i'..];
    PrependTwice(actions, [a], ParseLines(lines[i'..], default, parse));
  }

  /** `parse_bulk_ndjson(body, default_index)`. */
  function ParseBulk(body: string, default: Option<string>, parse: string -> Parsed): Result<seq<BulkAction>>
  {
    ParseLines(ActionLines(body), default, parse)
  }

  /** The parser's loop: the line index advances past each action's lines. */
  method ParseBulkNdjson(body: string, default: Option<string>, parse: string -> Parsed)
    returns (r: Result<seq<BulkAction>>)
    ensures r == ParseBulk(body, default, parse)
  {
    r := ParseEach(ActionLines(body), default, parse);
  }

  /** The loop over the action lines. */
  method ParseEach(lines: seq<string>, default: Option<string>, parse: string -> Parsed)
    returns (r: Result<seq<BulkAction>>)
    ensures r == ParseLines(lines, default, parse)
  {
    var actions: seq<BulkAction> := [];
    var i := 0;
    assert lines[0..] == lines;
    PrependNothing(ParseLines(lines, default, parse));
    while i < |lines|
      invariant 0 <= i <= |lines|
      invariant ParseLines(lines, default, parse) == Prepend(actions, ParseLines(lines[i..], default, parse))
      decreases |lines| - i
    {
      var failed;
      failed, actions, i := ParseOne(lines, i, actions, default, parse);
      if failed.Some? {
        return Err(failed.value);
      }
    }
    assert lines[i..] == [];
    assert actions + [] == actions;
    r := Ok(actions);
  }

  /** One turn of the parser's loop: the action at line `i` is read, or its error reported. */
  method ParseOne(lines: seq<string>, i: nat, actions: seq<BulkAction>, default: Option<string>, parse: string -> Parsed)
    returns (failed: Option<GbsError>, actions': seq<BulkAction>, i': nat)
    requires i < |lines|
    requires ParseLines(lines, default, parse) == Prepend(actions, ParseLines(lines[i..], default, parse))
    ensures failed.Some? ==> ParseLines(lines, default, parse) == Err(failed.value)
    ensures failed.None? ==> i < i' <= |lines| && ParseLines(lines, default, parse) == Prepend(actions', ParseLines(lines[i'..], default, parse))
  {
    var step := ParseAction(lines[i..], default, parse);
    match step {
      case Err(e) =>
        ParseLinesFails(lines, i, actions, default, parse);
        failed, actions', i' := Some(e), actions, i;
      case Ok((a, n)) =>
        failed, actions', i' := None, actions + [a], i + n;
        ParseLinesAdvance(lines, i, actions, a, n, actions', i', default, parse);
    }
  }

  lemma ParseLinesFails(lines: seq<string>, i: nat, actions: seq<BulkAction>, default: Option<string>, parse: string -> Parsed)
    requires i < |lines| && ParseAction(lines[i..], default, parse).Err?
    requires ParseLines(lines, default, parse) == Prepend(actions, ParseLines(lines[i..], default, parse))
    ensures ParseLines(lines, default, parse) == Err(ParseAction(lines[i..], default, parse).error)
  {
  }


  // ---------------------------------------------------------------------------
  // Properties
  // ---------------------------------------------------------------------------

  /** Every line of a blank text is blank. */
  lemma {:induction false} LinesOfBlank(s: string)
    requires IsBlank(s)
    ensures forall l :: l in Lines(s) ==> IsBlank(l)
    decreases |s|
  {
    if s != [] {
      var n := LineLen(s);
      if n < |s| {
        LinesOfBlank(s[n + 1..]);
      }
    }
  }

  lemma NonBlankOfBlanks(lines: seq<string>)
    requires forall l :: l in lines ==> IsBlank(l)
    ensures NonBlank(lines) == []
  {
  }

  /** An empty or whitespace-only body yields no actions. */
  lemma BlankBodyNoActions(body: string, default: Option<string>, parse: string -> Parsed)
    requires IsBlank(body)
    ensures ParseBulk(body, default, parse) == Ok([])
  {
    LinesOfBlank(body);
    NonBlankOfBlanks(Lines(body));
  }

  /** An action line that is not JSON is an error. */
  lemma ActionLineNotJson(lines: seq<string>, default: Option<string>, parse: string -> Parsed)
    requires |lines| >= 1 && parse(lines[0]).ParseError?
    ensures ParseAction(lines, default, parse) == Err(InvalidRequest("Invalid JSON in bulk action: " + parse(lines[0]).message))
  {
  }

  /**
   * The kind of the parsed action is the first of index, create, update,
   * delete present as a key of the action line; with none of them the line
   * is an unknown action.
   */
  lemma ActionKindPriority(lines: seq<string>, default: Option<string>, parse: string -> Parsed)
    requires |lines| >= 1 && parse(lines[0]).Parsed?
    ensures FirstKind(parse(lines[0]).value, ["index", "create", "update", "delete"]).None? ==>
              ParseAction(lines, default, parse) == Err(InvalidRequest("Unknown bulk action: " + lines[0]))
    ensures ParseAction(lines, default, parse).Ok? ==>
              ParseAction(lines, default, parse).value.0.Kind() == FirstKind(parse(lines[0]).value, ["index", "create", "update", "delete"]).value
  {
    var a := parse(lines[0]).value;
    var ks := ["index", "create", "update", "delete"];
    assert ks[1..] == ["create", "update", "delete"];
    assert ks[1..][1..] == ["update", "delete"];
    assert ks[1..][1..][1..] == ["delete"];
    assert ks[1..][1..][1..][1..] == [];
    if Member(a, "index").Some? {
      assert FirstKind(a, ks) == Some("index");
    } else if Member(a, "create").Some? {
      assert FirstKind(a, ks) == Some("create");
    } else if Member(a, "update").Some? {
      assert FirstKind(a, ks[1..][1..]) == Some("update");
      assert FirstKind(a, ks) == Some("update");
    } else if Member(a, "delete").Some? {
      assert FirstKind(a, ks[1..][1..][1..]) == Some("delete");
      assert FirstKind(a, ks[1..][1..]) == Some("delete");
      assert FirstKind(a, ks) == Some("delete");
    } else {
      assert FirstKind(a, ks[1..][1..][1..]) == None;
      assert FirstKind(a, ks[1..][1..]) == None;
      assert FirstKind(a, ks) == None;
    }
  }

  /** Every action targets the index its metadata names, else the default, and fails without either. */
  lemma ActionTarget(lines: seq<string>, default: Option<string>, parse: string -> Parsed)
    requires |lines| >= 1 && parse(lines[0]).Parsed?
    requires FirstKind(parse(lines[0]).value, ["index", "create", "update", "delete"]).Some?
    ensures var meta := Member(parse(lines[0]).value, FirstKind(parse(lines[0]).value, ["index", "create", "update", "delete"]).value).value;
            (TargetIndex(meta, default).Err? ==> ParseAction(lines, default, parse) == Err(TargetIndex(meta, default).error))
            && (ParseAction(lines, default, parse).Ok? ==> ParseAction(lines, default, parse).value.0.index == TargetIndex(meta, default).value)
  {
    var a := parse(lines[0]).value;
    var ks := ["index", "create", "update", "delete"];
    assert ks[1..] == ["create", "update", "delete"];
    assert ks[1..][1..] == ["update", "delete"];
    assert ks[1..][1..][1..] == ["delete"];
    assert ks[1..][1..][1..][1..] == [];
    if Member(a, "index").Some? {
      assert FirstKind(a, ks) == Some("index");
    } else if Member(a, "create").Some? {
      assert FirstKind(a, ks) == Some("create");
    } else if Member(a, "update").Some? {
      assert FirstKind(a, ks[1..][1..]) == Some("update");
      assert FirstKind(a, ks) == Some("update");
    } else if Member(a, "delete").Some? {
      assert FirstKind(a, ks[1..][1..][1..]) == Some("delete");
      assert FirstKind(a, ks[1..][1..]) == Some("delete");
      assert FirstKind(a, ks) == Some("delete");
    }
  }

  /** The first of `kinds` that `a` has as a key. */
  function FirstKind(a: Value, kinds: seq<string>): (r: Option<string>)
    ensures r.Some? ==> r.value in kinds && Member(a, r.value).Some?
    ensures r.None? ==> forall k :: k in kinds ==> Member(a, k).None?
  {
    if kinds == [] then None
    else if Member(a, kinds[0]).Some? then Some(kinds[0])
    else FirstKind(a, kinds[1..])
  }

  /** Index and create: optional id, next line is the document, with its two errors. */
  lemma DocumentActionLines(lines: seq<string>, kind: string, meta: Value, default: Option<string>, parse: string -> Parsed)
    requires |lines| >= 1 && (kind == "index" || kind == "create")
    requires TargetIndex(meta, default).Ok?
    ensures |lines| == 1 ==> DocAction(lines, kind, meta, default, parse) == Err(InvalidRequest("Missing document for " + kind + " action"))
    ensures |lines| >= 2 && parse(lines[1]).ParseError? ==>
              DocAction(lines, kind, meta, default, parse) == Err(InvalidRequest("Invalid document JSON: " + parse(lines[1]).message))
    ensures |lines| >= 2 && parse(lines[1]).Parsed? ==>
              var r := DocAction(lines, kind, meta, default, parse);
              r.Ok? && r.value.1 == 2 && r.value.0.Kind() == kind && r.value.0.document == parse(lines[1]).value
              && r.value.0.docId == StrMember(meta, "_id")
  {
  }

  /** Update needs an id and stores the `doc` member of its document line when there is one. */
  lemma UpdateActionLines(lines: seq<string>, meta: Value, default: Option<string>, parse: string -> Parsed)
    requires |lines| >= 1 && TargetIndex(meta, default).Ok?
    ensures StrMember(meta, "_id").None? ==> UpdateAction(lines, meta, default, parse) == Err(InvalidRequest("Missing _id in update action"))
    ensures StrMember(meta, "_id").Some? && |lines| >= 2 && parse(lines[1]).Parsed? ==>
              var w := parse(lines[1]).value;
              UpdateAction(lines, meta, default, parse)
                == Ok((BulkUpdate(TargetIndex(meta, default).value, StrMember(meta, "_id").value,
                                  if Member(w, "doc").Some? then Member(w, "doc").value else w), 2))
  {
  }

  /** Delete needs an id and takes its action line only. */
  lemma DeleteActionLine(meta: Value, default: Option<string>)
    requires TargetIndex(meta, default).Ok?
    ensures StrMember(meta, "_id").None? ==> DeleteAction(meta, default) == Err(InvalidRequest("Missing _id in delete action"))
    ensures StrMember(meta, "_id").Some? ==>
              DeleteAction(meta, default) == Ok((BulkDelete(TargetIndex(meta, default).value, StrMember(meta, "_id").value), 1))
  {
  }

  /** An action read from a prefix of the lines is read the same way when more lines follow. */
  lemma ParseActionPrefix(l1: seq<string>, l2: seq<string>, default: Option<string>, parse: string -> Parsed)
    requires |l1| >= 1 && ParseAction(l1, default, parse).Ok?
    ensures ParseAction(l1 + l2, default, parse) == ParseAction(l1, default, parse)
  {
    assert (l1 + l2)[0] == l1[0];
    if |l1| >= 2 {
      assert (l1 + l2)[1] == l1[1];
    }
  }

  /**
   * Parsing concatenated line lists: the actions of the first list come out
   * first, in order, and an error in the second list aborts the whole parse.
   */
  lemma {:induction false} ParseAppend(l1: seq<string>, l2: seq<string>, default: Option<string>, parse: string -> Parsed)
    requires ParseLines(l1, default, parse).Ok?
    ensures ParseLines(l1 + l2, default, parse) == Prepend(ParseLines(l1, default, parse).value, ParseLines(l2, default, parse))
    decreases |l1|
  {
    if l1 == [] {
      assert l1 + l2 == l2;
      match ParseLines(l2, default, parse)
      case Err(_) =>
      case Ok(xs) => assert [] + xs == xs;
    } else {
      ParseActionPrefix(l1, l2, default, parse);
      var (a, n) := ParseAction(l1, default, parse).value;
      assert ParseLines(l1, default, parse) == Prepend([a], ParseLines(l1[n..], default, parse));
      assert ParseLines(l1 + l2, default, parse) == Prepend([a], ParseLines((l1 + l2)[n..], default, parse));
      DropAppend(l1, l2, n);
      ParseAppend(l1[n..], l2, default, parse);
      PrependTwice([a], ParseLines(l1[n..], default, parse).value, ParseLines(l2, default, parse));
    }
  }

  lemma DropAppend(l1: seq<string>, l2: seq<string>, n: nat)
    requires n <= |l1|
    ensures (l1 + l2)[n..] == l1[n..] + l2
  {
  }

  /** A line that is not JSON, after correctly parsed actions, rejects the whole body with that error. */
  lemma InvalidLineRejects(l1: seq<string>, line: string, l2: seq<string>, default: Option<string>, parse: string -> Parsed)
    requires ParseLines(l1, default, parse).Ok? && parse(line).ParseError?
    ensures ParseLines(l1 + [line] + l2, default, parse) == Err(InvalidRequest("Invalid JSON in bulk action: " + parse(line).message))
  {
    assert l1 + [line] + l2 == l1 + ([line] + l2);
    ParseAppend(l1, [line] + l2, default, parse);
  }

  /** There is at most one action per action line, and at least one line per action. */
  lemma {:induction false} ActionCount(lines: seq<string>, default: Option<string>, parse: string -> Parsed)
    requires ParseLines(lines, default, parse).Ok?
    ensures |ParseLines(lines, default, parse).value| <= |lines|
    ensures |lines| > 0 ==> |ParseLines(lines, default, parse).value| > 0
    decreases |lines|
  {
    if lines != [] {
      var n := ParseAction(lines, default, parse).value.1;
      ActionCount(lines[n..], default, parse);
    }
  }
}

/**
 * The engine's error type (error.rs): seven kinds, the message each one
 * displays, the HTTP status it maps to and the JSON body of the response.
 * Payloads that are foreign error objects (a serde_json error, a tokio join
 * error) are represented by their display text.
 */
module Errors {

  import opened Json

  datatype GbsError =
    | JsonError(detail: string)
    | Elasticsearch(detail: string)
    | IndexNotFound(detail: string)
    | DocumentNotFound(detail: string)
    | InvalidRequest(detail: string)
    | Storage(detail: string)
    | TaskJoin(detail: string)

  datatype Result<T> = Ok(value: T) | Err(error: GbsError)

  /** The fixed text each kind's message starts with. */
  function Prefix(e: GbsError): string
  {
    match e
    case JsonError(_) => "JSON serialization error: "
    case Elasticsearch(_) => "Elasticsearch error: "
    case IndexNotFound(_) => "Index not found: "
    case DocumentNotFound(_) => "Document not found: "
    case InvalidRequest(_) => "Invalid request: "
    case Storage(_) => "Storage error: "
    case TaskJoin(_) => "Task join error: "
  }

  /** `e.to_string()`. */
  function Message(e: GbsError): (m: string)
    ensures |m| > |e.detail|
  {
    Prefix(e) + e.detail
  }

  /** Two kinds share a prefix text only if they are the same kind. */
  predicate SameKind(a: GbsError, b: GbsError)
  {
    a.JsonError? == b.JsonError? && a.Elasticsearch? == b.Elasticsearch?
    && a.IndexNotFound? == b.IndexNotFound? && a.DocumentNotFound? == b.DocumentNotFound?
    && a.InvalidRequest? == b.InvalidRequest? && a.Storage? == b.Storage?
  }

  lemma PrefixesDiffer(a: GbsError, b: GbsError)
    requires !SameKind(a, b)
    ensures exists i :: 0 <= i < |Prefix(a)| && i < |Prefix(b)| && Prefix(a)[i] != Prefix(b)[i]
  {
    var pa, pb := Prefix(a), Prefix(b);
    if pa[0] != pb[0] {
      assert pa[0] != pb[0];
    } else if pa[1] != pb[1] {
      assert pa[1] != pb[1];
    } else {
      assert pa[2] != pb[2];
    }
  }

  lemma KindsDisagreeInMessage(a: GbsError, b: GbsError)
    requires !SameKind(a, b)
    ensures Message(a) != Message(b)
  {
    PrefixesDiffer(a, b);
    var i :| 0 <= i < |Prefix(a)| && i < |Prefix(b)| && Prefix(a)[i] != Prefix(b)[i];
    assert Message(a)[i] != Message(b)[i];
  }

  /** A message identifies its error: the kind and the payload can be read back from it. */
  lemma {:induction false} MessageInjective(a: GbsError, b: GbsError)
    requires Message(a) == Message(b)
    ensures a == b
  {
    var m := Message(a);
    if !SameKind(a, b) {
      KindsDisagreeInMessage(a, b);
      assert false;
    }
    assert Prefix(a) == Prefix(b);
    assert a.detail == m[|Prefix(a)|..] == b.detail;
  }

  /** The HTTP status of the error response. */
  function Status(e: GbsError): (code: int)
    ensures code == 404 <==> e.IndexNotFound? || e.DocumentNotFound?
    ensures code == 400 <==> e.InvalidRequest? || e.JsonError?
    ensures code == 500 <==> e.Elasticsearch? || e.Storage? || e.TaskJoin?
  {
    match e
    case IndexNotFound(_) => 404
    case DocumentNotFound(_) => 404
    case InvalidRequest(_) => 400
    case Elasticsearch(_) => 500
    case JsonError(_) => 400
    case Storage(_) => 500
    case TaskJoin(_) => 500
  }

  /** The body `{"error": {"type": "error", "reason": <message>}}`. */
  function ErrorBody(e: GbsError): (body: Value)
    ensures Member(body, "error").Some?
    ensures Member(Member(body, "error").value, "reason") == Some(Str(Message(e)))
    ensures Member(Member(body, "error").value, "type") == Some(Str("error"))
  {
    Obj([("error", Obj([("reason", Str(Message(e))), ("type", Str("error"))]))])
  }
}

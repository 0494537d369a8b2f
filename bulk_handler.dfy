/**
 * The `_bulk` endpoint (server/handlers/bulk.rs): parse the body, run every
 * action in order recording one item per action, flag the response when any
 * action failed, and flush and refresh the touched indices when asked to.
 * Reading the request body and the elapsed time are outside the model; the
 * time is a parameter.
 */
module BulkHandler {

  import opened Json
  import opened Errors
  import opened Bulk
  import opened Catalog
  import opened Storages

  datatype Shards = Shards(total: nat, successful: nat, failed: nat)

  /** The `error` member of a failed item. */
  datatype ItemError = ItemError(kind: string, reason: string)

  /** `BulkOperationResult`. */
  datatype OperationResult = OperationResult(
    index: string, docType: string, id: string, version: Option<nat>, result: Option<string>,
    shards: Option<Shards>, status: nat, error: Option<ItemError>)

  /** One response item, keyed by the action's kind. */
  datatype BulkItem = BulkItem(kind: string, result: OperationResult)

  datatype BulkResponse = BulkResponse(took: nat, errors: bool, items: seq<BulkItem>)

  /** The item recorded for `action` given what executing it returned. */
  function ItemFor(action: BulkAction, r: Result<Outcome>): BulkItem
  {
    match r
    case Ok(o) =>
      BulkItem(action.Kind(), OperationResult(o.index, "_doc", o.id, Some(1), Some(o.result), Some(Shards(1, 1, 0)), o.status, None))
    case Err(e) =>
      var id := match action.IdOf() case Some(x) => x case None => "unknown";
      BulkItem(action.Kind(), OperationResult(action.index, "_doc", id, None, None, Some(Shards(1, 0, 1)), 400,
                                              Some(ItemError("invalid_request_exception", Message(e)))))
  }

  /** What executing one action does: `execute_bulk_action` (`Catalog.BulkOp`) in the handler. */
  type Executor = (Store, BulkAction) -> (Result<Outcome>, Store)

  /**
   * Execute the actions in order, each on the state the previous ones left:
   * the items and the state after the last action.
   */
  function RunActions(exec: Executor, st: Store, actions: seq<BulkAction>): (seq<BulkItem>, Store)
    decreases |actions|
  {
    if actions == [] then ([], st)
    else
      var before := RunActions(exec, st, actions[..|actions| - 1]);
      var last := actions[|actions| - 1];
      var step := exec(before.1, last);
      (before.0 + [ItemFor(last, step.0)], step.1)
  }

  predicate Failed(item: BulkItem) { item.result.error.Some? }

  /** `has_errors`: some item failed. */
  predicate HasErrors(items: seq<BulkItem>)
    decreases |items|
  {
    items != [] && (HasErrors(items[..|items| - 1]) || Failed(items[|items| - 1]))
  }

  /** The indices the actions name, failed or not. */
  function Affected(actions: seq<BulkAction>): set<string>
    decreases |actions|
  {
    if actions == [] then {} else Affected(actions[..|actions| - 1]) + {actions[|actions| - 1].index}
  }

  /** Whether the `refresh` parameter (default "false") asks for a refresh. */
  predicate RefreshRequested(params: map<string, string>)
  {
    var refresh := if "refresh" in params then params["refresh"] else "false";
    refresh == "true" || refresh == "wait_for"
  }

  /** The whole request: a parse error rejects it before anything runs. */
  function BulkResult(st: Store, body: string, default: Option<string>, parse: string -> Parsed, took: nat)
    : (Result<BulkResponse>, Store)
  {
    match ParseBulk(body, default, parse)
    case Err(e) => (Err(e), st)
    case Ok(actions) =>
      var (items, st') := RunActions(BulkOp, st, actions);
      (Ok(BulkResponse(took, HasErrors(items), items)), st')
  }

  /** The state before the action at position `i`. */
  function StateBefore(exec: Executor, st: Store, actions: seq<BulkAction>, i: nat): Store
    requires i <= |actions|
  {
    RunActions(exec, st, actions[..i]).1
  }

  // ---------------------------------------------------------------------------
  // The handler
  // ---------------------------------------------------------------------------

  /**
   * `bulk_operations`. `refreshed` lists the indices refreshed afterwards
   * (flush and refresh always succeed in the model, so their outcome is
   * never reported).
   */
  method BulkOperations(storage: Storage, body: string, default: Option<string>, params: map<string, string>,
                        parse: string -> Parsed, took: nat)
    returns (r: Result<BulkResponse>, refreshed: set<string>)
    modifies storage, storage.backend
    ensures (r, storage.State()) == BulkResult(old(storage.State()), body, default, parse, took)
    ensures r.Ok? && RefreshRequested(params) ==> refreshed == Affected(ParseBulk(body, default, parse).value)
    ensures !RefreshRequested(params) || r.Err? ==> refreshed == {}
  {
    refreshed := {};
    var parsed := ParseBulkNdjson(body, default, parse);
    if parsed.Err? {
      return Err(parsed.error), {};
    }
    var actions := parsed.value;
    var items, hasErrors, affected := ExecuteAll(storage, actions);
    r := Ok(BulkResponse(took, hasErrors, items));
    if RefreshRequested(params) {
      var flushed := storage.Flush();
      refreshed := RefreshEach(storage, affected);
    }
  }

  /**
   * The loop of `bulk_operations`: execute every action in order, recording
   * one item each, whether any failed, and the indices they name.
   */
  method ExecuteAll(storage: Storage, actions: seq<BulkAction>)
    returns (items: seq<BulkItem>, hasErrors: bool, affected: set<string>)
    modifies storage, storage.backend
    ensures (items, storage.State()) == RunActions(BulkOp, old(storage.State()), actions)
    ensures hasErrors <==> HasErrors(items)
    ensures affected == Affected(actions)
  {
    items := [];
    hasErrors := false;
    affected := {};
    ghost var st0 := storage.State();
    var i := 0;
    while i < |actions|
      invariant 0 <= i <= |actions|
      invariant (items, storage.State()) == RunActions(BulkOp, st0, actions[..i])
      invariant hasErrors <==> HasErrors(items)
      invariant affected == Affected(actions[..i])
    {
      var action := actions[i];
      affected := affected + {action.index};
      var outcome, item := ExecuteOne(storage, st0, actions, i, items);
      hasErrors := hasErrors || outcome.Err?;
      AffectedSnoc(actions, i);
      HasErrorsAppend(items, item);
      items := items + [item];
      i := i + 1;
    }
    assert actions[..i] == actions;
  }

  /** One pass of the loop: execute the action at position `i` and record its item. */
  method ExecuteOne(storage: Storage, ghost st0: Store, actions: seq<BulkAction>, i: nat, ghost items: seq<BulkItem>)
    returns (outcome: Result<Outcome>, item: BulkItem)
    requires i < |actions|
    requires (items, storage.State()) == RunActions(BulkOp, st0, actions[..i])
    modifies storage, storage.backend
    ensures item == ItemFor(actions[i], outcome) && (Failed(item) <==> outcome.Err?)
    ensures (items + [item], storage.State()) == RunActions(BulkOp, st0, actions[..i + 1])
  {
    outcome := storage.ExecuteBulkAction(actions[i]);
    item := ItemFor(actions[i], outcome);
    RunSnoc(BulkOp, st0, actions, i);
  }

  /** Running one more action appends its item to those of the prefix before it. */
  lemma RunSnoc(exec: Executor, st: Store, actions: seq<BulkAction>, i: nat)
    requires i < |actions|
    ensures var before := RunActions(exec, st, actions[..i]);
            var step := exec(before.1, actions[i]);
            RunActions(exec, st, actions[..i + 1]) == (before.0 + [ItemFor(actions[i], step.0)], step.1)
  {
    assert actions[..i + 1][..i] == actions[..i];
  }

  lemma AffectedSnoc(actions: seq<BulkAction>, i: nat)
    requires i < |actions|
    ensures Affected(actions[..i + 1]) == Affected(actions[..i]) + {actions[i].index}
  {
    assert actions[..i + 1] == actions[..i] + [actions[i]];
  }

  lemma HasErrorsAppend(items: seq<BulkItem>, item: BulkItem)
    ensures HasErrors(items + [item]) <==> HasErrors(items) || Failed(item)
  {
    assert (items + [item])[..|items|] == items;
  }

  /** `has_errors` holds exactly when some item failed. */
  lemma {:induction false} HasErrorsSome(items: seq<BulkItem>)
    ensures HasErrors(items) <==> exists i :: 0 <= i < |items| && Failed(items[i])
    decreases |items|
  {
    if items != [] {
      var init := items[..|items| - 1];
      HasErrorsSome(init);
      if HasErrors(init) {
        var k :| 0 <= k < |init| && Failed(init[k]);
        assert items[k] == init[k];
      }
      if k :| 0 <= k < |items| && Failed(items[k]) {
        if k < |init| {
          assert init[k] == items[k];
        }
      }
    }
  }

  /** Refresh every index of the set, in any order, ignoring each outcome. */
  method RefreshEach(storage: Storage, names: set<string>) returns (done: set<string>)
    ensures done == names
  {
    done := {};
    var rest := names;
    while rest != {}
      invariant rest <= names && done == names - rest
      decreases rest
    {
      var n :| n in rest;
      var ignored := storage.RefreshIndex(n);
      done := done + {n};
      rest := rest - {n};
    }
  }

  // ---------------------------------------------------------------------------
  // Properties
  // ---------------------------------------------------------------------------

  /** A body that does not parse is rejected with the parse error, and no action runs. */
  lemma ParseErrorRejects(st: Store, body: string, default: Option<string>, parse: string -> Parsed, took: nat)
    requires ParseBulk(body, default, parse).Err?
    ensures BulkResult(st, body, default, parse, took) == (Err(ParseBulk(body, default, parse).error), st)
  {
  }

  /** Running `xs + ys` is running `xs`, then `ys` on the state `xs` left. */
  lemma {:induction false} RunAppend(exec: Executor, st: Store, xs: seq<BulkAction>, ys: seq<BulkAction>)
    ensures RunActions(exec, st, xs + ys).0 == RunActions(exec, st, xs).0 + RunActions(exec, RunActions(exec, st, xs).1, ys).0
    ensures RunActions(exec, st, xs + ys).1 == RunActions(exec, RunActions(exec, st, xs).1, ys).1
    decreases |ys|
  {
    var mid := RunActions(exec, st, xs).1;
    if ys == [] {
      assert xs + ys == xs;
    } else {
      var init := ys[..|ys| - 1];
      var last := ys[|ys| - 1];
      assert (xs + ys)[..|xs + ys| - 1] == xs + init;
      assert (xs + ys)[|xs + ys| - 1] == last;
      RunAppend(exec, st, xs, init);
      var before := RunActions(exec, mid, init);
      var step := exec(before.1, last);
      assert RunActions(exec, mid, ys) == (before.0 + [ItemFor(last, step.0)], step.1);
      assert RunActions(exec, st, xs).0 + before.0 + [ItemFor(last, step.0)]
          == RunActions(exec, st, xs).0 + (before.0 + [ItemFor(last, step.0)]);
    }
  }

  lemma {:induction false} RunLength(exec: Executor, st: Store, actions: seq<BulkAction>)
    ensures |RunActions(exec, st, actions).0| == |actions|
    decreases |actions|
  {
    if actions != [] {
      RunLength(exec, st, actions[..|actions| - 1]);
    }
  }

  /**
   * One item per action, in order and of the same kind: the item at `i`
   * records what the action at `i` did on the state the earlier actions
   * left, so a failure never stops the actions after it.
   */
  lemma {:induction false} ItemsFollowActions(exec: Executor, st: Store, actions: seq<BulkAction>, i: nat)
    requires i < |actions|
    ensures |RunActions(exec, st, actions).0| == |actions|
    ensures RunActions(exec, st, actions).0[i] == ItemFor(actions[i], exec(StateBefore(exec, st, actions, i), actions[i]).0)
    ensures RunActions(exec, st, actions).0[i].kind == actions[i].Kind()
  {
    RunLength(exec, st, actions);
    RunLength(exec, st, actions[..i]);
    assert actions == actions[..i + 1] + actions[i + 1..];
    RunAppend(exec, st, actions[..i + 1], actions[i + 1..]);
    RunSnoc(exec, st, actions, i);
  }

  /**
   * A failed item has status 400, error type "invalid_request_exception" with
   * the error text, the action's index and id ("unknown" without one), no
   * version or result, and one failed shard. A successful one carries what
   * the action reported, version 1 and one successful shard.
   */
  lemma ItemShape(action: BulkAction, r: Result<Outcome>)
    ensures var item := ItemFor(action, r);
            item.kind == action.Kind() && item.result.docType == "_doc"
            && (Failed(item) <==> r.Err?)
            && (r.Err? ==>
                  item.result.status == 400
                  && item.result.error == Some(ItemError("invalid_request_exception", Message(r.error)))
                  && item.result.index == action.index
                  && item.result.id == (if action.IdOf().Some? then action.IdOf().value else "unknown")
                  && item.result.version.None? && item.result.result.None?
                  && item.result.shards == Some(Shards(1, 0, 1)))
            && (r.Ok? ==>
                  item.result.index == r.value.index && item.result.id == r.value.id
                  && item.result.status == r.value.status && item.result.result == Some(r.value.result)
                  && item.result.version == Some(1) && item.result.shards == Some(Shards(1, 1, 0)))
  {
  }

  /** `errors` is set exactly when some item failed. */
  lemma ErrorsFlag(st: Store, body: string, default: Option<string>, parse: string -> Parsed, took: nat)
    requires ParseBulk(body, default, parse).Ok?
    ensures var r := BulkResult(st, body, default, parse, took).0;
            r.Ok? && (r.value.errors <==> exists i :: 0 <= i < |r.value.items| && Failed(r.value.items[i]))
            && |r.value.items| == |ParseBulk(body, default, parse).value|
  {
    var items := RunActions(BulkOp, st, ParseBulk(body, default, parse).value).0;
    RunLength(BulkOp, st, ParseBulk(body, default, parse).value);
    HasErrorsSome(items);
  }

  /** The refreshed set holds exactly the indices the actions name. */
  lemma {:induction false} AffectedIndices(actions: seq<BulkAction>, n: string)
    ensures n in Affected(actions) <==> exists k :: 0 <= k < |actions| && actions[k].index == n
    decreases |actions|
  {
    if actions != [] {
      var init := actions[..|actions| - 1];
      AffectedIndices(init, n);
      if n in Affected(init) {
        var k :| 0 <= k < |init| && init[k].index == n;
        assert actions[k] == init[k];
      }
      if k :| 0 <= k < |actions| && actions[k].index == n {
        if k < |init| {
          assert init[k] == actions[k];
        }
      }
    }
  }
}

/**
 * The engine's facade (storage.rs and the operation files it delegates to):
 * a catalog of indices updated in place, an optional backend object, and the
 * id generator's count. Every state-changing method is proved to take the
 * state where the matching function of `Catalog` says; the properties of
 * those functions are proved there.
 */
module Storages {

  import opened Json
  import opened Text
  import opened Errors
  import opened Indexes
  import opened Backend
  import opened Bulk
  import opened Catalog
  import opened Glob
  import Pipeline = Search

  /** The names of a catalog, each once (one enumeration of the map's keys). */
  ghost predicate ListsKeys(names: seq<string>, indices: map<string, Index>)
  {
    (forall n :: n in names <==> n in indices)
    && (forall i, j :: 0 <= i < j < |names| ==> names[i] != names[j])
  }

  class Storage {
    var indices: map<string, Index>
    /** The id generator's counter: every value below it is used up. */
    var issued: nat
    const backend: SledBackend?

    /** The state as the `Catalog` functions see it. */
    function State(): Store
      reads this, backend
    {
      Store(indices, if backend == null then None else Some(backend.db), issued)
    }

    /** `Storage::new`: an empty catalog without a backend. */
    constructor New()
      ensures State() == Store(map[], None, 0)
    {
      indices := map[];
      issued := 0;
      backend := null;
    }

    /** `Storage::with_sled`: an empty catalog over an opened backend (nothing is loaded yet). */
    constructor WithSled(b: SledBackend)
      ensures backend == b && indices == map[] && issued == 0
    {
      indices := map[];
      issued := 0;
      backend := b;
    }

    /** `flush`: succeeds; the backend's own flush is outside the model. */
    method Flush() returns (r: Result<()>)
      ensures r == Ok(())
    {
      r := Ok(());
    }

    /** `refresh_index`: the same as `flush`, whatever the name. */
    method RefreshIndex(name: string) returns (r: Result<()>)
      ensures r == Ok(())
    {
      r := Flush();
    }

    /** `load_from_backend`. */
    method LoadFromBackend() returns (r: Result<()>)
      modifies this
      ensures (r, State()) == LoadOp(old(State()))
    {
      if backend == null {
        return Ok(());
      }
      var names := backend.ListIndices();
      var loaded: map<string, Index> := map[];
      var i := 0;
      ghost var d := backend.db;
      assert names[0..] == names;
      while i < |names|
        invariant 0 <= i <= |names| && backend.db == d && issued == old(issued)
        invariant LoadNames(d, names[i..], loaded) == LoadNames(d, names, map[])
      {
        assert names[i..][1..] == names[i + 1..];
        var meta := backend.LoadIndexMetadata(names[i]);
        if meta.Some? {
          var idx := LoadIndex(names[i], meta.value.0, meta.value.1);
          loaded := loaded[names[i] := idx];
        }
        i := i + 1;
      }
      assert names[i..] == [];
      indices := loaded;
      r := Ok(());
    }

    /** One index of `load_from_backend`: `Index::new`, then every stored document inserted. */
    method LoadIndex(name: string, settings: Option<Value>, mappings: Option<Value>) returns (idx: Index)
      requires backend != null
      ensures idx == LoadedIndex(backend.db, name, settings, mappings)
    {
      idx := NewIndex(name, settings, mappings);
      var entries := backend.LoadAllDocuments(name);
      var j := 0;
      assert entries[0..] == entries;
      while j < |entries|
        invariant 0 <= j <= |entries|
        invariant idx.name == name && idx.settings == settings && idx.mappings == mappings && idx.aliases == []
        invariant DocsFrom(entries[j..], idx.documents) == DocsFrom(entries, map[])
      {
        assert entries[j..][1..] == entries[j + 1..];
        idx := idx.(documents := idx.documents[entries[j].0 := entries[j].1]);
        j := j + 1;
      }
    }

    // -------------------------------------------------------------------------
    // Indices
    // -------------------------------------------------------------------------

    /** `create_index`. */
    method CreateIndex(name: string, settings: Option<Value>, mappings: Option<Value>) returns (r: Result<()>)
      modifies this, backend
      ensures (r, State()) == CreateIndexOp(old(State()), name, settings, mappings)
    {
      if name in indices {
        return Err(InvalidRequest("Index " + name + " already exists"));
      }
      if backend != null {
        backend.StoreIndexMetadata(name, settings, mappings);
      }
      indices := indices[name := NewIndex(name, settings, mappings)];
      r := Ok(());
    }

    /** `index_exists`. */
    method IndexExists(name: string) returns (r: Result<bool>)
      ensures r.Ok? && (r.value <==> name in indices)
    {
      r := Ok(name in indices);
    }

    /** `list_indices`: every name once, in the map's iteration order. */
    method ListIndices() returns (names: seq<string>)
      ensures ListsKeys(names, indices)
    {
      names := [];
      var rest := indices.Keys;
      while rest != {}
        invariant rest <= indices.Keys
        invariant forall n :: n in names <==> n in indices && n !in rest
        invariant forall i, j :: 0 <= i < j < |names| ==> names[i] != names[j]
        decreases rest
      {
        var n :| n in rest;
        names := names + [n];
        rest := rest - {n};
      }
    }

    /** `match_indices`: the names the anchored glob matches. */
    method MatchIndices(pattern: string) returns (names: seq<string>)
      ensures forall n :: n in names <==> n in indices && RegexIsMatch(pattern, n)
      ensures forall i, j :: 0 <= i < j < |names| ==> names[i] != names[j]
    {
      var all := ListIndices();
      var source := BuildRegex(pattern);
      var toks := ParseRegex(source).value;
      names := [];
      var i := 0;
      while i < |all|
        invariant 0 <= i <= |all|
        invariant forall n :: n in names <==> n in all[..i] && RegexIsMatch(pattern, n)
        invariant forall a, b :: 0 <= a < b < |names| ==> names[a] != names[b]
      {
        assert all[..i + 1] == all[..i] + [all[i]];
        assert all[i] !in all[..i];
        if Matches(toks, all[i]) {
          names := names + [all[i]];
        }
        i := i + 1;
      }
      assert all[..i] == all;
    }

    /** `get_indices_stats`: each index once, with its document count. */
    method GetIndicesStats() returns (stats: seq<(string, nat)>)
      ensures forall n :: n in indices <==> exists k :: 0 <= k < |stats| && stats[k].0 == n
      ensures forall k :: 0 <= k < |stats| ==> stats[k].0 in indices && stats[k].1 == |indices[stats[k].0].documents|
      ensures forall a, b :: 0 <= a < b < |stats| ==> stats[a].0 != stats[b].0
    {
      var names := ListIndices();
      stats := [];
      var i := 0;
      while i < |names|
        invariant 0 <= i <= |names| && |stats| == i
        invariant forall k :: 0 <= k < i ==> stats[k] == (names[k], |indices[names[k]].documents|)
      {
        stats := stats + [(names[i], |indices[names[i]].documents|)];
        i := i + 1;
      }
      forall n | n in indices ensures exists k :: 0 <= k < |stats| && stats[k].0 == n {
        var k :| 0 <= k < |names| && names[k] == n;
        assert stats[k].0 == n;
      }
    }

    /** `get_aliases`: `{index: {"aliases": {alias: {}}}}` for every index. */
    method GetAliases() returns (v: Value)
      ensures v.Obj?
      ensures forall n :: Member(v, n).Some? <==> n in indices
      ensures forall n :: n in indices ==> Member(v, n) == Some(AliasEntry(indices[n].aliases))
    {
      var names := ListIndices();
      var fields: seq<(string, Value)> := [];
      var i := 0;
      while i < |names|
        invariant 0 <= i <= |names|
        invariant fields == AliasesIn(indices, names[..i])
      {
        assert names[..i + 1][..i] == names[..i];
        var entry := AliasesOf(indices[names[i]].aliases);
        fields := Put(fields, names[i], entry);
        i := i + 1;
      }
      assert names[..i] == names;
      v := Obj(fields);
      forall n ensures (Member(v, n).Some? <==> n in indices)
                       && (n in indices ==> Member(v, n) == Some(AliasEntry(indices[n].aliases))) {
        AliasesComplete(indices, names, n, "");
      }
    }

    /** `get_index`. */
    method GetIndex(name: string) returns (r: Result<Value>)
      ensures r == IndexView(indices, name)
    {
      if name !in indices {
        return Err(IndexNotFound(name));
      }
      var idx := indices[name];
      r := Ok(Obj([(name, Obj([("aliases", Obj([])), ("mappings", OrNull(idx.mappings)), ("settings", OrNull(idx.settings))]))]));
    }

    /** `delete_index`. */
    method DeleteIndex(name: string) returns (r: Result<()>)
      modifies this, backend
      ensures (r, State()) == DeleteIndexOp(old(State()), name)
    {
      if backend != null {
        backend.DeleteIndexMetadata(name);
      }
      if name !in indices {
        return Err(IndexNotFound(name));
      }
      indices := indices - {name};
      r := Ok(());
    }

    /** `delete_all_indices`: delete every index the backend lists, then clear the catalog. */
    method DeleteAllIndices() returns (r: Result<()>)
      modifies this, backend
      ensures (r, State()) == DeleteAllOp(old(State()))
    {
      if backend != null {
        var names := backend.ListIndices();
        ghost var d := backend.db;
        var i := 0;
        assert names[0..] == names;
        while i < |names|
          invariant 0 <= i <= |names|
          invariant DeleteEach(backend.db, names[i..]) == DeleteEach(d, names)
          invariant issued == old(issued)
        {
          assert names[i..][1..] == names[i + 1..];
          backend.DeleteIndexMetadata(names[i]);
          i := i + 1;
        }
      }
      indices := map[];
      r := Ok(());
    }

    /** `update_mapping`: the merge is made in memory, then persisted. */
    method UpdateMapping(name: string, upd: Value) returns (r: Result<()>)
      modifies this, backend
      ensures (r, State()) == UpdateMappingOp(old(State()), name, upd)
    {
      if name !in indices {
        return Err(IndexNotFound(name));
      }
      var idx := indices[name];
      var merged := MergeMappings(idx.mappings, upd);
      idx := idx.(name := name, mappings := Some(merged));
      indices := indices[name := idx];
      if backend != null {
        backend.StoreIndexMetadata(name, idx.settings, idx.mappings);
      }
      r := Ok(());
    }

    /** `update_settings`: the merge is made in memory, then persisted. */
    method UpdateSettings(name: string, upd: Value) returns (r: Result<()>)
      modifies this, backend
      ensures (r, State()) == UpdateSettingsOp(old(State()), name, upd)
    {
      if name !in indices {
        return Err(IndexNotFound(name));
      }
      var idx := indices[name];
      var merged := MergeSettings(idx.settings, upd);
      idx := idx.(name := name, settings := Some(merged));
      indices := indices[name := idx];
      if backend != null {
        backend.StoreIndexMetadata(name, idx.settings, idx.mappings);
      }
      r := Ok(());
    }

    // -------------------------------------------------------------------------
    // Documents
    // -------------------------------------------------------------------------

    /** `index_document`: backend write first, then the index lookup, then the upsert. */
    method IndexDocument(index: string, id: string, doc: Value) returns (r: Result<()>)
      modifies this, backend
      ensures (r, State()) == IndexDocumentOp(old(State()), index, id, doc)
    {
      if backend != null {
        backend.StoreDocument(index, id, doc);
      }
      if index !in indices {
        return Err(IndexNotFound(index));
      }
      var idx := indices[index];
      indices := indices[index := idx.(documents := idx.documents[id := doc])];
      r := Ok(());
    }

    /** A new id for a document of `index`: the counter skips ids already taken there. */
    method NewId(index: string) returns (id: string)
      modifies this
      ensures (id, State()) == IssueId(old(State()), index)
    {
      var used := if index in indices then indices[index].documents.Keys else {};
      var n := issued;
      while GeneratedId(n) in used
        invariant issued == old(issued) && indices == old(indices)
        invariant NextFree(n, used) == NextFree(issued, used)
        decreases |TakenFrom(n, used)|
      {
        TakenShrinks(n, used);
        n := n + 1;
      }
      assert used == UsedIds(State(), index) && NextFree(n, used) == n;
      id := GeneratedId(n);
      issued := n + 1;
    }

    /** `create_document`. */
    method CreateDocument(index: string, doc: Value) returns (r: Result<string>)
      modifies this, backend
      ensures (r, State()) == CreateDocumentOp(old(State()), index, doc)
    {
      var id := NewId(index);
      var step := IndexDocument(index, id, doc);
      r := if step.Ok? then Ok(id) else Err(step.error);
    }

    /** `get_document`. */
    method GetDocument(index: string, id: string) returns (r: Result<Value>)
      ensures r == DocumentView(indices, index, id)
    {
      if index !in indices {
        return Err(IndexNotFound(index));
      }
      if id !in indices[index].documents {
        return Err(DocumentNotFound(id));
      }
      r := Ok(Obj([("_id", Str(id)), ("_index", Str(index)), ("_source", indices[index].documents[id]),
                   ("_type", Str("_doc")), ("_version", Num(1.0, "1"))]));
    }

    /** `delete_document`: backend removal first, then the lookups, then the removal. */
    method DeleteDocument(index: string, id: string) returns (r: Result<()>)
      modifies this, backend
      ensures (r, State()) == DeleteDocumentOp(old(State()), index, id)
    {
      if backend != null {
        backend.DeleteDocument(index, id);
      }
      if index !in indices {
        return Err(IndexNotFound(index));
      }
      var idx := indices[index];
      if id !in idx.documents {
        return Err(DocumentNotFound(id));
      }
      indices := indices[index := idx.(documents := idx.documents - {id})];
      r := Ok(());
    }

    /** `execute_bulk_action`. */
    method ExecuteBulkAction(action: BulkAction) returns (r: Result<Outcome>)
      modifies this, backend
      ensures (r, State()) == BulkOp(old(State()), action)
    {
      match action
      case BulkIndex(index, id, doc) =>
        var docId;
        if id.Some? {
          docId := id.value;
        } else {
          docId := NewId(index);
        }
        var step := IndexDocument(index, docId, doc);
        r := Report(step, Outcome(index, docId, 201, "created"));
      case BulkCreate(index, id, doc) =>
        var docId;
        if id.Some? {
          docId := id.value;
        } else {
          docId := NewId(index);
        }
        if index in indices && docId in indices[index].documents {
          return Err(InvalidRequest("Document " + docId + " already exists"));
        }
        var step := IndexDocument(index, docId, doc);
        r := Report(step, Outcome(index, docId, 201, "created"));
      case BulkUpdate(index, id, patch) =>
        var updated := MergeDocument(Existing(indices, index, id), patch);
        var step := IndexDocument(index, id, updated);
        r := Report(step, Outcome(index, id, 200, "updated"));
      case BulkDelete(index, id) =>
        var step := DeleteDocument(index, id);
        r := Report(step, Outcome(index, id, 200, "deleted"));
    }

    /** `search` (the same pipeline as the search module's; modelled once there). */
    method Search(name: string, query: Value, from: Option<nat>, size: Option<nat>, sort: Option<Value>,
                  filter: Option<Value>, highlight: Option<Value>, took: nat)
      returns (r: Result<Pipeline.SearchResponse>, ghost order: seq<string>)
      ensures name in indices ==> Pipeline.Enumerates(order, indices[name].documents)
      ensures r == Pipeline.SearchResult(indices, name, order, query, from, size, sort, filter, highlight, took)
    {
      r, order := Pipeline.RunSearch(indices, name, query, from, size, sort, filter, highlight, took);
    }
  }

  /** The aliases object of one index, built by inserting each alias. */
  method AliasesOf(aliases: seq<string>) returns (v: Value)
    ensures v == AliasEntry(aliases)
  {
    var fields: seq<(string, Value)> := [];
    var i := 0;
    while i < |aliases|
      invariant 0 <= i <= |aliases|
      invariant fields == AliasFields(aliases[..i])
    {
      assert aliases[..i + 1][..i] == aliases[..i];
      fields := Put(fields, aliases[i], Obj([]));
      i := i + 1;
    }
    assert aliases[..i] == aliases;
    v := Obj([("aliases", Obj(fields))]);
  }

  /** The in-place mapping merge of `update_mapping`. */
  method MergeMappings(prev: Option<Value>, upd: Value) returns (m: Value)
    ensures m == MergedMappings(prev, upd)
  {
    if prev.None? {
      return Obj([("properties", upd)]);
    }
    var existing := prev.value;
    if !(existing.Obj? && upd.Obj?) {
      return upd;
    }
    match Get(existing.fields, "properties")
    case Some(props) =>
      if props.Obj? {
        var merged := MergeFields(props.fields, upd.fields);
        m := Obj(Put(existing.fields, "properties", Obj(merged)));
      } else {
        m := existing;
      }
    case None =>
      m := Obj(Put(existing.fields, "properties", upd));
  }

  /** The in-place settings merge of `update_settings`. */
  method MergeSettings(prev: Option<Value>, upd: Value) returns (s: Value)
    ensures s == MergedSettings(prev, upd)
  {
    if prev.Some? && prev.value.Obj? && upd.Obj? {
      var merged := MergeFields(prev.value.fields, upd.fields);
      s := Obj(merged);
    } else {
      s := upd;
    }
  }

  /** The bulk Update merge: insert each patch member into the existing object. */
  method MergeDocument(existing: Option<Value>, patch: Value) returns (d: Value)
    ensures d == Merged(existing, patch)
  {
    if existing.Some? && existing.value.Obj? && patch.Obj? {
      var merged := MergeFields(existing.value.fields, patch.fields);
      d := Obj(merged);
    } else {
      d := patch;
    }
  }
}

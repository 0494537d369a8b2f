/**
 * What the engine's operations do to its state (index_ops.rs,
 * document_ops.rs, persistence.rs): the catalog of indices, the backend tree
 * when one is configured, and the counter of the id generator. Each
 * operation is a function from the state before to its result and the state
 * after; the `Storage` class runs them in place.
 */
module Catalog {

  import opened Json
  import opened Text
  import opened Errors
  import opened Indexes
  import opened Backend
  import opened Bulk

  /** The engine's state. `db` is None when no backend is configured. */
  datatype Store = Store(indices: map<string, Index>, db: Option<seq<(string, Value)>>, issued: nat)

  /** The id of counter value `n`: its decimal text. */
  function GeneratedId(n: nat): (id: string)
    ensures |id| > 0
  {
    NatText(n)
  }

  /** Distinct counter values give distinct ids. */
  lemma GeneratedIdsDiffer(m: nat, n: nat)
    requires m != n
    ensures GeneratedId(m) != GeneratedId(n)
  {
    DigitsValueOfNatText(m);
    DigitsValueOfNatText(n);
  }

  /** The ids in `used` that are counter ids of values `n` or above. */
  ghost function TakenFrom(n: nat, used: set<string>): set<string>
  {
    set s | s in used && AllDigits(s) && DigitsValue(s) >= n
  }

  /** Skipping a taken counter value leaves fewer taken ones ahead. */
  lemma TakenShrinks(n: nat, used: set<string>)
    requires GeneratedId(n) in used
    ensures |TakenFrom(n + 1, used)| < |TakenFrom(n, used)|
  {
    DigitsValueOfNatText(n);
    var x := GeneratedId(n);
    assert x in TakenFrom(n, used) && x !in TakenFrom(n + 1, used);
    SubsetSize(TakenFrom(n + 1, used), TakenFrom(n, used) - {x});
  }

  /** A subset is no larger. */
  lemma {:induction false} SubsetSize<T>(a: set<T>, b: set<T>)
    requires a <= b
    ensures |a| <= |b|
    decreases |a|
  {
    if a != {} {
      var x :| x in a;
      SubsetSize(a - {x}, b - {x});
    }
  }

  /** The first counter value from `n` on whose id is not in `used`. */
  function NextFree(n: nat, used: set<string>): (m: nat)
    ensures n <= m && GeneratedId(m) !in used
    ensures forall k :: n <= k < m ==> GeneratedId(k) in used
    decreases |TakenFrom(n, used)|
  {
    if GeneratedId(n) !in used then n
    else
      TakenShrinks(n, used);
      NextFree(n + 1, used)
  }

  /** The ids already taken in `index` (none when it does not exist). */
  function UsedIds(st: Store, index: string): set<string>
  {
    if index in st.indices then st.indices[index].documents.Keys else {}
  }

  /**
   * The id a new document of `index` gets (`Uuid::new_v4` in the engine):
   * the next counter id not already taken there. The counter moves past it.
   */
  function IssueId(st: Store, index: string): (r: (string, Store))
    ensures index in st.indices ==> r.0 !in st.indices[index].documents
    ensures r.1 == st.(issued := r.1.issued) && st.issued < r.1.issued
  {
    var n := NextFree(st.issued, UsedIds(st, index));
    (GeneratedId(n), st.(issued := n + 1))
  }

  /** Ids issued one after the other differ, whatever indices they are for. */
  lemma IssuedIdsDiffer(st: Store, index1: string, index2: string)
    ensures var (id1, st1) := IssueId(st, index1);
            IssueId(st1, index2).0 != id1
  {
    var n1 := NextFree(st.issued, UsedIds(st, index1));
    var st1 := IssueId(st, index1).1;
    GeneratedIdsDiffer(n1, NextFree(st1.issued, UsedIds(st1, index2)));
  }

  // ---------------------------------------------------------------------------
  // Indices
  // ---------------------------------------------------------------------------

  /** `create_index`: fails on an existing name, else persists the metadata and adds the index. */
  function CreateIndexOp(st: Store, name: string, settings: Option<Value>, mappings: Option<Value>): (Result<()>, Store)
  {
    if name in st.indices then (Err(InvalidRequest("Index " + name + " already exists")), st)
    else
      var db := match st.db
        case Some(d) => Some(Put(d, MetaKey(name), Metadata(name, settings, mappings)))
        case None => None;
      (Ok(()), st.(indices := st.indices[name := NewIndex(name, settings, mappings)], db := db))
  }

  /** `delete_index`: the backend records go first, whether or not the index exists. */
  function DeleteIndexOp(st: Store, name: string): (Result<()>, Store)
  {
    var db := match st.db case Some(d) => Some(DeleteIndex(d, name)) case None => None;
    if name !in st.indices then (Err(IndexNotFound(name)), st.(db := db))
    else (Ok(()), st.(indices := st.indices - {name}, db := db))
  }

  /** The tree after deleting the listed indices one after the other. */
  function DeleteEach(db: seq<(string, Value)>, names: seq<string>): seq<(string, Value)>
    decreases |names|
  {
    if names == [] then db else DeleteEach(DeleteIndex(db, names[0]), names[1..])
  }

  /** `delete_all_indices`: every index the backend lists is deleted there, then the catalog is cleared. */
  function DeleteAllOp(st: Store): (Result<()>, Store)
  {
    var db := match st.db case Some(d) => Some(DeleteEach(d, ListNames(d))) case None => None;
    (Ok(()), st.(indices := map[], db := db))
  }

  /** The state after an index's settings or mappings changed in memory: the metadata is written back. */
  function Persisted(st: Store, idx: Index): Store
  {
    var db := match st.db
      case Some(d) => Some(Put(d, MetaKey(idx.name), Metadata(idx.name, idx.settings, idx.mappings)))
      case None => None;
    st.(indices := st.indices[idx.name := idx], db := db)
  }

  /** `update_mapping`. */
  function UpdateMappingOp(st: Store, name: string, upd: Value): (Result<()>, Store)
  {
    if name !in st.indices then (Err(IndexNotFound(name)), st)
    else
      var idx := st.indices[name];
      (Ok(()), Persisted(st, idx.(name := name, mappings := Some(MergedMappings(idx.mappings, upd)))))
  }

  /** `update_settings`. */
  function UpdateSettingsOp(st: Store, name: string, upd: Value): (Result<()>, Store)
  {
    if name !in st.indices then (Err(IndexNotFound(name)), st)
    else
      var idx := st.indices[name];
      (Ok(()), Persisted(st, idx.(name := name, settings := Some(MergedSettings(idx.settings, upd)))))
  }

  /** `get_index`: `{name: {aliases: {}, mappings, settings}}`, absent values as null. */
  function IndexView(indices: map<string, Index>, name: string): Result<Value>
  {
    if name !in indices then Err(IndexNotFound(name))
    else
      var idx := indices[name];
      Ok(Obj([(name, Obj([("aliases", Obj([])), ("mappings", OrNull(idx.mappings)), ("settings", OrNull(idx.settings))]))]))
  }

  /** One index's entry in `get_aliases`: `{"aliases": {alias: {}, ...}}`. */
  function AliasEntry(aliases: seq<string>): Value
  {
    Obj([("aliases", Obj(AliasFields(aliases)))])
  }

  function AliasFields(aliases: seq<string>): (r: seq<(string, Value)>)
    ensures forall k :: HasKey(r, k) <==> k in aliases
    decreases |aliases|
  {
    if aliases == [] then [] else Put(AliasFields(aliases[..|aliases| - 1]), aliases[|aliases| - 1], Obj([]))
  }

  /** `get_aliases` when the catalog is enumerated in `order`. */
  function AliasesIn(indices: map<string, Index>, order: seq<string>): (r: seq<(string, Value)>)
    requires forall n :: n in order ==> n in indices
    decreases |order|
  {
    if order == [] then []
    else
      var last := order[|order| - 1];
      Put(AliasesIn(indices, order[..|order| - 1]), last, AliasEntry(indices[last].aliases))
  }

  // ---------------------------------------------------------------------------
  // Documents
  // ---------------------------------------------------------------------------

  /** `index_document`: the backend write goes first, whether or not the index exists; then an upsert. */
  function IndexDocumentOp(st: Store, index: string, id: string, doc: Value): (Result<()>, Store)
  {
    var db := match st.db case Some(d) => Some(Put(d, DocKey(index, id), doc)) case None => None;
    if index !in st.indices then (Err(IndexNotFound(index)), st.(db := db))
    else
      var idx := st.indices[index];
      (Ok(()), st.(indices := st.indices[index := idx.(documents := idx.documents[id := doc])], db := db))
  }

  /** `create_document`: index under a newly generated id and return it. */
  function CreateDocumentOp(st: Store, index: string, doc: Value): (Result<string>, Store)
  {
    var (id, st1) := IssueId(st, index);
    var (r, st') := IndexDocumentOp(st1, index, id, doc);
    (if r.Ok? then Ok(id) else Err(r.error), st')
  }

  /** `get_document`: `{_id, _index, _source, _type: "_doc", _version: 1}`. */
  function DocumentView(indices: map<string, Index>, index: string, id: string): Result<Value>
  {
    if index !in indices then Err(IndexNotFound(index))
    else if id !in indices[index].documents then Err(DocumentNotFound(id))
    else
      Ok(Obj([("_id", Str(id)), ("_index", Str(index)), ("_source", indices[index].documents[id]),
              ("_type", Str("_doc")), ("_version", Num(1.0, "1"))]))
  }

  /** `delete_document`: the backend removal goes first; then the two not-found errors or the removal. */
  function DeleteDocumentOp(st: Store, index: string, id: string): (Result<()>, Store)
  {
    var db := match st.db case Some(d) => Some(Remove(d, DocKey(index, id))) case None => None;
    if index !in st.indices then (Err(IndexNotFound(index)), st.(db := db))
    else if id !in st.indices[index].documents then (Err(DocumentNotFound(id)), st.(db := db))
    else
      var idx := st.indices[index];
      (Ok(()), st.(indices := st.indices[index := idx.(documents := idx.documents - {id})], db := db))
  }

  // ---------------------------------------------------------------------------
  // Bulk actions
  // ---------------------------------------------------------------------------

  /** What a successful bulk action reports: index, id, HTTP status and result word. */
  datatype Outcome = Outcome(index: string, id: string, status: nat, result: string)

  /** The id of an index or create action: the given one, or a newly generated one. */
  function TakeId(st: Store, index: string, id: Option<string>): (string, Store)
  {
    match id
    case Some(x) => (x, st)
    case None => IssueId(st, index)
  }

  /** The stored document an update merges into, if any. */
  function Existing(indices: map<string, Index>, index: string, id: string): Option<Value>
  {
    if index in indices && id in indices[index].documents then Some(indices[index].documents[id]) else None
  }

  /** An update's new document: an object patch over an existing object is a shallow merge, else the patch. */
  function Merged(existing: Option<Value>, patch: Value): Value
  {
    match existing
    case Some(Obj(fields)) => if patch.Obj? then Obj(PutAll(fields, patch.fields)) else patch
    case _ => patch
  }

  /** Report `outcome` for a successful step, pass an error through. */
  function Report(r: Result<()>, outcome: Outcome): Result<Outcome>
  {
    if r.Ok? then Ok(outcome) else Err(r.error)
  }

  /** `execute_bulk_action`. */
  function BulkOp(st: Store, action: BulkAction): (Result<Outcome>, Store)
  {
    match action
    case BulkIndex(index, id, doc) =>
      var (docId, st1) := TakeId(st, index, id);
      var (r, st2) := IndexDocumentOp(st1, index, docId, doc);
      (Report(r, Outcome(index, docId, 201, "created")), st2)
    case BulkCreate(index, id, doc) =>
      var (docId, st1) := TakeId(st, index, id);
      if index in st1.indices && docId in st1.indices[index].documents then
        (Err(InvalidRequest("Document " + docId + " already exists")), st1)
      else
        var (r, st2) := IndexDocumentOp(st1, index, docId, doc);
        (Report(r, Outcome(index, docId, 201, "created")), st2)
    case BulkUpdate(index, id, patch) =>
      var (r, st1) := IndexDocumentOp(st, index, id, Merged(Existing(st.indices, index, id), patch));
      (Report(r, Outcome(index, id, 200, "updated")), st1)
    case BulkDelete(index, id) =>
      var (r, st1) := DeleteDocumentOp(st, index, id);
      (Report(r, Outcome(index, id, 200, "deleted")), st1)
  }

  // ---------------------------------------------------------------------------
  // Loading from the backend
  // ---------------------------------------------------------------------------

  /** Documents inserted one entry after the other (a later entry for an id wins). */
  function DocsFrom(entries: seq<(string, Value)>, acc: map<string, Value>): (r: map<string, Value>)
    decreases |entries|
  {
    if entries == [] then acc else DocsFrom(entries[1..], acc[entries[0].0 := entries[0].1])
  }

  /** The index `load_from_backend` builds for `name` from its metadata and documents. */
  function LoadedIndex(db: seq<(string, Value)>, name: string, settings: Option<Value>, mappings: Option<Value>): Index
  {
    NewIndex(name, settings, mappings).(documents := DocsFrom(Entries(db, DocsPrefix(name)), map[]))
  }

  /** The `loaded` map after visiting `names`; a name without metadata is skipped. */
  function LoadNames(db: seq<(string, Value)>, names: seq<string>, acc: map<string, Index>): map<string, Index>
    decreases |names|
  {
    if names == [] then acc
    else
      match LoadMeta(db, names[0])
      case None => LoadNames(db, names[1..], acc)
      case Some((s, m)) => LoadNames(db, names[1..], acc[names[0] := LoadedIndex(db, names[0], s, m)])
  }

  /** `load_from_backend`: with a backend the catalog is replaced by what the tree holds. */
  function LoadOp(st: Store): (Result<()>, Store)
  {
    match st.db
    case None => (Ok(()), st)
    case Some(d) => (Ok(()), st.(indices := LoadNames(d, ListNames(d), map[])))
  }

  // ---------------------------------------------------------------------------
  // Properties of the index operations
  // ---------------------------------------------------------------------------

  /**
   * Creating an existing index fails and changes nothing; otherwise exactly
   * one entry is added, new and empty, and the metadata can be loaded back.
   */
  lemma CreateIndexEffect(st: Store, name: string, settings: Option<Value>, mappings: Option<Value>, other: string)
    ensures name in st.indices ==>
              CreateIndexOp(st, name, settings, mappings) == (Err(InvalidRequest("Index " + name + " already exists")), st)
    ensures name !in st.indices ==>
              var (r, st') := CreateIndexOp(st, name, settings, mappings);
              r.Ok? && name in st'.indices
              && st'.indices[name].name == name && st'.indices[name].settings == settings
              && st'.indices[name].mappings == mappings && |st'.indices[name].documents| == 0
              && |st'.indices| == |st.indices| + 1
              && (other != name ==> (other in st'.indices <==> other in st.indices))
              && (other != name && other in st.indices ==> st'.indices[other] == st.indices[other])
              && (st.db.Some? ==>
                    st'.db.Some? && name in ListNames(st'.db.value)
                    && LoadMeta(st'.db.value, name) == Some((Some(OrNull(settings)), Some(OrNull(mappings)))))
  {
    if name !in st.indices && st.db.Some? {
      StoreThenLoadMeta(st.db.value, name, settings, mappings);
    }
  }

  /**
   * Deleting an index removes only that entry, or fails with IndexNotFound;
   * either way its metadata and documents are gone from the backend.
   */
  lemma DeleteIndexEffect(st: Store, name: string, other: string, k: string)
    ensures var (r, st') := DeleteIndexOp(st, name);
            (r.Err? <==> name !in st.indices)
            && (r.Err? ==> r.error == IndexNotFound(name) && st'.indices == st.indices)
            && name !in st'.indices
            && (other != name ==> (other in st'.indices <==> other in st.indices))
            && (other != name && other in st.indices ==> st'.indices[other] == st.indices[other])
            && (st.db.Some? ==>
                  st'.db.Some?
                  && Get(st'.db.value, k) == if k == MetaKey(name) || StartsWith(k, DocsPrefix(name)) then None else Get(st.db.value, k))
  {
    if st.db.Some? {
      Backend.DeleteIndexEffect(st.db.value, name, k);
    }
  }

  /** A key that is absent stays absent while indices are deleted. */
  lemma {:induction false} DeleteEachKeepsAbsent(db: seq<(string, Value)>, names: seq<string>, k: string)
    requires Get(db, k) == None
    ensures Get(DeleteEach(db, names), k) == None
    decreases |names|
  {
    if names != [] {
      Backend.DeleteIndexEffect(db, names[0], k);
      DeleteEachKeepsAbsent(DeleteIndex(db, names[0]), names[1..], k);
    }
  }

  /** Deleting each listed index leaves none of their metadata or documents. */
  lemma {:induction false} DeleteEachRemoves(db: seq<(string, Value)>, names: seq<string>, n: string, id: string)
    requires n in names
    ensures Get(DeleteEach(db, names), MetaKey(n)) == None
    ensures Get(DeleteEach(db, names), DocKey(n, id)) == None
    decreases |names|
  {
    if names[0] == n {
      Backend.DeleteIndexEffect(db, n, MetaKey(n));
      Backend.DeleteIndexEffect(db, n, DocKey(n, id));
      DeleteEachKeepsAbsent(DeleteIndex(db, n), names[1..], MetaKey(n));
      DeleteEachKeepsAbsent(DeleteIndex(db, n), names[1..], DocKey(n, id));
    } else {
      DeleteEachRemoves(DeleteIndex(db, names[0]), names[1..], n, id);
    }
  }

  /** After deleting all indices the catalog is empty and nothing the backend listed remains there. */
  lemma DeleteAllEffect(st: Store, n: string, id: string)
    ensures var (r, st') := DeleteAllOp(st);
            r.Ok? && st'.indices == map[]
            && (st.db.Some? && n in ListNames(st.db.value) ==>
                  st'.db.Some? && LoadMeta(st'.db.value, n) == None && Get(st'.db.value, DocKey(n, id)) == None)
  {
    if st.db.Some? && n in ListNames(st.db.value) {
      DeleteEachRemoves(st.db.value, ListNames(st.db.value), n, id);
    }
  }

  /**
   * A mapping update fails with IndexNotFound on an absent index and changes
   * nothing; otherwise only that index's mappings change, to the merge, and
   * the backend then holds the new metadata.
   */
  lemma UpdateMappingEffect(st: Store, name: string, upd: Value, other: string)
    ensures name !in st.indices ==> UpdateMappingOp(st, name, upd) == (Err(IndexNotFound(name)), st)
    ensures name in st.indices ==>
              var (r, st') := UpdateMappingOp(st, name, upd);
              var idx := st.indices[name];
              r.Ok? && st'.indices.Keys == st.indices.Keys
              && st'.indices[name].mappings == Some(MergedMappings(idx.mappings, upd))
              && st'.indices[name].settings == idx.settings
              && st'.indices[name].documents == idx.documents
              && (other != name && other in st.indices ==> st'.indices[other] == st.indices[other])
              && (st.db.Some? ==>
                    st'.db.Some?
                    && LoadMeta(st'.db.value, name) == Some((Some(OrNull(idx.settings)), Some(MergedMappings(idx.mappings, upd)))))
  {
    if name in st.indices && st.db.Some? {
      var idx := st.indices[name];
      StoreThenLoadMeta(st.db.value, name, idx.settings, Some(MergedMappings(idx.mappings, upd)));
    }
  }

  /** The same for settings. */
  lemma UpdateSettingsEffect(st: Store, name: string, upd: Value, other: string)
    ensures name !in st.indices ==> UpdateSettingsOp(st, name, upd) == (Err(IndexNotFound(name)), st)
    ensures name in st.indices ==>
              var (r, st') := UpdateSettingsOp(st, name, upd);
              var idx := st.indices[name];
              r.Ok? && st'.indices.Keys == st.indices.Keys
              && st'.indices[name].settings == Some(MergedSettings(idx.settings, upd))
              && st'.indices[name].mappings == idx.mappings
              && st'.indices[name].documents == idx.documents
              && (other != name && other in st.indices ==> st'.indices[other] == st.indices[other])
              && (st.db.Some? ==>
                    st'.db.Some?
                    && LoadMeta(st'.db.value, name) == Some((Some(MergedSettings(idx.settings, upd)), Some(OrNull(idx.mappings)))))
  {
    if name in st.indices && st.db.Some? {
      var idx := st.indices[name];
      StoreThenLoadMeta(st.db.value, name, Some(MergedSettings(idx.settings, upd)), idx.mappings);
    }
  }

  /** `get_index` reports the stored settings and mappings and no aliases, or IndexNotFound. */
  lemma IndexViewMembers(indices: map<string, Index>, name: string)
    ensures IndexView(indices, name).Err? <==> name !in indices
    ensures IndexView(indices, name).Err? ==> IndexView(indices, name).error == IndexNotFound(name)
    ensures name in indices ==>
              var entry := Member(IndexView(indices, name).value, name);
              entry.Some?
              && Member(entry.value, "settings") == Some(OrNull(indices[name].settings))
              && Member(entry.value, "mappings") == Some(OrNull(indices[name].mappings))
              && Member(entry.value, "aliases") == Some(Obj([]))
  {
    if name in indices {
      var idx := indices[name];
      var fields := [("aliases", Obj([])), ("mappings", OrNull(idx.mappings)), ("settings", OrNull(idx.settings))];
      assert fields[1..][1..] == [("settings", OrNull(idx.settings))];
      assert IndexOf(fields, "settings") == 2;
      assert IndexOf(fields, "mappings") == 1;
    }
  }

  /** `get_aliases` has one entry per index, holding exactly that index's aliases, whatever the order visited. */
  lemma {:induction false} AliasesComplete(indices: map<string, Index>, order: seq<string>, n: string, alias: string)
    requires forall x :: x in order ==> x in indices
    ensures HasKey(AliasesIn(indices, order), n) <==> n in order
    ensures n in order ==>
              Get(AliasesIn(indices, order), n) == Some(AliasEntry(indices[n].aliases))
              && (HasKey(AliasFields(indices[n].aliases), alias) <==> alias in indices[n].aliases)
    decreases |order|
  {
    if order != [] {
      var init := order[..|order| - 1];
      var last := order[|order| - 1];
      assert forall x :: x in init ==> x in order;
      AliasesComplete(indices, init, n, alias);
      assert order == init + [last];
      if n == last {
        GetPutSame(AliasesIn(indices, init), last, AliasEntry(indices[last].aliases));
      } else {
        GetPutOther(AliasesIn(indices, init), last, AliasEntry(indices[last].aliases), n);
      }
    }
  }

  // ---------------------------------------------------------------------------
  // Properties of the document operations
  // ---------------------------------------------------------------------------

  /**
   * Indexing into an absent index fails (after the backend write); otherwise
   * it upserts: the id now holds the document and every other id and index
   * is as before.
   */
  lemma IndexDocumentEffect(st: Store, index: string, id: string, doc: Value, other: string, otherIndex: string)
    ensures var (r, st') := IndexDocumentOp(st, index, id, doc);
            (r.Err? <==> index !in st.indices)
            && (r.Err? ==> r.error == IndexNotFound(index) && st'.indices == st.indices)
            && (st.db.Some? ==> st'.db.Some? && Get(st'.db.value, DocKey(index, id)) == Some(doc))
            && st'.indices.Keys == st.indices.Keys
            && (r.Ok? ==>
                  id in st'.indices[index].documents && st'.indices[index].documents[id] == doc
                  && (other != id ==> (other in st'.indices[index].documents <==> other in st.indices[index].documents))
                  && (other != id && other in st.indices[index].documents ==>
                        st'.indices[index].documents[other] == st.indices[index].documents[other])
                  && st'.indices[index].settings == st.indices[index].settings
                  && st'.indices[index].mappings == st.indices[index].mappings)
            && (otherIndex != index && otherIndex in st.indices ==> st'.indices[otherIndex] == st.indices[otherIndex])
  {
    if st.db.Some? {
      GetPutSame(st.db.value, DocKey(index, id), doc);
    }
  }

  /** `get_document` reports the stored document under `_source`, or the missing index or id. */
  lemma DocumentViewCases(indices: map<string, Index>, index: string, id: string)
    ensures index !in indices ==> DocumentView(indices, index, id) == Err(IndexNotFound(index))
    ensures index in indices && id !in indices[index].documents ==>
              DocumentView(indices, index, id) == Err(DocumentNotFound(id))
    ensures index in indices && id in indices[index].documents ==>
              var v := DocumentView(indices, index, id);
              v.Ok? && Member(v.value, "_source") == Some(indices[index].documents[id])
              && Member(v.value, "_id") == Some(Str(id)) && Member(v.value, "_index") == Some(Str(index))
              && Member(v.value, "_type") == Some(Str("_doc")) && Member(v.value, "_version") == Some(Num(1.0, "1"))
  {
    if index in indices && id in indices[index].documents {
      var fields := [("_id", Str(id)), ("_index", Str(index)), ("_source", indices[index].documents[id]),
                     ("_type", Str("_doc")), ("_version", Num(1.0, "1"))];
      assert IndexOf(fields[1..][1..][1..][1..], "_version") == 0;
      assert IndexOf(fields[1..][1..][1..], "_version") == 1;
      assert IndexOf(fields[1..][1..], "_version") == 2;
      assert IndexOf(fields[1..], "_version") == 3;
      assert IndexOf(fields[1..][1..][1..], "_type") == 0;
      assert IndexOf(fields[1..][1..], "_type") == 1;
      assert IndexOf(fields[1..], "_type") == 2;
      assert IndexOf(fields, "_source") == 2;
    }
  }

  /** A document written and then read back is the one written. */
  lemma IndexThenGet(st: Store, index: string, id: string, doc: Value)
    requires index in st.indices
    ensures var st' := IndexDocumentOp(st, index, id, doc).1;
            DocumentView(st'.indices, index, id).Ok?
            && Member(DocumentView(st'.indices, index, id).value, "_source") == Some(doc)
  {
    var st' := IndexDocumentOp(st, index, id, doc).1;
    DocumentViewCases(st'.indices, index, id);
  }

  /** Deleting fails with IndexNotFound or DocumentNotFound, or removes only that id; the backend key goes in every case. */
  lemma DeleteDocumentEffect(st: Store, index: string, id: string, other: string)
    ensures var (r, st') := DeleteDocumentOp(st, index, id);
            (r.Err? <==> index !in st.indices || id !in st.indices[index].documents)
            && (index !in st.indices ==> r == Err(IndexNotFound(index)))
            && (index in st.indices && id !in st.indices[index].documents ==> r == Err(DocumentNotFound(id)))
            && (r.Err? ==> st'.indices == st.indices)
            && (st.db.Some? ==> st'.db.Some? && Get(st'.db.value, DocKey(index, id)) == None)
            && st'.indices.Keys == st.indices.Keys
            && (r.Ok? ==>
                  id !in st'.indices[index].documents
                  && (other != id ==> (other in st'.indices[index].documents <==> other in st.indices[index].documents))
                  && (other != id && other in st.indices[index].documents ==>
                        st'.indices[index].documents[other] == st.indices[index].documents[other]))
  {
    if st.db.Some? {
      Backend.DeleteDocumentEffect(st.db.value, index, id, id);
    }
  }

  /**
   * `create_document` stores the document under an id the index did not
   * hold, so no existing document is replaced; a second call returns
   * another id.
   */
  lemma CreateDocumentEffect(st: Store, index: string, doc1: Value, doc2: Value)
    requires index in st.indices
    ensures var (r1, st1) := CreateDocumentOp(st, index, doc1);
            var (r2, st2) := CreateDocumentOp(st1, index, doc2);
            r1.Ok? && r2.Ok? && r1.value != r2.value
            && r1.value !in st.indices[index].documents
            && st1.indices[index].documents == st.indices[index].documents[r1.value := doc1]
            && st2.indices[index].documents == st1.indices[index].documents[r2.value := doc2]
            && st1.indices.Keys == st.indices.Keys
  {
    var (r1, st1) := CreateDocumentOp(st, index, doc1);
    assert r1.value in st1.indices[index].documents;
  }

  // ---------------------------------------------------------------------------
  // Properties of the bulk actions
  // ---------------------------------------------------------------------------

  /** Index stores under the given id, or a new one, and reports 201 "created". */
  lemma BulkIndexEffect(st: Store, index: string, id: Option<string>, doc: Value)
    ensures var (r, st') := BulkOp(st, BulkIndex(index, id, doc));
            var docId := TakeId(st, index, id).0;
            (id.Some? ==> docId == id.value && st'.issued == st.issued)
            && (id.None? ==> st.issued < st'.issued && (index in st.indices ==> docId !in st.indices[index].documents))
            && (r.Err? <==> index !in st.indices)
            && (r.Err? ==> r.error == IndexNotFound(index) && st'.indices == st.indices)
            && (r.Ok? ==>
                  r.value == Outcome(index, docId, 201, "created")
                  && st'.indices == st.indices[index := st.indices[index].(documents := st.indices[index].documents[docId := doc])])
  {
  }

  /**
   * Create on an id already in the index fails and changes nothing but the
   * id count; otherwise it is exactly Index. Without an `_id` the generated
   * id is never taken, so it is always exactly Index.
   */
  lemma BulkCreateEffect(st: Store, index: string, id: Option<string>, doc: Value)
    ensures var (docId, st1) := TakeId(st, index, id);
            (index in st.indices && docId in st.indices[index].documents ==>
               BulkOp(st, BulkCreate(index, id, doc))
                 == (Err(InvalidRequest("Document " + docId + " already exists")), st1)
               && st1.indices == st.indices && st1.db == st.db)
            && (!(index in st.indices && docId in st.indices[index].documents) ==>
               BulkOp(st, BulkCreate(index, id, doc)) == BulkOp(st, BulkIndex(index, id, doc)))
            && (id.None? ==> BulkOp(st, BulkCreate(index, id, doc)) == BulkOp(st, BulkIndex(index, id, doc)))
  {
  }

  /**
   * Update over an existing object with an object patch keeps the old keys
   * and takes the patch's values for its keys; in every other case the
   * patch is stored as it is. It reports 200 "updated".
   */
  lemma BulkUpdateEffect(st: Store, index: string, id: string, patch: Value, k: string)
    requires patch.Obj? ==> Sorted(patch.fields)
    ensures var (r, st') := BulkOp(st, BulkUpdate(index, id, patch));
            (r.Err? <==> index !in st.indices)
            && (r.Ok? ==>
                 r.value == Outcome(index, id, 200, "updated")
                 && var stored := st'.indices[index].documents[id];
                    var prev := Existing(st.indices, index, id);
                    (prev.Some? && prev.value.Obj? && patch.Obj? ==>
                       stored.Obj?
                       && Member(stored, k) == if HasKey(patch.fields, k) then Get(patch.fields, k) else Member(prev.value, k))
                    && (!(prev.Some? && prev.value.Obj? && patch.Obj?) ==> stored == patch))
  {
    var prev := Existing(st.indices, index, id);
    if prev.Some? && prev.value.Obj? && patch.Obj? {
      GetPutAll(prev.value.fields, patch.fields, k);
    }
  }

  /** Delete is `delete_document`, reporting 200 "deleted". */
  lemma BulkDeleteEffect(st: Store, index: string, id: string)
    ensures var (r, st') := BulkOp(st, BulkDelete(index, id));
            st' == DeleteDocumentOp(st, index, id).1
            && (r.Err? <==> DeleteDocumentOp(st, index, id).0.Err?)
            && (r.Err? ==> r.error == DeleteDocumentOp(st, index, id).0.error)
            && (r.Ok? ==> r.value == Outcome(index, id, 200, "deleted"))
  {
  }

  // ---------------------------------------------------------------------------
  // Properties of loading
  // ---------------------------------------------------------------------------

  /** Every id inserted is present, and every present id holds the document of one of the entries. */
  lemma {:induction false} DocsFromEntries(entries: seq<(string, Value)>, acc: map<string, Value>, id: string)
    ensures id in DocsFrom(entries, acc) <==> id in acc || exists v :: (id, v) in entries
    ensures id in DocsFrom(entries, acc) ==>
              (id, DocsFrom(entries, acc)[id]) in entries || (id in acc && DocsFrom(entries, acc)[id] == acc[id])
    decreases |entries|
  {
    if entries != [] {
      var e := entries[0];
      DocsFromEntries(entries[1..], acc[e.0 := e.1], id);
      if id in DocsFrom(entries, acc) && (id, DocsFrom(entries, acc)[id]) in entries[1..] {
        assert (id, DocsFrom(entries, acc)[id]) in entries;
      }
      forall v | (id, v) in entries[1..] ensures (id, v) in entries {
      }
      if id == e.0 {
        assert (id, e.1) in entries;
      }
      if exists v :: (id, v) in entries {
        var v :| (id, v) in entries;
        if (id, v) != e {
          assert (id, v) in entries[1..];
        }
      }
    }
  }

  /** The loaded map holds the listed names that have metadata, each built from the tree. */
  lemma {:induction false} LoadNamesContents(db: seq<(string, Value)>, names: seq<string>, acc: map<string, Index>, n: string)
    ensures n in LoadNames(db, names, acc) <==> n in acc || (n in names && LoadMeta(db, n).Some?)
    ensures n in names && LoadMeta(db, n).Some? ==>
              LoadNames(db, names, acc)[n] == LoadedIndex(db, n, LoadMeta(db, n).value.0, LoadMeta(db, n).value.1)
    ensures n !in names && n in acc ==> LoadNames(db, names, acc)[n] == acc[n]
    decreases |names|
  {
    if names != [] {
      match LoadMeta(db, names[0])
      case None => LoadNamesContents(db, names[1..], acc, n);
      case Some((s, m)) =>
        LoadNamesContents(db, names[1..], acc[names[0] := LoadedIndex(db, names[0], s, m)], n);
    }
  }

  /**
   * Loading without a backend changes nothing. With one, the catalog is
   * replaced: it holds exactly the listed names with metadata, each with
   * the loaded settings and mappings and one document per stored entry.
   */
  lemma LoadEffect(st: Store, n: string, id: string)
    ensures st.db.None? ==> LoadOp(st) == (Ok(()), st)
    ensures st.db.Some? ==>
              var d := st.db.value;
              var st' := LoadOp(st).1;
              LoadOp(st).0.Ok? && st'.db == st.db
              && (n in st'.indices <==> n in ListNames(d) && LoadMeta(d, n).Some?)
              && (n in st'.indices ==>
                    st'.indices[n].name == n
                    && st'.indices[n].settings == LoadMeta(d, n).value.0
                    && st'.indices[n].mappings == LoadMeta(d, n).value.1
                    && st'.indices[n].aliases == []
                    && (id in st'.indices[n].documents <==> exists v :: (id, v) in Entries(d, DocsPrefix(n)))
                    && (id in st'.indices[n].documents ==> (id, st'.indices[n].documents[id]) in Entries(d, DocsPrefix(n))))
  {
    if st.db.Some? {
      var d := st.db.value;
      LoadNamesContents(d, ListNames(d), map[], n);
      DocsFromEntries(Entries(d, DocsPrefix(n)), map[], id);
    }
  }

  /** An index created with a backend is found again, with its documents, after reloading. */
  lemma CreateThenReload(st: Store, name: string, settings: Option<Value>, mappings: Option<Value>)
    requires st.db.Some? && name !in st.indices
    ensures var st1 := CreateIndexOp(st, name, settings, mappings).1;
            var st2 := LoadOp(st1).1;
            name in st2.indices
            && st2.indices[name].settings == Some(OrNull(settings))
            && st2.indices[name].mappings == Some(OrNull(mappings))
  {
    var st1 := CreateIndexOp(st, name, settings, mappings).1;
    CreateIndexEffect(st, name, settings, mappings, name);
    LoadEffect(st1, name, "");
  }
}

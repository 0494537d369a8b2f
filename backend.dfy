/**
 * The persistent backend (storage_backend.rs): a sled tree of byte keys,
 * modelled as an ordered list of (key, JSON value) pairs with values stored
 * as parsed JSON (serialisation is the identity here). Index metadata lives
 * under "index:" + ":" + name, documents under "doc:" + ":" + index + ":" + id.
 */
module Backend {

  import opened Json
  import opened Text

  const IndexPrefix: string := "index:"
  const DocPrefix: string := "doc:"

  /** The key of an index's metadata record. */
  function MetaKey(name: string): string { IndexPrefix + ":" + name }

  /** The prefix shared by the keys of an index's documents. */
  function DocsPrefix(index: string): string { DocPrefix + ":" + index + ":" }

  /** The key of one document. */
  function DocKey(index: string, id: string): (k: string)
    ensures StartsWith(k, DocsPrefix(index)) && k[|DocsPrefix(index)|..] == id
  {
    var k := DocsPrefix(index) + id;
    assert k[..|DocsPrefix(index)|] == DocsPrefix(index);
    k
  }

  function OrNull(v: Option<Value>): Value
  {
    match v case Some(x) => x case None => Null
  }

  /** `json!({"name": .., "settings": .., "mappings": ..})`, keys in map order. */
  function Metadata(name: string, settings: Option<Value>, mappings: Option<Value>): Value
  {
    Obj([("mappings", OrNull(mappings)), ("name", Str(name)), ("settings", OrNull(settings))])
  }

  /** `load_index_metadata`: the `settings` and `mappings` members of the stored record. */
  function LoadMeta(db: seq<(string, Value)>, name: string): Option<(Option<Value>, Option<Value>)>
  {
    match Get(db, MetaKey(name))
    case Some(v) => Some((Member(v, "settings"), Member(v, "mappings")))
    case None => None
  }

  /** The index name a metadata key stands for: strip "index:", then one ':' if present. */
  function IndexName(key: string): Option<string>
  {
    if StartsWith(key, IndexPrefix) then
      var rest := key[|IndexPrefix|..];
      Some(if |rest| > 0 && rest[0] == ':' then rest[1..] else rest)
    else None
  }

  /** `list_indices`: the names of the metadata keys, in key order. */
  function ListNames(db: seq<(string, Value)>): seq<string>
  {
    if db == [] then []
    else
      (match IndexName(db[0].0) case Some(n) => [n] case None => [])
      + ListNames(db[1..])
  }

  /** `load_all_documents`: (key without the prefix, document) for every key with the prefix. */
  function Entries(db: seq<(string, Value)>, prefix: string): seq<(string, Value)>
  {
    if db == [] then []
    else
      (if StartsWith(db[0].0, prefix) then [(db[0].0[|prefix|..], db[0].1)] else [])
      + Entries(db[1..], prefix)
  }

  /** The keys that carry the prefix, in key order (the `to_remove` list). */
  function KeysWith(db: seq<(string, Value)>, prefix: string): (r: seq<string>)
    ensures forall k :: k in r ==> StartsWith(k, prefix)
  {
    if db == [] then []
    else (if StartsWith(db[0].0, prefix) then [db[0].0] else []) + KeysWith(db[1..], prefix)
  }

  /** Remove every listed key, first to last. */
  function RemoveAll(db: seq<(string, Value)>, keys: seq<string>): seq<(string, Value)>
    decreases |keys|
  {
    if keys == [] then db else RemoveAll(Remove(db, keys[0]), keys[1..])
  }

  /** The tree after `delete_index_metadata(name)`. */
  function DeleteIndex(db: seq<(string, Value)>, name: string): seq<(string, Value)>
  {
    var db1 := Remove(db, MetaKey(name));
    RemoveAll(db1, KeysWith(db1, DocsPrefix(name)))
  }

  // ---------------------------------------------------------------------------
  // The backend object
  // ---------------------------------------------------------------------------

  class SledBackend {
    var db: seq<(string, Value)>

    /** An opened tree with the given contents. */
    constructor(contents: seq<(string, Value)>)
      ensures db == contents
    {
      db := contents;
    }

    method StoreIndexMetadata(name: string, settings: Option<Value>, mappings: Option<Value>)
      modifies this
      ensures db == Put(old(db), MetaKey(name), Metadata(name, settings, mappings))
    {
      db := Put(db, MetaKey(name), Metadata(name, settings, mappings));
    }

    method LoadIndexMetadata(name: string) returns (r: Option<(Option<Value>, Option<Value>)>)
      ensures r == LoadMeta(db, name)
    {
      var v := Get(db, MetaKey(name));
      if v.Some? {
        r := Some((Member(v.value, "settings"), Member(v.value, "mappings")));
      } else {
        r := None;
      }
    }

    /** The prefix scan over metadata keys. */
    method ListIndices() returns (names: seq<string>)
      ensures names == ListNames(db)
    {
      names := [];
      var i := 0;
      while i < |db|
        invariant 0 <= i <= |db|
        invariant names + ListNames(db[i..]) == ListNames(db)
      {
        assert db[i..][1..] == db[i + 1..];
        var n := IndexName(db[i].0);
        if n.Some? {
          names := names + [n.value];
        }
        i := i + 1;
      }
    }

    /** Remove the metadata key, collect the document keys of the index, then remove each. */
    method DeleteIndexMetadata(name: string)
      modifies this
      ensures db == DeleteIndex(old(db), name)
    {
      db := Remove(db, MetaKey(name));
      var toRemove := CollectKeys(db, DocsPrefix(name));
      RemoveKeys(toRemove);
    }

    /** Remove each listed key in turn. */
    method RemoveKeys(keys: seq<string>)
      modifies this
      ensures db == RemoveAll(old(db), keys)
    {
      var j := 0;
      while j < |keys|
        invariant 0 <= j <= |keys|
        invariant RemoveAll(db, keys[j..]) == RemoveAll(old(db), keys)
      {
        assert keys[j..][1..] == keys[j + 1..];
        db := Remove(db, keys[j]);
        j := j + 1;
      }
      assert keys[|keys|..] == [];
    }

    method StoreDocument(index: string, id: string, doc: Value)
      modifies this
      ensures db == Put(old(db), DocKey(index, id), doc)
    {
      db := Put(db, DocKey(index, id), doc);
    }

    method LoadDocument(index: string, id: string) returns (r: Option<Value>)
      ensures r == Get(db, DocKey(index, id))
    {
      r := Get(db, DocKey(index, id));
    }

    /** Succeeds whether or not the key was present. */
    method DeleteDocument(index: string, id: string)
      modifies this
      ensures db == Remove(old(db), DocKey(index, id))
    {
      db := Remove(db, DocKey(index, id));
    }

    method LoadAllDocuments(index: string) returns (docs: seq<(string, Value)>)
      ensures docs == Entries(db, DocsPrefix(index))
    {
      var prefix := DocsPrefix(index);
      docs := [];
      var i := 0;
      while i < |db|
        invariant 0 <= i <= |db|
        invariant docs + Entries(db[i..], prefix) == Entries(db, prefix)
      {
        assert db[i..][1..] == db[i + 1..];
        if StartsWith(db[i].0, prefix) {
          docs := docs + [(db[i].0[|prefix|..], db[i].1)];
        }
        i := i + 1;
      }
    }
  }

  /** The scan that lists the keys carrying a prefix. */
  method CollectKeys(db: seq<(string, Value)>, prefix: string) returns (keys: seq<string>)
    ensures keys == KeysWith(db, prefix)
  {
    keys := [];
    var i := 0;
    while i < |db|
      invariant 0 <= i <= |db|
      invariant keys + KeysWith(db[i..], prefix) == KeysWith(db, prefix)
    {
      assert db[i..][1..] == db[i + 1..];
      if StartsWith(db[i].0, prefix) {
        keys := keys + [db[i].0];
      }
      i := i + 1;
    }
    assert db[|db|..] == [];
  }

  // ---------------------------------------------------------------------------
  // Key layout and round trips
  // ---------------------------------------------------------------------------

  /** Stripping "index:" and one ':' from a metadata key gives back the name. */
  lemma MetaKeyName(name: string)
    ensures IndexName(MetaKey(name)) == Some(name)
  {
    var k := MetaKey(name);
    assert k[..|IndexPrefix|] == IndexPrefix;
    assert k[|IndexPrefix|..] == ":" + name;
  }

  /** A key held by the tree is listed with its value. */
  lemma {:induction false} GetListed(db: seq<(string, Value)>, k: string, v: Value)
    requires Get(db, k) == Some(v)
    ensures (k, v) in db
  {
    var i := IndexOf(db, k);
    assert db[i] == (k, v);
  }

  lemma {:induction false} NamesOfListed(db: seq<(string, Value)>, k: string, v: Value, n: string)
    requires (k, v) in db && IndexName(k) == Some(n)
    ensures n in ListNames(db)
  {
    if db[0] != (k, v) {
      NamesOfListed(db[1..], k, v, n);
    }
  }

  lemma {:induction false} EntriesOfListed(db: seq<(string, Value)>, prefix: string, k: string, v: Value)
    requires (k, v) in db && StartsWith(k, prefix)
    ensures (k[|prefix|..], v) in Entries(db, prefix)
  {
    if db[0] != (k, v) {
      EntriesOfListed(db[1..], prefix, k, v);
    }
  }

  /**
   * After storing metadata the index is listed and loads with the stored
   * settings and mappings, an absent one coming back as JSON null.
   */
  lemma StoreThenLoadMeta(db: seq<(string, Value)>, name: string, settings: Option<Value>, mappings: Option<Value>)
    ensures var db' := Put(db, MetaKey(name), Metadata(name, settings, mappings));
            LoadMeta(db', name) == Some((Some(OrNull(settings)), Some(OrNull(mappings))))
            && name in ListNames(db')
  {
    var m := Metadata(name, settings, mappings);
    var db' := Put(db, MetaKey(name), m);
    GetPutSame(db, MetaKey(name), m);
    assert m.fields[1..][1..] == [("settings", OrNull(settings))];
    assert IndexOf(m.fields, "settings") == 2;
    assert Get(m.fields, "mappings") == Some(OrNull(mappings));
    GetListed(db', MetaKey(name), m);
    MetaKeyName(name);
    NamesOfListed(db', MetaKey(name), m, name);
  }

  /** Metadata stored without settings does not load as "no settings". */
  lemma AbsentSettingsLoadAsNull(db: seq<(string, Value)>, name: string, mappings: Option<Value>)
    ensures LoadMeta(Put(db, MetaKey(name), Metadata(name, None, mappings)), name).value.0 == Some(Null)
  {
    StoreThenLoadMeta(db, name, None, mappings);
  }

  /** An unknown name has no metadata and an unknown key no document. */
  lemma UnknownLoadsNothing(db: seq<(string, Value)>, name: string, index: string, id: string)
    ensures !HasKey(db, MetaKey(name)) ==> LoadMeta(db, name) == None
    ensures !HasKey(db, DocKey(index, id)) ==> Get(db, DocKey(index, id)) == None
  {
  }

  /** A stored document loads back, is among the index's documents, and other keys are untouched. */
  lemma StoreThenLoadDocument(db: seq<(string, Value)>, index: string, id: string, doc: Value, k: string)
    ensures Get(Put(db, DocKey(index, id), doc), DocKey(index, id)) == Some(doc)
    ensures (id, doc) in Entries(Put(db, DocKey(index, id), doc), DocsPrefix(index))
    ensures k != DocKey(index, id) ==> Get(Put(db, DocKey(index, id), doc), k) == Get(db, k)
  {
    var key := DocKey(index, id);
    var db' := Put(db, key, doc);
    GetPutSame(db, key, doc);
    GetListed(db', key, doc);
    EntriesOfListed(db', DocsPrefix(index), key, doc);
    if k != key {
      GetPutOther(db, key, doc, k);
    }
  }

  /** Deleting a document removes its key, present or not, and nothing else. */
  lemma DeleteDocumentEffect(db: seq<(string, Value)>, index: string, id: string, k: string)
    ensures Get(Remove(db, DocKey(index, id)), DocKey(index, id)) == None
    ensures k != DocKey(index, id) ==> Get(Remove(db, DocKey(index, id)), k) == Get(db, k)
  {
    if k != DocKey(index, id) {
      GetRemoveOther(db, DocKey(index, id), k);
    }
  }

  lemma {:induction false} GetRemoveAll(db: seq<(string, Value)>, keys: seq<string>, k: string)
    ensures Get(RemoveAll(db, keys), k) == if k in keys then None else Get(db, k)
    decreases |keys|
  {
    if keys != [] {
      GetRemoveAll(Remove(db, keys[0]), keys[1..], k);
      if k != keys[0] {
        GetRemoveOther(db, keys[0], k);
      }
    }
  }

  lemma {:induction false} KeysWithComplete(db: seq<(string, Value)>, prefix: string, k: string)
    requires HasKey(db, k) && StartsWith(k, prefix)
    ensures k in KeysWith(db, prefix)
  {
    if db[0].0 != k {
      KeysWithComplete(db[1..], prefix, k);
    }
  }

  /**
   * Deleting an index's metadata removes the metadata key and every key
   * under the index's document prefix; every other key keeps its value.
   */
  lemma DeleteIndexEffect(db: seq<(string, Value)>, name: string, k: string)
    ensures Get(DeleteIndex(db, name), k)
            == if k == MetaKey(name) || StartsWith(k, DocsPrefix(name)) then None else Get(db, k)
  {
    var db1 := Remove(db, MetaKey(name));
    var keys := KeysWith(db1, DocsPrefix(name));
    GetRemoveAll(db1, keys, k);
    if k != MetaKey(name) {
      GetRemoveOther(db, MetaKey(name), k);
      if StartsWith(k, DocsPrefix(name)) && HasKey(db1, k) {
        KeysWithComplete(db1, DocsPrefix(name), k);
      }
    }
  }

  /**
   * The document prefix of `name` is also a prefix of the keys of an index
   * called `name + ":" + more`, so loading or deleting `name` reaches them.
   */
  lemma PrefixReachesNestedIndex(name: string, more: string, id: string)
    ensures StartsWith(DocKey(name + ":" + more, id), DocsPrefix(name))
    ensures DocKey(name + ":" + more, id) == DocKey(name, more + ":" + id)
  {
    var k := DocKey(name + ":" + more, id);
    assert k == DocsPrefix(name) + more + ":" + id;
    assert k[..|DocsPrefix(name)|] == DocsPrefix(name);
  }
}

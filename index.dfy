/**
 * One index of the catalog (storage/index.rs) and the in-place merges the
 * catalog applies to an index's settings and mappings and, in bulk Update, to
 * a stored document: copy every member of the new object into the old one,
 * overwriting equal keys.
 */
module Indexes {

  import opened Json

  /** An index: its name, optional settings and mappings, documents by id, alias names. */
  datatype Index = Index(
    name: string,
    settings: Option<Value>,
    mappings: Option<Value>,
    documents: map<string, Value>,
    aliases: seq<string>)

  /** `Index::new`. */
  function NewIndex(name: string, settings: Option<Value>, mappings: Option<Value>): (r: Index)
    ensures r.name == name && r.settings == settings && r.mappings == mappings
    ensures |r.documents| == 0 && r.aliases == []
  {
    Index(name, settings, mappings, map[], [])
  }

  // ---------------------------------------------------------------------------
  // Object merge
  // ---------------------------------------------------------------------------

  /** Insert the members of `upd` into `base`, first to last. */
  function PutAll(base: seq<(string, Value)>, upd: seq<(string, Value)>): (r: seq<(string, Value)>)
    ensures forall k :: HasKey(r, k) <==> HasKey(base, k) || HasKey(upd, k)
    decreases |upd|
  {
    if upd == [] then base
    else PutAll(Put(base, upd[0].0, upd[0].1), upd[1..])
  }

  /** In a key-sorted object a key occurs at one position only. */
  lemma SortedKeyUnique(fields: seq<(string, Value)>, i: nat, j: nat)
    requires Sorted(fields) && i < |fields| && j < |fields| && fields[i].0 == fields[j].0
    ensures i == j
  {
    if i < j {
      StrLessIrreflexive(fields[i].0);
    } else if j < i {
      StrLessIrreflexive(fields[j].0);
    }
  }

  /**
   * After the merge a key reads as in the update when the update has it and
   * as before otherwise: new keys overwrite, old keys stay.
   */
  lemma {:induction false} GetPutAll(base: seq<(string, Value)>, upd: seq<(string, Value)>, k: string)
    requires Sorted(upd)
    ensures Get(PutAll(base, upd), k) == if HasKey(upd, k) then Get(upd, k) else Get(base, k)
    decreases |upd|
  {
    if upd != [] {
      var rest := upd[1..];
      assert Sorted(rest);
      GetPutAll(Put(base, upd[0].0, upd[0].1), rest, k);
      if upd[0].0 == k {
        GetPutSame(base, k, upd[0].1);
        if HasKey(rest, k) {
          var i := IndexOf(rest, k);
          assert upd[i + 1].0 == k;
          SortedKeyUnique(upd, 0, i + 1);
        }
      } else {
        GetPutOther(base, upd[0].0, upd[0].1, k);
      }
    }
  }

  /** The merge loop: `for (k, v) in new_obj { existing_obj.insert(k, v) }`. */
  method MergeFields(base: seq<(string, Value)>, upd: seq<(string, Value)>) returns (r: seq<(string, Value)>)
    ensures r == PutAll(base, upd)
  {
    r := base;
    var i := 0;
    while i < |upd|
      invariant 0 <= i <= |upd|
      invariant PutAll(r, upd[i..]) == PutAll(base, upd)
    {
      assert upd[i..][1..] == upd[i + 1..];
      r := Put(r, upd[i].0, upd[i].1);
      i := i + 1;
    }
  }

  // ---------------------------------------------------------------------------
  // Mapping and settings updates
  // ---------------------------------------------------------------------------

  /** The mappings after `update_mapping` (index_ops.rs). */
  function MergedMappings(prev: Option<Value>, upd: Value): Value
  {
    match prev
    case None => Obj([("properties", upd)])
    case Some(m) =>
      if m.Obj? && upd.Obj? then
        match Get(m.fields, "properties")
        case Some(props) =>
          if props.Obj? then Obj(Put(m.fields, "properties", Obj(PutAll(props.fields, upd.fields)))) else m
        case None => Obj(Put(m.fields, "properties", upd))
      else upd
  }

  /** The settings after `update_settings` (index_ops.rs). */
  function MergedSettings(prev: Option<Value>, upd: Value): Value
  {
    match prev
    case Some(Obj(e)) => if upd.Obj? then Obj(PutAll(e, upd.fields)) else upd
    case _ => upd
  }

  /** The cases of a mapping update. */
  lemma MappingCases(prev: Option<Value>, upd: Value, k: string)
    ensures prev.None? ==> MergedMappings(prev, upd) == Obj([("properties", upd)])
    ensures prev.Some? && !(prev.value.Obj? && upd.Obj?) ==> MergedMappings(prev, upd) == upd
    ensures prev.Some? && prev.value.Obj? && upd.Obj? && !HasKey(prev.value.fields, "properties") ==>
              Member(MergedMappings(prev, upd), "properties") == Some(upd)
              && (k != "properties" ==> Member(MergedMappings(prev, upd), k) == Member(prev.value, k))
    ensures (prev.Some? && prev.value.Obj? && upd.Obj? && Member(prev.value, "properties").Some?
             && !Member(prev.value, "properties").value.Obj?) ==> MergedMappings(prev, upd) == prev.value
  {
    if prev.Some? && prev.value.Obj? && upd.Obj? && !HasKey(prev.value.fields, "properties") {
      GetPutSame(prev.value.fields, "properties", upd);
      if k != "properties" {
        GetPutOther(prev.value.fields, "properties", upd, k);
      }
    }
  }

  /** Merging into object properties: new property keys overwrite, old ones stay, other mapping keys are untouched. */
  lemma MappingMergesProperties(m: seq<(string, Value)>, props: seq<(string, Value)>, upd: seq<(string, Value)>, k: string)
    requires Get(m, "properties") == Some(Obj(props)) && Sorted(upd)
    ensures Member(MergedMappings(Some(Obj(m)), Obj(upd)), "properties") == Some(Obj(PutAll(props, upd)))
    ensures Get(PutAll(props, upd), k) == if HasKey(upd, k) then Get(upd, k) else Get(props, k)
    ensures k != "properties" ==> Member(MergedMappings(Some(Obj(m)), Obj(upd)), k) == Get(m, k)
  {
    GetPutSame(m, "properties", Obj(PutAll(props, upd)));
    if k != "properties" {
      GetPutOther(m, "properties", Obj(PutAll(props, upd)), k);
    }
    GetPutAll(props, upd, k);
  }

  /** A settings update merges two objects and otherwise replaces. */
  lemma SettingsCases(prev: Option<Value>, upd: Value, k: string)
    requires upd.Obj? ==> Sorted(upd.fields)
    ensures (prev.Some? && prev.value.Obj? && upd.Obj?) ==>
              Member(MergedSettings(prev, upd), k) == if HasKey(upd.fields, k) then Get(upd.fields, k) else Member(prev.value, k)
    ensures !(prev.Some? && prev.value.Obj? && upd.Obj?) ==> MergedSettings(prev, upd) == upd
  {
    if prev.Some? && prev.value.Obj? && upd.Obj? {
      GetPutAll(prev.value.fields, upd.fields, k);
    }
  }
}

/** The column-mapping editor's state and handlers: renaming the external
    column that maps to an internal field (`handleValueChange`), listing a
    group's fields with their current external names
    (`getOrderedMappingsForGroup`) and saving (`handleSave`). */
module ColumnMappingEditor {
  import opened Wrappers
  import opened OrderedMaps
  import opened JsText
  import opened ColumnMappingService

  const EMPTY_NAME_ERROR: string := "Kolumnnamn kan inte vara tomt"

  // ---------------------------------------------------------------------
  // Renaming

  /** The update of `handleValueChange`: the entry of `originalName` is
      deleted and its internal name written under `newValue` (appended,
      or in place when `newValue` is already a key). */
  function Renamed(m: Mapping, originalName: string, newValue: string): Mapping
    requires HasKey(m, originalName)
  {
    GetNoneIff(m, originalName);
    Put(Delete(m, originalName), newValue, Get(m, originalName).value)
  }

  /** After a rename, `newValue` holds the internal name `originalName`
      had, `originalName` is gone (unless it is `newValue`), and every
      other key keeps its entry. */
  lemma RenamedGet(m: Mapping, originalName: string, newValue: string, k: string)
    requires DistinctKeys(m) && HasKey(m, originalName)
    ensures Get(Renamed(m, originalName, newValue), k) ==
      if k == newValue then Get(m, originalName)
      else if k == originalName then None
      else Get(m, k)
  {
    GetNoneIff(m, originalName);
    var d := Delete(m, originalName);
    PutGet(d, newValue, Get(m, originalName).value, k);
    DeleteGet(m, originalName, k);
  }

  /** A rename keeps the keys distinct. */
  lemma RenamedDistinct(m: Mapping, originalName: string, newValue: string)
    requires DistinctKeys(m) && HasKey(m, originalName)
    ensures DistinctKeys(Renamed(m, originalName, newValue))
  {
    GetNoneIff(m, originalName);
    DeleteDistinct(m, originalName);
    PutDistinct(Delete(m, originalName), newValue, Get(m, originalName).value);
  }

  /** A rename onto a name that is already another key merges the two
      entries into one; otherwise the number of entries is unchanged. */
  lemma RenamedLength(m: Mapping, originalName: string, newValue: string)
    requires DistinctKeys(m) && HasKey(m, originalName)
    ensures |Renamed(m, originalName, newValue)| ==
      if newValue != originalName && HasKey(m, newValue) then |m| - 1 else |m|
  {
    GetNoneIff(m, originalName);
    var d := Delete(m, originalName);
    DeleteLength(m, originalName);
    PutLength(d, newValue, Get(m, originalName).value);
    DeleteGet(m, originalName, newValue);
    GetNoneIff(d, newValue);
    GetNoneIff(m, newValue);
  }

  /** Renaming to a name that is not another key and back restores every
      entry (the order may differ). */
  lemma RenameBack(m: Mapping, originalName: string, newValue: string, k: string)
    requires DistinctKeys(m) && HasKey(m, originalName)
    requires newValue == originalName || !HasKey(m, newValue)
    ensures HasKey(Renamed(m, originalName, newValue), newValue)
    ensures Get(Renamed(Renamed(m, originalName, newValue), newValue, originalName), k) == Get(m, k)
  {
    var r := Renamed(m, originalName, newValue);
    RenamedGet(m, originalName, newValue, newValue);
    GetNoneIff(m, originalName);
    GetNoneIff(r, newValue);
    RenamedDistinct(m, originalName, newValue);
    RenamedGet(r, newValue, originalName, k);
    RenamedGet(m, originalName, newValue, k);
    RenamedGet(m, originalName, newValue, originalName);
    GetNoneIff(m, newValue);
  }

  /** After a rename to a name that is not another key, the inverse
      mapping (and so the editor's list) shows `newValue` for the renamed
      field. */
  lemma RenamedShowsNewName(m: Mapping, originalName: string, newValue: string, internal: string)
    requires DistinctKeys(m) && HasKey(m, originalName) && Get(m, originalName) == Some(internal)
    requires newValue == originalName || !HasKey(m, newValue)
    ensures Get(Inverse(Renamed(m, originalName, newValue)), internal) == Some(newValue)
  {
    var d := Delete(m, originalName);
    DeleteGet(m, originalName, newValue);
    GetNoneIff(d, newValue);
    GetNoneIff(m, newValue);
    PutAppends(d, newValue, internal);
    var r := d + [(newValue, internal)];
    assert r[..|r| - 1] == d;
    InverseLastWins(r, |r| - 1);
  }

  // ---------------------------------------------------------------------
  // getOrderedMappingsForGroup

  /** One row of the editor: an external column and its internal field. */
  datatype OrderedMapping = OrderedMapping(originalName: string, internalName: string)

  /** The fields of `internalNames` that `inv` has, in that order, each
      with its external name. */
  function ForGroup(inv: Mapping, internalNames: seq<string>): seq<OrderedMapping>
    decreases |internalNames|
  {
    if internalNames == [] then []
    else
      var name := internalNames[|internalNames| - 1];
      ForGroup(inv, internalNames[..|internalNames| - 1]) +
        match Get(inv, name)
        case None => []
        case Some(o) => [OrderedMapping(o, name)]
  }

  /** `getOrderedMappingsForGroup(internalNames)` on the editor's mappings. */
  function OrderedMappingsForGroup(m: Mapping, internalNames: seq<string>): seq<OrderedMapping> {
    ForGroup(Inverse(m), internalNames)
  }

  /** The rows are exactly the listed fields that some external column
      maps to, each paired with the last such column. */
  lemma {:induction false} ForGroupMembers(inv: Mapping, internalNames: seq<string>)
    ensures forall e :: e in ForGroup(inv, internalNames) <==>
      e.internalName in internalNames && Get(inv, e.internalName) == Some(e.originalName)
    decreases |internalNames|
  {
    if internalNames != [] {
      var init := internalNames[..|internalNames| - 1];
      ForGroupMembers(inv, init);
      assert internalNames == init + [internalNames[|internalNames| - 1]];
    }
  }

  /** The rows follow the order of `internalNames`: the rows of a
      concatenation are the rows of each part, one after the other. */
  lemma {:induction false} ForGroupAppend(inv: Mapping, a: seq<string>, b: seq<string>)
    ensures ForGroup(inv, a + b) == ForGroup(inv, a) + ForGroup(inv, b)
    decreases |b|
  {
    if b == [] {
      assert a + b == a;
    } else {
      var init := b[..|b| - 1];
      assert (a + b)[..|a + b| - 1] == a + init;
      ForGroupAppend(inv, a, init);
    }
  }

  /** There are never more rows than listed fields. */
  lemma {:induction false} ForGroupLength(inv: Mapping, internalNames: seq<string>)
    ensures |ForGroup(inv, internalNames)| <= |internalNames|
    decreases |internalNames|
  {
    if internalNames != [] {
      ForGroupLength(inv, internalNames[..|internalNames| - 1]);
    }
  }

  /** Every row of the editor is an entry of the mapping, and the last
      entry mapping to each listed field is the one shown. */
  lemma OrderedRowsAreEntries(m: Mapping, internalNames: seq<string>)
    requires DistinctKeys(m)
    ensures forall e :: e in OrderedMappingsForGroup(m, internalNames) ==>
      e.internalName in internalNames && Get(m, e.originalName) == Some(e.internalName)
    ensures forall i :: 0 <= i < |m| && m[i].1 in internalNames && (forall j :: i < j < |m| ==> m[j].1 != m[i].1) ==>
      OrderedMapping(m[i].0, m[i].1) in OrderedMappingsForGroup(m, internalNames)
  {
    ForGroupMembers(Inverse(m), internalNames);
    forall e | e in OrderedMappingsForGroup(m, internalNames)
      ensures Get(m, e.originalName) == Some(e.internalName)
    {
      InverseEntry(m, e.internalName, e.originalName);
      var j :| 0 <= j < |m| && m[j] == (e.originalName, e.internalName);
      GetDistinct(m, j);
    }
    forall i | 0 <= i < |m| && m[i].1 in internalNames && (forall j :: i < j < |m| ==> m[j].1 != m[i].1)
      ensures OrderedMapping(m[i].0, m[i].1) in OrderedMappingsForGroup(m, internalNames)
    {
      InverseLastWins(m, i);
    }
  }

  /** What the inverse gives for a field is an entry of the mapping. */
  lemma {:induction false} InverseEntry(m: Mapping, k: string, o: string)
    requires Get(Inverse(m), k) == Some(o)
    ensures exists j :: 0 <= j < |m| && m[j] == (o, k)
    decreases |m|
  {
    var init := m[..|m| - 1];
    var last := m[|m| - 1];
    PutGet(Inverse(init), last.1, last.0, k);
    if last.1 != k {
      InverseEntry(init, k, o);
      var j :| 0 <= j < |init| && init[j] == (o, k);
      assert m[j] == init[j];
    }
  }

  // ---------------------------------------------------------------------
  // The editor

  class MappingEditor {
    var mappings: Mapping
    var error: Option<string>
    var success: bool

    /** The mappings are a JavaScript object: no key twice. */
    ghost predicate Valid()
      reads this
    {
      DistinctKeys(mappings)
    }

    constructor()
      ensures mappings == [] && error == None && !success && Valid()
    {
      mappings := [];
      error := None;
      success := false;
    }

    /** `handleValueChange(originalName, newValue)`: a blank new name only
        sets the error; otherwise the entry is renamed. */
    method HandleValueChange(originalName: string, newValue: string)
      requires Trim(newValue) != [] ==> HasKey(mappings, originalName)
      modifies this
      ensures Trim(newValue) == [] ==>
        error == Some(EMPTY_NAME_ERROR) && mappings == old(mappings) && success == old(success)
      ensures Trim(newValue) != [] ==>
        mappings == Renamed(old(mappings), originalName, newValue) && error == old(error) && success == old(success)
      ensures old(Valid()) ==> Valid()
    {
      if Trim(newValue) == [] {
        error := Some(EMPTY_NAME_ERROR);
        return;
      }
      GetNoneIff(mappings, originalName);
      var internalName := Get(mappings, originalName).value;
      var newMappings := Delete(mappings, originalName);
      newMappings := Put(newMappings, newValue, internalName);
      if Valid() {
        RenamedDistinct(mappings, originalName, newValue);
      }
      mappings := newMappings;
    }

    /** `handleSave()`: the mappings are saved, both caches are cleared so
        the next read goes to storage, and success is shown. */
    method HandleSave(resolver: MappingResolver, storeAccepts: bool)
      modifies this, resolver
      ensures mappings == old(mappings) && error == None && success
      ensures resolver.stored == if storeAccepts then Stored(mappings) else old(resolver.stored)
      ensures resolver.cached == None && resolver.cachedInverse == None
      ensures resolver.Valid() && resolver.Current() == FromStore(resolver.stored)
      ensures storeAccepts ==> resolver.Current() == mappings
    {
      error := None;
      var _ := resolver.SaveColumnMappings(mappings, storeAccepts);
      resolver.ClearMappingsCache();
      success := true;
    }
  }
}

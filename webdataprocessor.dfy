/** The row-level steps of the import pipeline: counting accounts, removing
    duplicate posts, renaming headers, building the file identifier and
    listing page names. Rows are what the CSV parser returns; the mapping
    `current` is the resolver's (see `ColumnMappingService`). */
module WebDataProcessor {
  import opened Wrappers
  import opened OrderedMaps
  import opened JsValues
  import opened Sorting
  import opened ColumnMappingService

  // ---------------------------------------------------------------------
  // countUniqueAccounts

  function AccountIdOf(row: Record, current: Mapping): Value {
    GetValue(row, "account_id", current)
  }

  /** The object keys of the truthy account ids of `data`. */
  function AccountKeys(data: seq<Record>, current: Mapping): set<PropKey>
    decreases |data|
  {
    if data == [] then {}
    else
      var id := AccountIdOf(data[|data| - 1], current);
      AccountKeys(data[..|data| - 1], current) + (if Truthy(id) then {Key(id)} else {})
  }

  /** `countUniqueAccounts(data)`: `uniqueAccountIds.size`. */
  method CountUniqueAccounts(data: seq<Record>, current: Mapping) returns (n: nat)
    ensures n == |AccountKeys(data, current)|
  {
    var ids: set<PropKey> := {};
    var i := 0;
    while i < |data|
      invariant 0 <= i <= |data|
      invariant ids == AccountKeys(data[..i], current)
    {
      assert data[..i + 1][..i] == data[..i];
      var id := AccountIdOf(data[i], current);
      if Truthy(id) {
        ids := ids + {Key(id)};
      }
      i := i + 1;
    }
    assert data[..i] == data;
    n := |ids|;
  }

  /** The counted keys are exactly those of truthy ids in the data. */
  lemma {:induction false} AccountKeysMembers(data: seq<Record>, current: Mapping, k: PropKey)
    ensures k in AccountKeys(data, current) <==>
      exists i :: 0 <= i < |data| && Truthy(AccountIdOf(data[i], current)) && Key(AccountIdOf(data[i], current)) == k
    decreases |data|
  {
    if data != [] {
      var init := data[..|data| - 1];
      AccountKeysMembers(init, current, k);
      assert forall i :: 0 <= i < |init| ==> init[i] == data[i];
    }
  }

  /** No data, no accounts; never more accounts than rows. */
  lemma {:induction false} AccountKeysBound(data: seq<Record>, current: Mapping)
    ensures |AccountKeys(data, current)| <= |data|
    ensures data == [] ==> |AccountKeys(data, current)| == 0
    decreases |data|
  {
    if data != [] {
      AccountKeysBound(data[..|data| - 1], current);
    }
  }

  /** Rows that carry none of `getValue`'s fixed id columns count no
      accounts, whatever the mapping; the default Meta header `Konto-id`
      is not among those columns (see `KontoIdYieldsNull`). */
  lemma {:induction false} AccountKeysWithoutIdColumns(data: seq<Record>, current: Mapping)
    requires forall i :: 0 <= i < |data| ==> forall j :: 0 <= j < |ACCOUNT_ID_KEYS| ==> !HasKey(data[i], ACCOUNT_ID_KEYS[j])
    ensures AccountKeys(data, current) == {}
    decreases |data|
  {
    if data != [] {
      AccountKeysWithoutIdColumns(data[..|data| - 1], current);
      IdentityFieldsIgnoreMapping(data[|data| - 1], current, current);
    }
  }

  // ---------------------------------------------------------------------
  // handleDuplicates

  /** The keys of the `uniquePosts` map: `${postId}|${fileIdentifier}` as a
      pair, or the whole row (`JSON.stringify(row)`) when there is no id. */
  datatype DupKey = Composite(post: PropKey, file: PropKey) | WholeRow(row: Record)

  function PostIdOf(row: Record, current: Mapping): Value {
    GetValue(row, "post_id", current)
  }

  /** `row._file_identifier || ''`. */
  function FileTag(row: Record): Value {
    Or(Get(row, "_file_identifier").GetOr(Null), Str(""))
  }

  /** The key of a row that was already loaded. */
  function ExistingKey(row: Record, current: Mapping): DupKey {
    var p := PostIdOf(row, current);
    if Truthy(p) then Composite(Key(p), Key(FileTag(row))) else WholeRow(row)
  }

  /** The key of a row of the file being imported, identified by `fid`. */
  function NewKey(row: Record, fid: string, current: Mapping): DupKey {
    var p := PostIdOf(row, current);
    if Truthy(p) then Composite(Key(p), Text(fid)) else WholeRow(row)
  }

  /** The existing rows paired with their keys. */
  function ExistingEntries(existing: seq<Record>, current: Mapping): seq<(DupKey, Record)> {
    seq(|existing|, i requires 0 <= i < |existing| => (ExistingKey(existing[i], current), existing[i]))
  }

  /** The new rows paired with their keys. */
  function NewEntries(data: seq<Record>, fid: string, current: Mapping): seq<(DupKey, Record)> {
    seq(|data|, i requires 0 <= i < |data| => (NewKey(data[i], fid, current), data[i]))
  }

  /** The map after loading the existing rows (`uniquePosts.set`). */
  function Seed(existing: seq<Record>, current: Mapping): seq<(DupKey, Record)> {
    PutAll(ExistingEntries(existing, current))
  }

  /** `uniquePosts`, `duplicateIds` and `duplicateCount`. */
  datatype DupState = DupState(unique: seq<(DupKey, Record)>, ids: seq<DupKey>, count: nat)

  /** One new row: counted as a duplicate when its key is taken, else stored. */
  function Screen1(st: DupState, k: DupKey, row: Record): DupState {
    if HasKey(st.unique, k) then
      DupState(st.unique, if k.Composite? then SetAdd(st.ids, k) else st.ids, st.count + 1)
    else DupState(Put(st.unique, k, row), st.ids, st.count)
  }

  /** The state after screening the keyed rows `es`, starting from `seed`. */
  function Screening(seed: seq<(DupKey, Record)>, es: seq<(DupKey, Record)>): DupState
    decreases |es|
  {
    if es == [] then DupState(seed, [], 0)
    else Screen1(Screening(seed, es[..|es| - 1]), es[|es| - 1].0, es[|es| - 1].1)
  }

  /** The state after the existing rows and then the new rows `data`. */
  function Screen(existing: seq<Record>, data: seq<Record>, fid: string, current: Mapping): DupState {
    Screening(Seed(existing, current), NewEntries(data, fid, current))
  }

  datatype DupResult = DupResult(filteredData: seq<Record>, totalRows: nat, duplicates: nat, duplicateIds: seq<DupKey>)

  /** What `handleDuplicates` returns. */
  function Deduplicated(existing: seq<Record>, data: seq<Record>, fid: string, current: Mapping): DupResult {
    var st := Screen(existing, data, fid, current);
    DupResult(Values(st.unique), |data| + |existing|, st.count, st.ids)
  }

  /** `handleDuplicates(data, columnMappings, existingData, fid)`; the
      unused `columnMappings` parameter is dropped. */
  method HandleDuplicates(data: seq<Record>, existing: seq<Record>, fid: string, current: Mapping)
    returns (res: DupResult)
    ensures res == Deduplicated(existing, data, fid, current)
  {
    var unique := LoadExisting(existing, current);
    var st := ScreenNew(unique, data, fid, current);
    res := DupResult(Values(st.unique), |data| + |existing|, st.count, st.ids);
  }

  /** The first loop: every existing row stored under its key. */
  method LoadExisting(existing: seq<Record>, current: Mapping) returns (unique: seq<(DupKey, Record)>)
    ensures unique == Seed(existing, current)
  {
    ghost var olds := ExistingEntries(existing, current);
    unique := [];
    for i := 0 to |existing|
      invariant unique == PutAll(olds[..i])
    {
      PutAllStep(olds, i);
      unique := Put(unique, ExistingKey(existing[i], current), existing[i]);
    }
    assert olds[..|existing|] == olds;
  }

  /** The second loop: each new row counted as a duplicate or stored. */
  method ScreenNew(seed: seq<(DupKey, Record)>, data: seq<Record>, fid: string, current: Mapping) returns (st: DupState)
    ensures st == Screening(seed, NewEntries(data, fid, current))
  {
    ghost var news := NewEntries(data, fid, current);
    var unique := seed;
    var ids: seq<DupKey> := [];
    var count: nat := 0;
    for j := 0 to |data|
      invariant DupState(unique, ids, count) == Screening(seed, news[..j])
    {
      ScreeningStep(seed, news, j);
      ghost var before := DupState(unique, ids, count);
      var k := NewKey(data[j], fid, current);
      assert news[j] == (k, data[j]);
      if HasKey(unique, k) {
        count := count + 1;
        if k.Composite? {
          ids := SetAdd(ids, k);
        }
      } else {
        unique := Put(unique, k, data[j]);
      }
      assert DupState(unique, ids, count) == Screen1(before, k, data[j]);
    }
    assert news[..|data|] == news;
    st := DupState(unique, ids, count);
  }

  // Screening in general.

  lemma ScreeningStep(seed: seq<(DupKey, Record)>, es: seq<(DupKey, Record)>, j: nat)
    requires j < |es|
    ensures Screening(seed, es[..j + 1]) == Screen1(Screening(seed, es[..j]), es[j].0, es[j].1)
  {
    assert es[..j + 1][..j] == es[..j];
  }

  lemma {:induction false} ScreeningKeys(seed: seq<(DupKey, Record)>, es: seq<(DupKey, Record)>, k: DupKey)
    ensures HasKey(Screening(seed, es).unique, k) <==> HasKey(seed, k) || HasKey(es, k)
    decreases |es|
  {
    if es != [] {
      var init := es[..|es| - 1];
      ScreeningKeys(seed, init, k);
      PutHasKey(Screening(seed, init).unique, es[|es| - 1].0, es[|es| - 1].1, k);
      assert forall j :: 0 <= j < |init| ==> init[j] == es[j];
    }
  }

  lemma {:induction false} ScreeningDistinct(seed: seq<(DupKey, Record)>, es: seq<(DupKey, Record)>)
    requires DistinctKeys(seed)
    ensures DistinctKeys(Screening(seed, es).unique)
    decreases |es|
  {
    if es != [] {
      var init := es[..|es| - 1];
      ScreeningDistinct(seed, init);
      PutDistinct(Screening(seed, init).unique, es[|es| - 1].0, es[|es| - 1].1);
    }
  }

  /** The keyed row at `i` finds its key already taken. */
  predicate DroppedAt(seed: seq<(DupKey, Record)>, es: seq<(DupKey, Record)>, i: nat)
    requires i < |es|
  {
    HasKey(Screening(seed, es[..i]).unique, es[i].0)
  }

  /** A stored entry is never overwritten by a later row. */
  lemma {:induction false} ScreeningKeeps(seed: seq<(DupKey, Record)>, es: seq<(DupKey, Record)>, n: nat, k: DupKey)
    requires n <= |es|
    requires HasKey(Screening(seed, es[..n]).unique, k)
    ensures Get(Screening(seed, es).unique, k) == Get(Screening(seed, es[..n]).unique, k)
    decreases |es|
  {
    if n < |es| {
      var init := es[..|es| - 1];
      assert init[..n] == es[..n];
      ScreeningKeeps(seed, init, n, k);
      var st := Screening(seed, init);
      ScreeningKeys(seed, init, k);
      ScreeningKeys(seed, es[..n], k);
      if HasKey(es[..n], k) {
        var j :| 0 <= j < n && es[..n][j].0 == k;
        assert init[j] == es[..n][j];
      }
      PutGet(st.unique, es[|es| - 1].0, es[|es| - 1].1, k);
    } else {
      assert es[..n] == es;
    }
  }

  lemma ScreeningFirstKept(seed: seq<(DupKey, Record)>, es: seq<(DupKey, Record)>, i: nat)
    requires i < |es| && !DroppedAt(seed, es, i)
    ensures Get(Screening(seed, es).unique, es[i].0) == Some(es[i].1)
  {
    var st := Screening(seed, es[..i]);
    assert es[..i + 1][..i] == es[..i];
    PutGet(st.unique, es[i].0, es[i].1, es[i].0);
    PutHasKey(st.unique, es[i].0, es[i].1, es[i].0);
    ScreeningKeeps(seed, es, i + 1, es[i].0);
  }

  lemma {:induction false} ScreeningCounts(seed: seq<(DupKey, Record)>, es: seq<(DupKey, Record)>)
    ensures |Screening(seed, es).unique| + Screening(seed, es).count == |seed| + |es|
    decreases |es|
  {
    if es != [] {
      var init := es[..|es| - 1];
      ScreeningCounts(seed, init);
      PutLength(Screening(seed, init).unique, es[|es| - 1].0, es[|es| - 1].1);
    }
  }

  /** The rows that survive screening, in order. */
  function KeptOf(seed: seq<(DupKey, Record)>, es: seq<(DupKey, Record)>): seq<Record>
    decreases |es|
  {
    if es == [] then []
    else
      var init := es[..|es| - 1];
      KeptOf(seed, init) + (if HasKey(Screening(seed, init).unique, es[|es| - 1].0) then [] else [es[|es| - 1].1])
  }

  lemma {:induction false} ScreeningOrder(seed: seq<(DupKey, Record)>, es: seq<(DupKey, Record)>)
    ensures Values(Screening(seed, es).unique) == Values(seed) + KeptOf(seed, es)
    decreases |es|
  {
    if es != [] {
      var init := es[..|es| - 1];
      var st := Screening(seed, init);
      ScreeningOrder(seed, init);
      var e := es[|es| - 1];
      if !HasKey(st.unique, e.0) {
        PutAppends(st.unique, e.0, e.1);
        assert Values(st.unique + [e]) == Values(st.unique) + [e.1];
      }
    }
  }

  lemma {:induction false} KeptOfMembers(seed: seq<(DupKey, Record)>, es: seq<(DupKey, Record)>, i: nat)
    requires i < |es| && !DroppedAt(seed, es, i)
    ensures es[i].1 in KeptOf(seed, es)
    decreases |es|
  {
    var init := es[..|es| - 1];
    if i < |es| - 1 {
      assert init[..i] == es[..i] && init[i] == es[i];
      KeptOfMembers(seed, init, i);
    } else {
      assert init == es[..i];
    }
  }

  lemma {:induction false} ScreeningIds(seed: seq<(DupKey, Record)>, es: seq<(DupKey, Record)>)
    ensures forall k :: k in Screening(seed, es).ids ==>
      k.Composite? && exists i :: 0 <= i < |es| && DroppedAt(seed, es, i) && es[i].0 == k
    ensures NoDuplicates(Screening(seed, es).ids)
    ensures |Screening(seed, es).ids| <= Screening(seed, es).count
    decreases |es|
  {
    if es != [] {
      var n := |es| - 1;
      var init := es[..n];
      ScreeningIds(seed, init);
      var st := Screening(seed, init);
      var k := es[n].0;
      forall k' | k' in Screening(seed, es).ids
        ensures k'.Composite? && exists i :: 0 <= i < |es| && DroppedAt(seed, es, i) && es[i].0 == k'
      {
        if k' in st.ids {
          var i :| 0 <= i < |init| && DroppedAt(seed, init, i) && init[i].0 == k';
          assert init[..i] == es[..i] && init[i] == es[i];
          assert DroppedAt(seed, es, i);
        } else {
          assert DroppedAt(seed, es, n);
        }
      }
      if HasKey(st.unique, k) && k.Composite? && k !in st.ids {
        var ids' := st.ids + [k];
        forall a, b | 0 <= a < b < |ids'| ensures ids'[a] != ids'[b] {
          if b == |st.ids| {
            assert ids'[a] in st.ids;
          }
        }
      }
    }
  }

  // handleDuplicates in the terms of the source.

  /** The new row at `i` is dropped: its key is already taken. */
  predicate Dropped(existing: seq<Record>, data: seq<Record>, fid: string, current: Mapping, i: nat)
    requires i < |data|
  {
    DroppedAt(Seed(existing, current), NewEntries(data, fid, current), i)
  }

  /** The distinct keys of the existing rows. */
  function ExistingKeys(existing: seq<Record>, current: Mapping): set<DupKey> {
    set i | 0 <= i < |existing| :: ExistingKey(existing[i], current)
  }

  lemma SeedKeys(existing: seq<Record>, current: Mapping, k: DupKey)
    ensures HasKey(Seed(existing, current), k) <==> k in ExistingKeys(existing, current)
  {
    var olds := ExistingEntries(existing, current);
    PutAllKeys(olds, k);
    assert forall i :: 0 <= i < |existing| ==> olds[i].0 == ExistingKey(existing[i], current);
  }

  /** The map starts with one entry per distinct existing key. */
  lemma SeedSize(existing: seq<Record>, current: Mapping)
    ensures |Seed(existing, current)| == |ExistingKeys(existing, current)|
  {
    var m := Seed(existing, current);
    PutAllDistinct(ExistingEntries(existing, current));
    KeySetSize(m);
    forall k ensures k in KeySet(m) <==> k in ExistingKeys(existing, current) {
      KeySetMembers(m, k);
      SeedKeys(existing, current, k);
    }
    assert KeySet(m) == ExistingKeys(existing, current);
  }

  /** Among existing rows sharing a key, the last one loaded is kept. */
  lemma SeedLastWins(existing: seq<Record>, current: Mapping, i: nat)
    requires i < |existing|
    requires forall j :: i < j < |existing| ==> ExistingKey(existing[j], current) != ExistingKey(existing[i], current)
    ensures Get(Seed(existing, current), ExistingKey(existing[i], current)) == Some(existing[i])
  {
    var olds := ExistingEntries(existing, current);
    assert forall j :: i < j < |existing| ==> olds[j].0 != olds[i].0;
    PutAllLastWins(olds, i);
  }

  /** The drop rule: a new row is dropped exactly when an existing row or an
      earlier new row has its key. */
  lemma DropRule(existing: seq<Record>, data: seq<Record>, fid: string, current: Mapping, i: nat)
    requires i < |data|
    ensures Dropped(existing, data, fid, current, i) <==>
      (exists e :: 0 <= e < |existing| && ExistingKey(existing[e], current) == NewKey(data[i], fid, current))
      || (exists j :: 0 <= j < i && NewKey(data[j], fid, current) == NewKey(data[i], fid, current))
  {
    var news := NewEntries(data, fid, current);
    var k := NewKey(data[i], fid, current);
    ScreeningKeys(Seed(existing, current), news[..i], k);
    SeedKeys(existing, current, k);
    assert forall j :: 0 <= j < i ==> news[..i][j].0 == NewKey(data[j], fid, current);
  }

  /** The first occurrence is kept: a new row that is not dropped is the
      value stored under its key at the end. */
  lemma FirstOccurrenceKept(existing: seq<Record>, data: seq<Record>, fid: string, current: Mapping, i: nat)
    requires i < |data| && !Dropped(existing, data, fid, current, i)
    ensures Get(Screen(existing, data, fid, current).unique, NewKey(data[i], fid, current)) == Some(data[i])
  {
    ScreeningFirstKept(Seed(existing, current), NewEntries(data, fid, current), i);
  }

  /** Every row is either stored or counted: `filteredData.length` is the
      number of distinct existing keys plus `data.length` minus
      `duplicates`, and `totalRows` counts both inputs. */
  lemma DeduplicatedCounts(existing: seq<Record>, data: seq<Record>, fid: string, current: Mapping)
    ensures Deduplicated(existing, data, fid, current).totalRows == |data| + |existing|
    ensures |Deduplicated(existing, data, fid, current).filteredData|
      == |ExistingKeys(existing, current)| + |data| - Deduplicated(existing, data, fid, current).duplicates
  {
    ScreeningCounts(Seed(existing, current), NewEntries(data, fid, current));
    SeedSize(existing, current);
  }

  /** The surviving new rows, in input order. */
  function KeptRows(existing: seq<Record>, data: seq<Record>, fid: string, current: Mapping): seq<Record> {
    KeptOf(Seed(existing, current), NewEntries(data, fid, current))
  }

  /** Output order: the existing rows (one per key, at the first position
      of that key), then the surviving new rows in input order, each row
      that is not dropped among them. */
  lemma DeduplicatedOrder(existing: seq<Record>, data: seq<Record>, fid: string, current: Mapping)
    ensures Deduplicated(existing, data, fid, current).filteredData
      == Values(Seed(existing, current)) + KeptRows(existing, data, fid, current)
    ensures forall i :: 0 <= i < |data| && !Dropped(existing, data, fid, current, i) ==>
      data[i] in KeptRows(existing, data, fid, current)
  {
    var seed := Seed(existing, current);
    var news := NewEntries(data, fid, current);
    ScreeningOrder(seed, news);
    forall i | 0 <= i < |data| && !Dropped(existing, data, fid, current, i)
      ensures data[i] in KeptRows(existing, data, fid, current)
    {
      KeptOfMembers(seed, news, i);
    }
  }

  /** Every entry of `duplicateIds` is the composite key of a dropped row;
      there are no repeats and at most `duplicates` of them. */
  lemma DuplicateIdsSpec(existing: seq<Record>, data: seq<Record>, fid: string, current: Mapping)
    ensures forall k :: k in Deduplicated(existing, data, fid, current).duplicateIds ==>
      k.Composite? && exists i :: 0 <= i < |data| && Dropped(existing, data, fid, current, i) && NewKey(data[i], fid, current) == k
    ensures NoDuplicates(Deduplicated(existing, data, fid, current).duplicateIds)
    ensures |Deduplicated(existing, data, fid, current).duplicateIds| <= Deduplicated(existing, data, fid, current).duplicates
  {
    var news := NewEntries(data, fid, current);
    ScreeningIds(Seed(existing, current), news);
    assert forall i :: 0 <= i < |data| ==> news[i].0 == NewKey(data[i], fid, current);
  }

  /** With no existing row carrying the current identifier, a row with a
      post id is dropped only for an earlier row of the batch with the same
      id. */
  lemma OnlyBatchDuplicates(existing: seq<Record>, data: seq<Record>, fid: string, current: Mapping, i: nat)
    requires i < |data| && Truthy(PostIdOf(data[i], current))
    requires forall e :: 0 <= e < |existing| ==> Key(FileTag(existing[e])) != Text(fid)
    ensures Dropped(existing, data, fid, current, i) <==>
      exists j :: 0 <= j < i && Truthy(PostIdOf(data[j], current)) && Key(PostIdOf(data[j], current)) == Key(PostIdOf(data[i], current))
  {
    DropRule(existing, data, fid, current, i);
  }

  /** A row without a post id is dropped only for an identical row. */
  lemma WholeRowDuplicates(existing: seq<Record>, data: seq<Record>, fid: string, current: Mapping, i: nat)
    requires i < |data| && !Truthy(PostIdOf(data[i], current))
    ensures Dropped(existing, data, fid, current, i) <==>
      (exists e :: 0 <= e < |existing| && existing[e] == data[i]) || (exists j :: 0 <= j < i && data[j] == data[i])
  {
    DropRule(existing, data, fid, current, i);
  }

  /** The rows at the indices `s` share the post id key `p`; every other
      row has a key that no other row has. */
  predicate SharedIdRows(data: seq<Record>, fid: string, current: Mapping, p: PropKey, s: set<nat>) {
    (forall i :: i in s ==> i < |data| && Truthy(PostIdOf(data[i], current)) && Key(PostIdOf(data[i], current)) == p)
    && (forall i, j :: 0 <= i < |data| && 0 <= j < |data| && i != j && i !in s ==>
          NewKey(data[i], fid, current) != NewKey(data[j], fid, current))
  }

  /** The indices of `s` below `n`. */
  function Below(s: set<nat>, n: nat): set<nat> {
    set i | i in s && i < n
  }

  /** Raising the bound past `m` adds `m` when it is in `s`. */
  lemma BelowStep(s: set<nat>, m: nat)
    ensures Below(s, m + 1) == Below(s, m) + (if m in s then {m} else {})
    ensures m in s ==> |Below(s, m + 1)| == |Below(s, m)| + 1
  {
    assert m !in Below(s, m);
  }

  /** Screening one more row adds one to the count exactly when it is dropped. */
  lemma DroppedCount(seed: seq<(DupKey, Record)>, es: seq<(DupKey, Record)>, m: nat)
    requires m < |es|
    ensures Screening(seed, es[..m + 1]).count == Screening(seed, es[..m]).count + (if DroppedAt(seed, es, m) then 1 else 0)
  {
    ScreeningStep(seed, es, m);
  }

  /** A row of `s` is dropped exactly when an earlier row of `s` exists;
      no other row is dropped. */
  lemma SharedIdDropped(data: seq<Record>, fid: string, current: Mapping, p: PropKey, s: set<nat>, m: nat)
    requires m < |data| && SharedIdRows(data, fid, current, p, s)
    ensures Dropped([], data, fid, current, m) <==> m in s && Below(s, m) != {}
  {
    DropRule([], data, fid, current, m);
    if m in s && Below(s, m) != {} {
      var j :| j in Below(s, m);
      assert NewKey(data[j], fid, current) == NewKey(data[m], fid, current);
    } else {
      forall j | 0 <= j < m
        ensures NewKey(data[j], fid, current) != NewKey(data[m], fid, current)
      {
        if m in s {
          assert j !in Below(s, m);
        }
      }
    }
  }

  /** Among the first `n` rows, every row of `s` but the first is counted. */
  lemma {:induction false} SharedIdPrefix(data: seq<Record>, fid: string, current: Mapping, p: PropKey, s: set<nat>, n: nat)
    requires n <= |data| && SharedIdRows(data, fid, current, p, s)
    ensures Screening(Seed([], current), NewEntries(data, fid, current)[..n]).count
      == if Below(s, n) == {} then 0 else |Below(s, n)| - 1
    decreases n
  {
    if n > 0 {
      var m := n - 1;
      SharedIdPrefix(data, fid, current, p, s, m);
      DroppedCount(Seed([], current), NewEntries(data, fid, current), m);
      SharedIdDropped(data, fid, current, p, s, m);
      BelowStep(s, m);
    }
  }

  /** With nothing loaded before, `k` rows sharing one post id among rows
      whose other keys are all different give `k - 1` duplicates, and
      `filteredData` keeps one of the `k` and every other row. */
  lemma SharedIdDuplicates(data: seq<Record>, fid: string, current: Mapping, p: PropKey, s: set<nat>)
    requires s != {} && SharedIdRows(data, fid, current, p, s)
    ensures Deduplicated([], data, fid, current).duplicates == |s| - 1
    ensures |Deduplicated([], data, fid, current).filteredData| == |data| - |s| + 1
  {
    SharedIdPrefix(data, fid, current, p, s, |data|);
    assert NewEntries(data, fid, current)[..|data|] == NewEntries(data, fid, current);
    assert Below(s, |data|) == s;
    DeduplicatedCounts([], data, fid, current);
    assert ExistingKeys([], current) == {};
  }

  // ---------------------------------------------------------------------
  // mapColumnNames

  /** The inner search of `mapColumnNames`: the internal name of the first
      mapping entry whose key normalizes like `column`. */
  method MatchingInternalName(column: string, mappings: Mapping) returns (internal: Option<string>)
    ensures internal == MatchInMapping(mappings, Normalize(column))
  {
    var nc := Normalize(column);
    var i := 0;
    while i < |mappings|
      invariant 0 <= i <= |mappings|
      invariant MatchInMapping(mappings, nc) == MatchInMapping(mappings[i..], nc)
    {
      if Normalize(mappings[i].0) == nc {
        return Some(mappings[i].1);
      }
      assert mappings[i..][1..] == mappings[i + 1..];
      i := i + 1;
    }
    return None;
  }

  /** The name a column gets: the mapped internal name, or the column itself
      when there is none or it is empty. */
  function RenameKey(column: string, mappings: Mapping): string {
    match MatchInMapping(mappings, Normalize(column))
    case Some(internal) => if internal != "" then internal else column
    case None => column
  }

  /** The renamed row (`mappedRow[internalName] = value`, entry by entry). */
  function MappedRow(row: Record, mappings: Mapping): Record
    decreases |row|
  {
    if row == [] then []
    else
      var e := row[|row| - 1];
      Put(MappedRow(row[..|row| - 1], mappings), RenameKey(e.0, mappings), e.1)
  }

  /** `mapColumnNames(row, columnMappings)`. */
  method MapColumnNames(row: Record, mappings: Mapping) returns (mapped: Record)
    ensures mapped == MappedRow(row, mappings)
  {
    mapped := [];
    for i := 0 to |row|
      invariant mapped == MappedRow(row[..i], mappings)
    {
      MappedRowStep(row, i, mappings);
      var name := MatchingInternalName(row[i].0, mappings);
      if name.None? || name.value == "" {
        name := Some(row[i].0);
      }
      assert name.value == RenameKey(row[i].0, mappings);
      mapped := Put(mapped, name.value, row[i].1);
    }
    assert row[..|row|] == row;
  }

  lemma MappedRowStep(row: Record, i: nat, mappings: Mapping)
    requires i < |row|
    ensures MappedRow(row[..i + 1], mappings) == Put(MappedRow(row[..i], mappings), RenameKey(row[i].0, mappings), row[i].1)
  {
    assert row[..i + 1][..i] == row[..i];
  }

  /** A column is renamed to the internal name of the first mapping key that
      normalizes like it, when that name is non-empty; otherwise kept. */
  lemma RenameKeySpec(column: string, mappings: Mapping)
    ensures forall i :: (0 <= i < |mappings| && Normalize(mappings[i].0) == Normalize(column)
                         && (forall j :: 0 <= j < i ==> Normalize(mappings[j].0) != Normalize(column))
                         ==> RenameKey(column, mappings) == if mappings[i].1 != "" then mappings[i].1 else column)
    ensures (forall i :: 0 <= i < |mappings| ==> Normalize(mappings[i].0) != Normalize(column))
      ==> RenameKey(column, mappings) == column
  {
    MatchInMappingSpec(mappings, Normalize(column));
  }

  /** The renamed row has exactly the renamed keys, each once, and no more
      entries than the row. */
  lemma {:induction false} MappedRowKeys(row: Record, mappings: Mapping, k: string)
    ensures HasKey(MappedRow(row, mappings), k) <==> exists i :: 0 <= i < |row| && RenameKey(row[i].0, mappings) == k
    ensures DistinctKeys(MappedRow(row, mappings))
    ensures |MappedRow(row, mappings)| <= |row|
    decreases |row|
  {
    if row != [] {
      var init := row[..|row| - 1];
      var e := row[|row| - 1];
      MappedRowKeys(init, mappings, k);
      PutHasKey(MappedRow(init, mappings), RenameKey(e.0, mappings), e.1, k);
      PutDistinct(MappedRow(init, mappings), RenameKey(e.0, mappings), e.1);
      PutLength(MappedRow(init, mappings), RenameKey(e.0, mappings), e.1);
      assert forall i :: 0 <= i < |init| ==> init[i] == row[i];
    }
  }

  /** Values are carried over unchanged; when two columns get the same name
      the later one's value is kept. */
  lemma {:induction false} MappedRowValues(row: Record, mappings: Mapping, i: nat)
    requires i < |row|
    requires forall j :: i < j < |row| ==> RenameKey(row[j].0, mappings) != RenameKey(row[i].0, mappings)
    ensures Get(MappedRow(row, mappings), RenameKey(row[i].0, mappings)) == Some(row[i].1)
    decreases |row|
  {
    var init := row[..|row| - 1];
    var e := row[|row| - 1];
    PutGet(MappedRow(init, mappings), RenameKey(e.0, mappings), e.1, RenameKey(row[i].0, mappings));
    if i < |row| - 1 {
      assert init[i] == row[i];
      MappedRowValues(init, mappings, i);
    }
  }

  // ---------------------------------------------------------------------
  // The file identifier

  predicate IsAsciiAlnum(c: char) {
    ('a' <= c <= 'z') || ('A' <= c <= 'Z') || ('0' <= c <= '9')
  }

  /** `fileName.replace(/[^a-zA-Z0-9]/g, '_')`. */
  function Sanitize(name: string): string {
    seq(|name|, i requires 0 <= i < |name| => if IsAsciiAlnum(name[i]) then name[i] else '_')
  }

  /** `${sanitized}_${Date.now()}`, the clock reading `now` a parameter. */
  function FileIdentifier(fileName: string, now: nat): string {
    Sanitize(fileName) + "_" + NatToString(now)
  }

  /** The identifier keeps the name's letters and digits in place, replaces
      every other character by `_`, and holds nothing else. */
  lemma FileIdentifierShape(fileName: string, now: nat)
    ensures |FileIdentifier(fileName, now)| > |fileName| + 1
    ensures forall i :: 0 <= i < |fileName| ==>
      FileIdentifier(fileName, now)[i] == if IsAsciiAlnum(fileName[i]) then fileName[i] else '_'
    ensures forall c :: c in FileIdentifier(fileName, now) ==> IsAsciiAlnum(c) || c == '_'
  {
    var d := NatToString(now);
    var r := FileIdentifier(fileName, now);
    forall c | c in r ensures IsAsciiAlnum(c) || c == '_' {
      var i :| 0 <= i < |r| && r[i] == c;
      if i > |fileName| {
        assert r[i] == d[i - |fileName| - 1];
        assert IsDigit(d[i - |fileName| - 1]);
      }
    }
  }

  /** Two imports of one file at different times get different identifiers. */
  lemma FileIdentifierInjective(fileName: string, a: nat, b: nat)
    requires FileIdentifier(fileName, a) == FileIdentifier(fileName, b)
    ensures a == b
  {
    var n := |Sanitize(fileName) + "_"|;
    assert NatToString(a) == FileIdentifier(fileName, a)[n..];
    assert NatToString(b) == FileIdentifier(fileName, b)[n..];
    NatToStringInjective(a, b);
  }

  // ---------------------------------------------------------------------
  // getUniquePageNames

  /** The truthy `getValue(post, 'account_name')` values, in order. */
  function PageNames(data: seq<Record>, current: Mapping): seq<Value>
    decreases |data|
  {
    if data == [] then []
    else
      var v := GetValue(data[|data| - 1], "account_name", current);
      PageNames(data[..|data| - 1], current) + (if Truthy(v) then [v] else [])
  }

  /** `getUniquePageNames(data)`; `None` is a value that is not an array. */
  method GetUniquePageNames(data: Option<seq<Record>>, current: Mapping) returns (names: seq<Value>)
    ensures data.None? ==> names == []
    ensures data.Some? ==> names == Sort(Dedup(PageNames(data.value, current)))
  {
    if data.None? {
      return [];
    }
    var rows := data.value;
    var added: seq<Value> := [];
    var i := 0;
    while i < |rows|
      invariant 0 <= i <= |rows|
      invariant added == Dedup(PageNames(rows[..i], current))
    {
      var v := GetValue(rows[i], "account_name", current);
      PageNamesStep(rows, i, current);
      if Truthy(v) {
        DedupAppend(PageNames(rows[..i], current), v);
        added := SetAdd(added, v);
      }
      i := i + 1;
    }
    assert rows[..i] == rows;
    names := Sort(added);
  }

  /** The names of a prefix one row longer. */
  lemma PageNamesStep(rows: seq<Record>, i: nat, current: Mapping)
    requires i < |rows|
    ensures var v := GetValue(rows[i], "account_name", current);
      PageNames(rows[..i + 1], current) ==
        if Truthy(v) then PageNames(rows[..i], current) + [v] else PageNames(rows[..i], current)
  {
    assert rows[..i + 1][..i] == rows[..i];
    assert PageNames(rows[..i], current) + [] == PageNames(rows[..i], current);
  }

  lemma DedupAppend<T>(xs: seq<T>, x: T)
    ensures Dedup(xs + [x]) == SetAdd(Dedup(xs), x)
  {
    assert (xs + [x])[..|xs|] == xs;
  }

  lemma {:induction false} PageNamesTruthy(data: seq<Record>, current: Mapping)
    ensures forall v :: v in PageNames(data, current) ==> Truthy(v)
    decreases |data|
  {
    if data != [] {
      PageNamesTruthy(data[..|data| - 1], current);
    }
  }

  /** Without repeats in a sequence, every element occurs once in its multiset. */
  lemma {:induction false} NoDuplicatesMultiset<T>(xs: seq<T>)
    requires NoDuplicates(xs)
    ensures forall x :: multiset(xs)[x] <= 1
    decreases |xs|
  {
    if xs != [] {
      var init := xs[..|xs| - 1];
      assert NoDuplicates(init) by {
        assert forall i :: 0 <= i < |init| ==> init[i] == xs[i];
      }
      NoDuplicatesMultiset(init);
      assert xs == init + [xs[|xs| - 1]];
      assert xs[|xs| - 1] !in init by {
        forall i | 0 <= i < |init| ensures init[i] != xs[|xs| - 1] {
          assert init[i] == xs[i];
        }
      }
    }
  }

  lemma TwoCopies<T>(ys: seq<T>, i: nat, j: nat)
    requires i < j < |ys| && ys[i] == ys[j]
    ensures multiset(ys)[ys[i]] >= 2
  {
    assert ys == ys[..i] + [ys[i]] + ys[i + 1..j] + [ys[j]] + ys[j + 1..];
  }

  lemma MultisetNoDuplicates<T>(ys: seq<T>)
    requires forall x :: multiset(ys)[x] <= 1
    ensures NoDuplicates(ys)
  {
    forall i, j | 0 <= i < j < |ys| ensures ys[i] != ys[j] {
      if ys[i] == ys[j] {
        TwoCopies(ys, i, j);
      }
    }
  }

  /** The distinct names, sorted: ordered by key, each once,
      exactly the given names; strictly ordered when all are strings. */
  lemma SortedUnique(names: seq<Value>)
    ensures SortedByKey(Sort(Dedup(names)))
    ensures NoDuplicates(Sort(Dedup(names)))
    ensures forall v :: v in Sort(Dedup(names)) <==> v in names
    ensures (forall v :: v in names ==> v.Str?) ==> StrictlySortedByKey(Sort(Dedup(names)))
  {
    var d := Dedup(names);
    var r := Sort(d);
    DedupSpec(names);
    NoDuplicatesMultiset(d);
    MultisetNoDuplicates(r);
    forall v ensures v in r <==> v in d {
      assert v in r <==> v in multiset(r);
      assert v in d <==> v in multiset(d);
    }
    if forall v :: v in names ==> v.Str? {
      forall i, j | 0 <= i < j < |r| ensures Key(r[i]) != Key(r[j]) {
        assert r[i] in r && r[j] in r;
      }
      SortedDistinctKeysStrict(r);
    }
  }

  /** The page names come out sorted by key, each once, exactly the
      truthy names of the data; when all names are strings the order is
      strict. */
  lemma UniquePageNamesSpec(data: seq<Record>, current: Mapping)
    ensures SortedByKey(Sort(Dedup(PageNames(data, current))))
    ensures NoDuplicates(Sort(Dedup(PageNames(data, current))))
    ensures forall v :: v in Sort(Dedup(PageNames(data, current))) <==> v in PageNames(data, current)
    ensures forall v :: v in Sort(Dedup(PageNames(data, current))) ==> Truthy(v)
    ensures (forall v :: v in PageNames(data, current) ==> v.Str?) ==> StrictlySortedByKey(Sort(Dedup(PageNames(data, current))))
  {
    SortedUnique(PageNames(data, current));
    PageNamesTruthy(data, current);
  }
}

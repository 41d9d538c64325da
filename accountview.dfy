/** The account view's synchronous `summarizeByAccount`: posts are grouped
    by `getValue(post, 'account_id')` into `groupedByAccount`, then one
    summary row is built per account, summing each selected field over the
    account's posts (`average_reach` is the rounded mean reach). The result
    is the per-account summary of the data-processing utilities, read
    through `getValue`. */
module AccountView {
  import opened Wrappers
  import opened OrderedMaps
  import opened JsValues
  import opened Grouping
  import opened ColumnMappingService
  import opened DataProcessing

  /** One entry of `groupedByAccount`: the identity read from the first
      post of the account and the account's posts. */
  datatype AccountGroup = AccountGroup(accountId: Value, accountName: Value, accountUsername: Value, posts: seq<Record>)

  /** The entry kept for the posts `g` of one account; groups are never
      empty, the first case only makes the function total. */
  function Entry(g: seq<Record>, read: Reader): AccountGroup {
    if g == [] then AccountGroup(Null, Null, Null, [])
    else AccountGroup(read(g[0], "account_id"), Or(read(g[0], "account_name"), Str("Okänt konto")),
                      Or(read(g[0], "account_username"), Str("-")), g)
  }

  function EntryOf(read: Reader): seq<Record> -> AccountGroup {
    g => Entry(g, read)
  }

  /** Appending a post with a truthy account id adds it to that account's group. */
  lemma AccountGroupsStep(xs: seq<Record>, post: Record, read: Reader)
    ensures AccountGroups(xs + [post], read) ==
      if Truthy(read(post, "account_id")) then AddToGroup(AccountGroups(xs, read), Key(read(post, "account_id")), post)
      else AccountGroups(xs, read)
  {
    assert (xs + [post])[..|xs|] == xs;
  }

  /** The grouping loop: `groupedByAccount` holds, per account id in
      first-seen order, the entry of exactly that account's posts. */
  method GroupPosts(data: seq<Record>, read: Reader) returns (grouped: seq<(PropKey, AccountGroup)>)
    ensures grouped == MapValues(AccountGroups(data, read), EntryOf(read))
  {
    grouped := [];
    for i := 0 to |data|
      invariant grouped == MapValues(AccountGroups(data[..i], read), EntryOf(read))
    {
      var post := data[i];
      ghost var g := AccountGroups(data[..i], read);
      assert data[..i + 1] == data[..i] + [post];
      AccountGroupsStep(data[..i], post, read);
      var accountId := read(post, "account_id");
      if !Truthy(accountId) {
        continue;
      }
      var accountName := Or(read(post, "account_name"), Str("Okänt konto"));
      var accountUsername := Or(read(post, "account_username"), Str("-"));
      var k := Key(accountId);
      GetMapValues(g, EntryOf(read), k);
      GroupByGet(data[..i], AccountIdKey(read), k);
      ghost var before := grouped;
      if Get(grouped, k).None? {
        grouped := Put(grouped, k, AccountGroup(accountId, accountName, accountUsername, []));
      }
      PutGet(before, k, AccountGroup(accountId, accountName, accountUsername, []), k);
      var e := Get(grouped, k).value;
      grouped := Put(grouped, k, e.(posts := e.posts + [post]));
      ghost var members := Get(g, k).GetOr([]);
      PutMapValues(g, EntryOf(read), k, members + [post]);
      if members == [] {
        PutPut(before, k, AccountGroup(accountId, accountName, accountUsername, []), e.(posts := e.posts + [post]));
        assert [] + [post] == [post];
      } else {
        assert (members + [post])[0] == members[0];
      }
    }
    assert data[..|data|] == data;
  }

  /** `value || 0` summed over the posts of an account, one loop. */
  method SumField(posts: seq<Record>, field: string, read: Reader) returns (sum: real)
    ensures sum == FieldTotal(posts, field, read)
  {
    sum := 0.0;
    for u := 0 to |posts|
      invariant sum == SumOf(posts[..u], FieldAmount(field, read))
    {
      assert posts[..u + 1][..u] == posts[..u];
      sum := sum + NumOrZero(read(posts[u], field));
    }
    assert posts[..|posts|] == posts;
  }

  /** The summary row of one account: its identity, then each selected
      field written in order. */
  method SummarizeAccount(account: AccountGroup, fields: seq<string>, read: Reader) returns (summary: Record)
    requires account.posts != [] && account == Entry(account.posts, read)
    ensures summary == Summary(account.posts, fields, read)
  {
    summary := [("account_id", account.accountId), ("account_name", account.accountName),
                ("account_username", account.accountUsername)];
    for j := 0 to |fields|
      invariant summary == WithFields(Identity(account.posts[0], read), account.posts, fields[..j], read)
    {
      assert fields[..j + 1][..j] == fields[..j];
      var field := fields[j];
      if field == "average_reach" {
        var totalReach := SumField(account.posts, "post_reach", read);
        var average := if |account.posts| > 0 then Round(totalReach / |account.posts| as real) else 0;
        summary := Put(summary, "average_reach", Num(average as real));
      } else {
        var sum := SumField(account.posts, field, read);
        summary := Put(summary, field, Num(sum));
      }
    }
    assert fields[..|fields|] == fields;
  }

  /** `summarizeByAccount(data, selectedFields, columnMappings)` reading
      fields through `read`; it computes the per-account summaries, so
      every property proved of those holds of its output. */
  method SummarizeByAccount(data: Option<seq<Record>>, selectedFields: Option<seq<string>>, read: Reader)
    returns (summaryData: seq<Record>)
    ensures summaryData == Summaries(data, selectedFields, read)
  {
    if data.None? || data.value == [] || selectedFields.None? {
      return [];
    }
    var grouped := GroupPosts(data.value, read);
    ghost var groups := AccountGroups(data.value, read);
    GroupByEntries(data.value, AccountIdKey(read));
    summaryData := [];
    for a := 0 to |grouped|
      invariant |summaryData| == a
      invariant forall j :: 0 <= j < a ==> summaryData[j] == Summary(groups[j].1, selectedFields.value, read)
    {
      assert grouped[a].1 == Entry(groups[a].1, read);
      var summary := SummarizeAccount(grouped[a].1, selectedFields.value, read);
      summaryData := summaryData + [summary];
    }
  }

  /** Under `getValue`, for posts that store no engagement total and whose
      likes, comments and shares read the same raw and parsed, a summary
      that selects all four fields has `engagement_total` equal to the sum
      of the other three. */
  lemma ViewEngagement(g: seq<Record>, fields: seq<string>, current: Mapping)
    requires g != []
    requires "engagement_total" in fields && "likes" in fields && "comments" in fields && "shares" in fields
    requires forall p :: p in g ==> !HasKey(p, "engagement_total") && !HasKey(p, "engagement_total_extended")
    requires forall p :: p in g ==>
      NumOrZero(FieldValue(p, "likes", current)) == NumOrZero(GetValue(p, "likes", current)) &&
      NumOrZero(FieldValue(p, "comments", current)) == NumOrZero(GetValue(p, "comments", current)) &&
      NumOrZero(FieldValue(p, "shares", current)) == NumOrZero(GetValue(p, "shares", current))
    ensures var s := Summary(g, fields, FieldReader(current));
      NumOrZero(Get(s, "engagement_total").GetOr(Null)) ==
        NumOrZero(Get(s, "likes").GetOr(Null)) + NumOrZero(Get(s, "comments").GetOr(Null))
        + NumOrZero(Get(s, "shares").GetOr(Null))
  {
    var read := FieldReader(current);
    forall p | p in g
      ensures NumOrZero(read(p, "engagement_total")) ==
        NumOrZero(read(p, "likes")) + NumOrZero(read(p, "comments")) + NumOrZero(read(p, "shares"))
    {
      EngagementTotals(p, current);
    }
    SummaryEngagement(g, fields, read);
  }
}

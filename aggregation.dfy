/** The body of `processInstagramData` after parsing: deduplicate, rename,
    tag, sum per account, collect dates, and finish the account rows. The
    parsed rows, the stored posts and accounts, the clock and the date
    parser are parameters. */
module Aggregation {
  import opened Wrappers
  import opened OrderedMaps
  import opened JsValues
  import opened Grouping
  import opened ColumnMappingService
  import opened WebDataProcessor

  /** The values of `DEFAULT_MAPPINGS` that are among views, likes,
      comments, shares, saves and follows, in table order. */
  const SUMMARIZABLE_COLUMNS: seq<string> := ["views", "likes", "comments", "shares", "follows", "saves"]

  /** `new Date(v)` read as a time value, `None` for an invalid date. */
  type DateParser = Value -> Option<int>

  /** `getValue(r,'publish_time') || getValue(r,'date') || r['Publiceringstid'] || r['Datum']`. */
  function PublishDate(row: Record, read: Reader): Value {
    Or(Or(Or(read(row, "publish_time"), read(row, "date")),
          Get(row, "Publiceringstid").GetOr(Null)),
       Get(row, "Datum").GetOr(Null))
  }

  /** The date a row pushes onto `allDates`, if any. */
  function DatesOf(row: Record, read: Reader, parseDate: DateParser): seq<int> {
    var d := PublishDate(row, read);
    if Truthy(d) then
      match parseDate(d)
      case Some(t) => [t]
      case None => []
    else []
  }

  /** What every iteration of the loop reads: the file identifier, the
      header mapping for `mapColumnNames`, the field accessor, the date
      parser and the columns summed per account. */
  datatype Setup = Setup(fid: string, mappings: Mapping, read: Reader, parseDate: DateParser, cols: seq<string>)

  /** `perKonto`, `perPost` and `allDates`. */
  datatype Acc = Acc(accounts: seq<(PropKey, Record)>, posts: seq<Record>, dates: seq<int>)

  /** The renamed row tagged with the file identifier. */
  function Prepared(row: Record, env: Setup): Record {
    Put(MappedRow(row, env.mappings), "_file_identifier", Str(env.fid))
  }

  /** `getValue(mappedRow, 'account_id') || 'unknown'`: never falsy, so the
      `if (!accountID) return` after it never fires. */
  function AccountIdFor(p: Record, read: Reader): (id: Value)
    ensures Truthy(id)
    ensures Truthy(read(p, "account_id")) ==> id == read(p, "account_id")
  {
    Or(read(p, "account_id"), Str("unknown"))
  }

  /** The `perKonto` key: the property-key form of the account id. */
  function AccountKeyOf(p: Record, read: Reader): PropKey {
    Key(AccountIdFor(p, read))
  }

  /** The account row created for the first post of an account. */
  function NewAccount(p: Record, env: Setup): Record {
    [("account_id", AccountIdFor(p, env.read)),
     ("account_name", Or(env.read(p, "account_name"), Str("Okänt konto"))),
     ("account_username", Or(env.read(p, "account_username"), Str("-")))]
    + seq(|env.cols|, i requires 0 <= i < |env.cols| => (env.cols[i], Num(0.0)))
  }

  /** `parseFloat(v) || 0`. */
  function Parsed(v: Value): real {
    ParseFloatValue(v).GetOr(0.0)
  }

  /** The post's likes, comments and shares, each parsed, failures as 0. */
  function PostEngagement(p: Record, read: Reader): real {
    Parsed(read(p, "likes")) + Parsed(read(p, "comments")) + Parsed(read(p, "shares"))
  }

  /** The post as stored in `perPost`, with its `engagement_total`. */
  function WithEngagement(p: Record, read: Reader): Record {
    Put(p, "engagement_total", Num(PostEngagement(p, read)))
  }

  /** One column: `perKonto[accountID][col] += parseFloat(value)` when the
      value parses. A new account starts with every column at 0; a stored
      value that is not a number counts as 0 here. */
  function AddColumn(a: Record, post: Record, read: Reader, col: string): Record {
    match ParseFloatValue(read(post, col))
    case Some(x) => Put(a, col, Num(NumOrZero(Get(a, col).GetOr(Null)) + x))
    case None => a
  }

  /** `cols.forEach(...)` of `AddColumn`. */
  function AddColumns(a: Record, post: Record, read: Reader, cols: seq<string>): Record
    decreases |cols|
  {
    if cols == [] then a
    else AddColumns(AddColumn(a, post, read, cols[0]), post, read, cols[1..])
  }

  /** `perKonto` after the prepared row `p` is added to its account,
      creating the account first when it is new. */
  function Credited(accounts: seq<(PropKey, Record)>, p: Record, env: Setup): seq<(PropKey, Record)> {
    var k := AccountKeyOf(p, env.read);
    Put(accounts, k, AddColumns(Get(accounts, k).GetOr(NewAccount(p, env)), WithEngagement(p, env.read), env.read, env.cols))
  }

  /** The extra check before a row is processed: a post with the same id
      and the current file identifier is already in `perPost`. */
  predicate Skipped(posts: seq<Record>, row: Record, env: Setup) {
    var postId := env.read(row, "post_id");
    Truthy(postId) &&
    exists j :: 0 <= j < |posts| && env.read(posts[j], "post_id") == postId
                && Get(posts[j], "_file_identifier") == Some(Str(env.fid))
  }

  /** One iteration of `filteredData.forEach`. */
  function Visit(acc: Acc, row: Record, env: Setup): Acc {
    if Skipped(acc.posts, row, env) then acc
    else
      var p := Prepared(row, env);
      Acc(Credited(acc.accounts, p, env),
          acc.posts + [WithEngagement(p, env.read)],
          acc.dates + DatesOf(p, env.read, env.parseDate))
  }

  /** The state after visiting `rows` from `start`. */
  function Aggregate(start: Acc, rows: seq<Record>, env: Setup): Acc
    decreases |rows|
  {
    if rows == [] then start
    else Visit(Aggregate(start, rows[..|rows| - 1], env), rows[|rows| - 1], env)
  }

  /** The prepared rows that were not skipped, in order. */
  function Processed(start: Acc, rows: seq<Record>, env: Setup): seq<Record>
    decreases |rows|
  {
    if rows == [] then []
    else
      var init := rows[..|rows| - 1];
      var r := rows[|rows| - 1];
      Processed(start, init, env)
      + (if Skipped(Aggregate(start, init, env).posts, r, env) then [] else [Prepared(r, env)])
  }

  /** The `forEach` over the summable columns on one account row. */
  method AddColumnValues(a: Record, post: Record, read: Reader, cols: seq<string>) returns (r: Record)
    ensures r == AddColumns(a, post, read, cols)
  {
    r := a;
    var i := 0;
    while i < |cols|
      invariant 0 <= i <= |cols|
      invariant AddColumns(r, post, read, cols[i..]) == AddColumns(a, post, read, cols)
    {
      assert cols[i..][1..] == cols[i + 1..];
      ghost var before := r;
      var value := read(post, cols[i]);
      var parsed := ParseFloatValue(value);
      if value != Null && parsed.Some? {
        r := Put(r, cols[i], Num(NumOrZero(Get(r, cols[i]).GetOr(Null)) + parsed.value));
      }
      assert r == AddColumn(before, post, read, cols[i]);
      i := i + 1;
    }
  }

  /** The loop over the deduplicated rows. */
  method AggregateRows(start: Acc, rows: seq<Record>, env: Setup) returns (acc: Acc)
    ensures acc == Aggregate(start, rows, env)
  {
    var accounts := start.accounts;
    var posts := start.posts;
    var dates := start.dates;
    for i := 0 to |rows|
      invariant Acc(accounts, posts, dates) == Aggregate(start, rows[..i], env)
    {
      AggregateStep(start, rows, i, env);
      ghost var before := Acc(accounts, posts, dates);
      var row := rows[i];
      if !Skipped(posts, row, env) {
        var mapped := MapColumnNames(row, env.mappings);
        mapped := Put(mapped, "_file_identifier", Str(env.fid));
        dates := dates + DatesOf(mapped, env.read, env.parseDate);
        var post;
        accounts, post := CreditRow(accounts, mapped, env);
        posts := posts + [post];
      }
      assert Acc(accounts, posts, dates) == Visit(before, row, env);
    }
    assert rows[..|rows|] == rows;
    acc := Acc(accounts, posts, dates);
  }

  lemma AggregateStep(start: Acc, rows: seq<Record>, i: nat, env: Setup)
    requires i < |rows|
    ensures Aggregate(start, rows[..i + 1], env) == Visit(Aggregate(start, rows[..i], env), rows[i], env)
  {
    assert rows[..i + 1][..i] == rows[..i];
  }

  /** The account update of one prepared row and the post it stores. */
  method CreditRow(accounts: seq<(PropKey, Record)>, mapped: Record, env: Setup)
    returns (accounts': seq<(PropKey, Record)>, post: Record)
    ensures accounts' == Credited(accounts, mapped, env)
    ensures post == WithEngagement(mapped, env.read)
  {
    var accountID := Or(env.read(mapped, "account_id"), Str("unknown"));
    var k := Key(accountID);
    var account: Record;
    GetNoneIff(accounts, k);
    if HasKey(accounts, k) {
      account := Get(accounts, k).value;
    } else {
      account := NewAccount(mapped, env);
    }
    post := Put(mapped, "engagement_total", Num(PostEngagement(mapped, env.read)));
    account := AddColumnValues(account, post, env.read, env.cols);
    accounts' := Put(accounts, k, account);
  }

  // ---------------------------------------------------------------------
  // Posts and dates

  /** The stored form of each prepared row. */
  function PostsOf(ps: seq<Record>, read: Reader): seq<Record> {
    seq(|ps|, i requires 0 <= i < |ps| => WithEngagement(ps[i], read))
  }

  /** The dates of the given rows, in order. */
  function AllDates(ps: seq<Record>, read: Reader, parseDate: DateParser): seq<int>
    decreases |ps|
  {
    if ps == [] then [] else AllDates(ps[..|ps| - 1], read, parseDate) + DatesOf(ps[|ps| - 1], read, parseDate)
  }

  /** One step of the loop: a skipped row changes nothing, any other adds
      exactly its prepared row to the processed ones. */
  lemma ProcessedStep(start: Acc, rows: seq<Record>, env: Setup)
    requires rows != []
    ensures var init := rows[..|rows| - 1];
            var r := rows[|rows| - 1];
            var st := Aggregate(start, init, env);
            if Skipped(st.posts, r, env) then
              Aggregate(start, rows, env) == st && Processed(start, rows, env) == Processed(start, init, env)
            else
              Aggregate(start, rows, env).posts == st.posts + [WithEngagement(Prepared(r, env), env.read)] &&
              Aggregate(start, rows, env).dates == st.dates + DatesOf(Prepared(r, env), env.read, env.parseDate) &&
              Aggregate(start, rows, env).accounts == Credited(st.accounts, Prepared(r, env), env) &&
              Processed(start, rows, env) == Processed(start, init, env) + [Prepared(r, env)]
  {
  }

  lemma PostsOfAppend(ps: seq<Record>, x: Record, read: Reader)
    ensures PostsOf(ps + [x], read) == PostsOf(ps, read) + [WithEngagement(x, read)]
  {
  }

  lemma AllDatesAppend(ps: seq<Record>, x: Record, read: Reader, parseDate: DateParser)
    ensures AllDates(ps + [x], read, parseDate) == AllDates(ps, read, parseDate) + DatesOf(x, read, parseDate)
  {
    assert (ps + [x])[..|ps|] == ps;
  }

  /** `perPost` is the starting posts followed by exactly the processed
      rows, each with its engagement; the dates are collected the same way;
      no more rows are processed than given. */
  lemma AggregatePosts(start: Acc, rows: seq<Record>, env: Setup)
    ensures Aggregate(start, rows, env).posts == start.posts + PostsOf(Processed(start, rows, env), env.read)
    ensures Aggregate(start, rows, env).dates == start.dates + AllDates(Processed(start, rows, env), env.read, env.parseDate)
    ensures |Processed(start, rows, env)| <= |rows|
  {
    AggregatePostList(start, rows, env);
    AggregateDateList(start, rows, env);
  }

  lemma {:induction false} AggregatePostList(start: Acc, rows: seq<Record>, env: Setup)
    ensures Aggregate(start, rows, env).posts == start.posts + PostsOf(Processed(start, rows, env), env.read)
    ensures |Processed(start, rows, env)| <= |rows|
    decreases |rows|
  {
    if rows != [] {
      var init := rows[..|rows| - 1];
      AggregatePostList(start, init, env);
      ProcessedStep(start, rows, env);
      if !Skipped(Aggregate(start, init, env).posts, rows[|rows| - 1], env) {
        var before := Processed(start, init, env);
        var p := Prepared(rows[|rows| - 1], env);
        PostsOfAppend(before, p, env.read);
        AppendAssoc(start.posts, PostsOf(before, env.read), [WithEngagement(p, env.read)]);
      }
    }
  }

  lemma {:induction false} AggregateDateList(start: Acc, rows: seq<Record>, env: Setup)
    ensures Aggregate(start, rows, env).dates == start.dates + AllDates(Processed(start, rows, env), env.read, env.parseDate)
    decreases |rows|
  {
    if rows != [] {
      var init := rows[..|rows| - 1];
      AggregateDateList(start, init, env);
      ProcessedStep(start, rows, env);
      if !Skipped(Aggregate(start, init, env).posts, rows[|rows| - 1], env) {
        var before := Processed(start, init, env);
        var p := Prepared(rows[|rows| - 1], env);
        AllDatesAppend(before, p, env.read, env.parseDate);
        AppendAssoc(start.dates, AllDates(before, env.read, env.parseDate), DatesOf(p, env.read, env.parseDate));
      }
    }
  }

  /** Every stored post carries `engagement_total` = parsed likes + comments
      + shares, failures as 0, and keeps every other field of the prepared row. */
  lemma PostEngagementStored(p: Record, read: Reader)
    ensures Get(WithEngagement(p, read), "engagement_total") == Some(Num(PostEngagement(p, read)))
    ensures forall k :: k != "engagement_total" ==> Get(WithEngagement(p, read), k) == Get(p, k)
  {
    forall k {
      PutGet(p, "engagement_total", Num(PostEngagement(p, read)), k);
    }
  }

  /** Every processed row is tagged with the current file identifier. */
  lemma PreparedTagged(row: Record, env: Setup)
    ensures Get(Prepared(row, env), "_file_identifier") == Some(Str(env.fid))
    ensures Get(WithEngagement(Prepared(row, env), env.read), "_file_identifier") == Some(Str(env.fid))
  {
    var p := Prepared(row, env);
    PutGet(MappedRow(row, env.mappings), "_file_identifier", Str(env.fid), "_file_identifier");
    PutGet(p, "engagement_total", Num(PostEngagement(p, env.read)), "_file_identifier");
  }

  // ---------------------------------------------------------------------
  // Accounts

  /** The account row built from a base row by adding the posts of `g` in order. */
  function Folded(base: Record, g: seq<Record>, env: Setup): Record
    decreases |g|
  {
    if g == [] then base
    else AddColumns(Folded(base, g[..|g| - 1], env), WithEngagement(g[|g| - 1], env.read), env.read, env.cols)
  }

  /** The reference account row of a group of prepared rows: created from
      its first row, then every row's values added. */
  function AccountOf(g: seq<Record>, env: Setup): Record {
    if g == [] then [] else Folded(NewAccount(g[0], env), g, env)
  }

  function AccountKeyFn(read: Reader): Record -> Option<PropKey> {
    p => Some(AccountKeyOf(p, read))
  }

  function AccountFn(env: Setup): seq<Record> -> Record {
    g => AccountOf(g, env)
  }

  /** The reference `perKonto`: the processed rows grouped by account key,
      one account row per group. */
  function AccountsOf(ps: seq<Record>, env: Setup): seq<(PropKey, Record)> {
    MapValues(GroupBy(ps, AccountKeyFn(env.read)), AccountFn(env))
  }

  /** Extending a group by one row adds that row's values to its account. */
  lemma FoldedStep(g: seq<Record>, p: Record, env: Setup)
    ensures AccountOf(g + [p], env)
      == AddColumns(if g == [] then NewAccount(p, env) else AccountOf(g, env), WithEngagement(p, env.read), env.read, env.cols)
  {
    if g == [] {
      assert [] + [p] == [p];
      FoldedLast(NewAccount(p, env), [], p, env);
    } else {
      assert (g + [p])[0] == g[0];
      FoldedLast(NewAccount(g[0], env), g, p, env);
    }
  }

  lemma FoldedLast(base: Record, g: seq<Record>, p: Record, env: Setup)
    ensures Folded(base, g + [p], env) == AddColumns(Folded(base, g, env), WithEngagement(p, env.read), env.read, env.cols)
  {
    assert (g + [p])[..|g|] == g;
  }

  /** Crediting a row to the reference accounts of `ps` gives the reference
      accounts of `ps` with that row appended. */
  lemma CreditedGroups(ps: seq<Record>, p: Record, env: Setup)
    ensures Credited(AccountsOf(ps, env), p, env) == AccountsOf(ps + [p], env)
  {
    var k := AccountKeyOf(p, env.read);
    var kf := AccountKeyFn(env.read);
    var G := GroupBy(ps, kf);
    assert (ps + [p])[..|ps|] == ps;
    assert GroupBy(ps + [p], kf) == AddToGroup(G, k, p);
    var g' := Get(G, k).GetOr([]) + [p];
    PutMapValues(G, AccountFn(env), k, g');
    GetMapValues(G, AccountFn(env), k);
    GroupByGet(ps, kf, k);
    FoldedStep(Get(G, k).GetOr([]), p, env);
  }

  /** On the path that starts empty (no merge), `perKonto` is the reference
      grouping of the processed rows. */
  lemma {:induction false} AccountsAreGroups(rows: seq<Record>, env: Setup)
    ensures Aggregate(Acc([], [], []), rows, env).accounts == AccountsOf(Processed(Acc([], [], []), rows, env), env)
    decreases |rows|
  {
    if rows != [] {
      var init := rows[..|rows| - 1];
      AccountsAreGroups(init, env);
      ProcessedStep(Acc([], [], []), rows, env);
      var r := rows[|rows| - 1];
      if !Skipped(Aggregate(Acc([], [], []), init, env).posts, r, env) {
        CreditedGroups(Processed(Acc([], [], []), init, env), Prepared(r, env), env);
      }
    }
  }

  predicate NoRepeats(cols: seq<string>) {
    forall i, j :: 0 <= i < j < |cols| ==> cols[i] != cols[j]
  }

  /** Column lists an account row can be built over: no column twice and
      none of them an identity field. */
  predicate ValidColumns(cols: seq<string>) {
    NoRepeats(cols) && "account_id" !in cols && "account_name" !in cols && "account_username" !in cols
  }

  lemma SummarizableValid()
    ensures ValidColumns(SUMMARIZABLE_COLUMNS)
  {
  }

  /** Adding a post changes only the listed columns, each by the post's
      parsed value when there is one. */
  lemma {:induction false} AddColumnsGet(a: Record, post: Record, read: Reader, cols: seq<string>, k: string)
    requires NoRepeats(cols)
    ensures k !in cols ==> Get(AddColumns(a, post, read, cols), k) == Get(a, k)
    ensures k in cols ==> (Get(AddColumns(a, post, read, cols), k) ==
      match ParseFloatValue(read(post, k))
      case Some(x) => Some(Num(NumOrZero(Get(a, k).GetOr(Null)) + x))
      case None => Get(a, k))
    decreases |cols|
  {
    if cols != [] {
      var col := cols[0];
      var a' := AddColumn(a, post, read, col);
      assert NoRepeats(cols[1..]);
      AddColumnsGet(a', post, read, cols[1..], k);
      match ParseFloatValue(read(post, col))
      case Some(x) => PutGet(a, col, Num(NumOrZero(Get(a, col).GetOr(Null)) + x), k);
      case None =>
      if k == col {
        assert k !in cols[1..];
      } else if k in cols {
        assert k in cols[1..];
      }
    }
  }

  /** A numeric column stays numeric and grows by the parsed value. */
  lemma AddColumnsSum(a: Record, post: Record, read: Reader, cols: seq<string>, k: string, s: real)
    requires NoRepeats(cols) && k in cols && Get(a, k) == Some(Num(s))
    ensures Get(AddColumns(a, post, read, cols), k) == Some(Num(s + Parsed(read(post, k))))
  {
    AddColumnsGet(a, post, read, cols, k);
  }

  /** The amount a post adds to column `col`. */
  function Amount(col: string, read: Reader): Record -> real {
    p => Parsed(read(WithEngagement(p, read), col))
  }

  lemma {:induction false} FoldedSums(base: Record, g: seq<Record>, env: Setup, k: string, s: real)
    requires NoRepeats(env.cols) && k in env.cols && Get(base, k) == Some(Num(s))
    ensures Get(Folded(base, g, env), k) == Some(Num(s + SumOf(g, Amount(k, env.read))))
    decreases |g|
  {
    if g != [] {
      var init := g[..|g| - 1];
      var last := g[|g| - 1];
      var before := Folded(base, init, env);
      var t := SumOf(init, Amount(k, env.read));
      FoldedSums(base, init, env, k, s);
      AddColumnsSum(before, WithEngagement(last, env.read), env.read, env.cols, k, s + t);
      FoldedUnfold(base, g, env);
      SumOfUnfold(g, Amount(k, env.read));
    }
  }

  lemma FoldedUnfold(base: Record, g: seq<Record>, env: Setup)
    requires g != []
    ensures Folded(base, g, env) == AddColumns(Folded(base, g[..|g| - 1], env), WithEngagement(g[|g| - 1], env.read), env.read, env.cols)
  {
  }

  lemma {:induction false} FoldedIdentity(base: Record, g: seq<Record>, env: Setup, k: string)
    requires NoRepeats(env.cols) && k !in env.cols
    ensures Get(Folded(base, g, env), k) == Get(base, k)
    decreases |g|
  {
    if g != [] {
      var init := g[..|g| - 1];
      FoldedIdentity(base, init, env, k);
      AddColumnsGet(Folded(base, init, env), WithEngagement(g[|g| - 1], env.read), env.read, env.cols, k);
    }
  }

  /** A new account starts with its identity fields and 0 in every
      summable column. */
  lemma NewAccountShape(p: Record, env: Setup)
    requires ValidColumns(env.cols)
    ensures Get(NewAccount(p, env), "account_id") == Some(AccountIdFor(p, env.read))
    ensures Get(NewAccount(p, env), "account_name") == Some(Or(env.read(p, "account_name"), Str("Okänt konto")))
    ensures Get(NewAccount(p, env), "account_username") == Some(Or(env.read(p, "account_username"), Str("-")))
    ensures forall c :: c in env.cols ==> Get(NewAccount(p, env), c) == Some(Num(0.0))
  {
    var a := NewAccount(p, env);
    GetFirst(a, 0);
    GetFirst(a, 1);
    GetFirst(a, 2);
    forall c | c in env.cols ensures Get(a, c) == Some(Num(0.0)) {
      var i :| 0 <= i < |env.cols| && env.cols[i] == c;
      assert a[i + 3] == (c, Num(0.0));
      forall j | 0 <= j < i + 3 ensures a[j].0 != c {
        if j >= 3 {
          assert a[j].0 == env.cols[j - 3];
        }
      }
      GetFirst(a, i + 3);
    }
  }

  /** Each account row of a non-empty group: identity from its first row,
      and every summable column the sum of the group's parsed values. */
  lemma AccountOfSpec(g: seq<Record>, env: Setup)
    requires g != [] && ValidColumns(env.cols)
    ensures Get(AccountOf(g, env), "account_id") == Some(AccountIdFor(g[0], env.read))
    ensures Get(AccountOf(g, env), "account_name") == Some(Or(env.read(g[0], "account_name"), Str("Okänt konto")))
    ensures Get(AccountOf(g, env), "account_username") == Some(Or(env.read(g[0], "account_username"), Str("-")))
    ensures forall c :: c in env.cols ==> Get(AccountOf(g, env), c) == Some(Num(SumOf(g, Amount(c, env.read))))
  {
    var base := NewAccount(g[0], env);
    NewAccountShape(g[0], env);
    FoldedIdentity(base, g, env, "account_id");
    FoldedIdentity(base, g, env, "account_name");
    FoldedIdentity(base, g, env, "account_username");
    forall c | c in env.cols ensures Get(AccountOf(g, env), c) == Some(Num(SumOf(g, Amount(c, env.read)))) {
      FoldedSums(base, g, env, c, 0.0);
    }
  }

  /** On the path that starts empty: there is an account exactly for each
      account key of a processed row, its identity comes from the first
      such row, and each summable column holds the sum of the parsed
      values of that account's rows. */
  lemma AccountSums(rows: seq<Record>, env: Setup, k: PropKey)
    requires ValidColumns(env.cols)
    ensures var ps := Processed(Acc([], [], []), rows, env);
            var accounts := Aggregate(Acc([], [], []), rows, env).accounts;
            (HasKey(accounts, k) <==> exists i :: 0 <= i < |ps| && AccountKeyOf(ps[i], env.read) == k) &&
            (HasKey(accounts, k) ==>
               var g := Members(ps, AccountKeyFn(env.read), k);
               g != [] && Get(accounts, k).Some? &&
               Get(Get(accounts, k).value, "account_id") == Some(AccountIdFor(g[0], env.read)) &&
               Get(Get(accounts, k).value, "account_name") == Some(Or(env.read(g[0], "account_name"), Str("Okänt konto"))) &&
               forall c :: c in env.cols ==> Get(Get(accounts, k).value, c) == Some(Num(SumOf(g, Amount(c, env.read)))))
  {
    var ps := Processed(Acc([], [], []), rows, env);
    var kf := AccountKeyFn(env.read);
    AccountsAreGroups(rows, env);
    GroupByGet(ps, kf, k);
    GetMapValues(GroupBy(ps, kf), AccountFn(env), k);
    GetNoneIff(AccountsOf(ps, env), k);
    MembersEmptyIff(ps, kf, k);
    var g := Members(ps, kf, k);
    if g != [] {
      AccountOfSpec(g, env);
    }
  }

  // ---------------------------------------------------------------------
  // Finishing the account rows

  /** `(account.f || 0)`. */
  function FieldOrZero(a: Record, f: string): real {
    NumOrZero(Get(a, f).GetOr(Null))
  }

  /** The account row after `engagement_total` and
      `engagement_total_extended` are written. */
  function Finalized(a: Record): Record {
    var l := FieldOrZero(a, "likes");
    var c := FieldOrZero(a, "comments");
    var s := FieldOrZero(a, "shares");
    Put(Put(a, "engagement_total", Num(l + c + s)),
        "engagement_total_extended", Num(l + c + s + FieldOrZero(a, "saves") + FieldOrZero(a, "follows")))
  }

  /** `engagement_total = likes + comments + shares` and
      `engagement_total_extended = engagement_total + saves + follows`,
      read from the row itself, missing values as 0. */
  predicate EngagementIdentity(f: Record) {
    Get(f, "engagement_total") == Some(Num(FieldOrZero(f, "likes") + FieldOrZero(f, "comments") + FieldOrZero(f, "shares")))
    && Get(f, "engagement_total_extended") == Some(Num(FieldOrZero(f, "likes") + FieldOrZero(f, "comments") + FieldOrZero(f, "shares")
                                                       + FieldOrZero(f, "saves") + FieldOrZero(f, "follows")))
  }

  /** Every finished account row satisfies the engagement identity, and
      nothing but the two totals changes. */
  lemma FinalizedIdentity(a: Record)
    ensures EngagementIdentity(Finalized(a))
    ensures forall k :: k != "engagement_total" && k != "engagement_total_extended" ==> Get(Finalized(a), k) == Get(a, k)
  {
    FinalizedFrame(a);
    var f := Finalized(a);
    assert "likes"[0] != "engagement_total"[0] && "comments"[0] != "engagement_total"[0];
    assert "shares"[0] != "engagement_total"[0] && "saves"[0] != "engagement_total"[0];
    assert "follows"[0] != "engagement_total"[0];
    assert FieldOrZero(f, "likes") == FieldOrZero(a, "likes");
    assert FieldOrZero(f, "comments") == FieldOrZero(a, "comments");
    assert FieldOrZero(f, "shares") == FieldOrZero(a, "shares");
    assert FieldOrZero(f, "saves") == FieldOrZero(a, "saves");
    assert FieldOrZero(f, "follows") == FieldOrZero(a, "follows");
  }

  /** The two totals are written and nothing else changes. */
  lemma FinalizedFrame(a: Record)
    ensures var l := FieldOrZero(a, "likes");
      var c := FieldOrZero(a, "comments");
      var s := FieldOrZero(a, "shares");
      Get(Finalized(a), "engagement_total") == Some(Num(l + c + s)) &&
      Get(Finalized(a), "engagement_total_extended") == Some(Num(l + c + s + FieldOrZero(a, "saves") + FieldOrZero(a, "follows")))
    ensures forall k :: k != "engagement_total" && k != "engagement_total_extended" ==> Get(Finalized(a), k) == Get(a, k)
  {
    var l := FieldOrZero(a, "likes");
    var c := FieldOrZero(a, "comments");
    var s := FieldOrZero(a, "shares");
    var x := Num(l + c + s + FieldOrZero(a, "saves") + FieldOrZero(a, "follows"));
    var a1 := Put(a, "engagement_total", Num(l + c + s));
    PutGet(a, "engagement_total", Num(l + c + s), "engagement_total");
    PutGet(a1, "engagement_total_extended", x, "engagement_total");
    PutGet(a1, "engagement_total_extended", x, "engagement_total_extended");
    forall k | k != "engagement_total" && k != "engagement_total_extended"
      ensures Get(Finalized(a), k) == Get(a, k)
    {
      PutGet(a, "engagement_total", Num(l + c + s), k);
      PutGet(a1, "engagement_total_extended", x, k);
    }
  }

  /** `Object.values(perKonto)` after finishing. */
  function AccountRows(accounts: seq<(PropKey, Record)>): seq<Record> {
    seq(|accounts|, i requires 0 <= i < |accounts| => Finalized(accounts[i].1))
  }

  /** One finished row per account, in `perKonto` order, each satisfying
      the engagement identity. */
  lemma AccountRowsFinished(accounts: seq<(PropKey, Record)>)
    ensures |AccountRows(accounts)| == |accounts|
    ensures forall i :: 0 <= i < |accounts| ==> AccountRows(accounts)[i] == Finalized(accounts[i].1)
    ensures forall i :: 0 <= i < |accounts| ==> EngagementIdentity(AccountRows(accounts)[i])
  {
    forall i | 0 <= i < |accounts| ensures EngagementIdentity(AccountRows(accounts)[i]) {
      FinalizedIdentity(accounts[i].1);
    }
  }

  // ---------------------------------------------------------------------
  // The date range

  function MinOf(xs: seq<int>): int
    requires xs != []
    decreases |xs|
  {
    if |xs| == 1 then xs[0] else var m := MinOf(xs[..|xs| - 1]); if xs[|xs| - 1] < m then xs[|xs| - 1] else m
  }

  function MaxOf(xs: seq<int>): int
    requires xs != []
    decreases |xs|
  {
    if |xs| == 1 then xs[0] else var m := MaxOf(xs[..|xs| - 1]); if xs[|xs| - 1] > m then xs[|xs| - 1] else m
  }

  /** `{startDate, endDate}` as time values; `None` when no date was found. */
  function DateRange(dates: seq<int>): Option<(int, int)> {
    if dates == [] then None else Some((MinOf(dates), MaxOf(dates)))
  }

  lemma {:induction false} MinMaxBounds(xs: seq<int>)
    requires xs != []
    ensures MinOf(xs) in xs && MaxOf(xs) in xs
    ensures forall x :: x in xs ==> MinOf(xs) <= x <= MaxOf(xs)
    decreases |xs|
  {
    if |xs| > 1 {
      var init := xs[..|xs| - 1];
      MinMaxBounds(init);
      assert xs == init + [xs[|xs| - 1]];
    }
  }

  /** The range spans exactly the collected dates: both ends occur and
      every date lies between them. */
  lemma DateRangeSpec(dates: seq<int>)
    ensures DateRange(dates).None? <==> dates == []
    ensures DateRange(dates).Some? ==>
      DateRange(dates).value.0 in dates && DateRange(dates).value.1 in dates &&
      forall d :: d in dates ==> DateRange(dates).value.0 <= d <= DateRange(dates).value.1
  {
    if dates != [] {
      MinMaxBounds(dates);
    }
  }

  // ---------------------------------------------------------------------
  // Merging with stored data

  /** `perKonto[account.account_id] = {...account}` for truthy raw ids. */
  function SeedAccounts(accounts: seq<Record>): seq<(PropKey, Record)>
    decreases |accounts|
  {
    if accounts == [] then []
    else
      var a := accounts[|accounts| - 1];
      var id := Get(a, "account_id").GetOr(Null);
      var m := SeedAccounts(accounts[..|accounts| - 1]);
      if Truthy(id) then Put(m, Key(id), a) else m
  }

  /** The state the loop starts from: on a merge with stored posts, those
      posts, their dates and the stored accounts; otherwise nothing. */
  function Start(merge: bool, existingPosts: seq<Record>, existingAccounts: seq<Record>, env: Setup): Acc {
    if merge && existingPosts != [] then
      Acc(SeedAccounts(existingAccounts), existingPosts, AllDates(existingPosts, env.read, env.parseDate))
    else Acc([], [], [])
  }

  /** On a merge, the stored posts come back from `handleDuplicates` at the
      head of `filteredData`. A stored post whose file identifier is not
      the current one passes the extra check and is processed again:
      `perPost` then holds it twice and it is credited to the seeded
      accounts a second time. */
  lemma MergeReprocesses(e: Record, existingAccounts: seq<Record>, env: Setup)
    requires Get(e, "_file_identifier") != Some(Str(env.fid))
    ensures var r := Aggregate(Start(true, [e], existingAccounts, env), [e], env);
            r.posts == [e, WithEngagement(Prepared(e, env), env.read)] &&
            r.accounts == Credited(SeedAccounts(existingAccounts), Prepared(e, env), env)
  {
    var start := Start(true, [e], existingAccounts, env);
    assert [e][..0] == [];
    assert !Skipped(start.posts, e, env);
    ProcessedStep(start, [e], env);
  }

  /** Crediting a post to an account that already holds `s` in a summable
      column leaves `s` plus the post's parsed value there. */
  lemma CreditedSum(accounts: seq<(PropKey, Record)>, p: Record, env: Setup, a: Record, c: string, s: real)
    requires NoRepeats(env.cols) && c in env.cols
    requires Get(accounts, AccountKeyOf(p, env.read)) == Some(a) && Get(a, c) == Some(Num(s))
    ensures Get(Credited(accounts, p, env), AccountKeyOf(p, env.read))
      == Some(AddColumns(a, WithEngagement(p, env.read), env.read, env.cols))
    ensures Get(AddColumns(a, WithEngagement(p, env.read), env.read, env.cols), c)
      == Some(Num(s + Amount(c, env.read)(p)))
  {
    var k := AccountKeyOf(p, env.read);
    PutGet(accounts, k, AddColumns(a, WithEngagement(p, env.read), env.read, env.cols), k);
    AddColumnsSum(a, WithEngagement(p, env.read), env.read, env.cols, c, s);
  }

  /** With no mapping, a row keeps its keys. */
  lemma {:induction false} MappedRowUnmapped(row: Record)
    requires DistinctKeys(row)
    ensures MappedRow(row, []) == row
    decreases |row|
  {
    if row != [] {
      var init := row[..|row| - 1];
      assert DistinctKeys(init);
      MappedRowUnmapped(init);
      assert !HasKey(init, row[|row| - 1].0);
      PutAppends(init, row[|row| - 1].0, row[|row| - 1].1);
    }
  }


  // ---------------------------------------------------------------------
  // processInstagramData

  datatype FileInfo = FileInfo(filename: string, fileIdentifier: string, rowCount: nat,
                               duplicatesRemoved: nat, accountCount: nat, dateRange: Option<(int, int)>)

  datatype Import =
    | NoRows
    | Imported(accountViewData: seq<Record>, postViewData: seq<Record>, rowCount: nat,
               stats: DupResult, dateRange: Option<(int, int)>, isMergedData: bool,
               fileIdentifier: string, fileInfo: FileInfo)

  /** The loop's setup for one import: fields read through the current
      mapping, the fixed summable columns. */
  function SetupFor(fid: string, mappings: Mapping, current: Mapping, parseDate: DateParser): Setup {
    Setup(fid, mappings, FieldReader(current), parseDate, SUMMARIZABLE_COLUMNS)
  }

  /** What `processInstagramData` resolves with for the parsed `rows`. The
      stored posts and accounts stand for what storage returned (`[]`
      without a merge), `now` for `Date.now()`. */
  function ImportOf(rows: seq<Record>, mappings: Mapping, current: Mapping, merge: bool, fileName: string, now: nat,
                    existingPosts: seq<Record>, existingAccounts: seq<Record>, parseDate: DateParser): Import
  {
    if rows == [] then NoRows
    else
      var fid := FileIdentifier(fileName, now);
      var env := SetupFor(fid, mappings, current, parseDate);
      var dups := Deduplicated(if merge then existingPosts else [], rows, fid, current);
      var acc := Aggregate(Start(merge, existingPosts, existingAccounts, env), dups.filteredData, env);
      var range := DateRange(acc.dates);
      var name := if fileName == "" then "Instagram CSV" else fileName;
      Imported(AccountRows(acc.accounts), acc.posts, |acc.posts|, dups, range, merge, fid,
               FileInfo(name, fid, |rows|, dups.duplicates, |AccountKeys(rows, current)|, range))
  }

  method ProcessInstagramData(rows: seq<Record>, mappings: Mapping, current: Mapping, merge: bool, fileName: string, now: nat,
                              existingPosts: seq<Record>, existingAccounts: seq<Record>, parseDate: DateParser)
    returns (r: Import)
    ensures r == ImportOf(rows, mappings, current, merge, fileName, now, existingPosts, existingAccounts, parseDate)
  {
    if rows == [] {
      return NoRows;
    }
    var fid := FileIdentifier(fileName, now);
    var accountCount := CountUniqueAccounts(rows, current);
    var dups := HandleDuplicates(rows, if merge then existingPosts else [], fid, current);
    var env := SetupFor(fid, mappings, current, parseDate);
    var start := Start(merge, existingPosts, existingAccounts, env);
    var acc := AggregateRows(start, dups.filteredData, env);
    var range := DateRange(acc.dates);
    var name := if fileName == "" then "Instagram CSV" else fileName;
    r := Imported(AccountRows(acc.accounts), acc.posts, |acc.posts|, dups, range, merge, fid,
                  FileInfo(name, fid, |rows|, dups.duplicates, accountCount, range));
  }

  /** Parsed rows give an error only when there are none; otherwise the
      row and account counts come from the parsed rows and the duplicate
      statistics from `handleDuplicates`. */
  lemma ImportCounts(rows: seq<Record>, mappings: Mapping, current: Mapping, merge: bool, fileName: string, now: nat,
                     existingPosts: seq<Record>, existingAccounts: seq<Record>, parseDate: DateParser)
    ensures var r := ImportOf(rows, mappings, current, merge, fileName, now, existingPosts, existingAccounts, parseDate);
            var existing := if merge then existingPosts else [];
            (r.NoRows? <==> rows == []) &&
            (r.Imported? ==>
               r.stats == Deduplicated(existing, rows, FileIdentifier(fileName, now), current) &&
               r.stats.totalRows == |rows| + |existing| &&
               r.fileInfo.rowCount == |rows| &&
               r.fileInfo.duplicatesRemoved == r.stats.duplicates &&
               r.fileInfo.accountCount == |AccountKeys(rows, current)| &&
               r.isMergedData == merge &&
               r.fileIdentifier == r.fileInfo.fileIdentifier == FileIdentifier(fileName, now) &&
               r.dateRange == r.fileInfo.dateRange)
  {
    if rows != [] {
      DeduplicatedCounts(if merge then existingPosts else [], rows, FileIdentifier(fileName, now), current);
    }
  }

  /** Without a merge `perPost` is exactly the processed deduplicated rows,
      each with its engagement, and `rowCount` counts them. */
  lemma ImportPosts(rows: seq<Record>, mappings: Mapping, current: Mapping, fileName: string, now: nat,
                    existingPosts: seq<Record>, existingAccounts: seq<Record>, parseDate: DateParser)
    ensures var r := ImportOf(rows, mappings, current, false, fileName, now, existingPosts, existingAccounts, parseDate);
            var fid := FileIdentifier(fileName, now);
            var env := SetupFor(fid, mappings, current, parseDate);
            var dups := Deduplicated([], rows, fid, current);
            var ps := Processed(Acc([], [], []), dups.filteredData, env);
            r.Imported? ==>
              r.postViewData == PostsOf(ps, env.read) &&
              r.rowCount == |ps| <= |dups.filteredData| &&
              r.dateRange == DateRange(AllDates(ps, env.read, env.parseDate))
  {
    if rows != [] {
      var fid := FileIdentifier(fileName, now);
      var env := SetupFor(fid, mappings, current, parseDate);
      var dups := Deduplicated([], rows, fid, current);
      AggregatePosts(Acc([], [], []), dups.filteredData, env);
      var ds := AllDates(Processed(Acc([], [], []), dups.filteredData, env), env.read, env.parseDate);
      assert [] + ds == ds;
    }
  }

  /** Without a merge every account row is the finished reference account
      of its group of processed rows, and each satisfies the engagement
      identity. */
  lemma ImportAccounts(rows: seq<Record>, mappings: Mapping, current: Mapping, fileName: string, now: nat,
                       existingPosts: seq<Record>, existingAccounts: seq<Record>, parseDate: DateParser)
    ensures var r := ImportOf(rows, mappings, current, false, fileName, now, existingPosts, existingAccounts, parseDate);
            var fid := FileIdentifier(fileName, now);
            var env := SetupFor(fid, mappings, current, parseDate);
            var ps := Processed(Acc([], [], []), Deduplicated([], rows, fid, current).filteredData, env);
            r.Imported? ==>
              r.accountViewData == AccountRows(AccountsOf(ps, env)) &&
              forall i :: 0 <= i < |r.accountViewData| ==> EngagementIdentity(r.accountViewData[i])
  {
    if rows != [] {
      var fid := FileIdentifier(fileName, now);
      var env := SetupFor(fid, mappings, current, parseDate);
      var filtered := Deduplicated([], rows, fid, current).filteredData;
      AccountsAreGroups(filtered, env);
      AccountRowsFinished(Aggregate(Acc([], [], []), filtered, env).accounts);
    }
  }
}

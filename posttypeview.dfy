/** The post-type view's `aggregateByPostType`: the posts (optionally only
    one account's) are grouped by post type; each type gets its post count,
    its share of the posts in percent, a reliability flag (at least
    `MIN_POSTS_FOR_RELIABLE_STATS` posts) and, per metric, the sum and the
    mean of the values that parse as numbers. */
module PostTypeView {
  import opened Wrappers
  import opened OrderedMaps
  import opened JsValues
  import opened Grouping
  import opened ColumnMappingService

  const ALL_ACCOUNTS: string := "all_accounts"
  const MIN_POSTS_FOR_RELIABLE_STATS: nat := 5

  /** The metrics summed and averaged per post type, in order. */
  const METRICS: seq<string> := ["views", "post_reach", "engagement_total", "likes", "comments", "shares", "saves", "follows"]

  // ---------------------------------------------------------------------
  // Filtering and grouping

  /** `data.filter(post => getValue(post, 'account_name') === selected)`. */
  function ByAccount(data: seq<Record>, selected: string, read: Reader): seq<Record>
    decreases |data|
  {
    if data == [] then []
    else
      var last := data[|data| - 1];
      ByAccount(data[..|data| - 1], selected, read) + (if read(last, "account_name") == Str(selected) then [last] else [])
  }

  /** `filteredData`: every post for `ALL_ACCOUNTS`, else one account's. */
  function Filtered(data: seq<Record>, selected: string, read: Reader): seq<Record> {
    if selected == ALL_ACCOUNTS then data else ByAccount(data, selected, read)
  }

  /** `getValue(post, 'post_type') || 'Okänd'`. */
  function PostType(p: Record, read: Reader): Value {
    Or(read(p, "post_type"), Str("Okänd"))
  }

  /** The grouping key; every post has one. */
  function TypeKey(read: Reader): Record -> Option<PropKey> {
    p => Some(Key(PostType(p, read)))
  }

  /** `postTypeGroups`, as groups of posts in first-seen order. */
  function TypeGroups(data: seq<Record>, read: Reader): Groups<Record> {
    GroupBy(data, TypeKey(read))
  }

  /** One entry of `postTypeGroups`: the post type of its first post and
      its posts. */
  datatype TypeGroup = TypeGroup(postType: Value, posts: seq<Record>)

  /** The entry kept for the posts `g` of one type; groups are never
      empty, the first case only makes the function total. */
  function TypeEntry(g: seq<Record>, read: Reader): TypeGroup {
    if g == [] then TypeGroup(Null, []) else TypeGroup(PostType(g[0], read), g)
  }

  function TypeEntryOf(read: Reader): seq<Record> -> TypeGroup {
    g => TypeEntry(g, read)
  }

  // ---------------------------------------------------------------------
  // Metrics

  /** `parseFloat(value)` of a value that is not `null` and not `NaN`. */
  function Parsed(p: Record, metric: string, read: Reader): Option<real> {
    ParseFloatValue(read(p, metric))
  }

  /** What a post adds to the metric's sum. */
  function ParsedTerm(metric: string, read: Reader): Record -> real {
    p => Parsed(p, metric, read).GetOr(0.0)
  }

  /** What a post adds to the metric's count. */
  function CountTerm(metric: string, read: Reader): Record -> real {
    p => if Parsed(p, metric, read).Some? then 1.0 else 0.0
  }

  function ParsedSum(g: seq<Record>, metric: string, read: Reader): real {
    SumOf(g, ParsedTerm(metric, read))
  }

  function ParsedCount(g: seq<Record>, metric: string, read: Reader): real {
    SumOf(g, CountTerm(metric, read))
  }

  /** `metrics[metric]` (the mean) and `metrics[metric + '_sum']`. */
  datatype MetricStat = MetricStat(metric: string, mean: real, sum: real)

  function MetricStatOf(g: seq<Record>, metric: string, read: Reader): MetricStat {
    var c := ParsedCount(g, metric, read);
    var s := ParsedSum(g, metric, read);
    MetricStat(metric, if c > 0.0 then s / c else 0.0, s)
  }

  // ---------------------------------------------------------------------
  // Summaries

  /** One element of the result. */
  datatype TypeSummary = TypeSummary(postType: Value, postCount: nat, percentage: real, isReliable: bool, metrics: seq<MetricStat>)

  /** The summary of the posts `g` of one type among `total` filtered posts. */
  function TypeSummaryOf(g: seq<Record>, total: nat, read: Reader): TypeSummary
    requires total > 0
  {
    TypeSummary(TypeEntry(g, read).postType, |g|, |g| as real / total as real * 100.0,
                |g| >= MIN_POSTS_FOR_RELIABLE_STATS,
                seq(|METRICS|, j requires 0 <= j < |METRICS| => MetricStatOf(g, METRICS[j], read)))
  }

  function TypeSummaries(groups: Groups<Record>, total: nat, read: Reader): seq<TypeSummary>
    requires total > 0
  {
    seq(|groups|, i requires 0 <= i < |groups| => TypeSummaryOf(groups[i].1, total, read))
  }

  /** `aggregateByPostType(data, selectedAccount)`; `None` is a value that
      is not an array. */
  function AggregateSpec(data: Option<seq<Record>>, selected: string, read: Reader): seq<TypeSummary> {
    if data.None? || data.value == [] then []
    else
      var filtered := Filtered(data.value, selected, read);
      if filtered == [] then [] else TypeSummaries(TypeGroups(filtered, read), |filtered|, read)
  }

  // ---------------------------------------------------------------------
  // The loops

  /** The `forEach` that fills `postTypeGroups`. */
  method GroupByPostType(filtered: seq<Record>, read: Reader) returns (groups: seq<(PropKey, TypeGroup)>)
    ensures groups == MapValues(TypeGroups(filtered, read), TypeEntryOf(read))
  {
    groups := [];
    for i := 0 to |filtered|
      invariant groups == MapValues(TypeGroups(filtered[..i], read), TypeEntryOf(read))
    {
      var post := filtered[i];
      ghost var g := TypeGroups(filtered[..i], read);
      assert filtered[..i + 1] == filtered[..i] + [post];
      assert (filtered[..i] + [post])[..i] == filtered[..i];
      var postType := PostType(post, read);
      var k := Key(postType);
      GetMapValues(g, TypeEntryOf(read), k);
      GroupByGet(filtered[..i], TypeKey(read), k);
      ghost var before := groups;
      if Get(groups, k).None? {
        groups := Put(groups, k, TypeGroup(postType, []));
      }
      PutGet(before, k, TypeGroup(postType, []), k);
      var e := Get(groups, k).value;
      groups := Put(groups, k, e.(posts := e.posts + [post]));
      ghost var members := Get(g, k).GetOr([]);
      PutMapValues(g, TypeEntryOf(read), k, members + [post]);
      if members == [] {
        PutPut(before, k, TypeGroup(postType, []), e.(posts := e.posts + [post]));
        assert [] + [post] == [post];
      } else {
        assert (members + [post])[0] == members[0];
      }
    }
    assert filtered[..|filtered|] == filtered;
  }

  /** The inner `forEach` of one metric: sum and count the values that
      parse, then the mean (0 when none does). */
  method MetricOf(posts: seq<Record>, metric: string, read: Reader) returns (stat: MetricStat)
    ensures stat == MetricStatOf(posts, metric, read)
  {
    var sum := 0.0;
    var count := 0;
    for u := 0 to |posts|
      invariant sum == ParsedSum(posts[..u], metric, read)
      invariant count as real == ParsedCount(posts[..u], metric, read)
    {
      assert posts[..u + 1][..u] == posts[..u];
      var value := read(posts[u], metric);
      if value != Null && ParseFloatValue(value).Some? {
        sum := sum + ParseFloatValue(value).value;
        count := count + 1;
      }
    }
    assert posts[..|posts|] == posts;
    stat := MetricStat(metric, if count > 0 then sum / count as real else 0.0, sum);
  }

  /** The `map` callback for one group. */
  method SummarizeType(group: TypeGroup, total: nat, read: Reader) returns (summary: TypeSummary)
    requires total > 0 && group.posts != [] && group == TypeEntry(group.posts, read)
    ensures summary == TypeSummaryOf(group.posts, total, read)
  {
    var postCount := |group.posts|;
    var isReliable := postCount >= MIN_POSTS_FOR_RELIABLE_STATS;
    var metrics: seq<MetricStat> := [];
    for j := 0 to |METRICS|
      invariant |metrics| == j
      invariant forall t :: 0 <= t < j ==> metrics[t] == MetricStatOf(group.posts, METRICS[t], read)
    {
      var stat := MetricOf(group.posts, METRICS[j], read);
      metrics := metrics + [stat];
    }
    summary := TypeSummary(group.postType, postCount, postCount as real / total as real * 100.0, isReliable, metrics);
  }

  /** `aggregateByPostType(data, selectedAccount)`. */
  method AggregateByPostType(data: Option<seq<Record>>, selectedAccount: string, read: Reader)
    returns (aggregated: seq<TypeSummary>)
    ensures aggregated == AggregateSpec(data, selectedAccount, read)
  {
    if data.None? || data.value == [] {
      return [];
    }
    var filteredData := Filtered(data.value, selectedAccount, read);
    if filteredData == [] {
      return [];
    }
    var groups := GroupByPostType(filteredData, read);
    ghost var spec := TypeGroups(filteredData, read);
    GroupByEntries(filteredData, TypeKey(read));
    aggregated := [];
    for a := 0 to |groups|
      invariant |aggregated| == a
      invariant forall j :: 0 <= j < a ==> aggregated[j] == TypeSummaryOf(spec[j].1, |filteredData|, read)
    {
      assert groups[a].1 == TypeEntry(spec[a].1, read);
      var summary := SummarizeType(groups[a].1, |filteredData|, read);
      aggregated := aggregated + [summary];
    }
  }

  // ---------------------------------------------------------------------
  // Properties

  /** `ALL_ACCOUNTS` keeps every post; any other selection keeps exactly
      the posts whose account name is that string. */
  lemma {:induction false} FilteredMembers(data: seq<Record>, selected: string, read: Reader)
    ensures selected == ALL_ACCOUNTS ==> Filtered(data, selected, read) == data
    ensures forall p :: p in Filtered(data, selected, read) <==>
      p in data && (selected == ALL_ACCOUNTS || read(p, "account_name") == Str(selected))
    decreases |data|
  {
    if data != [] && selected != ALL_ACCOUNTS {
      FilteredMembers(data[..|data| - 1], selected, read);
      assert data == data[..|data| - 1] + [data[|data| - 1]];
    }
  }

  /** No data, or nothing left after filtering, gives no rows; otherwise
      there is one row per distinct post type, in first-seen order, whose
      count is the number of filtered posts of that type, whose type is
      that of the first of them, and which is reliable exactly when there
      are at least `MIN_POSTS_FOR_RELIABLE_STATS` of them. */
  lemma AggregateShape(data: Option<seq<Record>>, selected: string, read: Reader)
    ensures data.None? || data == Some([]) || Filtered(data.value, selected, read) == [] ==>
      AggregateSpec(data, selected, read) == []
    ensures data.Some? && Filtered(data.value, selected, read) != [] ==>
      var filtered := Filtered(data.value, selected, read);
      var groups := TypeGroups(filtered, read);
      var r := AggregateSpec(data, selected, read);
      |r| == |groups| &&
      (forall i, j :: 0 <= i < j < |groups| ==> groups[i].0 != groups[j].0) &&
      (forall p :: p in filtered ==> HasKey(groups, Key(PostType(p, read)))) &&
      forall i :: 0 <= i < |groups| ==>
        var members := Members(filtered, TypeKey(read), groups[i].0);
        members != [] &&
        (forall p :: p in members ==> Key(PostType(p, read)) == groups[i].0) &&
        r[i].postType == PostType(members[0], read) &&
        r[i].postCount == |members| &&
        (r[i].isReliable <==> |members| >= MIN_POSTS_FOR_RELIABLE_STATS)
  {
    if data.Some? && Filtered(data.value, selected, read) != [] {
      var filtered := Filtered(data.value, selected, read);
      var groups := TypeGroups(filtered, read);
      GroupByDistinct(filtered, TypeKey(read));
      GroupByEntries(filtered, TypeKey(read));
      forall p | p in filtered
        ensures HasKey(groups, Key(PostType(p, read)))
      {
        var i :| 0 <= i < |filtered| && filtered[i] == p;
        GroupByHasKey(filtered, TypeKey(read), Key(PostType(p, read)));
      }
      forall i | 0 <= i < |groups|
        ensures forall p :: p in Members(filtered, TypeKey(read), groups[i].0) ==> Key(PostType(p, read)) == groups[i].0
      {
        MembersHaveKey(filtered, TypeKey(read), groups[i].0);
      }
    }
  }

  /** The post count of a summary row, as a term of a sum. */
  function CountOf(s: TypeSummary): real {
    s.postCount as real
  }

  /** The share of a summary row, as a term of a sum. */
  function PercentageOf(s: TypeSummary): real {
    s.percentage
  }

  /** Summing over the rows peels off the last group. */
  lemma TypeSummariesStep(groups: Groups<Record>, total: nat, read: Reader, f: TypeSummary -> real)
    requires total > 0 && groups != []
    ensures SumOf(TypeSummaries(groups, total, read), f) ==
      SumOf(TypeSummaries(groups[..|groups| - 1], total, read), f)
      + f(TypeSummaryOf(groups[|groups| - 1].1, total, read))
  {
    assert TypeSummaries(groups, total, read)[..|groups| - 1] == TypeSummaries(groups[..|groups| - 1], total, read);
  }

  lemma {:induction false} TypeSummariesCount(groups: Groups<Record>, total: nat, read: Reader)
    requires total > 0
    ensures SumOf(TypeSummaries(groups, total, read), CountOf) == TotalOver(groups, One)
    decreases |groups|
  {
    if groups != [] {
      var init := groups[..|groups| - 1];
      var last := groups[|groups| - 1];
      TypeSummariesCount(init, total, read);
      TypeSummariesStep(groups, total, read, CountOf);
      SumOfOnes(last.1);
      TotalOverLast(groups, One);
    }
  }

  /** The post counts add up to the number of filtered posts. */
  lemma PostCountsSum(data: seq<Record>, selected: string, read: Reader)
    requires Filtered(data, selected, read) != []
    ensures SumOf(AggregateSpec(Some(data), selected, read), CountOf) == |Filtered(data, selected, read)| as real
  {
    var filtered := Filtered(data, selected, read);
    TypeSummariesCount(TypeGroups(filtered, read), |filtered|, read);
    GroupBySizes(filtered, TypeKey(read));
    KeyedAll(filtered, TypeKey(read));
  }

  /** Every share lies in (0, 100], and the shares add up to 100. */
  lemma PercentagesSum(data: seq<Record>, selected: string, read: Reader)
    requires Filtered(data, selected, read) != []
    ensures forall i :: 0 <= i < |AggregateSpec(Some(data), selected, read)| ==>
      0.0 < AggregateSpec(Some(data), selected, read)[i].percentage <= 100.0
    ensures SumOf(AggregateSpec(Some(data), selected, read), PercentageOf) == 100.0
  {
    var filtered := Filtered(data, selected, read);
    var groups := TypeGroups(filtered, read);
    assert AggregateSpec(Some(data), selected, read) == TypeSummaries(groups, |filtered|, read);
    PostCountsSum(data, selected, read);
    forall i | 0 <= i < |groups|
      ensures 0 < |groups[i].1| <= |filtered|
    {
      GroupSize(filtered, read, i);
    }
    Shares(groups, |filtered|, read);
    SharesSum(groups, |filtered|, read);
  }

  /** Rows whose counts add up to the total have shares adding up to 100. */
  lemma SharesSum(groups: Groups<Record>, total: nat, read: Reader)
    requires total > 0
    requires SumOf(TypeSummaries(groups, total, read), CountOf) == total as real
    ensures SumOf(TypeSummaries(groups, total, read), PercentageOf) == 100.0
  {
    var r := TypeSummaries(groups, total, read);
    var c := 100.0 / total as real;
    RowsScaled(r, total, c);
    ShareOfAll(total, c, total as real);
    RowsSum(r, c, total as real);
  }

  /** Every row's share lies in (0, 100]. */
  lemma Shares(groups: Groups<Record>, total: nat, read: Reader)
    requires total > 0
    requires forall i :: 0 <= i < |groups| ==> 0 < |groups[i].1| <= total
    ensures forall i :: 0 <= i < |groups| ==> 0.0 < TypeSummaries(groups, total, read)[i].percentage <= 100.0
  {
    forall i | 0 <= i < |groups|
      ensures 0.0 < TypeSummaries(groups, total, read)[i].percentage <= 100.0
    {
      Share(|groups[i].1|, total);
    }
  }

  /** Shares that are `c` times the counts add up to 100 when `c` times
      the count total is 100. */
  lemma RowsSum(r: seq<TypeSummary>, c: real, t: real)
    requires forall s :: s in r ==> PercentageOf(s) == c * CountOf(s)
    requires SumOf(r, CountOf) == t && c * t == 100.0
    ensures SumOf(r, PercentageOf) == 100.0
  {
    SumOfScale(r, CountOf, PercentageOf, c);
  }

  /** Each share is `100 / total` times the row's count. */
  lemma RowsScaled(r: seq<TypeSummary>, total: nat, c: real)
    requires total > 0 && c == 100.0 / total as real
    requires forall i :: 0 <= i < |r| ==> r[i].percentage == r[i].postCount as real / total as real * 100.0
    ensures forall s :: s in r ==> PercentageOf(s) == c * CountOf(s)
  {
    forall s | s in r
      ensures PercentageOf(s) == c * CountOf(s)
    {
      var i :| 0 <= i < |r| && r[i] == s;
      Share(s.postCount, total);
    }
  }

  lemma ShareOfAll(total: nat, c: real, sum: real)
    requires total > 0 && c == 100.0 / total as real && sum == total as real
    ensures c * sum == 100.0
  {
  }

  /** A group is non-empty and no larger than the posts it comes from. */
  lemma GroupSize(filtered: seq<Record>, read: Reader, i: nat)
    requires i < |TypeGroups(filtered, read)|
    ensures 0 < |TypeGroups(filtered, read)[i].1| <= |filtered|
  {
    GroupByEntries(filtered, TypeKey(read));
    MembersLength(filtered, TypeKey(read), TypeGroups(filtered, read)[i].0);
  }

  /** `(count / total) * 100` is `100 / total` times the count, and lies
      in (0, 100] for 0 < count <= total. */
  lemma Share(count: nat, total: nat)
    requires total > 0
    ensures count as real / total as real * 100.0 == (100.0 / total as real) * count as real
    ensures 0 < count <= total ==> 0.0 < count as real / total as real * 100.0 <= 100.0
  {
  }

  /** A group never has more members than there are rows. */
  lemma {:induction false} MembersLength(xs: seq<Record>, key: Record -> Option<PropKey>, k: PropKey)
    ensures |Members(xs, key, k)| <= |xs|
    decreases |xs|
  {
    if xs != [] {
      MembersLength(xs[..|xs| - 1], key, k);
    }
  }

  /** The count lies between 0 and the number of posts. */
  lemma ParsedCountBounds(g: seq<Record>, metric: string, read: Reader)
    ensures 0.0 <= ParsedCount(g, metric, read) <= |g| as real
  {
    SumOfBounds(g, CountTerm(metric, read), 0.0, 1.0);
  }

  /** With no value parsing, the sum is 0 too. */
  lemma {:induction false} NothingParsed(g: seq<Record>, metric: string, read: Reader)
    requires ParsedCount(g, metric, read) == 0.0
    ensures ParsedSum(g, metric, read) == 0.0
    decreases |g|
  {
    if g != [] {
      var init := g[..|g| - 1];
      ParsedCountBounds(init, metric, read);
      NothingParsed(init, metric, read);
    }
  }

  /** The mean times the number of parsed values is the sum; with no
      parsed value both are 0. */
  lemma MetricMean(g: seq<Record>, metric: string, read: Reader)
    ensures var s := MetricStatOf(g, metric, read); var c := ParsedCount(g, metric, read);
      s.metric == metric && (c > 0.0 ==> s.mean * c == s.sum) && (c == 0.0 ==> s.mean == 0.0 && s.sum == 0.0)
  {
    ParsedCountBounds(g, metric, read);
    if ParsedCount(g, metric, read) == 0.0 {
      NothingParsed(g, metric, read);
    }
  }

  /** When every parsed value of the metric lies in [lo, hi], so does the
      mean (given some value parses). */
  lemma MetricMeanBounds(g: seq<Record>, metric: string, read: Reader, lo: real, hi: real)
    requires forall p :: p in g && Parsed(p, metric, read).Some? ==> lo <= Parsed(p, metric, read).value <= hi
    requires ParsedCount(g, metric, read) > 0.0
    ensures lo <= MetricStatOf(g, metric, read).mean <= hi
  {
    SumAbove(g, metric, read, lo);
    SumBelow(g, metric, read, hi);
    QuotientBounds(ParsedSum(g, metric, read), ParsedCount(g, metric, read), lo, hi);
  }

  lemma SumAbove(g: seq<Record>, metric: string, read: Reader, lo: real)
    requires forall p :: p in g && Parsed(p, metric, read).Some? ==> lo <= Parsed(p, metric, read).value
    ensures lo * ParsedCount(g, metric, read) <= ParsedSum(g, metric, read)
  {
    var loTerm: Record -> real := p => lo * CountTerm(metric, read)(p);
    SumOfScale(g, CountTerm(metric, read), loTerm, lo);
    SumOfMonotone(g, loTerm, ParsedTerm(metric, read));
  }

  lemma SumBelow(g: seq<Record>, metric: string, read: Reader, hi: real)
    requires forall p :: p in g && Parsed(p, metric, read).Some? ==> Parsed(p, metric, read).value <= hi
    ensures ParsedSum(g, metric, read) <= hi * ParsedCount(g, metric, read)
  {
    var hiTerm: Record -> real := p => hi * CountTerm(metric, read)(p);
    SumOfScale(g, CountTerm(metric, read), hiTerm, hi);
    SumOfMonotone(g, ParsedTerm(metric, read), hiTerm);
  }
}

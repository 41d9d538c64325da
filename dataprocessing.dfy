/** The helpers of the data-processing utilities: their own `normalizeText`,
    `getUniquePageNames` and `summarizeByAccount`. The per-account summary
    is written once over a field accessor: this module reads keys directly
    (`post[field]`), the account view reads them through `getValue`. */
module DataProcessing {
  import opened Wrappers
  import opened OrderedMaps
  import opened JsText
  import opened JsValues
  import opened Sorting
  import opened Grouping
  import opened ColumnMappingService
  import opened WebDataProcessor

  // ---------------------------------------------------------------------
  // normalizeText

  /** `normalizeText(text)`: empty for `null`/`undefined`, otherwise trim,
      lower-case, collapse white space, drop zero-width characters. */
  function NormalizeText(text: Option<string>): string {
    match text
    case None => ""
    case Some(s) => RemoveInvisible(CollapseWhiteSpace(ToLowerCase(Trim(s))))
  }

  /** Both normalisers agree on every input. */
  lemma NormalizersAgree(text: Option<string>)
    ensures NormalizeText(text) == ColumnMappingService.NormalizeText(text)
  {
  }

  // ---------------------------------------------------------------------
  // Direct field access

  /** `post[field]`, a missing key read as `null`. */
  function Direct(): Reader {
    (r, f) => Get(r, f).GetOr(Null)
  }

  // ---------------------------------------------------------------------
  // getUniquePageNames

  /** `post.account_name || post['Account name']`. */
  function PageName(post: Record): Value {
    Or(Get(post, "account_name").GetOr(Null), Get(post, "Account name").GetOr(Null))
  }

  /** The truthy page names of the posts, in order. */
  function PageNamesOf(data: seq<Record>): seq<Value>
    decreases |data|
  {
    if data == [] then []
    else PageNamesOf(data[..|data| - 1]) + (if Truthy(PageName(data[|data| - 1])) then [PageName(data[|data| - 1])] else [])
  }

  /** `getUniquePageNames(data)`; `None` is a value that is not an array. */
  function UniquePageNames(data: Option<seq<Record>>): seq<Value> {
    if data.None? || data.value == [] then [] else Sort(Dedup(PageNamesOf(data.value)))
  }

  lemma {:induction false} PageNamesOfMembers(data: seq<Record>)
    ensures forall v :: v in PageNamesOf(data) <==> Truthy(v) && exists i :: 0 <= i < |data| && PageName(data[i]) == v
    decreases |data|
  {
    if data != [] {
      var init := data[..|data| - 1];
      PageNamesOfMembers(init);
      assert forall i :: 0 <= i < |init| ==> init[i] == data[i];
    }
  }

  /** The names come out sorted by key, each once, and are exactly
      the truthy `account_name` / `Account name` values; empty or missing
      data gives none. */
  lemma UniquePageNamesSorted(data: Option<seq<Record>>)
    ensures data.None? || data == Some([]) ==> UniquePageNames(data) == []
    ensures SortedByKey(UniquePageNames(data)) && NoDuplicates(UniquePageNames(data))
    ensures data.Some? ==> forall v :: v in UniquePageNames(data) <==>
      Truthy(v) && exists i :: 0 <= i < |data.value| && PageName(data.value[i]) == v
  {
    if data.Some? && data.value != [] {
      SortedUnique(PageNamesOf(data.value));
      PageNamesOfMembers(data.value);
    }
  }

  // ---------------------------------------------------------------------
  // summarizeByAccount

  /** The grouping key: the account id, the post skipped when it is falsy. */
  function AccountIdKey(read: Reader): Record -> Option<PropKey> {
    p => if Truthy(read(p, "account_id")) then Some(Key(read(p, "account_id"))) else None
  }

  /** `groupedByAccount`: the posts of each account, in first-seen order. */
  function AccountGroups(data: seq<Record>, read: Reader): Groups<Record> {
    GroupBy(data, AccountIdKey(read))
  }

  /** What one post adds to the sum of `field`: `value || 0`. */
  function FieldAmount(field: string, read: Reader): Record -> real {
    p => NumOrZero(read(p, field))
  }

  /** The sum of `field` over the posts of a group. */
  function FieldTotal(g: seq<Record>, field: string, read: Reader): real {
    SumOf(g, FieldAmount(field, read))
  }

  /** `Math.round(totalReach / posts.length)`, 0 for no posts. */
  function AverageReach(g: seq<Record>, read: Reader): int {
    if |g| > 0 then Round(FieldTotal(g, "post_reach", read) / |g| as real) else 0
  }

  /** The value written under a selected field. */
  function SummaryValue(g: seq<Record>, field: string, read: Reader): Value {
    if field == "average_reach" then Num(AverageReach(g, read) as real) else Num(FieldTotal(g, field, read))
  }

  /** The identity of an account, taken from its first post. */
  function Identity(p: Record, read: Reader): Record {
    [("account_id", read(p, "account_id")),
     ("account_name", Or(read(p, "account_name"), Str("Okänt konto"))),
     ("account_username", Or(read(p, "account_username"), Str("-")))]
  }

  /** `base` with every selected field written, left to right. */
  function WithFields(base: Record, g: seq<Record>, fields: seq<string>, read: Reader): Record
    decreases |fields|
  {
    if fields == [] then base
    else Put(WithFields(base, g, fields[..|fields| - 1], read), fields[|fields| - 1], SummaryValue(g, fields[|fields| - 1], read))
  }

  /** The summary of a group of posts. */
  function Summary(g: seq<Record>, fields: seq<string>, read: Reader): Record {
    if g == [] then [] else WithFields(Identity(g[0], read), g, fields, read)
  }

  /** One summary per group, in group order. */
  function SummaryList(groups: Groups<Record>, fields: seq<string>, read: Reader): seq<Record> {
    seq(|groups|, i requires 0 <= i < |groups| => Summary(groups[i].1, fields, read))
  }

  /** `summarizeByAccount(data, selectedFields)` with fields read by `read`;
      `None` is a value that is not an array (`data`) or is falsy
      (`selectedFields`). */
  function Summaries(data: Option<seq<Record>>, fields: Option<seq<string>>, read: Reader): seq<Record> {
    if data.None? || data.value == [] || fields.None? then []
    else SummaryList(AccountGroups(data.value, read), fields.value, read)
  }

  /** This module's `summarizeByAccount`, reading keys directly. */
  function SummarizeByAccount(data: Option<seq<Record>>, fields: Option<seq<string>>): seq<Record> {
    Summaries(data, fields, Direct())
  }

  /** The identity row has exactly its three keys. */
  lemma IdentityGet(p: Record, read: Reader, k: string)
    ensures Get(Identity(p, read), k) ==
      if k == "account_id" then Some(read(p, "account_id"))
      else if k == "account_name" then Some(Or(read(p, "account_name"), Str("Okänt konto")))
      else if k == "account_username" then Some(Or(read(p, "account_username"), Str("-")))
      else None
  {
    var base := Identity(p, read);
    assert base[0].0 == "account_id" && base[1..][0].0 == "account_name" && base[1..][1..][0].0 == "account_username";
    assert "account_id" != "account_name" && "account_id" != "account_username" && "account_name" != "account_username" by {
      assert "account_id"[8] != "account_name"[8] && "account_id"[8] != "account_username"[8];
      assert "account_name"[8] != "account_username"[8];
    }
    var rest := base[1..][1..];
    assert rest[1..] == [] && Get(rest[1..], k) == None;
    assert Get(rest, k) == if k == "account_username" then Some(rest[0].1) else None;
    assert Get(base[1..], k) == if k == "account_name" then Some(base[1..][0].1) else Get(rest, k);
  }

  /** A selected field holds its summary value; any other key keeps the
      base row's value. */
  lemma {:induction false} WithFieldsGet(base: Record, g: seq<Record>, fields: seq<string>, read: Reader, k: string)
    ensures Get(WithFields(base, g, fields, read), k) == if k in fields then Some(SummaryValue(g, k, read)) else Get(base, k)
    decreases |fields|
  {
    if fields != [] {
      var init := fields[..|fields| - 1];
      WithFieldsGet(base, g, init, read, k);
      PutGet(WithFields(base, g, init, read), fields[|fields| - 1], SummaryValue(g, fields[|fields| - 1], read), k);
      assert fields == init + [fields[|fields| - 1]];
    }
  }

  /** A summary holds the three identity keys and the selected fields and
      nothing else; each selected field holds its value; the identity comes
      from the first post unless a selected field overwrites it. */
  lemma SummaryShape(g: seq<Record>, fields: seq<string>, read: Reader)
    requires g != []
    ensures forall k :: HasKey(Summary(g, fields, read), k) <==>
      k == "account_id" || k == "account_name" || k == "account_username" || k in fields
    ensures forall f :: f in fields ==> Get(Summary(g, fields, read), f) == Some(SummaryValue(g, f, read))
    ensures "account_id" !in fields ==> Get(Summary(g, fields, read), "account_id") == Some(read(g[0], "account_id"))
    ensures "account_name" !in fields ==>
      Get(Summary(g, fields, read), "account_name") == Some(Or(read(g[0], "account_name"), Str("Okänt konto")))
    ensures "account_username" !in fields ==>
      Get(Summary(g, fields, read), "account_username") == Some(Or(read(g[0], "account_username"), Str("-")))
  {
    var base := Identity(g[0], read);
    forall k ensures Get(Summary(g, fields, read), k) == if k in fields then Some(SummaryValue(g, k, read)) else Get(base, k) {
      WithFieldsGet(base, g, fields, read, k);
    }
    IdentityGet(g[0], read, "account_id");
    IdentityGet(g[0], read, "account_name");
    IdentityGet(g[0], read, "account_username");
    forall k ensures HasKey(Summary(g, fields, read), k) <==>
      k == "account_id" || k == "account_name" || k == "account_username" || k in fields
    {
      GetNoneIff(Summary(g, fields, read), k);
      GetNoneIff(base, k);
      IdentityGet(g[0], read, k);
    }
  }

  /** Summaries of empty or missing input, or without selected fields, are
      empty; otherwise there is one summary per distinct truthy account
      id, built from exactly that account's posts, none of them empty. */
  lemma SummariesGroups(data: Option<seq<Record>>, fields: Option<seq<string>>, read: Reader)
    ensures data.None? || data == Some([]) || fields.None? ==> Summaries(data, fields, read) == []
    ensures data.Some? && data.value != [] && fields.Some? ==>
      var groups := AccountGroups(data.value, read);
      var key := AccountIdKey(read);
      |Summaries(data, fields, read)| == |groups| &&
      (forall i, j :: 0 <= i < j < |groups| ==> groups[i].0 != groups[j].0) &&
      (forall k :: HasKey(groups, k) <==> exists i :: 0 <= i < |data.value| && key(data.value[i]) == Some(k)) &&
      forall i :: 0 <= i < |groups| ==>
        groups[i].1 == Members(data.value, key, groups[i].0) && groups[i].1 != [] &&
        Summaries(data, fields, read)[i] == Summary(Members(data.value, key, groups[i].0), fields.value, read)
  {
    if data.Some? && data.value != [] && fields.Some? {
      var key := AccountIdKey(read);
      GroupByDistinct(data.value, key);
      GroupByEntries(data.value, key);
      forall k ensures HasKey(AccountGroups(data.value, read), k) <==> exists i :: 0 <= i < |data.value| && key(data.value[i]) == Some(k) {
        GroupByHasKey(data.value, key, k);
      }
    }
  }

  /** `average_reach` lies between the rounded smallest and largest reach
      of the group. */
  lemma AverageReachBounds(g: seq<Record>, read: Reader, lo: real, hi: real)
    requires g != []
    requires forall p :: p in g ==> lo <= NumOrZero(read(p, "post_reach")) <= hi
    ensures Round(lo) <= AverageReach(g, read) <= Round(hi)
  {
    var n := |g| as real;
    var t := FieldTotal(g, "post_reach", read);
    SumOfBounds(g, FieldAmount("post_reach", read), lo, hi);
    QuotientBounds(t, n, lo, hi);
    RoundMonotone(lo, t / n);
    RoundMonotone(t / n, hi);
  }

  /** For an integer reach total `s` over `n` posts, `average_reach` is
      `(2s + n) / (2n)` in integer division. */
  lemma AverageReachOfIntegers(g: seq<Record>, read: Reader, s: int)
    requires g != [] && FieldTotal(g, "post_reach", read) == s as real
    ensures AverageReach(g, read) == (2 * s + |g|) / (2 * |g|)
  {
    RoundOfQuotient(s, |g|);
  }

  /** A field that no post of the group holds as a number sums to 0. */
  lemma FieldTotalZero(g: seq<Record>, field: string, read: Reader)
    requires forall p :: p in g ==> !read(p, field).Num?
    ensures FieldTotal(g, field, read) == 0.0
  {
    SumOfZero(g, FieldAmount(field, read));
  }

  /** In this module `engagement_total` is not computed: it sums to 0 over
      posts that do not store a number under that key. */
  lemma DirectEngagementNotComputed(g: seq<Record>)
    requires forall p :: p in g ==> Get(p, "engagement_total").None?
    ensures FieldTotal(g, "engagement_total", Direct()) == 0.0
  {
    FieldTotalZero(g, "engagement_total", Direct());
  }

  /** A summed field is the field's total over the group. */
  function SummaryAmount(field: string): Record -> real {
    s => NumOrZero(Get(s, field).GetOr(Null))
  }

  /** A summary's summed field is the field's total over its posts. */
  lemma SummaryAmountOf(g: seq<Record>, fields: seq<string>, read: Reader, f: string)
    requires g != [] && f in fields && f != "average_reach"
    ensures SummaryAmount(f)(Summary(g, fields, read)) == FieldTotal(g, f, read)
  {
    SummaryShape(g, fields, read);
  }

  /** Summing over the summaries peels off the last group. */
  lemma SummaryListStep(groups: Groups<Record>, fields: seq<string>, read: Reader, f: string)
    requires groups != []
    ensures SumOf(SummaryList(groups, fields, read), SummaryAmount(f)) ==
      SumOf(SummaryList(groups[..|groups| - 1], fields, read), SummaryAmount(f))
      + SummaryAmount(f)(Summary(groups[|groups| - 1].1, fields, read))
  {
    assert SummaryList(groups, fields, read)[..|groups| - 1] == SummaryList(groups[..|groups| - 1], fields, read);
  }

  lemma {:induction false} SummaryListTotal(groups: Groups<Record>, fields: seq<string>, read: Reader, f: string)
    requires f in fields && f != "average_reach"
    requires forall i :: 0 <= i < |groups| ==> groups[i].1 != []
    ensures SumOf(SummaryList(groups, fields, read), SummaryAmount(f)) == TotalOver(groups, FieldAmount(f, read))
    decreases |groups|
  {
    if groups != [] {
      var init := groups[..|groups| - 1];
      var last := groups[|groups| - 1];
      SummaryListTotal(init, fields, read, f);
      SummaryListStep(groups, fields, read, f);
      SummaryAmountOf(last.1, fields, read, f);
      TotalOverLast(groups, FieldAmount(f, read));
    }
  }

  /** For a summed field, the summaries' total is the total over the posts
      that have a truthy account id. */
  lemma SummariesTotal(data: seq<Record>, fields: seq<string>, read: Reader, f: string)
    requires data != [] && f in fields && f != "average_reach"
    ensures SumOf(Summaries(Some(data), Some(fields), read), SummaryAmount(f))
      == SumOf(Keyed(data, AccountIdKey(read)), FieldAmount(f, read))
  {
    var groups := AccountGroups(data, read);
    GroupByEntries(data, AccountIdKey(read));
    SummaryListTotal(groups, fields, read, f);
    GroupByTotal(data, AccountIdKey(read), FieldAmount(f, read));
  }

  /** The keyed posts are exactly those with a truthy account id. */
  lemma KeyedTruthy(data: seq<Record>, read: Reader)
    ensures forall p :: p in Keyed(data, AccountIdKey(read)) <==> p in data && Truthy(read(p, "account_id"))
  {
    KeyedMembers(data, AccountIdKey(read));
  }

  /** When every post's `engagement_total` is its likes + comments + shares,
      so is the summary's. */
  lemma SummaryEngagement(g: seq<Record>, fields: seq<string>, read: Reader)
    requires g != []
    requires "engagement_total" in fields && "likes" in fields && "comments" in fields && "shares" in fields
    requires forall p :: p in g ==> (NumOrZero(read(p, "engagement_total")) ==
      NumOrZero(read(p, "likes")) + NumOrZero(read(p, "comments")) + NumOrZero(read(p, "shares")))
    ensures NumOrZero(Get(Summary(g, fields, read), "engagement_total").GetOr(Null)) ==
      NumOrZero(Get(Summary(g, fields, read), "likes").GetOr(Null))
      + NumOrZero(Get(Summary(g, fields, read), "comments").GetOr(Null))
      + NumOrZero(Get(Summary(g, fields, read), "shares").GetOr(Null))
  {
    SummaryShape(g, fields, read);
    var lc: Record -> real := p => NumOrZero(read(p, "likes")) + NumOrZero(read(p, "comments"));
    SumOfPlus(g, FieldAmount("likes", read), FieldAmount("comments", read), lc);
    SumOfPlus(g, lc, FieldAmount("shares", read), FieldAmount("engagement_total", read));
  }
}

/** The column-mapping service: translating external CSV column names to
    the application's internal field names, and reading a field's value out
    of a row through an ordered chain of fallbacks.

    The pure functions that consult the current mapping take it as the
    parameter `current`: the mapping the resolver's cache holds (see
    `MappingResolver`), whose inverse `getInverseMappings` returns. */
module ColumnMappingService {
  import opened Wrappers
  import opened OrderedMaps
  import opened JsText
  import opened JsValues

  /** A row or post object: column name to cell, in column order. */
  type Record = seq<(string, Value)>

  /** External column name to internal field name, in insertion order. */
  type Mapping = seq<(string, string)>

  /** The mapping used when nothing is stored. */
  const DEFAULT_MAPPINGS: Mapping := [
    ("Publicerings-id", "post_id"),
    ("Konto-id", "account_id"),
    ("Kontonamn", "account_name"),
    ("Kontots användarnamn", "account_username"),
    ("Beskrivning", "description"),
    ("Publiceringstid", "publish_time"),
    ("Inläggstyp", "post_type"),
    ("Permalänk", "permalink"),
    ("Visningar", "views"),
    ("Räckvidd", "post_reach"),
    ("Gilla-markeringar", "likes"),
    ("Kommentarer", "comments"),
    ("Delningar", "shares"),
    ("Följer", "follows"),
    ("Sparade objekt", "saves")
  ]

  /** Display names of the internal fields. */
  const DISPLAY_NAMES: seq<(string, string)> := [
    ("post_id", "Post ID"),
    ("account_id", "Konto-ID"),
    ("account_name", "Kontonamn"),
    ("account_username", "Användarnamn"),
    ("description", "Beskrivning"),
    ("publish_time", "Publiceringstid"),
    ("post_type", "Typ"),
    ("permalink", "Länk"),
    ("views", "Visningar"),
    ("post_reach", "Räckvidd"),
    ("average_reach", "Genomsnittlig räckvidd"),
    ("engagement_total", "Interaktioner"),
    ("engagement_total_extended", "Totalt engagemang (alla typer)"),
    ("likes", "Gilla-markeringar"),
    ("comments", "Kommentarer"),
    ("shares", "Delningar"),
    ("saves", "Sparade"),
    ("follows", "Följare")
  ]

  /** Other column names each internal field is known under, in search order. */
  const ALTERNATIVE_NAMES: seq<(string, seq<string>)> := [
    ("views", ["Views", "Visningar", "Impressions", "Exponeringar", "impressions"]),
    ("post_reach", ["Reach", "Räckvidd", "reach"]),
    ("likes", ["Likes", "Gilla-markeringar", "Gilla markeringar", "likes"]),
    ("comments", ["Comments", "Kommentarer", "comments"]),
    ("shares", ["Shares", "Delningar", "shares"]),
    ("follows", ["Follows", "Följer", "Följare", "follows"]),
    ("saves", ["Saves", "Sparade objekt", "Sparade", "saves"]),
    ("post_id", ["Post ID", "Publicerings-id", "Inläggs-ID", "PostID", "post_id", "post-id"]),
    ("account_id", ["Account ID", "Konto-id", "Konto-ID", "KontoID", "account_id", "page_id"]),
    ("account_name", ["Account name", "Kontonamn", "Page name", "account_name"]),
    ("account_username", ["Account username", "Kontots användarnamn", "Användarnamn", "Username", "account_username"]),
    ("description", ["Description", "Beskrivning", "description", "Caption", "caption"]),
    ("publish_time", ["Publish time", "Publiceringstid", "publish_time", "Date", "date", "Datum"]),
    ("post_type", ["Post type", "Inläggstyp", "Typ", "post_type", "Type", "type"]),
    ("permalink", ["Permalink", "Permalänk", "Länk", "permalink", "Link", "link", "URL", "url"])
  ]

  /** The keys `getValue` probes for `account_name`, in order. */
  const ACCOUNT_NAME_KEYS: seq<string> := ["account_name", "Account name", "Page name", "Kontonamn"]

  /** The keys `getValue` probes for `account_id`, in order. */
  const ACCOUNT_ID_KEYS: seq<string> := ["account_id", "Account ID", "Konto-ID", "Page ID"]

  // ---------------------------------------------------------------------
  // normalizeText

  /** `normalizeText` on a string: trim, lower-case, collapse white-space
      runs to one space, then drop zero-width characters and U+FEFF. */
  function Normalize(s: string): string {
    RemoveInvisible(CollapseWhiteSpace(ToLowerCase(Trim(s))))
  }

  /** `normalizeText(text)`, where `None` is `null` or `undefined`. */
  function NormalizeText(text: Option<string>): (r: string)
    ensures text.None? ==> r == ""
    ensures NoInvisible(r)
  {
    match text
    case None => ""
    case Some(s) => NormalizeNoInvisible(s); Normalize(s)
  }

  /** The result never contains U+200B-U+200D or U+FEFF. */
  lemma NormalizeNoInvisible(s: string)
    ensures NoInvisible(Normalize(s))
  {
    RemoveInvisibleProperties(CollapseWhiteSpace(ToLowerCase(Trim(s))));
  }

  /** For input free of zero-width characters the result is canonical: no
      white space at either end, single plain spaces inside, lower case;
      normalizing it again changes nothing. */
  lemma NormalizeCanonical(s: string)
    requires NoZeroWidth(s)
    ensures NoEdgeWhiteSpace(Normalize(s))
    ensures SingleSpaced(Normalize(s))
    ensures IsLowerCase(Normalize(s))
    ensures Normalize(Normalize(s)) == Normalize(s)
  {
    var t := Trim(s);
    TrimNoEdgeWhiteSpace(s);
    TrimNoZeroWidth(s);
    var l := ToLowerCase(t);
    ToLowerCaseProperties(t);
    var c := CollapseWhiteSpace(l);
    CollapseEdges(l);
    CollapseSingleSpacedResult(l);
    CollapseKeeps(l);
    assert NoEdgeWhiteSpace(c);
    assert NoInvisible(c) by {
      forall i | 0 <= i < |c| ensures !IsInvisible(c[i]) {
        assert IsWhiteSpace(c[i]) ==> c[i] == ' ';
      }
    }
    RemoveInvisibleProperties(c);
    assert Normalize(s) == c;
    TrimIdentity(c);
    ToLowerCaseProperties(c);
    CollapseSingleSpaced(c);
  }

  /** Without the zero-width precondition the result need not be canonical:
      the spaces on each side of a zero-width space survive as two. */
  lemma NormalizeKeepsDoubleSpace()
    ensures Normalize("a \U{200B} b") == "a  b"
  {
    var s := "a \U{200B} b";
    assert TrimStart(s) == s;
    assert TrimEnd(s) == s;
    assert ToLowerCase(s) == s;
    assert TrimStart(s[2..]) == s[2..];
    assert TrimStart(s[4..]) == s[4..];
    assert CollapseWhiteSpace(s[4..]) == "b";
    assert CollapseWhiteSpace(s[3..]) == " b";
    assert CollapseWhiteSpace(s[2..]) == s[2..];
    assert CollapseWhiteSpace(s) == s;
    assert RemoveInvisible(s[3..]) == " b";
  }

  /** ... so normalizing is not idempotent in general. */
  lemma NormalizeNotIdempotent()
    ensures Normalize(Normalize("a \U{200B} b")) == "a b" != Normalize("a \U{200B} b")
  {
    NormalizeKeepsDoubleSpace();
    var t := "a  b";
    assert TrimStart(t) == t;
    assert TrimEnd(t) == t;
    assert ToLowerCase(t) == t;
    assert TrimStart(t[2..]) == "b";
    assert CollapseWhiteSpace("b") == "b";
    assert CollapseWhiteSpace(t) == "a b";
    assert "a b" != t by {
      assert |t| == 4;
    }
  }

  /** Normalizing keeps the first two characters (lowered) of a string that
      starts with two visible, non-space characters. */
  lemma NormalizePrefix(s: string)
    requires |s| >= 2
    requires !IsWhiteSpace(s[0]) && !IsWhiteSpace(s[1]) && !IsInvisible(s[0]) && !IsInvisible(s[1])
    ensures |Normalize(s)| >= 2 && Normalize(s)[..2] == [LowerChar(s[0]), LowerChar(s[1])]
  {
    var t := Trim(s);
    assert TrimStart(s) == s;
    TrimEndSpec(s);
    assert |t| >= 2 && t[0] == s[0] && t[1] == s[1];
    var l := ToLowerCase(t);
    LowerCharClasses(s[0]);
    LowerCharClasses(s[1]);
    var c := CollapseWhiteSpace(l);
    assert c == [l[0]] + CollapseWhiteSpace(l[1..]);
    assert CollapseWhiteSpace(l[1..]) == [l[1]] + CollapseWhiteSpace(l[2..]);
    var r := RemoveInvisible(c);
    assert c[1..] == [l[1]] + CollapseWhiteSpace(l[2..]);
    assert r == [l[0]] + RemoveInvisible(c[1..]);
    assert RemoveInvisible(c[1..]) == [l[1]] + RemoveInvisible(c[1..][1..]);
  }

  // ---------------------------------------------------------------------
  // safeParseValue

  /** `safeParseValue`: numeric strings become numbers, everything else is
      returned as it is. */
  function SafeParse(v: Value): Value {
    match v
    case Null => Null
    case Num(_) => v
    case Str(s) =>
      if NumberOf(s).Some? && Trim(s) != [] then
        match ParseFloat(s)
        case None => v
        case Some(x) => Num(x)
      else v
  }

  /** What `safeParseValue` does, case by case: its `NaN` fallback is never
      taken. */
  lemma SafeParseCases(v: Value)
    ensures v.Null? ==> SafeParse(v) == Null
    ensures v.Num? ==> SafeParse(v) == v
    ensures v.Str? && IsNumericString(v.s) ==> SafeParse(v) == Num(NumericValue(v.s))
    ensures v.Str? && !IsNumericString(v.s) ==> SafeParse(v) == v
  {
    if v.Str? && IsNumericString(v.s) {
      NumericStringParses(v.s);
    }
  }

  /** Blank and white-space-only strings are returned unchanged. */
  lemma SafeParseBlank(s: string)
    requires Trim(s) == []
    ensures SafeParse(Str(s)) == Str(s)
  {
  }

  /** Parsing twice is parsing once. */
  lemma SafeParseIdempotent(v: Value)
    ensures SafeParse(SafeParse(v)) == SafeParse(v)
  {
    SafeParseCases(v);
    SafeParseCases(SafeParse(v));
  }

  // ---------------------------------------------------------------------
  // getInverseMappings

  /** `Object.entries(m).reduce((acc, [o, i]) => { acc[i] = o; ... }, {})`. */
  function Inverse(m: Mapping): Mapping
    decreases |m|
  {
    if m == [] then [] else Put(Inverse(m[..|m| - 1]), m[|m| - 1].1, m[|m| - 1].0)
  }

  /** The inverse has exactly the mapping's internal names as keys. */
  lemma {:induction false} InverseKeys(m: Mapping, k: string)
    ensures HasKey(Inverse(m), k) <==> exists i :: 0 <= i < |m| && m[i].1 == k
    decreases |m|
  {
    if m != [] {
      var init := m[..|m| - 1];
      InverseKeys(init, k);
      PutHasKey(Inverse(init), m[|m| - 1].1, m[|m| - 1].0, k);
      if exists i :: 0 <= i < |init| && init[i].1 == k {
        var i :| 0 <= i < |init| && init[i].1 == k;
        assert m[i].1 == k;
      }
      if exists i :: 0 <= i < |m| && m[i].1 == k {
        var i :| 0 <= i < |m| && m[i].1 == k;
        if i < |m| - 1 {
          assert init[i].1 == k;
        }
      }
    }
  }

  /** Each internal name maps back to the last external name mapping to it. */
  lemma {:induction false} InverseLastWins(m: Mapping, i: nat)
    requires i < |m|
    requires forall j :: i < j < |m| ==> m[j].1 != m[i].1
    ensures Get(Inverse(m), m[i].1) == Some(m[i].0)
    decreases |m|
  {
    var init := m[..|m| - 1];
    PutGet(Inverse(init), m[|m| - 1].1, m[|m| - 1].0, m[i].1);
    if i < |m| - 1 {
      assert init[i] == m[i];
      InverseLastWins(init, i);
    }
  }

  /** The inverse never repeats a key. */
  lemma {:induction false} InverseDistinct(m: Mapping)
    ensures DistinctKeys(Inverse(m))
    decreases |m|
  {
    if m != [] {
      InverseDistinct(m[..|m| - 1]);
      PutDistinct(Inverse(m[..|m| - 1]), m[|m| - 1].1, m[|m| - 1].0);
    }
  }

  // ---------------------------------------------------------------------
  // getFieldValue and getValue

  /** The value of the first of `names` the record has (`r[name] !== undefined`),
      even if that value is `null`. */
  function FirstPresent(r: Record, names: seq<string>): Option<Value> {
    if names == [] then None
    else match Get(r, names[0])
      case Some(v) => Some(v)
      case None => FirstPresent(r, names[1..])
  }

  /** The value of the first entry whose key normalizes to `nf`. */
  function NormalizedMatch(r: Record, nf: string): Option<Value> {
    if r == [] then None
    else if Normalize(r[0].0) == nf then Some(r[0].1)
    else NormalizedMatch(r[1..], nf)
  }

  /** The column names `getFieldValue` tries, in order: the field itself,
      the external name the current mapping gives it (if non-empty), then
      its alternative names. */
  function Candidates(field: string, current: Mapping): seq<string> {
    var original := Get(Inverse(current), field);
    [field]
    + (if original.Some? && original.value != "" then [original.value] else [])
    + Get(ALTERNATIVE_NAMES, field).GetOr([])
  }

  /** `getFieldValue(r, field)` on a record. */
  function FieldValue(r: Record, field: string, current: Mapping): Value {
    if Get(r, field).Some? then SafeParse(Get(r, field).value)
    else
      var original := Get(Inverse(current), field);
      if original.Some? && original.value != "" && Get(r, original.value).Some? then
        SafeParse(Get(r, original.value).value)
      else
        match FirstPresent(r, Get(ALTERNATIVE_NAMES, field).GetOr([]))
        case Some(v) => SafeParse(v)
        case None =>
          match NormalizedMatch(r, Normalize(field))
          case Some(v) => SafeParse(v)
          case None => Null
  }

  lemma {:induction false} FirstPresentAppend(r: Record, a: seq<string>, b: seq<string>)
    ensures FirstPresent(r, a + b) == if FirstPresent(r, a).Some? then FirstPresent(r, a) else FirstPresent(r, b)
  {
    if a != [] {
      assert (a + b)[0] == a[0] && (a + b)[1..] == a[1..] + b;
      FirstPresentAppend(r, a[1..], b);
    } else {
      assert a + b == b;
    }
  }

  /** The first name present decides. */
  lemma {:induction false} FirstPresentAt(r: Record, names: seq<string>, i: nat)
    requires i < |names| && Get(r, names[i]).Some?
    requires forall j :: 0 <= j < i ==> Get(r, names[j]).None?
    ensures FirstPresent(r, names) == Get(r, names[i])
  {
    if i > 0 {
      FirstPresentAt(r, names[1..], i - 1);
    }
  }

  lemma {:induction false} FirstPresentNone(r: Record, names: seq<string>)
    ensures FirstPresent(r, names).None? <==> forall j :: 0 <= j < |names| ==> Get(r, names[j]).None?
  {
    if names != [] {
      FirstPresentNone(r, names[1..]);
      assert forall j :: 0 < j < |names| ==> names[1..][j - 1] == names[j];
    }
  }

  /** The normalized scan returns the value of the first matching entry. */
  lemma {:induction false} NormalizedMatchAt(r: Record, nf: string, i: nat)
    requires i < |r| && Normalize(r[i].0) == nf
    requires forall j :: 0 <= j < i ==> Normalize(r[j].0) != nf
    ensures NormalizedMatch(r, nf) == Some(r[i].1)
  {
    if i > 0 {
      NormalizedMatchAt(r[1..], nf, i - 1);
    }
  }

  lemma {:induction false} NormalizedMatchNone(r: Record, nf: string)
    ensures NormalizedMatch(r, nf).None? <==> forall j :: 0 <= j < |r| ==> Normalize(r[j].0) != nf
  {
    if r != [] {
      NormalizedMatchNone(r[1..], nf);
      assert forall j :: 0 < j < |r| ==> r[1..][j - 1] == r[j];
    }
  }

  /** `getFieldValue` is a search over `Candidates` followed by the
      normalized scan: the first candidate present wins, even when its value
      is `null`; with none present the first key equal after normalizing
      wins; otherwise the result is `null`. */
  lemma FieldValueChain(r: Record, field: string, current: Mapping)
    ensures FieldValue(r, field, current) ==
      match FirstPresent(r, Candidates(field, current))
      case Some(v) => SafeParse(v)
      case None =>
        match NormalizedMatch(r, Normalize(field))
        case Some(v) => SafeParse(v)
        case None => Null
  {
    var original := Get(Inverse(current), field);
    var mid := if original.Some? && original.value != "" then [original.value] else [];
    var alts := Get(ALTERNATIVE_NAMES, field).GetOr([]);
    assert Candidates(field, current) == [field] + (mid + alts);
    FirstPresentAppend(r, [field], mid + alts);
    FirstPresentAppend(r, mid, alts);
    assert [field][1..] == [];
    if mid != [] {
      assert mid[1..] == [];
    }
  }

  /** Resolution order, stated on positions: the candidate at position `i`
      decides when it is present and no earlier one is. */
  lemma FieldValueResolvesAt(r: Record, field: string, current: Mapping, i: nat)
    requires i < |Candidates(field, current)|
    requires Get(r, Candidates(field, current)[i]).Some?
    requires forall j :: 0 <= j < i ==> Get(r, Candidates(field, current)[j]).None?
    ensures FieldValue(r, field, current) == SafeParse(Get(r, Candidates(field, current)[i]).value)
  {
    FieldValueChain(r, field, current);
    FirstPresentAt(r, Candidates(field, current), i);
  }

  /** With no candidate present and no key normalizing to the field, the
      result is `null`. */
  lemma FieldValueNothing(r: Record, field: string, current: Mapping)
    requires forall j :: 0 <= j < |Candidates(field, current)| ==> Get(r, Candidates(field, current)[j]).None?
    requires forall j :: 0 <= j < |r| ==> Normalize(r[j].0) != Normalize(field)
    ensures FieldValue(r, field, current) == Null
  {
    FieldValueChain(r, field, current);
    FirstPresentNone(r, Candidates(field, current));
    NormalizedMatchNone(r, Normalize(field));
  }

  /** `getValue(r, field)` on a record (a record is never falsy). */
  function GetValue(r: Record, field: string, current: Mapping): Value {
    if field == "" then Null
    else if Get(r, field).Some? then Get(r, field).value
    else if field == "account_name" then FirstPresent(r, ACCOUNT_NAME_KEYS).GetOr(Str("Unknown"))
    else if field == "account_id" then FirstPresent(r, ACCOUNT_ID_KEYS).GetOr(Null)
    else if field == "engagement_total" then
      Num(NumOrZero(FieldValue(r, "likes", current))
          + NumOrZero(FieldValue(r, "comments", current))
          + NumOrZero(FieldValue(r, "shares", current)))
    else if field == "engagement_total_extended" then
      Num(NumOrZero(FieldValue(r, "likes", current))
          + NumOrZero(FieldValue(r, "comments", current))
          + NumOrZero(FieldValue(r, "shares", current))
          + NumOrZero(FieldValue(r, "saves", current))
          + NumOrZero(FieldValue(r, "follows", current)))
    else FieldValue(r, field, current)
  }

  /** `getValue(dataObject, field)`, where `None` is a missing object. */
  function GetValueOf(r: Option<Record>, field: string, current: Mapping): (v: Value)
    ensures r.None? || field == "" ==> v == Null
  {
    match r
    case None => Null
    case Some(rec) => GetValue(rec, field, current)
  }

  /** A field accessor. `FieldReader(current)` is `getValue` under the
      resolver's current mapping; the pipeline and the views read every
      field through one. */
  type Reader = (Record, string) -> Value

  function FieldReader(current: Mapping): Reader {
    (r, f) => GetValue(r, f, current)
  }

  /** A key the record has directly is returned raw: where `getFieldValue`
      would turn `" 5"` into 5, `getValue` keeps the string. */
  lemma GetValueDirectIsRaw(current: Mapping)
    ensures GetValue([("likes", Str(" 5"))], "likes", current) == Str(" 5")
    ensures FieldValue([("likes", Str(" 5"))], "likes", current) == Num(5.0)
  {
    var s := " 5";
    assert TrimStart(s) == "5";
    assert TrimEnd("5") == "5";
    assert Trim(s) == "5";
    assert DigitRun("5", 1) == 0;
    assert DigitRun("5", 0) == 1;
    assert "5"[0..1] == "5";
    assert DigitsValue("5") == 5;
    assert ScanDecimal("5") == Some(Scan(5.0, 1));
    SafeParseCases(Str(s));
  }

  /** The identity fields never consult the mapping: `getValue` answers from
      its fixed key lists, with the defaults `'Unknown'` and `null`. */
  lemma IdentityFieldsIgnoreMapping(r: Record, c1: Mapping, c2: Mapping)
    ensures GetValue(r, "account_name", c1) == GetValue(r, "account_name", c2)
    ensures GetValue(r, "account_id", c1) == GetValue(r, "account_id", c2)
    ensures (forall j :: 0 <= j < |ACCOUNT_NAME_KEYS| ==> !HasKey(r, ACCOUNT_NAME_KEYS[j]))
      ==> GetValue(r, "account_name", c1) == Str("Unknown")
    ensures (forall j :: 0 <= j < |ACCOUNT_ID_KEYS| ==> !HasKey(r, ACCOUNT_ID_KEYS[j]))
      ==> GetValue(r, "account_id", c1) == Null
  {
    forall k | true ensures Get(r, k).None? <==> !HasKey(r, k) {
      GetNoneIff(r, k);
    }
    FirstPresentNone(r, ACCOUNT_NAME_KEYS);
    FirstPresentNone(r, ACCOUNT_ID_KEYS);
  }

  /** A raw row whose only id column is the default external name
      `"Konto-id"` has no account id for `getValue`, although the default
      mapping resolves it for `getFieldValue`. */
  lemma KontoIdYieldsNull(x: Value)
    ensures GetValue([("Konto-id", x)], "account_id", DEFAULT_MAPPINGS) == Null
    ensures FieldValue([("Konto-id", x)], "account_id", DEFAULT_MAPPINGS) == SafeParse(x)
  {
    var r := [("Konto-id", x)];
    assert "Konto-id" != "account_id";
    assert Get(r, "account_id") == None;
    assert Get(r, "Account ID") == None;
    assert "Konto-id"[6] != "Konto-ID"[6];
    assert Get(r, "Konto-ID") == None;
    assert Get(r, "Page ID") == None;
    FirstPresentNone(r, ACCOUNT_ID_KEYS);
    var m := DEFAULT_MAPPINGS;
    assert m[1] == ("Konto-id", "account_id");
    assert forall j :: 1 < j < |m| ==> m[j].1 != "account_id";
    InverseLastWins(m, 1);
    assert Get(r, "Konto-id") == Some(x);
  }

  /** Engagement computed by `getValue` when the record stores no totals:
      the total is the parsed likes, comments and shares with `null` as 0,
      and the extended total adds saves and follows to it. */
  lemma EngagementTotals(r: Record, current: Mapping)
    requires !HasKey(r, "engagement_total") && !HasKey(r, "engagement_total_extended")
    ensures GetValue(r, "engagement_total", current) ==
      Num(NumOrZero(FieldValue(r, "likes", current)) + NumOrZero(FieldValue(r, "comments", current))
          + NumOrZero(FieldValue(r, "shares", current)))
    ensures GetValue(r, "engagement_total_extended", current) ==
      Num(GetValue(r, "engagement_total", current).x
          + NumOrZero(FieldValue(r, "saves", current)) + NumOrZero(FieldValue(r, "follows", current)))
  {
    GetNoneIff(r, "engagement_total");
    GetNoneIff(r, "engagement_total_extended");
  }

  // ---------------------------------------------------------------------
  // validateRequiredColumns

  datatype MissingColumn = MissingColumn(original: string, internal: string, displayName: Option<string>)

  datatype Validation = Validation(isValid: bool, missingColumns: seq<MissingColumn>)

  /** Some header normalizes to `nf`. */
  predicate Covered(nf: string, headers: seq<string>) {
    exists h :: h in headers && Normalize(h) == nf
  }

  function Describe(e: (string, string)): MissingColumn {
    MissingColumn(e.0, e.1, Get(DISPLAY_NAMES, e.1))
  }

  /** The table entries no header covers, described, in table order. */
  function MissingFrom(table: Mapping, headers: seq<string>): seq<MissingColumn> {
    if table == [] then []
    else (if Covered(Normalize(table[0].0), headers) then [] else [Describe(table[0])])
         + MissingFrom(table[1..], headers)
  }

  /** `validateRequiredColumns(headers)`; `None` is a value that is not an array. */
  function ValidateRequiredColumns(headers: Option<seq<string>>): Validation {
    match headers
    case None => Validation(false, [])
    case Some(hs) =>
      var missing := MissingFrom(DEFAULT_MAPPINGS, hs);
      Validation(missing == [], missing)
  }

  /** `c1` describes an earlier table entry than `c2`. */
  predicate InTableOrder(c1: MissingColumn, c2: MissingColumn, table: Mapping) {
    exists i, j :: 0 <= i < j < |table| && c1 == Describe(table[i]) && c2 == Describe(table[j])
  }

  /** An entry is reported exactly when no header covers it; nothing else is. */
  lemma {:induction false} MissingFromMembers(table: Mapping, headers: seq<string>)
    ensures forall c :: c in MissingFrom(table, headers) <==>
      exists i :: 0 <= i < |table| && c == Describe(table[i]) && !Covered(Normalize(table[i].0), headers)
    ensures |MissingFrom(table, headers)| <= |table|
  {
    if table != [] {
      MissingFromMembers(table[1..], headers);
      var rest := MissingFrom(table[1..], headers);
      var m := MissingFrom(table, headers);
      forall c ensures c in m <==> exists i :: 0 <= i < |table| && c == Describe(table[i]) && !Covered(Normalize(table[i].0), headers)
      {
        if c in rest {
          var i :| 0 <= i < |table[1..]| && c == Describe(table[1..][i]) && !Covered(Normalize(table[1..][i].0), headers);
          assert table[i + 1] == table[1..][i];
        }
        if exists i :: 0 <= i < |table| && c == Describe(table[i]) && !Covered(Normalize(table[i].0), headers) {
          var i :| 0 <= i < |table| && c == Describe(table[i]) && !Covered(Normalize(table[i].0), headers);
          if i > 0 {
            assert table[1..][i - 1] == table[i];
          }
        }
      }
    }
  }

  /** Reported entries keep the table order. */
  lemma MissingFromOrder(table: Mapping, headers: seq<string>)
    ensures forall a, b :: 0 <= a < b < |MissingFrom(table, headers)| ==>
      InTableOrder(MissingFrom(table, headers)[a], MissingFrom(table, headers)[b], table)
  {
    var keep := Uncovered(headers);
    MissingFromPicked(table, headers);
    forall a, b | 0 <= a < b < |MissingFrom(table, headers)|
      ensures InTableOrder(MissingFrom(table, headers)[a], MissingFrom(table, headers)[b], table)
    {
      var i, j := PickedSource(table, keep, Describe, a), PickedSource(table, keep, Describe, b);
      PickedSourceIncreasing(table, keep, Describe, a, b);
      assert 0 <= i < j < |table|;
    }
  }

  /** The test `MissingFrom` applies to each entry. */
  function Uncovered(headers: seq<string>): ((string, string)) -> bool {
    (e: (string, string)) => !Covered(Normalize(e.0), headers)
  }

  /** `f` of the elements of `xs` that `keep` accepts, in order. */
  function Picked<T, U>(xs: seq<T>, keep: T -> bool, f: T -> U): seq<U> {
    if xs == [] then []
    else (if keep(xs[0]) then [f(xs[0])] else []) + Picked(xs[1..], keep, f)
  }

  /** `MissingFrom` picks the uncovered entries and describes them. */
  lemma {:induction false} MissingFromPicked(table: Mapping, headers: seq<string>)
    ensures MissingFrom(table, headers) == Picked(table, Uncovered(headers), Describe)
  {
    if table != [] {
      MissingFromPicked(table[1..], headers);
    }
  }

  /** The position in `xs` of the element picked `k`-th. */
  function PickedSource<T, U>(xs: seq<T>, keep: T -> bool, f: T -> U, k: nat): (j: nat)
    requires k < |Picked(xs, keep, f)|
    ensures j < |xs| && Picked(xs, keep, f)[k] == f(xs[j])
    decreases |xs|
  {
    var rest := Picked(xs[1..], keep, f);
    if !keep(xs[0]) then
      assert Picked(xs, keep, f)[k] == rest[k];
      var j' := PickedSource(xs[1..], keep, f, k);
      assert xs[j' + 1] == xs[1..][j'];
      j' + 1
    else if k == 0 then 0
    else
      assert Picked(xs, keep, f)[k] == rest[k - 1];
      var j' := PickedSource(xs[1..], keep, f, k - 1);
      assert xs[j' + 1] == xs[1..][j'];
      j' + 1
  }

  /** Later picks come from later elements. */
  lemma {:induction false} PickedSourceIncreasing<T, U>(xs: seq<T>, keep: T -> bool, f: T -> U, a: nat, b: nat)
    requires a < b < |Picked(xs, keep, f)|
    ensures PickedSource(xs, keep, f, a) < PickedSource(xs, keep, f, b)
    decreases |xs|
  {
    if !keep(xs[0]) {
      PickedSourceIncreasing(xs[1..], keep, f, a, b);
    } else if a > 0 {
      PickedSourceIncreasing(xs[1..], keep, f, a - 1, b - 1);
    }
  }

  /** The result is valid exactly when nothing is missing; a non-array is
      invalid with nothing listed. */
  lemma ValidateSpec(headers: Option<seq<string>>)
    ensures ValidateRequiredColumns(headers).isValid <==> headers.Some? && ValidateRequiredColumns(headers).missingColumns == []
    ensures headers.None? ==> ValidateRequiredColumns(headers).missingColumns == []
    ensures headers.Some? ==> forall i :: 0 <= i < |DEFAULT_MAPPINGS| ==>
      (Describe(DEFAULT_MAPPINGS[i]) in ValidateRequiredColumns(headers).missingColumns <==>
       !Covered(Normalize(DEFAULT_MAPPINGS[i].0), headers.value))
    ensures headers.Some? ==> forall a, b :: 0 <= a < b < |ValidateRequiredColumns(headers).missingColumns| ==>
      InTableOrder(ValidateRequiredColumns(headers).missingColumns[a], ValidateRequiredColumns(headers).missingColumns[b], DEFAULT_MAPPINGS)
  {
    if headers.Some? {
      MissingFromMembers(DEFAULT_MAPPINGS, headers.value);
      MissingFromOrder(DEFAULT_MAPPINGS, headers.value);
      forall i | 0 <= i < |DEFAULT_MAPPINGS|
        ensures Describe(DEFAULT_MAPPINGS[i]) in MissingFrom(DEFAULT_MAPPINGS, headers.value)
          <==> !Covered(Normalize(DEFAULT_MAPPINGS[i].0), headers.value)
      {
        if Describe(DEFAULT_MAPPINGS[i]) in MissingFrom(DEFAULT_MAPPINGS, headers.value) {
          var j :| 0 <= j < |DEFAULT_MAPPINGS| && Describe(DEFAULT_MAPPINGS[i]) == Describe(DEFAULT_MAPPINGS[j])
                   && !Covered(Normalize(DEFAULT_MAPPINGS[j].0), headers.value);
          assert DEFAULT_MAPPINGS[i].0 == DEFAULT_MAPPINGS[j].0;
        }
      }
    }
  }

  /** Nothing is missing when the headers include every table key. */
  lemma {:induction false} MissingFromAllPresent(table: Mapping, headers: seq<string>)
    requires forall i :: 0 <= i < |table| ==> table[i].0 in headers
    ensures MissingFrom(table, headers) == []
  {
    if table != [] {
      assert Covered(Normalize(table[0].0), headers);
      MissingFromAllPresent(table[1..], headers);
    }
  }

  /** The default external names themselves are valid headers. */
  lemma DefaultHeadersValid()
    ensures ValidateRequiredColumns(Some(Keys(DEFAULT_MAPPINGS))) == Validation(true, [])
  {
    var hs := Keys(DEFAULT_MAPPINGS);
    assert forall i :: 0 <= i < |DEFAULT_MAPPINGS| ==> hs[i] == DEFAULT_MAPPINGS[i].0;
    MissingFromAllPresent(DEFAULT_MAPPINGS, hs);
  }

  /** Exactly one table entry goes uncovered. */
  lemma {:induction false} MissingFromOne(table: Mapping, headers: seq<string>, k: nat)
    requires k < |table|
    requires forall i :: 0 <= i < |table| && i != k ==> table[i].0 in headers
    requires !Covered(Normalize(table[k].0), headers)
    ensures MissingFrom(table, headers) == [Describe(table[k])]
  {
    if k == 0 {
      MissingFromAllPresent(table[1..], headers);
    } else {
      assert Covered(Normalize(table[0].0), headers);
      MissingFromOne(table[1..], headers, k - 1);
    }
  }

  /** Two strings whose first two characters are visible and lower to
      different pairs do not normalize alike. */
  lemma PrefixesDiffer(h: string, p: string)
    requires |h| >= 2 && |p| >= 2
    requires !IsWhiteSpace(h[0]) && !IsWhiteSpace(h[1]) && !IsInvisible(h[0]) && !IsInvisible(h[1])
    requires !IsWhiteSpace(p[0]) && !IsWhiteSpace(p[1]) && !IsInvisible(p[0]) && !IsInvisible(p[1])
    requires LowerChar(h[0]) != LowerChar(p[0]) || LowerChar(h[1]) != LowerChar(p[1])
    ensures Normalize(h) != Normalize(p)
  {
    NormalizePrefix(p);
    NormalizePrefix(h);
  }

  /** No other default external name normalizes like `"Permalänk"`. */
  lemma OtherDefaultsDiffer(j: nat)
    requires j < |DEFAULT_MAPPINGS| && j != 7
    ensures Normalize(DEFAULT_MAPPINGS[j].0) != Normalize(DEFAULT_MAPPINGS[7].0)
  {
    PrefixesDiffer(DEFAULT_MAPPINGS[j].0, DEFAULT_MAPPINGS[7].0);
  }

  /** Leaving out `"Permalänk"` (entry 7 of the default table, mapped to
      `permalink`) reports exactly the permalink column. */
  lemma PermalinkMissing()
    ensures ValidateRequiredColumns(Some(Keys(DEFAULT_MAPPINGS[..7]) + Keys(DEFAULT_MAPPINGS[8..]))).missingColumns
      == [Describe(DEFAULT_MAPPINGS[7])]
  {
    var m := DEFAULT_MAPPINGS;
    var hs := Keys(m[..7]) + Keys(m[8..]);
    KeysWithout(m, 7, hs);
    PermalinkUncovered(hs);
    MissingFromOne(m, hs, 7);
  }

  /** No header of a list of other default names covers `"Permalänk"`. */
  lemma PermalinkUncovered(hs: seq<string>)
    requires forall h :: h in hs ==> exists j :: 0 <= j < |DEFAULT_MAPPINGS| && j != 7 && h == DEFAULT_MAPPINGS[j].0
    ensures !Covered(Normalize(DEFAULT_MAPPINGS[7].0), hs)
  {
    forall h | h in hs ensures Normalize(h) != Normalize(DEFAULT_MAPPINGS[7].0) {
      var j :| 0 <= j < |DEFAULT_MAPPINGS| && j != 7 && h == DEFAULT_MAPPINGS[j].0;
      OtherDefaultsDiffer(j);
    }
  }

  /** The keys of a table with entry `k` cut out are the other entries' keys. */
  lemma KeysWithout(m: Mapping, k: nat, hs: seq<string>)
    requires k < |m| && hs == Keys(m[..k]) + Keys(m[k + 1..])
    ensures forall i :: 0 <= i < |m| && i != k ==> m[i].0 in hs
    ensures forall h :: h in hs ==> exists j :: 0 <= j < |m| && j != k && h == m[j].0
  {
    assert forall i :: 0 <= i < k ==> hs[i] == m[i].0;
    assert forall i :: k < i < |m| ==> hs[i - 1] == m[i].0;
    forall h | h in hs ensures exists j :: 0 <= j < |m| && j != k && h == m[j].0 {
      var i :| 0 <= i < |hs| && hs[i] == h;
      var j := if i < k then i else i + 1;
      assert h == m[j].0;
    }
  }

  // ---------------------------------------------------------------------
  // findMatchingColumnKey

  /** The internal name of the first entry whose external name normalizes to `nc`. */
  function MatchInMapping(m: Mapping, nc: string): Option<string> {
    if m == [] then None
    else if Normalize(m[0].0) == nc then Some(m[0].1)
    else MatchInMapping(m[1..], nc)
  }

  /** Some name in `names` normalizes to `nc` (`alternatives.some(...)`). */
  predicate SomeNormalizesTo(names: seq<string>, nc: string) {
    exists j :: 0 <= j < |names| && Normalize(names[j]) == nc
  }

  /** The first field of the alternatives table one of whose names normalizes to `nc`. */
  function MatchInAlternatives(t: seq<(string, seq<string>)>, nc: string): Option<string> {
    if t == [] then None
    else if SomeNormalizesTo(t[0].1, nc) then Some(t[0].0)
    else MatchInAlternatives(t[1..], nc)
  }

  /** `findMatchingColumnKey(column, mappings)`; `None` mappings is `null`. */
  function FindMatchingColumnKey(column: string, mappings: Option<Mapping>): Option<string> {
    if column == "" || mappings.None? then None
    else
      var nc := Normalize(column);
      match MatchInMapping(mappings.value, nc)
      case Some(internal) => Some(internal)
      case None => MatchInAlternatives(ALTERNATIVE_NAMES, nc)
  }

  lemma {:induction false} MatchInMappingSpec(m: Mapping, nc: string)
    ensures MatchInMapping(m, nc).None? <==> forall i :: 0 <= i < |m| ==> Normalize(m[i].0) != nc
    ensures forall i :: (0 <= i < |m| && Normalize(m[i].0) == nc && (forall j :: 0 <= j < i ==> Normalize(m[j].0) != nc)
                         ==> MatchInMapping(m, nc) == Some(m[i].1))
  {
    if m != [] {
      MatchInMappingSpec(m[1..], nc);
      assert forall i :: 0 < i < |m| ==> m[1..][i - 1] == m[i];
    }
  }

  lemma {:induction false} MatchInAlternativesSpec(t: seq<(string, seq<string>)>, nc: string)
    ensures MatchInAlternatives(t, nc).None? <==> forall i :: 0 <= i < |t| ==> !SomeNormalizesTo(t[i].1, nc)
    ensures forall i :: (0 <= i < |t| && SomeNormalizesTo(t[i].1, nc) && (forall j :: 0 <= j < i ==> !SomeNormalizesTo(t[j].1, nc))
                         ==> MatchInAlternatives(t, nc) == Some(t[i].0))
  {
    if t != [] {
      MatchInAlternativesSpec(t[1..], nc);
      assert forall i :: 0 < i < |t| ==> t[1..][i - 1] == t[i];
    }
  }

  /** The mapping is searched first and wins on its first normalized match;
      the alternatives table is a fallback; with neither matching, or an
      empty name, or no mapping, there is no result. */
  lemma FindMatchingColumnKeySpec(column: string, m: Mapping)
    requires column != ""
    ensures forall i :: (0 <= i < |m| && Normalize(m[i].0) == Normalize(column)
                         && (forall j :: 0 <= j < i ==> Normalize(m[j].0) != Normalize(column))
                         ==> FindMatchingColumnKey(column, Some(m)) == Some(m[i].1))
    ensures (forall i :: 0 <= i < |m| ==> Normalize(m[i].0) != Normalize(column))
      ==> FindMatchingColumnKey(column, Some(m)) == MatchInAlternatives(ALTERNATIVE_NAMES, Normalize(column))
    ensures FindMatchingColumnKey(column, Some(m)).None? <==>
      (forall i :: 0 <= i < |m| ==> Normalize(m[i].0) != Normalize(column))
      && (forall i :: 0 <= i < |ALTERNATIVE_NAMES| ==> !SomeNormalizesTo(ALTERNATIVE_NAMES[i].1, Normalize(column)))
    ensures FindMatchingColumnKey("", Some(m)).None? && FindMatchingColumnKey(column, None).None?
  {
    MatchInMappingSpec(m, Normalize(column));
    MatchInAlternativesSpec(ALTERNATIVE_NAMES, Normalize(column));
  }

  // ---------------------------------------------------------------------
  // getAllKnownNamesForField

  /** `set.add(x)` on an insertion-ordered `Set`. */
  function SetAdd<T(==)>(names: seq<T>, x: T): seq<T> {
    if x in names then names else names + [x]
  }

  /** The distinct elements of `xs` in order of first occurrence. */
  function Dedup<T(==)>(xs: seq<T>): seq<T>
    decreases |xs|
  {
    if xs == [] then [] else SetAdd(Dedup(xs[..|xs| - 1]), xs[|xs| - 1])
  }

  predicate NoDuplicates<T(==)>(xs: seq<T>) {
    forall i, j :: 0 <= i < j < |xs| ==> xs[i] != xs[j]
  }

  lemma {:induction false} DedupSpec<T>(xs: seq<T>)
    ensures NoDuplicates(Dedup(xs))
    ensures forall x :: x in Dedup(xs) <==> x in xs
    ensures xs != [] ==> Dedup(xs) != [] && Dedup(xs)[0] == xs[0]
    decreases |xs|
  {
    if xs != [] {
      var init := xs[..|xs| - 1];
      DedupSpec(init);
      assert xs == init + [xs[|xs| - 1]];
      if init != [] {
        assert init[0] == xs[0];
      }
    }
  }

  /** The names added before the alternatives: the external name the
      current mapping gives the field, when it is non-empty. */
  function MappedName(internal: string, current: Mapping): seq<string> {
    var original := Get(Inverse(current), internal);
    if original.Some? && original.value != "" then [original.value] else []
  }

  /** `getAllKnownNamesForField(internal)`: the mapped name first, then the
      alternatives, each name once. */
  method GetAllKnownNamesForField(internal: string, current: Mapping) returns (names: seq<string>)
    ensures names == Dedup(MappedName(internal, current) + Get(ALTERNATIVE_NAMES, internal).GetOr([]))
  {
    names := [];
    var first := MappedName(internal, current);
    if first != [] {
      names := SetAdd(names, first[0]);
      assert first[..0] == [];
    }
    names := AddEach(names, first, Get(ALTERNATIVE_NAMES, internal).GetOr([]));
  }

  /** `xs.forEach(name => set.add(name))` on a set built from `start`. */
  method AddEach(added: seq<string>, start: seq<string>, xs: seq<string>) returns (names: seq<string>)
    requires added == Dedup(start)
    ensures names == Dedup(start + xs)
  {
    names := added;
    var i := 0;
    assert start + xs[..0] == start;
    while i < |xs|
      invariant 0 <= i <= |xs|
      invariant names == Dedup(start + xs[..i])
    {
      assert (start + xs[..i + 1])[..|start + xs[..i + 1]| - 1] == start + xs[..i];
      names := SetAdd(names, xs[i]);
      i := i + 1;
    }
    assert xs[..i] == xs;
  }

  /** The known names contain no duplicates, are exactly the mapped name and
      the alternatives, and start with the mapped name when there is one. */
  lemma KnownNamesSpec(internal: string, current: Mapping)
    ensures NoDuplicates(Dedup(MappedName(internal, current) + Get(ALTERNATIVE_NAMES, internal).GetOr([])))
    ensures forall x :: (x in Dedup(MappedName(internal, current) + Get(ALTERNATIVE_NAMES, internal).GetOr([])) <==>
                         x in MappedName(internal, current) || x in Get(ALTERNATIVE_NAMES, internal).GetOr([]))
    ensures MappedName(internal, current) != [] ==>
      Dedup(MappedName(internal, current) + Get(ALTERNATIVE_NAMES, internal).GetOr([]))[0] == MappedName(internal, current)[0]
  {
    DedupSpec(MappedName(internal, current) + Get(ALTERNATIVE_NAMES, internal).GetOr([]));
  }

  // ---------------------------------------------------------------------
  // The mapping cache

  /** What persistent storage holds under the mappings key. */
  datatype StoredMappings = NothingStored | Unreadable | Stored(mapping: Mapping)

  /** The mapping `getCurrentMappings` loads on a cache miss: the stored one,
      or a copy of the defaults when nothing is stored or it fails to parse. */
  function FromStore(s: StoredMappings): Mapping {
    match s
    case Stored(m) => m
    case _ => DEFAULT_MAPPINGS
  }

  /** The module-level state of the service: storage and the two cache slots. */
  class MappingResolver {
    var stored: StoredMappings
    var cached: Option<Mapping>
    var cachedInverse: Option<Mapping>

    /** A cached inverse is always the inverse of the cached mapping. */
    ghost predicate Valid()
      reads this
    {
      cachedInverse.Some? ==> cached.Some? && cachedInverse.value == Inverse(cached.value)
    }

    /** The mapping the next read returns. */
    function Current(): Mapping
      reads this
    {
      if cached.Some? then cached.value else FromStore(stored)
    }

    constructor(s: StoredMappings)
      ensures stored == s && cached == None && cachedInverse == None
      ensures Valid() && Current() == FromStore(s)
    {
      stored := s;
      cached := None;
      cachedInverse := None;
    }

    /** `getCurrentMappings`: the cached mapping, else load and cache. */
    method GetCurrentMappings() returns (m: Mapping)
      requires Valid()
      modifies this
      ensures Valid()
      ensures m == old(Current())
      ensures cached == Some(m)
      ensures stored == old(stored) && cachedInverse == old(cachedInverse)
    {
      if cached.Some? {
        m := cached.value;
      } else {
        m := FromStore(stored);
        cached := Some(m);
      }
    }

    /** `getInverseMappings`: the cached inverse, else compute and cache. */
    method GetInverseMappings() returns (inv: Mapping)
      requires Valid()
      modifies this
      ensures Valid()
      ensures inv == Inverse(old(Current()))
      ensures cached == Some(old(Current())) && cachedInverse == Some(inv)
      ensures stored == old(stored)
    {
      if cachedInverse.Some? {
        inv := cachedInverse.value;
      } else {
        var m := GetCurrentMappings();
        inv := Inverse(m);
        cachedInverse := Some(inv);
      }
    }

    /** `saveColumnMappings(m)`: the store may refuse (it reports `false`,
        which is ignored); the cache takes `m` either way. */
    method SaveColumnMappings(m: Mapping, storeAccepts: bool) returns (ok: bool)
      modifies this
      ensures ok
      ensures stored == if storeAccepts then Stored(m) else old(stored)
      ensures cached == Some(m) && cachedInverse == None
      ensures Valid() && Current() == m
    {
      if storeAccepts {
        stored := Stored(m);
      }
      cached := Some(m);
      cachedInverse := None;
      ok := true;
    }

    /** `clearMappingsCache`: both slots emptied; the next read loads. */
    method ClearMappingsCache()
      modifies this
      ensures cached == None && cachedInverse == None && stored == old(stored)
      ensures Valid() && Current() == FromStore(stored)
    {
      cached := None;
      cachedInverse := None;
    }
  }

  /** Reading twice gives the same mapping, and the stored one is preferred
      to the defaults. */
  method ReadTwice(res: MappingResolver) returns (a: Mapping, b: Mapping)
    requires res.Valid()
    modifies res
    ensures a == b == old(res.Current())
    ensures old(res.cached).None? && old(res.stored).Stored? ==> a == old(res.stored).mapping
    ensures old(res.cached).None? && !old(res.stored).Stored? ==> a == DEFAULT_MAPPINGS
  {
    a := res.GetCurrentMappings();
    b := res.GetCurrentMappings();
  }
}

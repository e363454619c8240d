/** The scraping utilities backends (`backends/murphytx.py`,
    `backends/farmerselectric.py`, `backends/coserv.py`) apart from their
    browser sessions: the constructor's config reading with its credential
    lookup, the daily JSON cache of bill records, and the order in which
    `get_bill_due_info` consults the credentials, the cache and the site.

    The cache text is taken as already decoded (`json.loads` is a library
    call); what the site yields is a parameter.
 */
module BillCache {
  import opened Wrappers
  import opened Text
  import opened Values
  import opened Calendar
  import opened Iso
  import opened Bills
  import CacheHelper

  // ---------------------------------------------------------------------------
  // `_bill_due_info_to_dict` / `_bill_due_info_from_dict`

  /** Dates held by a bill are real calendar dates, as Python `date`
      objects always are. */
  predicate DatesValid(b: Bill) {
    && (b.dueDate.Some? ==> ValidDate(b.dueDate.value) && b.dueDate.value.year <= 9999)
    && (b.currentBillBilledDate.Some? ==> ValidDate(b.currentBillBilledDate.value) && b.currentBillBilledDate.value.year <= 9999)
    && (b.lastPaymentDate.Some? ==> ValidDate(b.lastPaymentDate.value) && b.lastPaymentDate.value.year <= 9999)
  }

  /** `d.isoformat() if d else None`. */
  function DateValue(d: Option<Date>): (v: Value)
    requires d.Some? ==> ValidDate(d.value)
    ensures d.None? <==> v == VNull
  {
    match d
    case Some(x) => VStr(IsoDate(x))
    case None => VNull
  }

  function TextValue(t: Option<string>): (v: Value)
    ensures t.None? <==> v == VNull
  {
    match t
    case Some(s) => VStr(s)
    case None => VNull
  }

  /** The keys every cached record carries. */
  const RecordKeys: set<string> := {
    "utility_type", "source", "due_date", "amount_due", "payment_due", "current_balance",
    "current_bill_billed_date", "last_payment_amount", "last_payment_date", "raw_status"
  }

  /** `_bill_due_info_to_dict`: dates as ISO text. The Murphy TX form has no
      "usage" key; the SmartHub backends' forms do. */
  function ToDict(b: Bill, withUsage: bool): (d: Dict)
    requires DatesValid(b)
    ensures "usage" in d <==> withUsage
    ensures "due_date" in d && (d["due_date"] == VNull <==> b.dueDate.None?)
  {
    var base := map[
      "utility_type" := TextValue(b.utilityType),
      "source" := TextValue(b.source),
      "due_date" := DateValue(b.dueDate),
      "amount_due" := TextValue(b.amountDue),
      "payment_due" := VBool(b.paymentDue),
      "current_balance" := TextValue(b.currentBalance),
      "current_bill_billed_date" := DateValue(b.currentBillBilledDate),
      "last_payment_amount" := TextValue(b.lastPaymentAmount),
      "last_payment_date" := DateValue(b.lastPaymentDate),
      "raw_status" := TextValue(b.rawStatus)];
    if withUsage then base["usage" := TextValue(b.usage)] else base
  }

  /** `parse_date` inside `_bill_due_info_from_dict`: a falsy value is
      None; text is read with `strptime("%Y-%m-%d")`, None when it does not
      fit; any other value makes `strptime` raise TypeError, also caught. */
  function CachedDate(v: Value): (r: Option<Date>)
    ensures !Truthy(v) ==> r.None?
    ensures !v.VStr? ==> r.None?
    ensures v.VStr? && v.s != "" ==> r == StrpDate(v.s)
  {
    match v
    case VStr(s) => if s == "" then None else StrpDate(s)
    case _ => None
  }

  /** A cached text field. */
  function CachedText(v: Value): (r: Option<string>)
    ensures v.VStr? <==> r.Some?
    ensures v.VStr? ==> r.value == v.s
  {
    match v
    case VStr(s) => Some(s)
    case _ => None
  }

  /** `_bill_due_info_from_dict`: missing keys read as None and
      `payment_due` as its truth value. */
  function FromDict(d: Dict, withUsage: bool): (b: Bill)
    ensures b.paymentDue == Truthy(GetOpt(d, "payment_due"))
    ensures b.dueDate == CachedDate(GetOpt(d, "due_date"))
    ensures !withUsage ==> b.usage.None?
  {
    Bill(CachedText(GetOpt(d, "utility_type")),
         CachedText(GetOpt(d, "source")),
         CachedDate(GetOpt(d, "due_date")),
         CachedText(GetOpt(d, "amount_due")),
         Truthy(GetOpt(d, "payment_due")),
         CachedText(GetOpt(d, "current_balance")),
         CachedDate(GetOpt(d, "current_bill_billed_date")),
         CachedText(GetOpt(d, "last_payment_amount")),
         CachedDate(GetOpt(d, "last_payment_date")),
         CachedText(GetOpt(d, "raw_status")),
         if withUsage then CachedText(GetOpt(d, "usage")) else None)
  }

  /** Every record carries the same keys; only the SmartHub form has
      "usage". */
  lemma {:induction false} ToDictKeys(b: Bill, withUsage: bool)
    requires DatesValid(b)
    ensures ToDict(b, withUsage).Keys == if withUsage then RecordKeys + {"usage"} else RecordKeys
  {
  }

  lemma {:induction false} DateValueReadBack(d: Option<Date>)
    requires d.Some? ==> ValidDate(d.value) && d.value.year <= 9999
    ensures CachedDate(DateValue(d)) == d
  {
    if d.Some? {
      StrpDateOfIsoDate(d.value);
    }
  }

  /** The identifying text fields read back as written. */
  lemma {:induction false} NameFieldsReadBack(b: Bill, withUsage: bool)
    requires DatesValid(b)
    ensures var r := FromDict(ToDict(b, withUsage), withUsage);
      r.utilityType == b.utilityType && r.source == b.source && r.rawStatus == b.rawStatus
  {
    var d := ToDict(b, withUsage);
    assert GetOpt(d, "utility_type") == TextValue(b.utilityType);
    assert GetOpt(d, "source") == TextValue(b.source);
    assert GetOpt(d, "raw_status") == TextValue(b.rawStatus);
  }

  /** The amounts and the payment flag read back as written. */
  lemma {:induction false} AmountFieldsReadBack(b: Bill, withUsage: bool)
    requires DatesValid(b)
    ensures var r := FromDict(ToDict(b, withUsage), withUsage);
      r.amountDue == b.amountDue && r.paymentDue == b.paymentDue
      && r.currentBalance == b.currentBalance && r.lastPaymentAmount == b.lastPaymentAmount
  {
    var d := ToDict(b, withUsage);
    assert GetOpt(d, "amount_due") == TextValue(b.amountDue);
    assert GetOpt(d, "current_balance") == TextValue(b.currentBalance);
    assert GetOpt(d, "last_payment_amount") == TextValue(b.lastPaymentAmount);
    assert GetOpt(d, "payment_due") == VBool(b.paymentDue);
  }

  /** Usage reads back when the form carries it. */
  lemma {:induction false} UsageFieldReadBack(b: Bill)
    requires DatesValid(b)
    ensures FromDict(ToDict(b, true), true).usage == b.usage
  {
    assert GetOpt(ToDict(b, true), "usage") == TextValue(b.usage);
  }

  /** The three dates read back as written. */
  lemma {:induction false} DateFieldsReadBack(b: Bill, withUsage: bool)
    requires DatesValid(b)
    ensures var r := FromDict(ToDict(b, withUsage), withUsage);
      r.dueDate == b.dueDate && r.currentBillBilledDate == b.currentBillBilledDate && r.lastPaymentDate == b.lastPaymentDate
  {
    var d := ToDict(b, withUsage);
    assert GetOpt(d, "due_date") == DateValue(b.dueDate);
    assert GetOpt(d, "current_bill_billed_date") == DateValue(b.currentBillBilledDate);
    assert GetOpt(d, "last_payment_date") == DateValue(b.lastPaymentDate);
    DateValueReadBack(b.dueDate);
    DateValueReadBack(b.currentBillBilledDate);
    DateValueReadBack(b.lastPaymentDate);
  }

  /** A record survives the cache: the SmartHub form keeps every field,
      the Murphy TX form every field but usage. */
  lemma {:induction false} DictRoundTrip(b: Bill, withUsage: bool)
    requires DatesValid(b)
    ensures FromDict(ToDict(b, withUsage), withUsage) == if withUsage then b else b.(usage := None)
  {
    NameFieldsReadBack(b, withUsage);
    AmountFieldsReadBack(b, withUsage);
    DateFieldsReadBack(b, withUsage);
    if withUsage {
      UsageFieldReadBack(b);
    }
  }

  /** A date the cache holds in any other shape is dropped, not an error. */
  lemma {:induction false} MalformedDateDropped(d: Dict, s: string)
    requires "due_date" in d && d["due_date"] == VStr(s) && StrpDate(s).None?
    ensures FromDict(d, true).dueDate.None?
  {
  }

  function ToDicts(bs: seq<Bill>, withUsage: bool): (ds: seq<Dict>)
    requires forall i | 0 <= i < |bs| :: DatesValid(bs[i])
    ensures |ds| == |bs| && forall i | 0 <= i < |bs| :: ds[i] == ToDict(bs[i], withUsage)
  {
    seq(|bs|, i requires 0 <= i < |bs| => ToDict(bs[i], withUsage))
  }

  /** `[_bill_due_info_from_dict(d) for d in data if isinstance(d, dict)]`. */
  function FromValues(data: seq<Value>, withUsage: bool): (bs: seq<Bill>)
    ensures |bs| <= |data|
  {
    if |data| == 0 then []
    else (if data[0].VObj? then [FromDict(data[0].fields, withUsage)] else []) + FromValues(data[1..], withUsage)
  }

  function AsValues(ds: seq<Dict>): (vs: seq<Value>)
    ensures |vs| == |ds| && forall i | 0 <= i < |ds| :: vs[i] == VObj(ds[i])
  {
    if |ds| == 0 then [] else [VObj(ds[0])] + AsValues(ds[1..])
  }

  function WithoutUsage(bs: seq<Bill>): (r: seq<Bill>)
    ensures |r| == |bs| && forall i | 0 <= i < |bs| :: r[i] == bs[i].(usage := None)
  {
    if |bs| == 0 then [] else [bs[0].(usage := None)] + WithoutUsage(bs[1..])
  }

  /** A list of records written to the cache reads back as the same list. */
  lemma {:induction false} RecordsRoundTrip(bs: seq<Bill>, withUsage: bool)
    requires forall i | 0 <= i < |bs| :: DatesValid(bs[i])
    ensures FromValues(AsValues(ToDicts(bs, withUsage)), withUsage) == if withUsage then bs else WithoutUsage(bs)
    decreases |bs|
  {
    if |bs| > 0 {
      DictRoundTrip(bs[0], withUsage);
      RecordsRoundTrip(bs[1..], withUsage);
      var vs := AsValues(ToDicts(bs, withUsage));
      assert vs[1..] == AsValues(ToDicts(bs[1..], withUsage));
    }
  }

  // ---------------------------------------------------------------------------
  // Constructor: utility type and credentials

  datatype Site = MurphyTxSite | FarmersElectricSite | CoServSite

  /** The characters a credential may contain besides letters and digits
      and still be taken as an environment variable's name. */
  function NameExtras(site: Site): set<char> {
    if site == MurphyTxSite then {'_'} else {'_', '-'}
  }

  function DefaultUtilityType(site: Site): string {
    match site
    case MurphyTxSite => "water"
    case FarmersElectricSite => "electric"
    case CoServSite => "gas"
  }

  /** `s.replace(c, "")` for each `c` in `drop`. */
  function Without(s: string, drop: set<char>): (r: string)
    ensures |r| <= |s|
    ensures forall i | 0 <= i < |r| :: r[i] !in drop
    ensures forall c | c !in drop :: c in s <==> c in r
  {
    if |s| == 0 then ""
    else (if s[0] in drop then "" else [s[0]]) + Without(s[1..], drop)
  }

  /** `str.isalnum()` on ASCII: non-empty, letters and digits only. */
  predicate IsAlnum(t: string) {
    |t| > 0 && forall i | 0 <= i < |t| :: IsAsciiLetter(t[i]) || IsDigit(t[i])
  }

  /** The value looks like the name of an environment variable. */
  predicate NameLike(t: string, extras: set<char>) {
    IsAlnum(Without(t, extras))
  }

  /** `(config.get(key) or "")`, then `.strip()`. */
  function ConfigText(config: Dict, key: string): (r: Outcome<string>)
    ensures r.Raised? <==> NotText(GetOpt(config, key))
    ensures r.Raised? ==> r.error == AttributeError
    ensures !Truthy(GetOpt(config, key)) ==> r == Ok("")
    ensures GetOpt(config, key).VStr? ==> r == Ok(Strip(GetOpt(config, key).s))
  {
    var v := GetOpt(config, key);
    if !Truthy(v) then Ok("")
    else if v.VStr? then Ok(Strip(v.s))
    else Raised(AttributeError)
  }

  /** `os.environ.get(name, name)`. */
  function EnvOr(env: map<string, string>, name: string): string {
    if name in env then env[name] else name
  }

  /** The username: looked up in the environment when it is a name, never
      when it holds "@" or "." as an e-mail address does. */
  function ResolveUsername(u: string, env: map<string, string>, extras: set<char>): (r: string)
    ensures ('@' in u || '.' in u || u !in env) ==> r == u
    ensures u in env && NameLike(u, extras) && '@' !in u && '.' !in u ==> r == env[u]
  {
    if u != "" && NameLike(u, extras) && '@' !in u && '.' !in u then EnvOr(env, u) else u
  }

  /** The password: looked up in the environment when it is a name shorter
      than 100 characters. */
  function ResolvePassword(p: string, env: map<string, string>, extras: set<char>): (r: string)
    ensures (|p| >= 100 || p !in env || !NameLike(p, extras)) ==> r == p
    ensures p in env && NameLike(p, extras) && |p| < 100 ==> r == env[p]
  {
    if p != "" && NameLike(p, extras) && |p| < 100 then EnvOr(env, p) else p
  }

  /** A scraping backend once built. */
  datatype Scraper = Scraper(site: Site, utilityType: string, username: string, password: string)

  /** The constructor: `(config.get("utility_type") or <default>).lower()`,
      then the two credentials, then `CacheHelper(config.get("cache_dir"), ...)`.
      A truthy non-string in any of the three text fields raises
      AttributeError; a truthy non-string directory then raises TypeError. */
  function NewScraper(site: Site, config: Dict, env: map<string, string>): (r: Outcome<Scraper>)
    ensures r.Raised? <==> TextFieldsRaise(config) || !CacheHelper.CacheDirUsable(GetOpt(config, "cache_dir"))
    ensures r.Raised? ==> r.error == if TextFieldsRaise(config) then AttributeError else TypeError
    ensures r.Ok? ==> r.value.site == site && Lower(r.value.utilityType) == r.value.utilityType
    ensures r.Ok? && !Truthy(GetOpt(config, "utility_type")) ==> r.value.utilityType == DefaultUtilityType(site)
    ensures r.Ok? && GetOpt(config, "utility_type").VStr? && Truthy(GetOpt(config, "utility_type")) ==>
      r.value.utilityType == Lower(GetOpt(config, "utility_type").s)
  {
    var ut := GetOpt(config, "utility_type");
    if NotText(ut) then Raised(AttributeError)
    else
      var kind := if Truthy(ut) then ut.s else DefaultUtilityType(site);
      var u :- ConfigText(config, "username_env");
      var p :- ConfigText(config, "password_env");
      if !CacheHelper.CacheDirUsable(GetOpt(config, "cache_dir")) then Raised(TypeError)
      else
        LowerIdempotent(kind);
        Ok(Scraper(site, Lower(kind), ResolveUsername(u, env, NameExtras(site)),
                   ResolvePassword(p, env, NameExtras(site))))
  }

  /** The factory builds a scraping backend exactly when its constructor
      runs through, and both refuse a config with the same exception. */
  lemma {:induction false} FactoryAgreesWithScraper(site: Site, config: Dict, env: map<string, string>)
    ensures var k := KindOf(site);
      var f := GetBackend(VStr(BackendName(k)), config);
      var c := NewScraper(site, config, env);
      && (f.Ok? <==> c.Ok?)
      && (f.Raised? ==> f.error == c.error)
  {
    ScraperKindBuilt(KindOf(site), config);
  }

  /** The factory class behind each scraped site. */
  function KindOf(site: Site): (k: BackendKind)
    ensures k != Manual
  {
    match site
    case MurphyTxSite => MurphyTx
    case FarmersElectricSite => FarmersElectric
    case CoServSite => CoServ
  }

  /** An empty or blank credential stays empty: nothing is looked up. */
  lemma {:induction false} BlankCredentialStaysEmpty(site: Site, config: Dict, env: map<string, string>)
    requires NewScraper(site, config, env).Ok?
    requires !Truthy(GetOpt(config, "username_env")) || (GetOpt(config, "username_env").VStr? && AllSpace(GetOpt(config, "username_env").s))
    ensures NewScraper(site, config, env).value.username == ""
  {
    var v := GetOpt(config, "username_env");
    if v.VStr? && AllSpace(v.s) {
      AllSpaceStrips(v.s);
    }
  }

  // ---------------------------------------------------------------------------
  // get_bill_due_info

  /** What one call returns, and the records it writes to the cache. */
  datatype Fetch = Fetch(bills: seq<Bill>, written: Option<seq<Dict>>)

  /** The cache holds a usable list: non-empty with at least one dict. */
  predicate CacheHit(cached: Option<Value>, withUsage: bool) {
    cached.Some? && cached.value.VList? && |cached.value.items| > 0
    && |FromValues(cached.value.items, withUsage)| > 0
  }

  function HasUsage(site: Site): bool {
    site != MurphyTxSite
  }

  /** `get_bill_due_info`: nothing without both credentials; today's
      cached records when there are any; otherwise what the site yields
      (nothing without a browser or on a failed session), written back to
      the cache when non-empty. `cached` is today's cache text decoded, None
      when there is none or it does not decode. */
  function GetBillDueInfo(sc: Scraper, cached: Option<Value>, scraped: seq<Bill>): (r: Fetch)
    requires forall i | 0 <= i < |scraped| :: DatesValid(scraped[i])
    ensures sc.username == "" || sc.password == "" ==> r == Fetch([], None)
    ensures sc.username != "" && sc.password != "" && CacheHit(cached, HasUsage(sc.site)) ==>
      r == Fetch(FromValues(cached.value.items, HasUsage(sc.site)), None)
    ensures sc.username != "" && sc.password != "" && !CacheHit(cached, HasUsage(sc.site)) ==>
      r.bills == scraped && (r.written.Some? <==> |scraped| > 0)
  {
    var withUsage := HasUsage(sc.site);
    if sc.username == "" || sc.password == "" then Fetch([], None)
    else if CacheHit(cached, withUsage) then Fetch(FromValues(cached.value.items, withUsage), None)
    else if |scraped| > 0 then Fetch(scraped, Some(ToDicts(scraped, withUsage)))
    else Fetch([], None)
  }

  /** Missing credentials return nothing whatever the cache and the site
      hold. */
  lemma {:induction false} NoCredentialsNoFetch(sc: Scraper, cached: Option<Value>, scraped: seq<Bill>)
    requires forall i | 0 <= i < |scraped| :: DatesValid(scraped[i])
    requires sc.password == ""
    ensures GetBillDueInfo(sc, cached, scraped) == Fetch([], None)
  {
  }

  /** A later call the same day, reading back what a scrape wrote, returns
      the scraped records without scraping again (less usage on Murphy TX). */
  lemma {:induction false} ScrapeThenCacheHit(sc: Scraper, scraped: seq<Bill>, later: seq<Bill>)
    requires forall i | 0 <= i < |scraped| :: DatesValid(scraped[i])
    requires forall i | 0 <= i < |later| :: DatesValid(later[i])
    requires sc.username != "" && sc.password != "" && |scraped| > 0
    ensures var first := GetBillDueInfo(sc, None, scraped);
      && first.written.Some?
      && GetBillDueInfo(sc, Some(VList(AsValues(first.written.value))), later).bills
         == if HasUsage(sc.site) then scraped else WithoutUsage(scraped)
  {
    var withUsage := HasUsage(sc.site);
    var ds := ToDicts(scraped, withUsage);
    var first := GetBillDueInfo(sc, None, scraped);
    assert first.written == Some(ds);
    var expected := if withUsage then scraped else WithoutUsage(scraped);
    RecordsRoundTrip(scraped, withUsage);
    var cached := Some(VList(AsValues(ds)));
    assert FromValues(cached.value.items, withUsage) == expected;
    assert CacheHit(cached, withUsage);
  }

  // ---------------------------------------------------------------------------
  // As written: `BillDueInfo` declares no `usage`

  /** The keyword names a site's record constructor passes: the SmartHub
      sites add `usage=`. */
  function Keywords(withUsage: bool): (ks: set<string>)
    ensures ks <= DeclaredFields <==> !withUsage
  {
    assert "usage" in PassedFields && "usage" !in DeclaredFields;
    if withUsage then PassedFields else DeclaredFields
  }

  /** Reading today's cache as written: when it holds a dict, a SmartHub
      site raises TypeError building its record (the `except` around the
      read catches it). */
  function CachedAsWritten(cached: Option<Value>, withUsage: bool): (r: Outcome<seq<Bill>>)
    ensures r.Raised? <==> withUsage && CacheHit(cached, withUsage)
    ensures r.Raised? ==> r.error == TypeError
    ensures !withUsage ==> r == Ok(if CacheHit(cached, false) then FromValues(cached.value.items, false) else [])
  {
    if !CacheHit(cached, withUsage) then Ok([])
    else if !(Keywords(withUsage) <= DeclaredFields) then Raised(TypeError)
    else Ok(FromValues(cached.value.items, withUsage))
  }

  /** Building the scraped records as written: the first one raises on a
      SmartHub site; on Murphy TX each is built without `usage`. */
  function BuildScrapedAsWritten(scraped: seq<Bill>, withUsage: bool): (r: Outcome<seq<Bill>>)
    ensures r.Raised? <==> withUsage && |scraped| > 0
    ensures r.Raised? ==> r.error == TypeError
    ensures r.Ok? ==> r.value == WithoutUsage(scraped)
    decreases |scraped|
  {
    if |scraped| == 0 then Ok([])
    else
      var rest := BuildScrapedAsWritten(scraped[1..], withUsage);
      match BuildAsDeclared(Keywords(withUsage), scraped[0])
      case Raised(e) => Raised(e)
      case Ok(b) => match rest
        case Raised(e) => Raised(e)
        case Ok(bs) => Ok([b] + bs)
  }

  /** `get_bill_due_info` as written. On the SmartHub sites the cache read
      raises and is caught, then the scrape raises on its record and is
      caught, so nothing is returned or cached. */
  function GetBillDueInfoAsWritten(sc: Scraper, cached: Option<Value>, scraped: seq<Bill>): (r: Fetch)
    requires forall i | 0 <= i < |scraped| :: DatesValid(scraped[i])
    ensures HasUsage(sc.site) ==> r == Fetch([], None)
    ensures !HasUsage(sc.site) && WithoutUsage(scraped) == scraped ==> r == GetBillDueInfo(sc, cached, scraped)
  {
    var withUsage := HasUsage(sc.site);
    if sc.username == "" || sc.password == "" then Fetch([], None)
    else
      var fromCache := CachedAsWritten(cached, withUsage);
      // the records written are those built, which on Murphy TX carry no usage
      var written := ToDicts(scraped, withUsage);
      if fromCache.Ok? && |fromCache.value| > 0 then Fetch(fromCache.value, None)
      else match BuildScrapedAsWritten(scraped, withUsage)
        case Raised(_) => Fetch([], None)
        case Ok(bs) => if |bs| > 0 then Fetch(bs, Some(written)) else Fetch([], None)
  }
}

/** The bill record every utilities backend returns (`BillDueInfo` in
    `backends/base.py`) and the backend factory of `backends/__init__.py`.

    `BillDueInfo` is declared with ten fields, yet the manual, Farmers
    Electric and CoServ backends and the bill service all pass or read an
    eleventh, `usage`. Python's namedtuple refuses an unknown keyword with
    TypeError. `BuildAsDeclared` models the constructor as declared; the
    rest of the model uses `Bill`, the record with `usage` that the callers
    evidently expect.
 */
module Bills {
  import opened Wrappers
  import opened Text
  import opened Values
  import opened Calendar
  import opened CacheHelper

  /** `BillDueInfo` with the `usage` field its callers rely on. Amounts and
      balances are carried as their text. */
  datatype Bill = Bill(
    utilityType: Option<string>,
    source: Option<string>,
    dueDate: Option<Date>,
    amountDue: Option<string>,
    paymentDue: bool,
    currentBalance: Option<string>,
    currentBillBilledDate: Option<Date>,
    lastPaymentAmount: Option<string>,
    lastPaymentDate: Option<Date>,
    rawStatus: Option<string>,
    usage: Option<string>)

  /** The field names `BillDueInfo` is declared with. */
  const DeclaredFields: set<string> := {
    "utility_type", "source", "due_date", "amount_due", "payment_due",
    "current_balance", "current_bill_billed_date", "last_payment_amount",
    "last_payment_date", "raw_status"
  }

  /** The keyword names the backends pass, `usage` included. */
  const PassedFields: set<string> := DeclaredFields + {"usage"}

  /** Calling the namedtuple as declared with the given keyword names: any
      name it does not declare raises TypeError; otherwise the record is
      built, with `usage` necessarily absent. */
  function BuildAsDeclared(keywords: set<string>, b: Bill): (r: Outcome<Bill>)
    ensures r.Ok? <==> keywords <= DeclaredFields
    ensures r.Raised? ==> r.error == TypeError
    ensures r.Ok? ==> r.value == b.(usage := None)
  {
    if keywords <= DeclaredFields then Ok(b.(usage := None)) else Raised(TypeError)
  }

  /** Every backend call that passes `usage=` fails under the declared
      namedtuple, whatever the other values. */
  lemma {:induction false} UsageKeywordRaises(b: Bill)
    ensures BuildAsDeclared(PassedFields, b) == Raised(TypeError)
  {
    assert "usage" in PassedFields && "usage" !in DeclaredFields;
  }

  /** With `usage` declared, the same call keeps every field it was given. */
  lemma {:induction false} UsageDeclaredKeepsBill(b: Bill)
    ensures Build(PassedFields, b) == Ok(b)
  {
  }

  /** The constructor with the eleven fields the callers expect. */
  function Build(keywords: set<string>, b: Bill): (r: Outcome<Bill>)
    ensures r.Ok? <==> keywords <= PassedFields
    ensures r.Ok? ==> r.value == b
  {
    if keywords <= PassedFields then Ok(b) else Raised(TypeError)
  }

  // ---------------------------------------------------------------------------
  // Sort key of the task: `x.due_date or date(9999, 12, 31)`

  /** `(year, month, day)` as one integer: for valid dates (day at most 31,
      month at most 12) it orders exactly as the dates do. */
  function DateKey(d: Date): int {
    d.year * 10000 + d.month * 100 + d.day
  }

  const LastDate: Date := Date(9999, 12, 31)

  function DueKey(b: Bill): (k: int)
    ensures b.dueDate.None? ==> k == DateKey(LastDate)
  {
    DateKey(b.dueDate.GetOr(LastDate))
  }

  /** Later dates have larger keys. */
  lemma {:induction false} DateKeyOrdersDates(a: Date, b: Date)
    requires ValidDate(a) && ValidDate(b)
    ensures DateKey(a) < DateKey(b) <==>
      (a.year < b.year || (a.year == b.year && (a.month < b.month || (a.month == b.month && a.day < b.day))))
  {
  }

  // ---------------------------------------------------------------------------
  // get_backend

  datatype BackendKind = CoServ | FarmersElectric | Manual | MurphyTx

  /** A backend instance: its class and the config it was built with. */
  datatype Backend = Backend(kind: BackendKind, config: Dict)

  /** `_BACKENDS.get(name)`: exactly four names are known. */
  function KindNamed(name: string): (r: Option<BackendKind>)
    ensures r.Some? <==> name in {"coserv", "farmerselectric", "manual", "murphytx"}
  {
    if name == "coserv" then Some(CoServ)
    else if name == "farmerselectric" then Some(FarmersElectric)
    else if name == "manual" then Some(Manual)
    else if name == "murphytx" then Some(MurphyTx)
    else None
  }

  /** `get_backend(backend_type, config)`: `(backend_type or "").lower()`
      looked up among the known names, then the class's constructor. A
      truthy type that is not a string has no `.lower()` and raises
      AttributeError. */
  function GetBackend(backendType: Value, config: Dict): (r: Outcome<Option<Backend>>)
    ensures !Truthy(backendType) ==> r == Ok(None)
    ensures Truthy(backendType) && !backendType.VStr? ==> r == Raised(AttributeError)
    ensures backendType.VStr? && KindNamed(Lower(backendType.s)).None? ==> r == Ok(None)
    ensures backendType.VStr? && KindNamed(Lower(backendType.s)).Some? ==>
      r == match ConstructorError(KindNamed(Lower(backendType.s)).value, config)
           case Some(e) => Raised(e)
           case None => Ok(Some(Backend(KindNamed(Lower(backendType.s)).value, config)))
  {
    if !Truthy(backendType) then Ok(None)
    else if !backendType.VStr? then Raised(AttributeError)
    else
      match KindNamed(Lower(backendType.s))
      case Some(k) =>
        (match ConstructorError(k, config)
         case Some(e) => Raised(e)
         case None => Ok(Some(Backend(k, config))))
      case None => Ok(None)
  }

  /** The scraping backends' constructors call `.lower()` on `utility_type`
      and `.strip()` on `username_env` and `password_env` (each `or ""`), so
      a truthy non-string there raises AttributeError; they then build a
      `CacheHelper(cache_dir, ...)`, whose `os.path.expanduser` raises
      TypeError on a truthy non-string directory. The manual backend's
      constructor only stores its config. */
  function ConstructorError(k: BackendKind, config: Dict): (r: Option<PyError>)
    ensures r.Some? <==> k != Manual && (TextFieldsRaise(config) || !CacheDirUsable(GetOpt(config, "cache_dir")))
    ensures r.Some? ==> r.value == if TextFieldsRaise(config) then AttributeError else TypeError
  {
    if k == Manual then None
    else if TextFieldsRaise(config) then Some(AttributeError)
    else if !CacheDirUsable(GetOpt(config, "cache_dir")) then Some(TypeError)
    else None
  }

  /** A scraper's text fields that are truthy but not strings. */
  predicate TextFieldsRaise(config: Dict) {
    NotText(GetOpt(config, "utility_type")) || NotText(GetOpt(config, "username_env"))
    || NotText(GetOpt(config, "password_env"))
  }

  /** A value for which `(v or "")` is not a string. */
  predicate NotText(v: Value) {
    Truthy(v) && !v.VStr?
  }

  lemma {:induction false} LowerIdempotent(s: string)
    ensures Lower(Lower(s)) == Lower(s)
  {
    var t := Lower(s);
    assert forall i :: 0 <= i < |s| ==> LowerChar(LowerChar(s[i])) == LowerChar(s[i]);
    assert Lower(t) == t;
  }

  /** The type name is matched without regard to ASCII case, and a backend
      is returned exactly for the four known names. */
  lemma {:induction false} GetBackendIgnoresCase(name: string, config: Dict)
    ensures GetBackend(VStr(name), config) == GetBackend(VStr(Lower(name)), config)
    ensures var r := GetBackend(VStr(name), config);
      r.Ok? ==> (r.value.Some? <==> Lower(name) in {"coserv", "farmerselectric", "manual", "murphytx"})
  {
    var low := Lower(name);
    GetBackendOfText(name, config);
    if name == "" {
      assert low == "";
    } else {
      assert |low| == |name|;
      LowerIdempotent(name);
      GetBackendOfText(low, config);
    }
  }

  /** `get_backend` on a string: nothing for the empty string, otherwise the
      lookup of its lower case. */
  lemma {:induction false} GetBackendOfText(name: string, config: Dict)
    ensures GetBackend(VStr(name), config) ==
      if name == "" then Ok(None)
      else match KindNamed(Lower(name))
        case None => Ok(None)
        case Some(k) =>
          (match ConstructorError(k, config)
           case Some(e) => Raised(e)
           case None => Ok(Some(Backend(k, config))))
  {
  }

  /** A scraping backend with well-typed text fields but a directory that is
      neither empty nor text is refused with TypeError; the manual backend
      does not look at its directory. */
  lemma {:induction false} UnusableCacheDirRaises(k: BackendKind, config: Dict)
    requires !TextFieldsRaise(config) && !CacheDirUsable(GetOpt(config, "cache_dir"))
    ensures GetBackend(VStr(BackendName(k)), config) == if k == Manual then Ok(Some(Backend(Manual, config))) else Raised(TypeError)
  {
    KindNamedOfName(k);
  }

  /** Looking a backend up by its registered name runs its constructor. */
  lemma {:induction false} ScraperKindBuilt(k: BackendKind, config: Dict)
    ensures var f := GetBackend(VStr(BackendName(k)), config);
      && (f.Ok? <==> ConstructorError(k, config).None?)
      && (f.Raised? ==> f.error == ConstructorError(k, config).value)
  {
    KindNamedOfName(k);
  }

  /** The name each backend is registered under. */
  function BackendName(k: BackendKind): (r: string)
    ensures r != "" && KindNamed(r) == Some(k)
  {
    match k
    case CoServ => "coserv"
    case FarmersElectric => "farmerselectric"
    case Manual => "manual"
    case MurphyTx => "murphytx"
  }

  /** Registered names are already lower case. */
  lemma {:induction false} KindNamedOfName(k: BackendKind)
    ensures Lower(BackendName(k)) == BackendName(k)
  {
    LowerOfLowerCase(BackendName(k));
  }

  /** A lower-case name is its own lower case. */
  lemma {:induction false} LowerOfLowerCase(s: string)
    requires forall i :: 0 <= i < |s| ==> !('A' <= s[i] <= 'Z')
    ensures Lower(s) == s
  {
  }

  /** The manual backend is always built, whatever its config. */
  lemma {:induction false} ManualBackendAlwaysBuilt(config: Dict)
    ensures GetBackend(VStr("manual"), config) == Ok(Some(Backend(Manual, config)))
  {
    LowerOfLowerCase("manual");
  }
}

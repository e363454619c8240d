/** The per-component file cache of `dashboard/core/cache_helper.py`.

    Each cached URL is one JSON file holding the day it was written and the
    content. The directory is a dict from URL to the decoded file; the MD5
    file name is treated as injective and the file system's own failures are
    left out.
 */
module CacheHelper {
  import opened Wrappers
  import opened Text
  import opened Values
  import opened Calendar
  import opened Iso

  const DefaultCacheDir: string := ".cache"

  /** `os.path.expanduser` for "~" and "~/..."; other paths are kept. */
  function ExpandUser(path: string, home: string): (r: string)
    ensures !StartsWith(path, "~") ==> r == path
    ensures path == "~" ==> r == home
  {
    if path == "~" then home
    else if StartsWith(path, "~/") then home + path[1..]
    else path
  }

  /** `os.path.join(a, b)`: an absolute `b` replaces `a`; otherwise a single
      "/" separates the two. */
  function JoinPath(a: string, b: string): (r: string)
    ensures StartsWith(b, "/") ==> r == b
    ensures EndsWith(r, b)
  {
    if StartsWith(b, "/") || |a| == 0 then b
    else if EndsWith(a, "/") then a + b
    else a + "/" + b
  }

  /** The directory `CacheHelper(cache_dir, component)` writes into. A truthy
      `cache_dir` that is not a string cannot be expanded (TypeError). */
  function CacheDirectory(cacheDir: Value, component: string, home: string): (r: Outcome<string>)
    ensures r.Raised? <==> Truthy(cacheDir) && !cacheDir.VStr?
    ensures r.Ok? && |component| > 0 ==> EndsWith(r.value, component)
    ensures r.Ok? && component == "" && !Truthy(cacheDir) ==> r.value == DefaultCacheDir
  {
    if Truthy(cacheDir) && !cacheDir.VStr? then Raised(TypeError)
    else
      assert DefaultCacheDir[0] == '.' && DefaultCacheDir[..1] == [DefaultCacheDir[0]];
      var base := ExpandUser(if Truthy(cacheDir) then cacheDir.s else DefaultCacheDir, home);
      Ok(if |component| > 0 then JoinPath(base, component) else base)
  }

  /** A usable `cache_dir`: the constructors that build a CacheHelper succeed
      exactly for these. */
  predicate CacheDirUsable(cacheDir: Value) {
    !Truthy(cacheDir) || cacheDir.VStr?
  }

  /** URL to decoded cache file. */
  type CacheFiles = map<string, Value>

  /** The file `save_to_cache` writes on `today`. */
  function CacheEntry(content: string, today: Date): Value
    requires ValidDate(today)
  {
    VObj(map["date" := VStr(StrfDate(today)), "content" := VStr(content)])
  }

  /** `get_cached_content(url)` on `today`: the stored content when the file
      exists and was written today. A file without "date", with a date that
      does not parse, or without "content" raises inside the `try` and reads
      as a miss. */
  function GetCachedContent(files: CacheFiles, url: string, today: Date): (r: Option<Value>)
    ensures r.Some? ==> url in files && files[url].VObj? && "content" in files[url].fields
                        && r.value == files[url].fields["content"]
    ensures r.Some? ==> "date" in files[url].fields && files[url].fields["date"].VStr?
                        && StrpDate(files[url].fields["date"].s) == Some(today)
    ensures url !in files ==> r.None?
  {
    if url !in files || !files[url].VObj? then None
    else
      var f := files[url].fields;
      if "date" !in f || !f["date"].VStr? then None
      else if StrpDate(f["date"].s) != Some(today) || "content" !in f then None
      else Some(f["content"])
  }

  /** `save_to_cache(url, content)` on `today`: overwrite the URL's file. */
  function SaveToCache(files: CacheFiles, url: string, content: string, today: Date): (r: CacheFiles)
    requires ValidDate(today)
    ensures url in r && r[url] == CacheEntry(content, today)
    ensures forall u | u in files && u != url :: u in r && r[u] == files[u]
    ensures forall u | u in r :: u == url || u in files
  {
    files[url := CacheEntry(content, today)]
  }

  /** What was saved today is read back today. */
  lemma {:induction false} SavedContentReadSameDay(files: CacheFiles, url: string, content: string, today: Date)
    requires ValidDate(today) && 1000 <= today.year <= 9999
    ensures GetCachedContent(SaveToCache(files, url, content, today), url, today) == Some(VStr(content))
  {
    StrpDateRoundTrip(today);
  }

  /** An entry written on another day is never returned. */
  lemma {:induction false} StaleEntryIgnored(files: CacheFiles, url: string, content: string, written: Date, today: Date)
    requires ValidDate(written) && 1000 <= written.year <= 9999 && written != today
    ensures GetCachedContent(SaveToCache(files, url, content, written), url, today) == None
  {
    StrpDateRoundTrip(written);
  }

  /** Saving one URL does not change what any other URL reads. */
  lemma {:induction false} SaveKeepsOtherUrls(files: CacheFiles, url: string, other: string, content: string, written: Date, today: Date)
    requires ValidDate(written) && other != url
    ensures GetCachedContent(SaveToCache(files, url, content, written), other, today) == GetCachedContent(files, other, today)
  {
  }

  /** The cache-first page fetch of `MosqueBase._fetch_page_content`: unless
      forced, a truthy cached content is returned without fetching; otherwise
      the response (None when the request raised) is saved and returned. */
  function FetchPageContent(files: CacheFiles, url: string, force: bool, today: Date,
                            response: Option<string>): (r: (Value, CacheFiles))
    requires ValidDate(today)
    ensures response.None? ==> r.1 == files
    ensures response.Some? && (force || !Truthy(GetCachedContent(files, url, today).GetOr(VNull))) ==>
      r == (VStr(response.value), SaveToCache(files, url, response.value, today))
    ensures !force && Truthy(GetCachedContent(files, url, today).GetOr(VNull)) ==>
      r == (GetCachedContent(files, url, today).value, files)
  {
    var cached := GetCachedContent(files, url, today);
    if !force && cached.Some? && Truthy(cached.value) then (cached.value, files)
    else match response
      case Some(text) => (VStr(text), SaveToCache(files, url, text, today))
      case None => (VNull, files)
  }

  /** A fetch followed by an unforced fetch of the same URL on the same day
      needs no second response. */
  lemma {:induction false} SecondFetchHitsCache(files: CacheFiles, url: string, today: Date, text: string, again: Option<string>)
    requires ValidDate(today) && 1000 <= today.year <= 9999 && |text| > 0
    ensures var (c1, f1) := FetchPageContent(files, url, true, today, Some(text));
      FetchPageContent(f1, url, false, today, again) == (c1, f1)
  {
    SavedContentReadSameDay(files, url, text, today);
  }
}

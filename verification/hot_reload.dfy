/** The reload decision of `dashboard/core/hot_reload.py`: which file events
    trigger a restart, the cooldown and the debounce, and the restart
    command. Paths are taken as already resolved; the watchdog observer,
    Tk's `after` and the process replacement itself are left out, and
    `time.time()` is a parameter in microseconds.
 */
module HotReload {
  import opened Wrappers
  import opened Text

  /** A resolved absolute path, as its components below "/". */
  type Path = seq<string>

  function PathText(p: Path): string {
    "/" + Join(p, "/")
  }

  /** `Path.is_relative_to(dir)`: `dir` is a leading part of `p`. */
  predicate RelativeTo(p: Path, dir: Path) {
    |dir| <= |p| && p[..|dir|] == dir
  }

  /** `Path.name`: the last component ("" for the root). */
  function Name(p: Path): string {
    if |p| == 0 then "" else p[|p| - 1]
  }

  /** `str.rfind('.')`. */
  function LastDot(s: string): (r: Option<nat>)
    ensures r.Some? ==> r.value < |s| && s[r.value] == '.'
    ensures r.Some? ==> forall j | r.value < j < |s| :: s[j] != '.'
    ensures r.None? ==> forall j | 0 <= j < |s| :: s[j] != '.'
    decreases |s|
  {
    if |s| == 0 then None
    else if s[|s| - 1] == '.' then Some(|s| - 1)
    else LastDot(s[..|s| - 1])
  }

  /** `PurePath.suffix`: from the last dot, unless that dot starts or ends
      the name. */
  function Suffix(name: string): (r: string)
    ensures r == "" || (|r| >= 2 && r[0] == '.' && |r| < |name| && EndsWith(name, r))
    ensures r != "" ==> forall j | 1 <= j < |r| :: r[j] != '.'
  {
    match LastDot(name)
    case Some(i) => if 0 < i < |name| - 1 then name[i..] else ""
    case None => ""
  }

  /** A stem followed by a dot-free extension has that extension as suffix. */
  lemma {:induction false} SuffixOfExtension(stem: string, ext: string)
    requires |stem| > 0 && |ext| > 0 && forall j | 0 <= j < |ext| :: ext[j] != '.'
    ensures Suffix(stem + "." + ext) == "." + ext
  {
    var name := stem + "." + ext;
    var d := LastDot(name);
    assert name[|stem|] == '.';
    assert d.Some?;
    if d.value < |stem| {
      assert false;
    } else if d.value > |stem| {
      assert false;
    }
    assert name[|stem|..] == "." + ext;
  }

  /** Dot files such as ".env" have no suffix. */
  lemma {:induction false} DotFileHasNoSuffix(ext: string)
    requires forall j | 0 <= j < |ext| :: ext[j] != '.'
    ensures Suffix("." + ext) == ""
  {
    var name := "." + ext;
    var d := LastDot(name);
    assert name[0] == '.';
  }

  /** A change in the config directory to a YAML file or to a file whose
      name starts with ".env". */
  predicate IsConfigFile(configDir: Path, p: Path) {
    RelativeTo(p, configDir)
    && (Suffix(Name(p)) == ".yaml" || Suffix(Name(p)) == ".yml" || StartsWith(Name(p), ".env"))
  }

  /** The per-file test of the code-directory loop: a ".py" file outside
      any "__pycache__" and not named "*.pyc". */
  predicate IsPythonSource(p: Path) {
    Suffix(Name(p)) == ".py" && !Contains(PathText(p), "__pycache__") && !EndsWith(Name(p), ".pyc")
  }

  predicate UnderSome(dirs: seq<Path>, p: Path) {
    exists i | 0 <= i < |dirs| :: RelativeTo(p, dirs[i])
  }

  /** The loop over the code directories, in order: true at the first
      directory holding `p` when `p` is a Python source. */
  function CodeDirsMatch(dirs: seq<Path>, p: Path): (r: bool)
    ensures r <==> UnderSome(dirs, p) && IsPythonSource(p)
    decreases |dirs|
  {
    if |dirs| == 0 then false
    else if RelativeTo(p, dirs[0]) && IsPythonSource(p) then true
    else
      var rest := CodeDirsMatch(dirs[1..], p);
      assert UnderSome(dirs, p) <==> RelativeTo(p, dirs[0]) || UnderSome(dirs[1..], p) by {
        if UnderSome(dirs[1..], p) {
          var i :| 0 <= i < |dirs| - 1 && RelativeTo(p, dirs[1..][i]);
          assert RelativeTo(p, dirs[i + 1]);
        }
        if UnderSome(dirs, p) && !RelativeTo(p, dirs[0]) {
          var i :| 0 <= i < |dirs| && RelativeTo(p, dirs[i]);
          assert i > 0 && dirs[1..][i - 1] == dirs[i];
        }
      }
      rest
  }

  /** The handler's state: the watched directories, the cooldown and the
      time of the last triggered reload (microseconds), and whether a
      reload is pending. */
  datatype Handler = Handler(configDir: Path, codeDirs: seq<Path>, cooldown: int,
                             lastReload: int, pending: bool)

  /** The parts of the application the handler consults: whether it has a
      Tk root, the `str` of its config file (None when it has none), and
      `sys.executable`. */
  datatype App = App(hasRoot: bool, configFile: Option<string>, python: string)

  /** `HotReloadHandler(app, config_dir, code_dirs, cooldown)`. */
  function NewHandler(configDir: Path, codeDirs: seq<Path>, cooldown: int): (h: Handler)
    ensures h.lastReload == 0 && !h.pending
  {
    Handler(configDir, codeDirs, cooldown, 0, false)
  }

  /** `_should_reload`: nothing within the cooldown of the last reload;
      otherwise a config file or a Python source under a code directory. */
  function ShouldReload(h: Handler, p: Path, now: int): (r: bool)
    ensures now - h.lastReload < h.cooldown ==> !r
    ensures now - h.lastReload >= h.cooldown ==>
      (r <==> IsConfigFile(h.configDir, p) || (UnderSome(h.codeDirs, p) && IsPythonSource(p)))
  {
    if now - h.lastReload < h.cooldown then false
    else IsConfigFile(h.configDir, p) || CodeDirsMatch(h.codeDirs, p)
  }

  /** `[sys.executable, "-m", "dashboard.main"]`, plus `--config` and the
      config path when there is a non-empty one. */
  function RestartCommand(app: App): (cmd: seq<string>)
    ensures |cmd| >= 3 && cmd[..3] == [app.python, "-m", "dashboard.main"]
    ensures |cmd| == 5 <==> app.configFile.Some? && app.configFile.value != ""
    ensures |cmd| == 5 ==> cmd[3] == "--config" && cmd[4] == app.configFile.value
    ensures |cmd| == 3 || |cmd| == 5
  {
    var base := [app.python, "-m", "dashboard.main"];
    match app.configFile
    case Some(path) => if path != "" then base + ["--config", path] else base
    case None => base
  }

  /** What the handler does in answer to an event. */
  datatype Reaction =
    | Ignored                                   // not a triggering change
    | Debounced                                 // triggered while a reload was pending
    | ReloadScheduled                           // `root.after(500, _perform_reload)`
    | Restart(cmd: seq<string>, viaRoot: bool)  // the restart, through Tk or directly

  /** `_perform_reload`: clear the pending flag and restart with the
      command; with a Tk root the restart is handed to the event loop. */
  function PerformReload(h: Handler, app: App): (r: (Handler, Reaction))
    ensures !r.0.pending && r.0 == h.(pending := false)
    ensures r.1 == Restart(RestartCommand(app), app.hasRoot)
  {
    (h.(pending := false), Restart(RestartCommand(app), app.hasRoot))
  }

  /** `_schedule_reload`: debounced by the pending flag; with a Tk root the
      reload runs later, otherwise at once. */
  function ScheduleReload(h: Handler, app: App): (r: (Handler, Reaction))
    ensures h.pending ==> r == (h, Debounced)
    ensures !h.pending && app.hasRoot ==> r == (h.(pending := true), ReloadScheduled)
    ensures !h.pending && !app.hasRoot ==> r.0 == h && r.1.Restart?
  {
    if h.pending then (h, Debounced)
    else
      var h1 := h.(pending := true);
      if app.hasRoot then (h1, ReloadScheduled) else PerformReload(h1, app)
  }

  datatype EventKind = Modified | Created | Moved | Deleted

  /** A watchdog event. */
  datatype FsEvent = FsEvent(kind: EventKind, isDirectory: bool, path: Path)

  /** `on_modified` / `on_created` (the others are not overridden): a file
      event that should reload records the time and schedules a reload. */
  function OnEvent(h: Handler, app: App, e: FsEvent, now: int): (r: (Handler, Reaction))
    ensures (e.kind != Modified && e.kind != Created) || e.isDirectory ==> r == (h, Ignored)
    ensures r.0.lastReload != h.lastReload ==> r.0.lastReload == now
    ensures r.1 != Ignored <==> (e.kind == Modified || e.kind == Created) && !e.isDirectory && ShouldReload(h, e.path, now)
    ensures r.1 == Ignored ==> r.0 == h
  {
    if (e.kind != Modified && e.kind != Created) || e.isDirectory || !ShouldReload(h, e.path, now) then (h, Ignored)
    else ScheduleReload(h.(lastReload := now), app)
  }

  /** A second event within the cooldown of a triggered one does nothing,
      whatever file it names. */
  lemma {:induction false} CooldownAfterTrigger(h: Handler, app: App, e1: FsEvent, t1: int, e2: FsEvent, t2: int)
    requires OnEvent(h, app, e1, t1).1 != Ignored
    requires t2 - t1 < h.cooldown
    ensures var h1 := OnEvent(h, app, e1, t1).0; OnEvent(h1, app, e2, t2) == (h1, Ignored)
  {
    var h1 := OnEvent(h, app, e1, t1).0;
    assert h1.lastReload == t1 && h1.cooldown == h.cooldown;
  }

  /** With a Tk root, a triggering event while a reload is pending is
      absorbed: it only moves the cooldown forward. */
  lemma {:induction false} PendingAbsorbsTrigger(h: Handler, app: App, e: FsEvent, now: int)
    requires h.pending && OnEvent(h, app, e, now).1 != Ignored
    ensures OnEvent(h, app, e, now) == (h.(lastReload := now), Debounced)
  {
  }

  /** Without a Tk root the reload is immediate and leaves nothing pending. */
  lemma {:induction false} NoRootRestartsAtOnce(h: Handler, app: App, e: FsEvent, now: int)
    requires !app.hasRoot && !h.pending && OnEvent(h, app, e, now).1 != Ignored
    ensures OnEvent(h, app, e, now) == (h.(lastReload := now), Restart(RestartCommand(app), false))
  {
  }

  /** A Python file saved in a code directory, once the cooldown has passed,
      schedules a reload through Tk. */
  lemma {:induction false} SavedSourceSchedulesReload(h: Handler, app: App, dir: Path, file: string, now: int)
    requires dir in h.codeDirs && |file| > 0 && forall j | 0 <= j < |file| :: file[j] != '.'
    requires !Contains(PathText(dir + [file + ".py"]), "__pycache__")
    requires now - h.lastReload >= h.cooldown && !h.pending && app.hasRoot
    ensures OnEvent(h, app, FsEvent(Modified, false, dir + [file + ".py"]), now)
         == (h.(lastReload := now, pending := true), ReloadScheduled)
  {
    var p := dir + [file + ".py"];
    SuffixOfExtension(file, "py");
    assert file + "." + "py" == file + ".py";
    assert Name(p) == file + ".py";
    assert RelativeTo(p, dir) by { assert p[..|dir|] == dir; }
    var i :| 0 <= i < |h.codeDirs| && h.codeDirs[i] == dir;
    assert UnderSome(h.codeDirs, p);
  }

  /** `HotReloadManager`: the code directories default to the dashboard
      package directory. */
  function ManagerCodeDirs(codeDirs: Option<seq<Path>>, dashboardDir: Path): (r: seq<Path>)
    ensures codeDirs.None? ==> r == [dashboardDir]
    ensures codeDirs.Some? ==> r == codeDirs.value
  {
    codeDirs.GetOr([dashboardDir])
  }
}

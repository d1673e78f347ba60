/** The startup decision sequence of the OpenShot launcher (`main()` after
    argument parsing): early exits, configuration of the `info` globals,
    extension of `sys.path`, the environment default for model testing,
    language validation, and the argument vector handed to the application. */
module Launch {
  import opened Wrappers
  import opened LaunchTypes
  import Text

  /** The level a debug flag gives a log channel. */
  const DebugLevel := "DEBUG"
  /** The Qt environment variable for logging rules, and the default the
      launcher gives it for model testing. */
  const LoggingRulesVar := "QT_LOGGING_RULES"
  const ModelTestRules := "qt.modeltest.debug=true"

  /** Python truthiness of the `--lang` value: absent and empty are alike. */
  predicate LanguageGiven(lang: Option<string>)
  {
    lang.Some? && lang.value != ""
  }

  /** A `--lang` value that the launcher rejects. */
  predicate BadLanguage(lang: Option<string>, supported: set<string>)
  {
    LanguageGiven(lang) && lang.value !in supported
  }

  /** Raises the file channel to DEBUG for `--debug` or `--debug-file`, the
      console channel for `--debug` or `--debug-console`; a channel no flag
      names keeps its level, and nothing else changes. */
  function SetLogLevels(info: Info, o: Options): (r: Info)
    ensures o.debug || o.debugFile ==> r.logLevelFile == DebugLevel
    ensures !(o.debug || o.debugFile) ==> r.logLevelFile == info.logLevelFile
    ensures o.debug || o.debugConsole ==> r.logLevelConsole == DebugLevel
    ensures !(o.debug || o.debugConsole) ==> r.logLevelConsole == info.logLevelConsole
    ensures r.modelTest == info.modelTest && r.webBackend == info.webBackend
    ensures r.cmdlineLanguage == info.cmdlineLanguage
  {
    var info1 := if o.debug || o.debugFile then info.(logLevelFile := DebugLevel) else info;
    if o.debug || o.debugConsole then info1.(logLevelConsole := DebugLevel) else info1
  }

  /** The rows printed by `--list-languages`, one per catalogue entry, in
      catalogue order. */
  function LanguageRows(catalogue: seq<(string, string)>): (r: seq<Message>)
    ensures |r| == |catalogue|
    ensures forall i :: 0 <= i < |catalogue| ==>
      r[i] == LanguageRow(catalogue[i].0, catalogue[i].1)
  {
    if catalogue == [] then []
    else [LanguageRow(catalogue[0].0, catalogue[0].1)] + LanguageRows(catalogue[1..])
  }

  /** True when the `--path` entry `p` contributes nothing: resolution
      raised or the resolved path does not exist. */
  predicate Skipped(p: string, ctx: Context)
  {
    ctx.realpath(p).None? || !ctx.pathExists(ctx.realpath(p).value)
  }

  /** The resolved path of `p` if it is to be searched, else nothing. */
  function Contribution(p: string, ctx: Context): seq<string>
  {
    if Skipped(p, ctx) then [] else [ctx.realpath(p).value]
  }

  /** What one `--path` entry reports: the resolved path added or missing,
      or the entry itself when resolution raised. */
  function PathMessage(p: string, ctx: Context): (r: Message)
  {
    match ctx.realpath(p)
    case None => BadPath(p)
    case Some(rp) => if ctx.pathExists(rp) then AddedPath(rp) else MissingPath(rp)
  }

  /** One iteration of the `--path` loop: an entry whose resolved path
      exists is inserted at index 0; otherwise the path is left as it was. */
  function InsertPath(sysPath: seq<string>, p: string, ctx: Context): (r: seq<string>)
  {
    match ctx.realpath(p)
    case None => sysPath
    case Some(rp) => if ctx.pathExists(rp) then [rp] + sysPath else sysPath
  }

  /** The whole `--path` loop over `ps`, in order: the final search path and
      the messages printed. Every entry prints exactly one message and no
      entry stops the loop. */
  function AddSearchPaths(sysPath: seq<string>, ps: seq<string>, ctx: Context)
    : (r: (seq<string>, seq<Message>))
    ensures |r.1| == |ps|
    ensures forall i :: 0 <= i < |ps| ==> r.1[i] == PathMessage(ps[i], ctx)
    decreases |ps|
  {
    if ps == [] then (sysPath, [])
    else
      var (path, msgs) := AddSearchPaths(InsertPath(sysPath, ps[0], ctx), ps[1..], ctx);
      (path, [PathMessage(ps[0], ctx)] + msgs)
  }

  /** `--test-models`: sets the model-test flag and gives the Qt logging
      rules a default only when the variable is unset, so an existing value
      is never overwritten and no other variable changes. */
  function ApplyModelTest(info: Info, env: map<string, string>, o: Options)
    : (r: (Info, map<string, string>))
    ensures r.0.modelTest == (info.modelTest || o.modelTest)
    ensures r.0 == info.(modelTest := r.0.modelTest)
    ensures r.1.Keys == env.Keys + (if o.modelTest then {LoggingRulesVar} else {})
    ensures forall k :: k in env ==> r.1[k] == env[k]
    ensures o.modelTest && LoggingRulesVar !in env ==> r.1[LoggingRulesVar] == ModelTestRules
  {
    if o.modelTest then
      var env1 := if LoggingRulesVar !in env then env[LoggingRulesVar := ModelTestRules] else env;
      (info.(modelTest := true), env1)
    else (info, env)
  }

  /** The argparse spelling of each backend choice. */
  function BackendChoice(b: Backend): string
  {
    match b
    case Auto => "auto"
    case WebKit => "webkit"
    case WebEngine => "webengine"
  }

  /** Stores the lower-cased backend choice; since the choices are already
      lower case, the stored value is the choice itself, one of the three. */
  function SetWebBackend(info: Info, b: Backend): (r: Info)
    ensures r.webBackend == BackendChoice(b)
    ensures r.webBackend in {"auto", "webkit", "webengine"}
    ensures r == info.(webBackend := r.webBackend)
  {
    match b
    case Auto => Text.LowerOfLowercase("auto"); SetLowered(info, b)
    case WebKit => Text.LowerOfLowercase("webkit"); SetLowered(info, b)
    case WebEngine => Text.LowerOfLowercase("webengine"); SetLowered(info, b)
  }

  function SetLowered(info: Info, b: Backend): Info
  {
    // a choice is never empty, so Python's truthiness test on it always passes
    if BackendChoice(b) != "" then info.(webBackend := Text.Lower(BackendChoice(b))) else info
  }

  /** Validates `--lang`: a given, supported code becomes the command-line
      language; a given, unsupported one fails naming that code; an absent
      or empty one changes nothing. */
  function SelectLanguage(info: Info, lang: Option<string>, supported: set<string>)
    : (r: Result<Info, string>)
    ensures r.Failure? <==> BadLanguage(lang, supported)
    ensures r.Failure? ==> r.error == lang.value
    ensures r.Success? && LanguageGiven(lang) ==>
      r.value == info.(cmdlineLanguage := lang) && lang.value in supported
    ensures r.Success? && !LanguageGiven(lang) ==> r.value == info
  {
    if LanguageGiven(lang) then
      if lang.value in supported then Success(info.(cmdlineLanguage := lang))
      else Failure(lang.value)
    else Success(info)
  }

  /** The argument vector given to the application: program name, the
      arguments the parser did not recognise, then the remainder. */
  function AppArgv(argv0: string, extra: seq<string>, remain: seq<string>): (r: seq<string>)
    ensures |r| == 1 + |extra| + |remain|
    ensures r[0] == argv0
    ensures r[1..1 + |extra|] == extra
    ensures r[1 + |extra|..] == remain
  {
    var r := [argv0] + extra + remain;
    assert r[1..1 + |extra|] == extra;
    r
  }

  /** The state after the configuration steps that run when neither
      `--version` nor `--list-languages` was given: log levels, search
      path, model test, web backend (language not yet applied). */
  function Configure(o: Options, ctx: Context, s: State): State
  {
    var info1 := SetLogLevels(s.info, o);
    var (path, msgs) := AddSearchPaths(s.sysPath, o.pyPath, ctx);
    var (info2, env) := ApplyModelTest(info1, s.env, o);
    var info3 := SetWebBackend(info2, o.webBackend);
    State(info3, path, env, s.out + msgs)
  }

  /** `main()` from the parsed options on: exits 0 for `--version` and
      `--list-languages`, exits -1 for an unsupported language, and
      otherwise starts the application, whose event-loop code becomes the
      exit code. */
  function Run(o: Options, extra: seq<string>, ctx: Context, s: State): (r: Outcome)
    ensures r.Exit? && r.code == 0 <==> o.version || o.listLanguages
    ensures r.Exit? && r.code == -1 <==>
      !o.version && !o.listLanguages && BadLanguage(o.lang, ctx.supported)
    ensures r.Started? <==>
      !o.version && !o.listLanguages && !BadLanguage(o.lang, ctx.supported)
    ensures r.Started? ==> r.code == ctx.loopCode
    ensures r.Started? ==> r.argv == [ctx.argv0] + extra + o.remain
  {
    if o.version then
      Exit(0, s.(out := s.out + [VersionLine(ctx.version)]))
    else if o.listLanguages then
      var out := s.out + [LanguagesHeader] + LanguageRows(ctx.catalogue);
      Exit(0, s.(info := SetLogLevels(s.info, o), out := out))
    else
      var s1 := Configure(o, ctx, s);
      match SelectLanguage(s1.info, o.lang, ctx.supported)
      case Failure(bad) =>
        Exit(-1, s1.(out := s1.out + [UnsupportedLanguage(bad)]))
      case Success(info) =>
        var s2 := s1.(info := info, out := s1.out + [LoadedModulesFrom(ctx.modulePath)]);
        Started(AppArgv(ctx.argv0, extra, o.remain), ctx.loopCode, s2)
  }
}

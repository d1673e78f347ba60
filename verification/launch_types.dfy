/** The data the launcher works on: the parsed command-line options, the
    process-wide configuration it mutates (the `info` module's globals,
    `sys.path`, the environment and what has been printed), the oracles it
    consults, and how a run ends. */
module LaunchTypes {
  import opened Wrappers

  /** The `-b/--web-backend` choices; argparse admits only these three. */
  datatype Backend = Auto | WebKit | WebEngine

  /** The parsed argument namespace. `lang` is `None` when `-l` was not
      given; `pyPath` is the `--path` list in command-line order (argparse's
      `None` for "never given" behaves like the empty list); `remain` is the
      `argparse.REMAINDER` positional. */
  datatype Options = Options(
    lang: Option<string>,
    listLanguages: bool,
    pyPath: seq<string>,
    modelTest: bool,
    webBackend: Backend,
    debug: bool,
    debugFile: bool,
    debugConsole: bool,
    version: bool,
    remain: seq<string>)

  /** The `info` globals the launcher writes. */
  datatype Info = Info(
    logLevelFile: string,
    logLevelConsole: string,
    modelTest: bool,
    webBackend: string,
    cmdlineLanguage: Option<string>)

  /** One line the launcher prints, identified by what it reports rather
      than by its exact text. */
  datatype Message =
    | VersionLine(version: string)
    | LanguagesHeader
    | LanguageRow(code: string, name: string)
    | AddedPath(resolved: string)
    | MissingPath(resolved: string)
    | BadPath(given: string)
    | UnsupportedLanguage(lang: string)
    | LoadedModulesFrom(path: string)

  /** Everything observable that the launcher can change. */
  datatype State = State(
    info: Info,
    sysPath: seq<string>,
    env: map<string, string>,
    out: seq<Message>)

  /** What the launcher consults but does not own. `realpath` yields `None`
      when resolution raises `TypeError`; `pathExists` is `os.path.exists`;
      `supported` is `info.SUPPORTED_LANGUAGES`; `catalogue` is what
      `get_all_languages()` returns; `loopCode` is what the application's
      event loop returns once the user quits. */
  datatype Context = Context(
    version: string,
    modulePath: string,
    argv0: string,
    supported: set<string>,
    catalogue: seq<(string, string)>,
    realpath: string -> Option<string>,
    pathExists: string -> bool,
    loopCode: int)

  /** How a run ends: `sys.exit(code)` before an application exists, or an
      application built from `argv` whose event loop's code becomes the
      process exit code. Either way, `state` is the configuration left
      behind. */
  datatype Outcome =
    | Exit(code: int, state: State)
    | Started(argv: seq<string>, code: int, state: State)
}

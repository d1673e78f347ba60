# OpenShot launcher startup sequence, in Dafny

This project models the startup decision sequence of the OpenShot Video
Editor launcher: the part of `main()` in `src/launch.py` that runs after the
command line has been parsed. Given the parsed options and the arguments the
parser did not recognise, the launcher does one of three things:

- it exits early: `--version` with code 0, `--list-languages` with code 0,
  or an unsupported `--lang` with code -1;
- it writes the process-wide configuration. This covers the log level of the
  file and console channels, extra module search paths (`sys.path`), the
  model-test flag, a default for `QT_LOGGING_RULES`, the web backend and the
  command-line language;
- it starts the application with a fixed argument vector. The event loop's
  return value becomes the process exit code.

`Launch.Run` models this as one pure function. It works over a `State`, which
holds the `info` globals, `sys.path`, the environment and the printed
messages. The things the launcher only consults come in a `Context`:
`realpath` (`None` when resolution raises `TypeError`), `os.path.exists`, the
supported-language set, the language catalogue, the version string, the
module path, `sys.argv[0]` and the event loop's return code. Because `Run` is a
function, two runs with the same inputs always produce the same configuration.

Modules:
- `Wrappers`: `Option` and `Result`.
- `Text`: ASCII lower-casing and the right-aligned language-listing row.
- `LaunchTypes`: options, `info` globals, messages, state, context, outcome.
- `Launch`: each step of the sequence and `Run`.
- `LaunchProperties`: all-inputs lemmas about `Run`. `ExistingResolved` is a
  reference definition of what `--path` contributes, and the lemmas relate
  the loop to it.

A rejected `--lang` does not undo earlier effects. The language check
(src/launch.py:166-171) runs after the log levels, `--path`, `--test-models`
and the web backend have been applied, and those effects stay in place when
the launcher exits with -1. `BadLanguageKeepsEarlierEffects` states this.

## Model

| member | source | states |
|---|---|---|
| Launch.Run | src/launch.py:127-198 | exit 0 iff `--version` or `--list-languages`; exit -1 iff past those and the language is given but unsupported; otherwise the app starts with argv = argv0 ++ extra ++ remain and the exit code is the event loop's code |
| Launch.SetLogLevels | src/launch.py:135-138 | file channel is DEBUG when `--debug` or `--debug-file`, console channel when `--debug` or `--debug-console`; an unnamed channel and the other globals are unchanged |
| Launch.LanguageRows | src/launch.py:143-144 | one row per catalogue entry, in catalogue order, carrying that entry's code and name |
| Text.FormatLanguageRow | src/launch.py:144 | a code of at most 12 characters ends at column 14 after space padding, positions 14-15 are two spaces and the name follows; a longer code is not truncated |
| Launch.AddSearchPaths | src/launch.py:147-157 | exactly one message per `--path` entry, the i-th about the i-th entry, so the loop never stops early (the resulting search path is stated by `AddSearchPathsReversesExisting` and `AddSearchPathsKeepsOldPath`) |
| Launch.ApplyModelTest | src/launch.py:159-163 | `--test-models` sets the flag; `QT_LOGGING_RULES` gets `qt.modeltest.debug=true` only when unset; no existing variable changes value and no other variable is added |
| Launch.SetWebBackend | src/launch.py:164-165 | the stored backend is the lower-cased choice, which equals the choice itself and is one of auto, webkit, webengine |
| Text.Lower | src/launch.py:165 | length kept, each upper-case ASCII letter becomes the lower-case letter at the same alphabet position, every other character is kept in place |
| Text.LowerOfLowercase | src/launch.py:165 | lower-casing a string with no upper-case letter returns it unchanged |
| Launch.SelectLanguage | src/launch.py:166-171 | fails iff a non-empty code is not supported, and the failure names that code; a supported code becomes the command-line language; an absent or empty code changes nothing |
| Launch.AppArgv | src/launch.py:179-181 | the app's argv is argv0, then the unrecognised arguments, then the remainder, with nothing added or dropped |
| LaunchProperties.VersionChangesNothing | src/launch.py:130-132 | `--version` exits 0 with only the version line printed; log levels, search path, flags, environment and language are untouched and no app is built |
| LaunchProperties.DebugLevelsAfterRun | src/launch.py:135-138 | after the version check, each channel is DEBUG iff its flag or `--debug` was given or it already was, and it is otherwise unchanged, however the run ends |
| LaunchProperties.DebugFlagsActPerChannel | src/launch.py:135-138 | replacing the three debug flags by any flags that agree with them on the two per-channel tests gives an identical run |
| LaunchProperties.DebugEqualsFileAndConsole | src/launch.py:135-138 | `--debug` alone produces the same run as `--debug-file --debug-console` |
| LaunchProperties.ListLanguagesExits | src/launch.py:140-145 | `--list-languages` exits 0 after the log levels are set, printing a header and one row per catalogue entry; search path, environment, model test, backend and language are untouched |
| LaunchProperties.AddSearchPathsReversesExisting | src/launch.py:147-157 | the final search path is the reverse of the existing resolved `--path` entries, followed by the old path |
| LaunchProperties.AddSearchPathsKeepsOldPath | src/launch.py:147-157 | the loop adds at most one path per entry and the old search path survives unchanged as a suffix |
| LaunchProperties.InsertPathPrepends | src/launch.py:150-151 | one iteration of the loop (`Launch.InsertPath`) puts the resolved entry in front of the search path when it exists, and otherwise leaves the path as it was |
| LaunchProperties.PathMessageReports | src/launch.py:150-157 | the message about one entry (`Launch.PathMessage`) names the entry itself exactly when resolution raised, and otherwise the resolved path; it reports the path as added exactly when that path is put on the search path, and as missing otherwise |
| LaunchProperties.AddedMessagesNameAddedPaths | src/launch.py:147-157 | the entries the loop reports as added are exactly the ones it puts on the search path, in command-line order, each named by its resolved path |
| LaunchProperties.ConfigureEffects | src/launch.py:135-165 | the configuration steps (`Launch.Configure`), field by field: each debug channel is raised exactly when a flag names it, the model-test flag and backend are set, the language is not yet touched, the accepted entries precede the old search path in reverse order, one message per entry is printed with exactly the accepted entries reported as added, and the environment only gains `QT_LOGGING_RULES`, never changing an existing value |
| LaunchProperties.SearchPathAfterRun | src/launch.py:147-157 | the same holds for the search path after any run that gets past the early exits, including a run whose language is rejected |
| LaunchProperties.LastPathWins | src/launch.py:148-151 | of two existing `--path` entries, the one given last is searched first |
| LaunchProperties.LastPathFirst | src/launch.py:148-151 | within the `--path` loop, two existing entries end up in front of the old path, the later entry first |
| LaunchProperties.SkippedPathOnlyReports | src/launch.py:153-157 | a missing or unresolvable entry does not change how the run ends, its configuration or its search path; the output is exactly that of the run without the entry, with one diagnostic inserted in the entry's place, naming the resolved path (or the entry itself when resolution raised) |
| LaunchProperties.SkippedPathLeavesSearchPath | src/launch.py:153-157 | within the `--path` loop, a skipped entry leaves the final search path as if it were absent |
| LaunchProperties.EnvironmentNeverOverwritten | src/launch.py:161-163 | on every run, a variable that was set keeps its value and only `QT_LOGGING_RULES` can be added |
| LaunchProperties.ModelTestEffects | src/launch.py:159-163 | past the early exits, `--test-models` sets the flag and leaves `QT_LOGGING_RULES` set, to the default if it was unset; without the option, the flag and the environment are unchanged |
| LaunchProperties.WebBackendAfterRun | src/launch.py:164-165 | past the early exits, the stored backend is the chosen one, even when the language is then rejected |
| LaunchProperties.BadLanguageKeepsEarlierEffects | src/launch.py:166-171 | an unsupported language exits -1 and the last line printed names the code; log levels, search path, model test, environment and backend stay as configured; the command-line language is unchanged |
| LaunchProperties.StartedRun | src/launch.py:166-198 | a started run has the configuration applied and the language set when one was given; it prints the module path last, passes argv0 ++ extra ++ remain to the app, and exits with the event loop's code |

## Left out

- Argument parsing with argparse (lines 92-127): `Run` takes the parsed options and the unrecognised arguments as inputs. Usage errors therefore do not appear in the model.
- Import-time side effects (lines 47-80): Qt attribute setting, OpenGL and WebEngine import probing, the `sys.path` import fallback and the Sentry tracing hook. These are foreign calls made before `main()`.
- The file system, `realpath` and the environment are not accessed directly. They appear as context oracles and state.
- `os.putenv` does not update Python's `os.environ`, which `os.getenv` reads. The model uses one environment map, which stands for the process environment that Qt reads.
- Exit codes are the arguments passed to `sys.exit`. On POSIX, `sys.exit(-1)` produces the status byte 255, and that conversion is not modelled.
- Application construction, `gui()`, the event loop itself, the name and version setters and the `setDesktopFile` capability probe (lines 177-198) are Qt. The event loop's return code is an input.
- The construction-failure handler (lines 184-185) is not modelled. It calls `show_errors()` on the global `app`, which is still `None` at that point, so it would raise in turn. The model assumes construction succeeds and does not present that handler as a safe fallback.
- Messages are abstract values that record what they report, such as the offending path or language code. Their exact text is not modelled. `Text.FormatLanguageRow` states the layout of one language-listing row on its own; the `LanguageRow` messages of the model are not rendered through it.
- Text.Lower: only ASCII letters are lower-cased, not Python's full Unicode `str.lower`. The backend choices are plain ASCII, so this does not affect the launcher.

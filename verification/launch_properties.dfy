/** Properties of the launcher's startup sequence, stated over `Launch.Run`
    and its steps for all options, oracles and starting states. */
module LaunchProperties {
  import opened Wrappers
  import opened LaunchTypes
  import opened Launch

  /** The reverse of a sequence. */
  function Reverse<T>(s: seq<T>): (r: seq<T>)
    ensures |r| == |s|
  {
    if s == [] then [] else Reverse(s[1..]) + [s[0]]
  }

  /** Reference definition of what `--path` contributes: the resolved paths
      of the entries that resolve and exist, in command-line order. */
  function ExistingResolved(ps: seq<string>, ctx: Context): seq<string>
  {
    if ps == [] then []
    else Contribution(ps[0], ctx) + ExistingResolved(ps[1..], ctx)
  }

  // ---------------------------------------------------------------------
  // --version

  /** `--version` exits 0 having printed the version and changed nothing
      else: no log level, search path, flag, environment variable or
      language, and no application. */
  lemma VersionChangesNothing(o: Options, extra: seq<string>, ctx: Context, s: State)
    requires o.version
    ensures var r := Run(o, extra, ctx, s);
      && r.Exit? && r.code == 0
      && r.state.info == s.info
      && r.state.sysPath == s.sysPath
      && r.state.env == s.env
      && r.state.out == s.out + [VersionLine(ctx.version)]
  {
  }

  // ---------------------------------------------------------------------
  // Debug flags

  /** After the version check, the file channel is DEBUG exactly when
      `--debug` or `--debug-file` was given or it already was DEBUG, the
      console channel likewise with `--debug-console`, and a channel no
      flag names keeps its level, however the run ends. */
  lemma DebugLevelsAfterRun(o: Options, extra: seq<string>, ctx: Context, s: State)
    requires !o.version
    ensures var info := Run(o, extra, ctx, s).state.info;
      && (info.logLevelFile == DebugLevel <==>
            o.debug || o.debugFile || s.info.logLevelFile == DebugLevel)
      && (!(o.debug || o.debugFile) ==> info.logLevelFile == s.info.logLevelFile)
      && (info.logLevelConsole == DebugLevel <==>
            o.debug || o.debugConsole || s.info.logLevelConsole == DebugLevel)
      && (!(o.debug || o.debugConsole) ==> info.logLevelConsole == s.info.logLevelConsole)
  {
  }

  /** The three debug flags influence a run only through the two channel
      tests: replacing them by any flags that agree on those tests gives
      the same run. */
  lemma DebugFlagsActPerChannel(o: Options, d: bool, f: bool, c: bool, extra: seq<string>, ctx: Context, s: State)
    requires (o.debug || o.debugFile) == (d || f)
    requires (o.debug || o.debugConsole) == (d || c)
    ensures Run(o.(debug := d, debugFile := f, debugConsole := c), extra, ctx, s) == Run(o, extra, ctx, s)
  {
  }

  /** `--debug` alone gives the same run as `--debug-file --debug-console`. */
  lemma DebugEqualsFileAndConsole(o: Options, extra: seq<string>, ctx: Context, s: State)
    ensures Run(o.(debug := true, debugFile := false, debugConsole := false), extra, ctx, s)
         == Run(o.(debug := false, debugFile := true, debugConsole := true), extra, ctx, s)
  {
  }

  // ---------------------------------------------------------------------
  // --list-languages

  /** `--list-languages` exits 0 after the log levels are set, printing a
      header and then one row per catalogue entry in catalogue order; the
      search path, environment, model-test flag, backend and language are
      untouched and no application is built. */
  lemma ListLanguagesExits(o: Options, extra: seq<string>, ctx: Context, s: State)
    requires !o.version && o.listLanguages
    ensures var r := Run(o, extra, ctx, s);
      && r.Exit? && r.code == 0
      && r.state.info == SetLogLevels(s.info, o)
      && r.state.info.modelTest == s.info.modelTest
      && r.state.info.webBackend == s.info.webBackend
      && r.state.info.cmdlineLanguage == s.info.cmdlineLanguage
      && r.state.sysPath == s.sysPath
      && r.state.env == s.env
      && |r.state.out| == |s.out| + 1 + |ctx.catalogue|
      && r.state.out[..|s.out|] == s.out
      && r.state.out[|s.out|] == LanguagesHeader
      && (forall i :: 0 <= i < |ctx.catalogue| ==>
            r.state.out[|s.out| + 1 + i] == LanguageRow(ctx.catalogue[i].0, ctx.catalogue[i].1))
  {
  }

  // ---------------------------------------------------------------------
  // --path

  /** The `--path` loop leaves the search path as the reverse of the
      existing resolved entries followed by the old path: each accepted
      entry is inserted in front of all earlier ones. */
  lemma {:induction false} AddSearchPathsReversesExisting(sysPath: seq<string>, ps: seq<string>, ctx: Context)
    ensures AddSearchPaths(sysPath, ps, ctx).0 == Reverse(ExistingResolved(ps, ctx)) + sysPath
    decreases |ps|
  {
    if ps != [] {
      var c := Contribution(ps[0], ctx);
      var rest := ExistingResolved(ps[1..], ctx);
      var next := InsertPath(sysPath, ps[0], ctx);
      assert AddSearchPaths(sysPath, ps, ctx).0 == AddSearchPaths(next, ps[1..], ctx).0;
      AddSearchPathsReversesExisting(next, ps[1..], ctx);
      InsertPathPrepends(sysPath, ps[0], ctx);
      ReverseShortPrefix(c, rest);
      assert ExistingResolved(ps, ctx) == c + rest;
      assert Reverse(rest) + (c + sysPath) == (Reverse(rest) + c) + sysPath;
    }
  }

  /** The `--path` loop adds at most one path per entry and keeps the old
      search path, unchanged, as a suffix. */
  lemma AddSearchPathsKeepsOldPath(sysPath: seq<string>, ps: seq<string>, ctx: Context)
    ensures var path := AddSearchPaths(sysPath, ps, ctx).0;
      && |sysPath| <= |path| <= |sysPath| + |ps|
      && path[|path| - |sysPath|..] == sysPath
  {
    AddSearchPathsReversesExisting(sysPath, ps, ctx);
    ExistingResolvedBound(ps, ctx);
  }

  /** Each entry contributes at most one path. */
  lemma {:induction false} ExistingResolvedBound(ps: seq<string>, ctx: Context)
    ensures |ExistingResolved(ps, ctx)| <= |ps|
    decreases |ps|
  {
    if ps != [] {
      ExistingResolvedBound(ps[1..], ctx);
    }
  }

  /** The message about one `--path` entry: it names the entry itself
      exactly when resolution raised, and otherwise the resolved path, as
      added exactly when that path is put on the search path. */
  lemma PathMessageReports(p: string, ctx: Context)
    ensures var r := PathMessage(p, ctx);
      && (r.AddedPath? || r.MissingPath? || r.BadPath?)
      && (r.BadPath? <==> ctx.realpath(p).None?)
      && (r.BadPath? ==> r.given == p)
      && (r.AddedPath? <==> Contribution(p, ctx) != [])
      && (!r.BadPath? ==> r.resolved == ctx.realpath(p).value)
  {
  }

  /** The paths the `--path` messages report as added, in order. */
  function AddedIn(msgs: seq<Message>): seq<string>
  {
    if msgs == [] then []
    else (if msgs[0].AddedPath? then [msgs[0].resolved] else []) + AddedIn(msgs[1..])
  }

  /** The `--path` loop reports as added exactly the paths it puts on the
      search path, in command-line order, each by its resolved name. */
  lemma {:induction false} AddedMessagesNameAddedPaths(sysPath: seq<string>, ps: seq<string>, ctx: Context)
    ensures AddedIn(AddSearchPaths(sysPath, ps, ctx).1) == ExistingResolved(ps, ctx)
    decreases |ps|
  {
    if ps != [] {
      var msgs := AddSearchPaths(sysPath, ps, ctx).1;
      var rest := AddSearchPaths(InsertPath(sysPath, ps[0], ctx), ps[1..], ctx).1;
      assert msgs == [PathMessage(ps[0], ctx)] + rest;
      assert msgs[1..] == rest;
      AddedMessagesNameAddedPaths(InsertPath(sysPath, ps[0], ctx), ps[1..], ctx);
    }
  }

  /** The configuration steps, field by field: each debug channel is
      raised exactly when a flag names it, the model-test flag is set by
      `--test-models`, the backend choice is stored, the language is not
      yet touched, the accepted `--path` entries end up in front of the old
      search path in reverse order, one message per entry is printed with
      exactly those entries reported as added, and the environment only
      gains the Qt logging rules, never changing an existing value. */
  lemma ConfigureEffects(o: Options, ctx: Context, s: State)
    ensures var r := Configure(o, ctx, s);
      && r.info.logLevelFile == (if o.debug || o.debugFile then DebugLevel else s.info.logLevelFile)
      && r.info.logLevelConsole == (if o.debug || o.debugConsole then DebugLevel else s.info.logLevelConsole)
      && r.info.modelTest == (s.info.modelTest || o.modelTest)
      && r.info.webBackend == BackendChoice(o.webBackend)
      && r.info.cmdlineLanguage == s.info.cmdlineLanguage
      && r.sysPath == Reverse(ExistingResolved(o.pyPath, ctx)) + s.sysPath
      && |r.out| == |s.out| + |o.pyPath| && r.out[..|s.out|] == s.out
      && AddedIn(r.out[|s.out|..]) == ExistingResolved(o.pyPath, ctx)
      && r.env.Keys == s.env.Keys + (if o.modelTest then {LoggingRulesVar} else {})
      && forall k :: k in s.env ==> r.env[k] == s.env[k]
  {
    AddSearchPathsReversesExisting(s.sysPath, o.pyPath, ctx);
    AddedMessagesNameAddedPaths(s.sysPath, o.pyPath, ctx);
    assert Configure(o, ctx, s).out[|s.out|..] == AddSearchPaths(s.sysPath, o.pyPath, ctx).1;
  }

  /** One loop iteration prepends the entry's contribution. */
  lemma InsertPathPrepends(sysPath: seq<string>, p: string, ctx: Context)
    ensures InsertPath(sysPath, p, ctx) == Contribution(p, ctx) + sysPath
  {
  }

  /** Reversing past a prefix of at most one element moves it to the end. */
  lemma ReverseShortPrefix<T>(c: seq<T>, s: seq<T>)
    requires |c| <= 1
    ensures Reverse(c + s) == Reverse(s) + c
  {
    if c == [] {
      assert c + s == s;
    } else {
      assert (c + s)[1..] == s;
    }
  }

  /** The reference contribution of a concatenation is the concatenation of
      the contributions. */
  lemma {:induction false} ExistingResolvedAppend(a: seq<string>, b: seq<string>, ctx: Context)
    ensures ExistingResolved(a + b, ctx) == ExistingResolved(a, ctx) + ExistingResolved(b, ctx)
    decreases |a|
  {
    if a == [] {
      assert a + b == b;
    } else {
      assert (a + b)[0] == a[0];
      assert (a + b)[1..] == a[1..] + b;
      ExistingResolvedAppend(a[1..], b, ctx);
      calc {
        ExistingResolved(a + b, ctx);
        Contribution(a[0], ctx) + ExistingResolved(a[1..] + b, ctx);
        Contribution(a[0], ctx) + (ExistingResolved(a[1..], ctx) + ExistingResolved(b, ctx));
        (Contribution(a[0], ctx) + ExistingResolved(a[1..], ctx)) + ExistingResolved(b, ctx);
      }
    }
  }

  /** After a run that gets past the early exits, whether it then starts the
      application or rejects the language, the search path is the reverse of
      the existing resolved `--path` entries followed by the old path. */
  lemma SearchPathAfterRun(o: Options, extra: seq<string>, ctx: Context, s: State)
    requires !o.version && !o.listLanguages
    ensures Run(o, extra, ctx, s).state.sysPath
         == Reverse(ExistingResolved(o.pyPath, ctx)) + s.sysPath
  {
    AddSearchPathsReversesExisting(s.sysPath, o.pyPath, ctx);
  }

  /** Of two existing `--path` entries, the one given last is searched
      first. */
  lemma LastPathWins(o: Options, extra: seq<string>, ctx: Context, s: State, a: string, b: string)
    requires !o.version && !o.listLanguages && o.pyPath == [a, b]
    requires ctx.realpath(a).Some? && ctx.pathExists(ctx.realpath(a).value)
    requires ctx.realpath(b).Some? && ctx.pathExists(ctx.realpath(b).value)
    ensures Run(o, extra, ctx, s).state.sysPath
         == [ctx.realpath(b).value, ctx.realpath(a).value] + s.sysPath
  {
    LastPathFirst(s.sysPath, a, b, ctx);
  }

  /** The loop-level half of the above. */
  lemma LastPathFirst(sysPath: seq<string>, a: string, b: string, ctx: Context)
    requires !Skipped(a, ctx) && !Skipped(b, ctx)
    ensures AddSearchPaths(sysPath, [a, b], ctx).0
         == [ctx.realpath(b).value, ctx.realpath(a).value] + sysPath
  {
    AddSearchPathsReversesExisting(sysPath, [a, b], ctx);
    ExistingPair(a, b, ctx);
    ReverseShortPrefix([ctx.realpath(a).value], [ctx.realpath(b).value]);
  }

  lemma ExistingPair(a: string, b: string, ctx: Context)
    requires !Skipped(a, ctx) && !Skipped(b, ctx)
    ensures ExistingResolved([a, b], ctx) == [ctx.realpath(a).value, ctx.realpath(b).value]
  {
    assert [a, b][1..] == [b];
    assert [b][1..] == [];
    assert ExistingResolved([b], ctx) == Contribution(b, ctx) + ExistingResolved([], ctx);
    assert ExistingResolved([a, b], ctx) == Contribution(a, ctx) + ExistingResolved([b], ctx);
  }

  /** A `--path` entry that does not resolve or does not exist is skipped:
      the run ends exactly as without it, except that its one diagnostic,
      naming the resolved path (or the entry, if resolution raised), is
      printed in its place among the other entries' messages. */
  lemma SkippedPathOnlyReports(o: Options, extra: seq<string>, ctx: Context, s: State,
                               ps1: seq<string>, p: string, ps2: seq<string>)
    requires !o.version && !o.listLanguages && o.pyPath == ps1 + [p] + ps2
    requires Skipped(p, ctx)
    ensures var r := Run(o, extra, ctx, s);
      var r' := Run(o.(pyPath := ps1 + ps2), extra, ctx, s);
      var k := |s.out| + |ps1|;
      && r.Started? == r'.Started? && r.code == r'.code
      && r.state.info == r'.state.info
      && r.state.sysPath == r'.state.sysPath
      && r.state.env == r'.state.env
      && k <= |r'.state.out|
      && r.state.out == r'.state.out[..k] + [PathMessage(p, ctx)] + r'.state.out[k..]
      && PathMessage(p, ctx) ==
           (if ctx.realpath(p).None? then BadPath(p) else MissingPath(ctx.realpath(p).value))
  {
    SkippedPathRunState(o, extra, ctx, s, ps1, p, ps2);
    SkippedPathRunOutput(o, extra, ctx, s, ps1, p, ps2);
  }

  /** How the run ends and the configuration it leaves, with and without a
      skipped entry. */
  lemma SkippedPathRunState(o: Options, extra: seq<string>, ctx: Context, s: State,
                            ps1: seq<string>, p: string, ps2: seq<string>)
    requires !o.version && !o.listLanguages && o.pyPath == ps1 + [p] + ps2
    requires Skipped(p, ctx)
    ensures var r := Run(o, extra, ctx, s);
      var r' := Run(o.(pyPath := ps1 + ps2), extra, ctx, s);
      && r.Started? == r'.Started? && r.code == r'.code
      && r.state.info == r'.state.info
      && r.state.sysPath == r'.state.sysPath
      && r.state.env == r'.state.env
  {
    SkippedPathConfigure(o, ctx, s, ps1, p, ps2);
    RunSeesConfiguration(o, o.(pyPath := ps1 + ps2), extra, ctx, s);
  }

  /** The output of a run with a skipped entry is that of the run without
      it, with the entry's message spliced in among the path messages. */
  lemma SkippedPathRunOutput(o: Options, extra: seq<string>, ctx: Context, s: State,
                             ps1: seq<string>, p: string, ps2: seq<string>)
    requires !(o.version || o.listLanguages) && o.pyPath == ps1 + [p] + ps2
    ensures var out := Run(o, extra, ctx, s).state.out;
      var out' := Run(o.(pyPath := ps1 + ps2), extra, ctx, s).state.out;
      var k := |s.out| + |ps1|;
      k <= |out'| && out == out'[..k] + [PathMessage(p, ctx)] + out'[k..]
  {
    RunOutput(o, extra, ctx, s);
    RunOutput(o.(pyPath := ps1 + ps2), extra, ctx, s);
    SkippedPathOutputs(Run(o, extra, ctx, s).state.out, Run(o.(pyPath := ps1 + ps2), extra, ctx, s).state.out,
                       s.out, s.sysPath, ps1, p, ps2, ctx, ClosingMessage(o.lang, ctx));
  }

  /** The output half of the above, for any output that is a prefix, the
      `--path` messages and one closing line. */
  lemma SkippedPathOutputs(out: seq<Message>, out': seq<Message>, pre: seq<Message>, sysPath: seq<string>,
                           ps1: seq<string>, p: string, ps2: seq<string>, ctx: Context, last: Message)
    requires out == pre + AddSearchPaths(sysPath, ps1 + [p] + ps2, ctx).1 + [last]
    requires out' == pre + AddSearchPaths(sysPath, ps1 + ps2, ctx).1 + [last]
    ensures |pre| + |ps1| <= |out'|
    ensures out == out'[..|pre| + |ps1|] + [PathMessage(p, ctx)] + out'[|pre| + |ps1|..]
  {
    var m := AddSearchPaths(sysPath, ps1 + [p] + ps2, ctx).1;
    var m' := AddSearchPaths(sysPath, ps1 + ps2, ctx).1;
    SkippedPathMessages(m, m', ps1, p, ps2, ctx);
    Splice(out, out', pre, m, m', |ps1|, PathMessage(p, ctx), last);
  }

  /** The configuration half of the above. */
  lemma SkippedPathConfigure(o: Options, ctx: Context, s: State,
                             ps1: seq<string>, p: string, ps2: seq<string>)
    requires o.pyPath == ps1 + [p] + ps2 && Skipped(p, ctx)
    ensures var c := Configure(o, ctx, s);
      var c' := Configure(o.(pyPath := ps1 + ps2), ctx, s);
      var m := AddSearchPaths(s.sysPath, o.pyPath, ctx).1;
      var m' := AddSearchPaths(s.sysPath, ps1 + ps2, ctx).1;
      && c.info == c'.info && c.sysPath == c'.sysPath && c.env == c'.env
      && c.out == s.out + m && c'.out == s.out + m'
      && |ps1| <= |m'| && m == m'[..|ps1|] + [PathMessage(p, ctx)] + m'[|ps1|..]
  {
    SkippedPathLeavesSearchPath(s.sysPath, ps1, p, ps2, ctx);
    var m := AddSearchPaths(s.sysPath, o.pyPath, ctx).1;
    var m' := AddSearchPaths(s.sysPath, ps1 + ps2, ctx).1;
    SkippedPathMessages(m, m', ps1, p, ps2, ctx);
  }

  /** Past the early exits, how a run ends and the configuration it leaves
      depend on the other options only through the configured state. */
  lemma RunSeesConfiguration(o: Options, o': Options, extra: seq<string>, ctx: Context, s: State)
    requires !o.version && !o.listLanguages && !o'.version && !o'.listLanguages
    requires o.lang == o'.lang && o.remain == o'.remain
    requires Configure(o, ctx, s).info == Configure(o', ctx, s).info
    requires Configure(o, ctx, s).sysPath == Configure(o', ctx, s).sysPath
    requires Configure(o, ctx, s).env == Configure(o', ctx, s).env
    ensures var r, r' := Run(o, extra, ctx, s), Run(o', extra, ctx, s);
      && r.Started? == r'.Started? && r.code == r'.code
      && r.state.info == r'.state.info
      && r.state.sysPath == r'.state.sysPath
      && r.state.env == r'.state.env
  {
  }

  /** Two outputs made of a common prefix, a middle section and one closing
      line, whose middle sections differ by one inserted message, differ by
      that message alone. */
  lemma Splice<T>(out: seq<T>, out': seq<T>, pre: seq<T>,
                  m: seq<T>, m': seq<T>, j: nat, x: T, last: T)
    requires out == pre + m + [last] && out' == pre + m' + [last]
    requires j <= |m'| && m == m'[..j] + [x] + m'[j..]
    ensures |pre| + j <= |out'|
    ensures out == out'[..|pre| + j] + [x] + out'[|pre| + j..]
  {
    assert out'[..|pre| + j] == pre + m'[..j];
    assert out'[|pre| + j..] == m'[j..] + [last];
  }

  /** Message lists that report, one per entry, on `ps1 + [p] + ps2` and on
      `ps1 + ps2` differ only by the message about `p`, in its place. */
  lemma SkippedPathMessages(m: seq<Message>, m': seq<Message>,
                            ps1: seq<string>, p: string, ps2: seq<string>, ctx: Context)
    requires |m| == |ps1 + [p] + ps2| && |m'| == |ps1 + ps2|
    requires forall i :: 0 <= i < |m| ==> m[i] == PathMessage((ps1 + [p] + ps2)[i], ctx)
    requires forall i :: 0 <= i < |m'| ==> m'[i] == PathMessage((ps1 + ps2)[i], ctx)
    ensures |ps1| <= |m'| && m == m'[..|ps1|] + [PathMessage(p, ctx)] + m'[|ps1|..]
  {
    var w := m'[..|ps1|] + [PathMessage(p, ctx)] + m'[|ps1|..];
    assert |w| == |m|;
    forall i | 0 <= i < |m| ensures m[i] == w[i] {
      if i < |ps1| {
        assert (ps1 + [p] + ps2)[i] == ps1[i] == (ps1 + ps2)[i];
      } else if i == |ps1| {
        assert (ps1 + [p] + ps2)[i] == p;
      } else {
        assert (ps1 + [p] + ps2)[i] == ps2[i - |ps1| - 1] == (ps1 + ps2)[i - 1];
      }
    }
  }

  /** The last line of a run past the early exits: the rejected language,
      or the module path. */
  function ClosingMessage(lang: Option<string>, ctx: Context): Message
  {
    if BadLanguage(lang, ctx.supported) then UnsupportedLanguage(lang.value)
    else LoadedModulesFrom(ctx.modulePath)
  }

  lemma RunOutput(o: Options, extra: seq<string>, ctx: Context, s: State)
    requires !(o.version || o.listLanguages)
    ensures Run(o, extra, ctx, s).state.out
         == s.out + AddSearchPaths(s.sysPath, o.pyPath, ctx).1 + [ClosingMessage(o.lang, ctx)]
  {
    assert Run(o, extra, ctx, s).state.out == Configure(o, ctx, s).out + [ClosingMessage(o.lang, ctx)];
  }

  /** The search-path half of the above, for the loop alone. */
  lemma SkippedPathLeavesSearchPath(sysPath: seq<string>, ps1: seq<string>, p: string, ps2: seq<string>, ctx: Context)
    requires Skipped(p, ctx)
    ensures AddSearchPaths(sysPath, ps1 + [p] + ps2, ctx).0 == AddSearchPaths(sysPath, ps1 + ps2, ctx).0
  {
    AddSearchPathsReversesExisting(sysPath, ps1 + [p] + ps2, ctx);
    AddSearchPathsReversesExisting(sysPath, ps1 + ps2, ctx);
    ExistingResolvedAppend(ps1 + [p], ps2, ctx);
    ExistingResolvedAppend(ps1, [p], ctx);
    ExistingResolvedAppend(ps1, ps2, ctx);
    assert ExistingResolved([p], ctx) == [];
    assert ExistingResolved(ps1 + [p], ctx) == ExistingResolved(ps1, ctx);
  }

  // ---------------------------------------------------------------------
  // --test-models and the environment

  /** An environment variable that is already set is never overwritten,
      and the launcher never touches any variable other than the Qt logging
      rules, however the run ends. */
  lemma EnvironmentNeverOverwritten(o: Options, extra: seq<string>, ctx: Context, s: State)
    ensures var env := Run(o, extra, ctx, s).state.env;
      && (forall k :: k in s.env ==> k in env && env[k] == s.env[k])
      && (forall k :: k in env && k != LoggingRulesVar ==> k in s.env)
      && (LoggingRulesVar in s.env ==> env == s.env)
  {
  }

  /** Once past the early exits, `--test-models` sets the model-test flag
      and leaves the Qt logging rules set, to the default when they were
      unset; without it the flag and the environment are as before. */
  lemma ModelTestEffects(o: Options, extra: seq<string>, ctx: Context, s: State)
    requires !o.version && !o.listLanguages
    ensures var st := Run(o, extra, ctx, s).state;
      && (o.modelTest ==> st.info.modelTest && LoggingRulesVar in st.env)
      && (o.modelTest && LoggingRulesVar !in s.env ==> st.env[LoggingRulesVar] == ModelTestRules)
      && (!o.modelTest ==> st.info.modelTest == s.info.modelTest && st.env == s.env)
  {
  }

  // ---------------------------------------------------------------------
  // Web backend

  /** Once past the early exits, the stored backend is the chosen one, one
      of `auto`, `webkit`, `webengine`, even if the language is rejected. */
  lemma WebBackendAfterRun(o: Options, extra: seq<string>, ctx: Context, s: State)
    requires !o.version && !o.listLanguages
    ensures var b := Run(o, extra, ctx, s).state.info.webBackend;
      b == BackendChoice(o.webBackend) && b in {"auto", "webkit", "webengine"}
  {
  }

  // ---------------------------------------------------------------------
  // Language

  /** An unsupported `--lang` exits -1 with a diagnostic naming the code as
      the last line printed, but the log levels, search path, model test,
      environment and backend set before the check stay as configured, and
      the command-line language is left alone. */
  lemma BadLanguageKeepsEarlierEffects(o: Options, extra: seq<string>, ctx: Context, s: State)
    requires !o.version && !o.listLanguages && BadLanguage(o.lang, ctx.supported)
    ensures var r := Run(o, extra, ctx, s);
      var c := Configure(o, ctx, s);
      && r.Exit? && r.code == -1
      && r.state.info == c.info
      && r.state.info.cmdlineLanguage == s.info.cmdlineLanguage
      && r.state.sysPath == c.sysPath
      && r.state.env == c.env
      && r.state.out == c.out + [UnsupportedLanguage(o.lang.value)]
  {
  }

  /** A run that starts the application has applied the configuration, set
      the command-line language to the given code (or left it alone when
      none or an empty one was given), reported where modules are loaded
      from, and hands the application the program name, the unrecognised
      arguments and the remainder, in that order. */
  lemma StartedRun(o: Options, extra: seq<string>, ctx: Context, s: State)
    requires Run(o, extra, ctx, s).Started?
    ensures var r := Run(o, extra, ctx, s);
      var c := Configure(o, ctx, s);
      && r.state.info == c.info.(cmdlineLanguage := r.state.info.cmdlineLanguage)
      && (LanguageGiven(o.lang) ==>
            r.state.info.cmdlineLanguage == o.lang && o.lang.value in ctx.supported)
      && (!LanguageGiven(o.lang) ==> r.state.info.cmdlineLanguage == s.info.cmdlineLanguage)
      && r.state.sysPath == c.sysPath
      && r.state.env == c.env
      && r.state.out == c.out + [LoadedModulesFrom(ctx.modulePath)]
      && r.argv[0] == ctx.argv0
      && r.argv[1..1 + |extra|] == extra
      && r.argv[1 + |extra|..] == o.remain
      && r.code == ctx.loopCode
  {
  }
}

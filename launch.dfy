/** `runBalServer` of src/bal_ls/index.ts on a non-Windows host: the classpath built from the
    custom language-server jar and the distribution's jars, the JDK it runs, the JVM arguments
    and the environment of the spawned process. The filesystem is an input: whether the custom
    jar exists, and the listing of each directory. */
module Launch {
  import opened Text
  import opened Js
  import opened Platform
  import opened Jdk
  import opened Jars

  const CUSTOM_JAR: string := JAR_DIR_HEAD + JAR_DIR_TAIL + JAR_NAME
  const JAR_DIR_HEAD: string := "/home/chathura/projects/"
  const JAR_DIR_TAIL: string := "intellij-bal-ls/build/"
  const JAR_NAME: string := "ballerina-language-server-1.0.0-SNAPSHOT.jar"
  const BALLERINA_HOME: string := "/usr/lib/ballerina/distributions/ballerina-2201.12.3"
  const MAIN_CLASS: string := "org.ballerinalang.langserver.launchers.stdio.Main"
  const DEFAULT_DEBUG_PORT: string := "5009"
  const DEBUG_AGENT: string := "-agentlib:jdwp=transport=dt_socket,server=y,suspend=n,quiet=y,address="

  /** `excludeJarPatterns` */
  const EXCLUDE_JAR_PATTERNS: seq<string> := [
    "architecture-model*", "flow-model*", "graphql-model*", "model-generator*",
    "sequence-model*", "service-model*", "test-manager-service*", "language-server*",
    "bal-shell-service*", "org.eclipse.lsp4j*"]

  /** `directoriesToSearch` */
  function SearchDirectories(h: Helpers): (dirs: seq<string>)
    ensures |dirs| == 3
  {
    [h.join([BALLERINA_HOME, "bre", "lib"]),
     h.join([BALLERINA_HOME, "lib", "tools", "lang-server", "lib"]),
     h.join([BALLERINA_HOME, "lib", "tools", "debug-adapter", "lib"])]
  }

  /** `dependenciesDir` */
  function DependenciesDir(h: Helpers): string {
    h.join(["/usr/lib/ballerina", "dependencies"])
  }

  /** `process.env`: the variables that are set */
  type Env = map<string, string>

  /** `process.env.key` is truthy: set and not empty */
  predicate EnvSet(env: Env, key: string) {
    key in env && env[key] != []
  }

  /** `${parseInt(process.env.LSDEBUG_PORT || "5009")}`, NaN included; the call passes no
      radix, so a `0x` prefix reads the port in hex */
  function DebugPortText(env: Env): string {
    var raw := if EnvSet(env, "LSDEBUG_PORT") then env["LSDEBUG_PORT"] else DEFAULT_DEBUG_PORT;
    match ParseIntAuto(raw)
    case None => "NaN"
    case Some(n) => IntToString(n)
  }

  predicate DebugEnabled(env: Env) {
    "LSDEBUG" in env && env["LSDEBUG"] == "true"
  }

  /** `debugOpts` */
  function DebugOpts(env: Env): (d: string)
    ensures d != [] <==> DebugEnabled(env)
  {
    if DebugEnabled(env) then DEBUG_AGENT + DebugPortText(env) else ""
  }

  /** The four arguments every launch has */
  function BaseArgs(classpath: string): seq<string> {
    ["-cp", classpath, "-Dballerina.home=" + BALLERINA_HOME, MAIN_CLASS]
  }

  /** `process.env.LS_CUSTOM_ARGS.split(' ')` when it is set */
  function CustomArgs(env: Env): seq<string> {
    if EnvSet(env, "LS_CUSTOM_ARGS") then Split(env["LS_CUSTOM_ARGS"], " ") else []
  }

  /** The JVM arguments: the debug option first when enabled, the custom arguments last */
  function LaunchArgs(env: Env, classpath: string): (args: seq<string>)
    ensures |args| == (if DebugEnabled(env) then 1 else 0) + 4 + |CustomArgs(env)|
  {
    (if DebugEnabled(env) then [DebugOpts(env)] else []) + BaseArgs(classpath) + CustomArgs(env)
  }

  /** The environment of the spawned process */
  function LaunchEnv(env: Env): (e: Env)
    ensures forall k :: k in env && k != "BALLERINA_CLASSPATH_EXT" ==> k in e && e[k] == env[k]
    ensures forall k :: k in e ==> k in env || k == "BALLERINA_CLASSPATH_EXT"
  {
    if !EnvSet(env, "LS_EXTENSIONS_PATH") then env
    else if EnvSet(env, "BALLERINA_CLASSPATH_EXT") then
      env["BALLERINA_CLASSPATH_EXT" := env["BALLERINA_CLASSPATH_EXT"] + [DELIMITER] + env["LS_EXTENSIONS_PATH"]]
    else env["BALLERINA_CLASSPATH_EXT" := env["LS_EXTENSIONS_PATH"]]
  }

  /** The argument `runLanguageServer` receives */
  datatype RunConfig = RunConfig(
    serverName: string,
    pathName: string,
    serverPort: int,
    runCommand: string,
    runCommandArgs: seq<string>,
    shell: bool,
    env: Env,
    noServer: bool,
    perMessageDeflate: bool,
    clientTracking: bool,
    logMessages: bool)

  /** The jars found in the first directories, in order (`flatMap`) */
  function FoundJars(h: Helpers, listDir: string -> Option<seq<string>>, dirs: seq<string>): seq<string>
    decreases |dirs|
  {
    if dirs == [] then []
    else
      var last := dirs[|dirs| - 1];
      FoundJars(h, listDir, dirs[..|dirs| - 1]) + JarsOf(h, last, listDir(last), EXCLUDE_JAR_PATTERNS)
  }

  function Classpath(h: Helpers, listDir: string -> Option<seq<string>>): string {
    Join([CUSTOM_JAR] + FoundJars(h, listDir, SearchDirectories(h)), [DELIMITER])
  }

  /** The outcome of `runBalServer`: the configuration it starts the server with, or the
      error it throws when the custom jar or a JDK is missing */
  function RunOutcome(h: Helpers, jarExists: bool, listDir: string -> Option<seq<string>>, env: Env): Result<RunConfig> {
    if !jarExists then Throws
    else
      var jdk := FindHighestVersionJdk(h, DependenciesDir(h), listDir(DependenciesDir(h)));
      if jdk.None? || jdk.value == [] then Throws
      else Ok(RunConfig("bal", "/bal", 9090, h.join([jdk.value, "bin", "java"]),
                        LaunchArgs(env, Classpath(h, listDir)), true, LaunchEnv(env),
                        true, false, true, true))
  }

  /** The exclude patterns use no regular expression syntax but `.` and `*` */
  lemma PlainExcludePatterns()
    ensures forall i :: 0 <= i < |EXCLUDE_JAR_PATTERNS| ==> PlainPattern(EXCLUDE_JAR_PATTERNS[i])
  {
    forall i | 0 <= i < |EXCLUDE_JAR_PATTERNS| ensures PlainPattern(EXCLUDE_JAR_PATTERNS[i]) {
      if i < 4 {
        PlainModelPatterns(i);
      } else if i < 7 {
        PlainServicePatterns(i);
      } else {
        PlainServerPatterns(i);
      }
    }
  }

  lemma PlainModelPatterns(i: nat)
    requires i < 4
    ensures PlainPattern(EXCLUDE_JAR_PATTERNS[i])
  {
    if i == 0 {
      assert PlainPattern("architecture-model*");
    } else if i == 1 {
      assert PlainPattern("flow-model*");
    } else if i == 2 {
      assert PlainPattern("graphql-model*");
    } else {
      assert PlainPattern("model-generator*");
    }
  }

  lemma PlainServicePatterns(i: nat)
    requires 4 <= i < 7
    ensures PlainPattern(EXCLUDE_JAR_PATTERNS[i])
  {
    if i == 4 {
      assert PlainPattern("sequence-model*");
    } else if i == 5 {
      assert PlainPattern("service-model*");
    } else {
      assert PlainPattern("test-manager-service*");
    }
  }

  lemma PlainServerPatterns(i: nat)
    requires 7 <= i < |EXCLUDE_JAR_PATTERNS|
    ensures PlainPattern(EXCLUDE_JAR_PATTERNS[i])
  {
    if i == 7 {
      assert PlainPattern("language-server*");
    } else if i == 8 {
      assert PlainPattern("bal-shell-service*");
    } else {
      assert PlainPattern("org.eclipse.lsp4j*");
    }
  }

  /** `directoriesToSearch.flatMap(directory => findJarsExcludingPatterns(directory, excludeJarPatterns))` */
  method CollectJars(h: Helpers, listDir: string -> Option<seq<string>>) returns (jarPaths: seq<string>)
    ensures jarPaths == FoundJars(h, listDir, SearchDirectories(h))
  {
    PlainExcludePatterns();
    var dirs := SearchDirectories(h);
    jarPaths := [];
    for k := 0 to |dirs|
      invariant jarPaths == FoundJars(h, listDir, dirs[..k])
    {
      assert dirs[..k + 1][..k] == dirs[..k];
      var found := FindJarsExcludingPatterns(h, dirs[k], listDir(dirs[k]), EXCLUDE_JAR_PATTERNS);
      jarPaths := jarPaths + found;
    }
    assert dirs[..|dirs|] == dirs;
  }

  /** `args`, built and then changed by `unshift` and `push` */
  method BuildArgs(env: Env, classpath: string) returns (args: seq<string>)
    ensures args == LaunchArgs(env, classpath)
  {
    var debugOpts := "";
    if "LSDEBUG" in env && env["LSDEBUG"] == "true" {
      var raw := if "LSDEBUG_PORT" in env && env["LSDEBUG_PORT"] != [] then env["LSDEBUG_PORT"] else DEFAULT_DEBUG_PORT;
      var debugPort := ParseIntAuto(raw);
      debugOpts := DEBUG_AGENT + (if debugPort.None? then "NaN" else IntToString(debugPort.value));
    }
    args := ["-cp", classpath, "-Dballerina.home=" + BALLERINA_HOME, MAIN_CLASS];
    if debugOpts != [] {
      args := [debugOpts] + args;
    }
    if "LS_CUSTOM_ARGS" in env && env["LS_CUSTOM_ARGS"] != [] {
      args := args + Split(env["LS_CUSTOM_ARGS"], " ");
    }
  }

  /** `env`, a copy of `process.env` whose `BALLERINA_CLASSPATH_EXT` is then updated */
  method BuildEnv(env: Env) returns (procEnv: Env)
    ensures procEnv == LaunchEnv(env)
  {
    procEnv := env;
    if "LS_EXTENSIONS_PATH" in env && env["LS_EXTENSIONS_PATH"] != [] {
      if "BALLERINA_CLASSPATH_EXT" in procEnv && procEnv["BALLERINA_CLASSPATH_EXT"] != [] {
        procEnv := procEnv["BALLERINA_CLASSPATH_EXT" := procEnv["BALLERINA_CLASSPATH_EXT"] + [DELIMITER] + env["LS_EXTENSIONS_PATH"]];
      } else {
        procEnv := procEnv["BALLERINA_CLASSPATH_EXT" := env["LS_EXTENSIONS_PATH"]];
      }
    }
  }

  /** `runBalServer`, up to the call of `runLanguageServer` */
  method RunBalServer(h: Helpers, jarExists: bool, listDir: string -> Option<seq<string>>, env: Env)
    returns (r: Result<RunConfig>)
    ensures r == RunOutcome(h, jarExists, listDir, env)
  {
    if !jarExists {
      return Throws;
    }
    var jarPaths := CollectJars(h, listDir);
    var customPaths := [CUSTOM_JAR] + jarPaths;
    var classpath := Join(customPaths, [DELIMITER]);

    var dependenciesDir := DependenciesDir(h);
    var jdkDir := FindHighestVersionJdk(h, dependenciesDir, listDir(dependenciesDir));
    if jdkDir.None? || jdkDir.value == [] {
      return Throws;
    }
    var javaCmd := h.join([jdkDir.value, "bin", "java"]);
    var args := BuildArgs(env, classpath);
    var procEnv := BuildEnv(env);
    return Ok(RunConfig("bal", "/bal", 9090, javaCmd, args, true, procEnv, true, false, true, true));
  }

  // ---------------------------------------------------------------------------------------
  // Properties

  /** Without debugging the arguments start with `-cp`, the classpath, the home and the main
      class; with it the debug option comes first and those four follow */
  lemma ArgsLayout(env: Env, classpath: string)
    ensures var args := LaunchArgs(env, classpath);
      var d := if DebugEnabled(env) then 1 else 0;
      args[d..d + 4] == BaseArgs(classpath)
      && (DebugEnabled(env) ==> args[0] == DEBUG_AGENT + DebugPortText(env))
      && args[d + 4..] == CustomArgs(env)
  {
  }

  /** The custom arguments are the words of `LS_CUSTOM_ARGS` at the end, and joining them with
      single spaces gives the variable back */
  lemma CustomArgsLast(env: Env, classpath: string)
    requires EnvSet(env, "LS_CUSTOM_ARGS")
    ensures var args := LaunchArgs(env, classpath);
      var c := CustomArgs(env);
      |c| >= 1 && args[|args| - |c|..] == c && Join(c, " ") == env["LS_CUSTOM_ARGS"]
  {
    JoinSplit(env["LS_CUSTOM_ARGS"], " ");
  }

  /** Debugging without `LSDEBUG_PORT` listens on port 5009 */
  lemma DefaultDebugPort(env: Env)
    requires DebugEnabled(env) && !EnvSet(env, "LSDEBUG_PORT")
    ensures DebugOpts(env) == DEBUG_AGENT + DEFAULT_DEBUG_PORT
  {
    DefaultPortReadsBack();
  }

  lemma DefaultPortReadsBack()
    ensures ParseIntAuto(DEFAULT_DEBUG_PORT) == Some(5009) && IntToString(5009) == DEFAULT_DEBUG_PORT
  {
    assert NatToString(5) == "5";
    assert NatToString(50) == "50";
    assert NatToString(500) == "500";
    assert NatToString(5009) == "5009";
    ParseIntAutoOfNat(5009);
  }

  /** A port written in decimal is used as written */
  lemma ConfiguredDebugPort(env: Env, port: nat)
    requires DebugEnabled(env) && "LSDEBUG_PORT" in env && env["LSDEBUG_PORT"] == NatToString(port)
    ensures DebugOpts(env) == DEBUG_AGENT + NatToString(port)
  {
    ParseIntAutoOfNat(port);
  }

  /** A port written in hex after `0x` is used as its decimal value */
  lemma HexDebugPort(env: Env)
    requires DebugEnabled(env) && "LSDEBUG_PORT" in env && env["LSDEBUG_PORT"] == "0x1389"
    ensures DebugOpts(env) == DEBUG_AGENT + "5001"
  {
    HexPortExample();
    PortText5001();
    assert DebugPortText(env) == "5001";
  }

  lemma PortText5001()
    ensures IntToString(5001) == "5001"
  {
    assert NatToString(5) == "5";
    assert NatToString(50) == "50";
    assert NatToString(500) == "500";
  }

  /** A `0x` with no hex digit after it gives the port `NaN` */
  lemma BareHexMarkerPort(env: Env, rest: string)
    requires DebugEnabled(env) && "LSDEBUG_PORT" in env && env["LSDEBUG_PORT"] == "0x" + rest
    requires rest == [] || !IsHexDigit(rest[0])
    ensures DebugOpts(env) == DEBUG_AGENT + "NaN"
  {
    BareMarkerIsNaN(rest);
  }

  /** The three cases of `BALLERINA_CLASSPATH_EXT` */
  lemma ClasspathExtRule(env: Env)
    ensures !EnvSet(env, "LS_EXTENSIONS_PATH") ==> LaunchEnv(env) == env
    ensures EnvSet(env, "LS_EXTENSIONS_PATH") && EnvSet(env, "BALLERINA_CLASSPATH_EXT") ==>
      LaunchEnv(env)["BALLERINA_CLASSPATH_EXT"]
        == env["BALLERINA_CLASSPATH_EXT"] + [DELIMITER] + env["LS_EXTENSIONS_PATH"]
    ensures EnvSet(env, "LS_EXTENSIONS_PATH") && !EnvSet(env, "BALLERINA_CLASSPATH_EXT") ==>
      LaunchEnv(env)["BALLERINA_CLASSPATH_EXT"] == env["LS_EXTENSIONS_PATH"]
  {
  }

  /** A colon-free extension path is the last entry of the extended class path */
  lemma ClasspathExtAppends(env: Env)
    requires EnvSet(env, "LS_EXTENSIONS_PATH") && EnvSet(env, "BALLERINA_CLASSPATH_EXT")
    requires DELIMITER !in env["BALLERINA_CLASSPATH_EXT"] && DELIMITER !in env["LS_EXTENSIONS_PATH"]
    ensures Split(LaunchEnv(env)["BALLERINA_CLASSPATH_EXT"], [DELIMITER])
      == [env["BALLERINA_CLASSPATH_EXT"], env["LS_EXTENSIONS_PATH"]]
  {
    var a := env["BALLERINA_CLASSPATH_EXT"];
    var b := env["LS_EXTENSIONS_PATH"];
    assert Join([a, b], [DELIMITER]) == a + [DELIMITER] + b;
    SplitJoin([a, b], DELIMITER);
  }

  /** The classpath lists the custom jar and then the found jars, each whole, when no found
      path holds the delimiter */
  lemma ClasspathEntries(h: Helpers, listDir: string -> Option<seq<string>>)
    requires var jars := FoundJars(h, listDir, SearchDirectories(h));
      forall i :: 0 <= i < |jars| ==> DELIMITER !in jars[i]
    ensures Split(Classpath(h, listDir), [DELIMITER]) == [CUSTOM_JAR] + FoundJars(h, listDir, SearchDirectories(h))
  {
    var jars := FoundJars(h, listDir, SearchDirectories(h));
    var parts := [CUSTOM_JAR] + jars;
    CustomJarHasNoDelimiter();
    forall i | 0 <= i < |parts| ensures DELIMITER !in parts[i] {
      if i == 0 {
        assert parts[i] == CUSTOM_JAR;
      } else {
        assert parts[i] == jars[i - 1];
        assert DELIMITER !in jars[i - 1];
      }
    }
    SplitJoin(parts, DELIMITER);
  }

  lemma CustomJarHasNoDelimiter()
    ensures DELIMITER !in CUSTOM_JAR
  {
    JarDirectoryHasNoDelimiter();
    assert DELIMITER !in JAR_NAME;
  }

  lemma JarDirectoryHasNoDelimiter()
    ensures DELIMITER !in JAR_DIR_HEAD + JAR_DIR_TAIL
  {
    assert DELIMITER !in JAR_DIR_HEAD;
    assert DELIMITER !in JAR_DIR_TAIL;
  }

  /** Without the custom jar, or without a JDK, the launch fails */
  lemma LaunchNeedsJarAndJdk(h: Helpers, jarExists: bool, listDir: string -> Option<seq<string>>, env: Env)
    ensures !jarExists ==> RunOutcome(h, jarExists, listDir, env).Throws?
    ensures FindHighestVersionJdk(h, DependenciesDir(h), listDir(DependenciesDir(h))).None? ==>
      RunOutcome(h, jarExists, listDir, env).Throws?
    ensures RunOutcome(h, jarExists, listDir, env).Ok? ==>
      var jdk := FindHighestVersionJdk(h, DependenciesDir(h), listDir(DependenciesDir(h)));
      jdk.Some? && RunOutcome(h, jarExists, listDir, env).value.runCommand == h.join([jdk.value, "bin", "java"])
  {
  }

  /** A language-server jar of the distribution is never on the classpath twice: every
      `language-server*` name is excluded from the search */
  lemma LanguageServerJarsExcluded(file: string)
    requires Contains(file, "language-server")
    ensures Excluded(CompileAll(EXCLUDE_JAR_PATTERNS), file)
  {
    assert EXCLUDE_JAR_PATTERNS[7] == "language-server" + "*";
    PrefixPatternIsContainment("language-server", file);
    assert Test(CompileAll(EXCLUDE_JAR_PATTERNS)[7], file);
  }
}

/** `SeleneseRunnerCallable.call`: the settings the build step applies to the
    selenese runner and to the WebDriver options before the script runs. */
module RunnerCallable {
  import opened Results
  import opened Text
  import opened Integers
  import opened SeleneseRunnerBuilder

  /** Browser names that `call` compares against. They are the values of the
      selenese runner library's `WebDriverManager.CHROME` and
      `WebDriverManager.PHANTOMJS`, which this model does not contain. */
  const Chrome: string := "chrome"
  const PhantomJs: string := "phantomjs"

  // ---------------------------------------------------------------------
  // The runner

  /** The directories and URL a runner has been given, `None` when unset. */
  datatype RunnerConfig = RunnerConfig(
    baseUrl: Option<string>,
    screenshotAllDir: Option<string>,
    screenshotOnFailDir: Option<string>,
    screenshotDir: Option<string>,
    junitResultDir: Option<string>)

  /** The selenese runner, whose setters `call` invokes one after another. */
  class Runner {
    var baseUrl: Option<string>
    var screenshotAllDir: Option<string>
    var screenshotOnFailDir: Option<string>
    var screenshotDir: Option<string>
    var junitResultDir: Option<string>

    function Config(): RunnerConfig
      reads this
    {
      RunnerConfig(baseUrl, screenshotAllDir, screenshotOnFailDir, screenshotDir, junitResultDir)
    }

    constructor ()
      ensures Config() == RunnerConfig(None, None, None, None, None)
    {
      baseUrl, screenshotAllDir, screenshotOnFailDir := None, None, None;
      screenshotDir, junitResultDir := None, None;
    }

    method SetBaseUrl(url: string)
      modifies this
      ensures Config() == old(Config()).(baseUrl := Some(url))
    {
      baseUrl := Some(url);
    }

    method SetScreenshotAllDir(dir: string)
      modifies this
      ensures Config() == old(Config()).(screenshotAllDir := Some(dir))
    {
      screenshotAllDir := Some(dir);
    }

    method SetScreenshotOnFailDir(dir: string)
      modifies this
      ensures Config() == old(Config()).(screenshotOnFailDir := Some(dir))
    {
      screenshotOnFailDir := Some(dir);
    }

    method SetScreenshotDir(dir: string)
      modifies this
      ensures Config() == old(Config()).(screenshotDir := Some(dir))
    {
      screenshotDir := Some(dir);
    }

    method SetJUnitResultDir(dir: string)
      modifies this
      ensures Config() == old(Config()).(junitResultDir := Some(dir))
    {
      junitResultDir := Some(dir);
    }
  }

  /** What `call` configures on the runner: the trimmed base URL when it is
      not empty, the screenshot directory (`screenshotDirPath`, the workspace
      path of `screenshotDir`) for every mode enabled when `screenshotDir` is
      set, and the JUnit directory when `perform` resolved one. */
  function RunnerConfigOf(b: Builder, screenshotDirPath: string, junitdir: Option<string>): (c: RunnerConfig)
    ensures c.baseUrl.Some? <==> GetBaseUrl(b) != []
    ensures c.baseUrl.Some? ==> c.baseUrl.value == GetBaseUrl(b)
    ensures c.screenshotAllDir.Some? <==> b.screenshotAll && !IsEmpty(b.screenshotDir)
    ensures c.screenshotOnFailDir.Some? <==> b.screenshotOnFail && !IsEmpty(b.screenshotDir)
    ensures c.screenshotDir.Some? <==> !IsEmpty(b.screenshotDir)
    ensures c.screenshotAllDir.Some? ==> c.screenshotAllDir.value == screenshotDirPath
    ensures c.screenshotOnFailDir.Some? ==> c.screenshotOnFailDir.value == screenshotDirPath
    ensures c.screenshotDir.Some? ==> c.screenshotDir.value == screenshotDirPath
    ensures c.junitResultDir == junitdir
  {
    var url := GetBaseUrl(b);
    var shots := !IsEmpty(b.screenshotDir);
    RunnerConfig(
      if url != [] then Some(url) else None,
      if b.screenshotAll && shots then Some(screenshotDirPath) else None,
      if b.screenshotOnFail && shots then Some(screenshotDirPath) else None,
      if shots then Some(screenshotDirPath) else None,
      junitdir)
  }

  /** A screenshot mode only takes effect together with the plain screenshot
      directory, and the base URL the runner gets never starts or ends with a
      blank. */
  lemma RunnerConfigConsistent(b: Builder, screenshotDirPath: string, junitdir: Option<string>)
    ensures var c := RunnerConfigOf(b, screenshotDirPath, junitdir);
            (c.screenshotAllDir.Some? || c.screenshotOnFailDir.Some? ==> c.screenshotDir == Some(screenshotDirPath))
            && (c.baseUrl.Some? ==> Trim(c.baseUrl.value) == c.baseUrl.value)
  {
    var c := RunnerConfigOf(b, screenshotDirPath, junitdir);
    if c.baseUrl.Some? {
      TrimOfTrimmed(c.baseUrl.value);
    }
  }

  // ---------------------------------------------------------------------
  // The driver options

  /** One `DriverOptions.set` call: the option and its value. */
  datatype DriverSetting =
    | Chromedriver(path: string)
    | Height(value: string)
    | Width(value: string)
    | Define(capability: string)

  /** The WebDriver options `call` builds, as the sequence of settings made. */
  class DriverOptions {
    var settings: seq<DriverSetting>

    constructor ()
      ensures settings == []
    {
      settings := [];
    }

    method Set(s: DriverSetting)
      modifies this
      ensures settings == old(settings) + [s]
    {
      settings := settings + [s];
    }
  }

  /** The capabilities defined by `settings`, in order. */
  function Definitions(settings: seq<DriverSetting>): seq<string>
    decreases |settings|
  {
    if settings == [] then []
    else
      var last := settings[|settings| - 1];
      Definitions(settings[..|settings| - 1]) + (if last.Define? then [last.capability] else [])
  }

  /** A capability is among the definitions iff a `DEFINE` of it is among the settings. */
  lemma {:induction false} DefinitionsMembers(settings: seq<DriverSetting>, c: string)
    ensures c in Definitions(settings) <==> Define(c) in settings
    decreases |settings|
  {
    if settings != [] {
      var init := settings[..|settings| - 1];
      DefinitionsMembers(init, c);
      assert settings == init + [settings[|settings| - 1]];
    }
  }

  lemma {:induction false} DefinitionsAppend(s: seq<DriverSetting>, t: seq<DriverSetting>)
    ensures Definitions(s + t) == Definitions(s) + Definitions(t)
    decreases |t|
  {
    if t == [] {
      assert s + t == s;
    } else {
      assert (s + t)[..|s + t| - 1] == s + t[..|t| - 1];
      DefinitionsAppend(s, t[..|t| - 1]);
    }
  }

  /** One `DEFINE` setting per non-empty capability, in order. */
  function Defines(capabilities: seq<string>): (r: seq<DriverSetting>)
    ensures forall i :: 0 <= i < |r| ==> r[i].Define?
    ensures Definitions(r) == NonEmpty(capabilities)
    decreases |capabilities|
  {
    if capabilities == [] then []
    else
      var last := capabilities[|capabilities| - 1];
      var r := Defines(capabilities[..|capabilities| - 1]) + (if last == [] then [] else [Define(last)]);
      DefinitionsAppend(Defines(capabilities[..|capabilities| - 1]), if last == [] then [] else [Define(last)]);
      assert Definitions([Define(last)]) == [last] by {
        assert [Define(last)][..0] == [];
      }
      r
  }

  /** The settings `call` makes, in order: the chromedriver path for Chrome,
      the window height and width for PhantomJS when both are non-zero, and
      one definition per non-empty capability line. */
  function DriverSettingsOf(browser: string, height: Int32, width: Int32,
                            capabilities: seq<string>, chromedriver: string): seq<DriverSetting>
  {
    (if browser == Chrome then [Chromedriver(chromedriver)] else [])
    + (if browser == PhantomJs && height != 0 && width != 0
       then [Height(ToString(height)), Width(ToString(width))] else [])
    + Defines(capabilities)
  }

  /** The loop of `call` over the capability lines: sets every non-empty one
      as a `DEFINE` option and nothing else. */
  method AddCapabilities(opt: DriverOptions, capabilities: seq<string>)
    modifies opt
    ensures opt.settings == old(opt.settings) + Defines(capabilities)
  {
    for i := 0 to |capabilities|
      invariant opt.settings == old(opt.settings) + Defines(capabilities[..i])
    {
      DefinesStep(capabilities, i);
      if capabilities[i] != [] {
        opt.Set(Define(capabilities[i]));
      }
    }
    assert capabilities[..|capabilities|] == capabilities;
  }

  /** Taking one more capability line adds its definition, if it is not empty. */
  lemma DefinesStep(capabilities: seq<string>, i: nat)
    requires i < |capabilities|
    ensures Defines(capabilities[..i + 1])
            == Defines(capabilities[..i]) + (if capabilities[i] == [] then [] else [Define(capabilities[i])])
  {
    assert capabilities[..i + 1][..i] == capabilities[..i];
  }

  /** `call` up to running the script: a fresh runner and fresh driver options
      configured from the builder and the values `perform` passed (the
      workspace path of the screenshot directory, the JUnit directory, the
      window size and the capability lines); `chromedriver` is the path the
      executable search found. */
  method Call(b: Builder, screenshotDirPath: string, junitdir: Option<string>,
              height: Int32, width: Int32, capabilities: seq<string>, chromedriver: string)
    returns (runner: Runner, opt: DriverOptions)
    ensures fresh(runner) && fresh(opt)
    ensures runner.Config() == RunnerConfigOf(b, screenshotDirPath, junitdir)
    ensures opt.settings == DriverSettingsOf(b.browser, height, width, capabilities, chromedriver)
  {
    runner := ConfigureRunner(b, screenshotDirPath, junitdir);
    opt := ConfigureDriver(b.browser, height, width, capabilities, chromedriver);
  }

  /** `perform` up to the remote call, then `call`: when the size string no
      longer parses the build step ends unsuccessfully before anything is
      configured; otherwise the runner and the options are those `call`
      makes from the values `perform` derived. */
  method Perform(b: Builder, screenshotDirPath: string, junitPath: string, chromedriver: string)
    returns (started: bool, runner: Runner?, opt: DriverOptions?)
    ensures started <==> ParseSize(b.size).Ok?
    ensures !started ==> runner == null && opt == null
    ensures started ==>
      var a := PerformArgs(b, junitPath).value;
      runner != null && opt != null && fresh(runner) && fresh(opt)
      && runner.Config() == RunnerConfigOf(b, screenshotDirPath, a.junitdir)
      && opt.settings == DriverSettingsOf(b.browser, a.height, a.width, a.capabilities, chromedriver)
  {
    match PerformArgs(b, junitPath)
    case Err(_) =>
      started, runner, opt := false, null, null;
    case Ok(a) =>
      started := true;
      runner, opt := Call(b, screenshotDirPath, a.junitdir, a.height, a.width, a.capabilities, chromedriver);
  }

  /** The runner half of `call`: base URL, screenshot and JUnit directories. */
  method ConfigureRunner(b: Builder, screenshotDirPath: string, junitdir: Option<string>)
    returns (runner: Runner)
    ensures fresh(runner)
    ensures runner.Config() == RunnerConfigOf(b, screenshotDirPath, junitdir)
  {
    runner := new Runner();
    var url := GetBaseUrl(b);
    if url != [] {
      runner.SetBaseUrl(url);
    }
    if b.screenshotAll && !IsEmpty(b.screenshotDir) {
      runner.SetScreenshotAllDir(screenshotDirPath);
    }
    if b.screenshotOnFail && !IsEmpty(b.screenshotDir) {
      runner.SetScreenshotOnFailDir(screenshotDirPath);
    }
    if !IsEmpty(b.screenshotDir) {
      runner.SetScreenshotDir(screenshotDirPath);
    }
    if junitdir.Some? {
      runner.SetJUnitResultDir(junitdir.value);
    }
  }

  /** The driver half of `call`: chromedriver path, window size, capabilities. */
  method ConfigureDriver(browser: string, height: Int32, width: Int32,
                         capabilities: seq<string>, chromedriver: string)
    returns (opt: DriverOptions)
    ensures fresh(opt)
    ensures opt.settings == DriverSettingsOf(browser, height, width, capabilities, chromedriver)
  {
    opt := new DriverOptions();
    if browser == Chrome {
      opt.Set(Chromedriver(chromedriver));
    }
    if browser == PhantomJs {
      if height != 0 && width != 0 {
        opt.Set(Height(ToString(height)));
        opt.Set(Width(ToString(width)));
      }
    }
    AddCapabilities(opt, capabilities);
  }

  // ---------------------------------------------------------------------
  // Properties of the driver settings

  /** The capabilities defined are exactly the non-empty lines, in order. */
  lemma DriverDefinitionsAreNonEmptyLines(browser: string, height: Int32, width: Int32,
                                          capabilities: seq<string>, chromedriver: string)
    ensures Definitions(DriverSettingsOf(browser, height, width, capabilities, chromedriver))
            == NonEmpty(capabilities)
  {
    var chrome: seq<DriverSetting> := if browser == Chrome then [Chromedriver(chromedriver)] else [];
    var size: seq<DriverSetting> := if browser == PhantomJs && height != 0 && width != 0
                                    then [Height(ToString(height)), Width(ToString(width))] else [];
    DefinitionsAppend(chrome + size, Defines(capabilities));
    DefinitionsAppend(chrome, size);
    assert Definitions(chrome) == [] by {
      if chrome != [] { assert chrome[..0] == []; }
    }
    assert Definitions(size) == [] by {
      if size != [] {
        assert size[..1] == [size[0]];
        assert [size[0]][..0] == [];
      }
    }
  }

  /** Whether `settings` sets the window height, resp. width, to `value`. */
  predicate SetsHeight(settings: seq<DriverSetting>, value: string) {
    Height(value) in settings
  }

  predicate SetsWidth(settings: seq<DriverSetting>, value: string) {
    Width(value) in settings
  }

  /** PhantomJS gets the window size exactly when both dimensions are
      non-zero, as their decimal renderings (which `ParseToString` shows parse
      back to the dimensions); no other height or width is ever set. */
  lemma DriverWindowSize(browser: string, height: Int32, width: Int32,
                         capabilities: seq<string>, chromedriver: string)
    ensures var s := DriverSettingsOf(browser, height, width, capabilities, chromedriver);
            var given := browser == PhantomJs && height != 0 && width != 0;
            (given <==> SetsHeight(s, ToString(height)) && SetsWidth(s, ToString(width)))
            && (forall i :: 0 <= i < |s| && s[i].Height? ==> given && s[i].value == ToString(height))
            && (forall i :: 0 <= i < |s| && s[i].Width? ==> given && s[i].value == ToString(width))
  {
    var given := browser == PhantomJs && height != 0 && width != 0;
    var chrome: seq<DriverSetting> := if browser == Chrome then [Chromedriver(chromedriver)] else [];
    var size: seq<DriverSetting> := if given then [Height(ToString(height)), Width(ToString(width))] else [];
    var defs := Defines(capabilities);
    var s := chrome + size + defs;
    assert s == DriverSettingsOf(browser, height, width, capabilities, chromedriver);
    forall i | 0 <= i < |s|
      ensures s[i].Height? ==> given && s[i].value == ToString(height)
      ensures s[i].Width? ==> given && s[i].value == ToString(width)
    {
      if i < |chrome| {
        assert s[i] == chrome[i];
      } else if i < |chrome| + |size| {
        assert s[i] == size[i - |chrome|];
      } else {
        assert s[i] == defs[i - |chrome| - |size|];
      }
    }
    if given {
      assert s[|chrome|] == Height(ToString(height));
      assert s[|chrome| + 1] == Width(ToString(width));
    }
  }

  /** The chromedriver path is set for Chrome and for no other browser. */
  lemma DriverChromedriver(browser: string, height: Int32, width: Int32,
                           capabilities: seq<string>, chromedriver: string)
    ensures var s := DriverSettingsOf(browser, height, width, capabilities, chromedriver);
            (browser == Chrome <==> exists i :: 0 <= i < |s| && s[i].Chromedriver?)
            && (browser == Chrome ==> s[0] == Chromedriver(chromedriver))
  {
    var s := DriverSettingsOf(browser, height, width, capabilities, chromedriver);
    if browser == Chrome {
      assert s[0].Chromedriver?;
    }
  }

  // ---------------------------------------------------------------------
  // From the configuration to the options

  /** Through `perform` and `call`, a `null` capabilities string defines
      nothing, and otherwise the defined capabilities are the non-empty lines
      of the string, in their original order. */
  lemma CapabilitiesBecomeDefinitions(b: Builder, junitPath: string, chromedriver: string)
    requires PerformArgs(b, junitPath).Ok?
    ensures var a := PerformArgs(b, junitPath).value;
            var defined := Definitions(DriverSettingsOf(b.browser, a.height, a.width, a.capabilities, chromedriver));
            (b.capabilities.Null? ==> defined == [])
            && (b.capabilities.Str? ==> defined == Fields(b.capabilities.chars, '\n'))
  {
    var a := PerformArgs(b, junitPath).value;
    DriverDefinitionsAreNonEmptyLines(b.browser, a.height, a.width, a.capabilities, chromedriver);
  }

  /** Through `perform` and `call`, PhantomJS gets the width and height the
      builder parsed from its size string, unless one of them is zero. */
  lemma ConfiguredWindowSize(b: Builder, junitPath: string, chromedriver: string)
    requires ParseSize(b.size).Ok?
    requires b.browser == PhantomJs && ParseSize(b.size).value.width != 0 && ParseSize(b.size).value.height != 0
    ensures var a := PerformArgs(b, junitPath).value;
            var sz := ParseSize(b.size).value;
            var s := DriverSettingsOf(b.browser, a.height, a.width, a.capabilities, chromedriver);
            s[..2] == [Height(ToString(sz.height)), Width(ToString(sz.width))]
  {
  }
}

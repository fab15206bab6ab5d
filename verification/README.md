# Selenese runner build step: configuration and option derivation

This project models the decision logic of the Jenkins build step "Run selenese
script" (`SeleneseRunnerBuilder` in the `jp.haya10.jenkins.seleneserunnerplugin`
package). The step stores a configuration (script file, browser, screenshot
switches and directory, base URL, JUnit result directory, window size,
capability lines). When a build runs, it turns that configuration into settings
for the selenese runner and for the WebDriver options. The browser work itself
is done by the external runner library and is not modelled.

Modules:

- `Results` (`results.dfy`): `Option` and `Result`. They stand for Java's `null` and exceptions.
- `Text` (`text.dfy`): the string operations the step relies on.
  - commons-lang `StringUtils.split` with one separator (`SplitByChar`), proved equal to the reference `Fields` (the non-empty pieces between separators).
  - `String.split` with limit 0 (`RegexSplit`).
  - `String.trim` / `StringUtils.trimToEmpty` (`Trim`, `TrimToEmpty`).
  - `StringUtils.isEmpty` (`IsEmpty`).
  - A Java string that may be `null` is a `JString`.
- `Integers` (`integers.dfy`): `Integer.parseInt` (`ParseInt`) and `Integer.toString` / `String.valueOf` (`ToString`) for 32-bit `int`.
- `SeleneseRunnerBuilder` (`builder.dfy`):
  - `parseSize` (`ParseSize`);
  - the builder's fields as an immutable record, and its constructor (`NewBuilder`);
  - `getBaseUrl`;
  - what `perform` derives before the remote call (`PerformArgs`).
- `RunnerCallable` (`callable.dfy`): `SeleneseRunnerCallable.call`.
  - The runner and the driver options are classes whose setters `call` invokes step by step.
  - Their final state is proved equal to the spec functions `RunnerConfigOf` and `DriverSettingsOf`.
  - The capability loop is a method with a loop invariant.
- `Descriptor` (`descriptor.dfy`): the form checks `doCheckSeleneseFile` and `doCheckBaseUrl`.

Window sizes need not be positive. `parseSize` accepts any `int`, zero and negative values included. The model follows the code here. Only the PhantomJS branch looks at zero.

## Model

| member | source | states |
|---|---|---|
| `Text.IsEmpty` | src/main/java/jp/haya10/jenkins/seleneserunnerplugin/SeleneseRunnerBuilder.java:149 | `StringUtils.isEmpty`: `null` and the empty string are empty, nothing else is (a predicate without a contract of its own; the `isEmpty` tests at 106, 114, 117, 120, 256, 343 and 353 are modelled with it) |
| `Text.SplitByChar` | src/main/java/jp/haya10/jenkins/seleneserunnerplugin/SeleneseRunnerBuilder.java:296 | `StringUtils.split` with a one-character separator: the single-pass scan (runs of separators act as one, leading and trailing ones ignored) equals the reference `Fields`, the non-empty pieces between separators in order, so every token is non-empty and free of the separator |
| `Text.FieldsProper` | src/main/java/jp/haya10/jenkins/seleneserunnerplugin/SeleneseRunnerBuilder.java:296 | every field of the reference decomposition is non-empty and free of the separator |
| `Text.Pieces` | src/main/java/jp/haya10/jenkins/seleneserunnerplugin/SeleneseRunnerBuilder.java:271 | the pieces between separators are never fewer than one and contain no separator |
| `Text.JoinPieces` | src/main/java/jp/haya10/jenkins/seleneserunnerplugin/SeleneseRunnerBuilder.java:271 | joining the pieces with the separator gives the original string back |
| `Text.PiecesUnique` | src/main/java/jp/haya10/jenkins/seleneserunnerplugin/SeleneseRunnerBuilder.java:271 | any separator-free decomposition that joins to a string is that string's pieces |
| `Text.FieldsConcat` | src/main/java/jp/haya10/jenkins/seleneserunnerplugin/SeleneseRunnerBuilder.java:296 | the non-empty fields of `a + sep + b` are those of `a` followed by those of `b` |
| `Text.FieldsTrailingSeparator` | src/main/java/jp/haya10/jenkins/seleneserunnerplugin/SeleneseRunnerBuilder.java:296 | a separator at the end of a string adds no field |
| `Text.FieldsMergeSeparators` | src/main/java/jp/haya10/jenkins/seleneserunnerplugin/SeleneseRunnerBuilder.java:296 | a doubled separator splits into the same fields as a single one |
| `Text.NonEmpty` | src/main/java/jp/haya10/jenkins/seleneserunnerplugin/SeleneseRunnerBuilder.java:148-151 | the filter never lengthens its input and keeps only non-empty strings |
| `Text.NonEmptyMembers` | src/main/java/jp/haya10/jenkins/seleneserunnerplugin/SeleneseRunnerBuilder.java:148-151 | a string survives the filter iff it is in the input and is non-empty |
| `Text.RegexSplit` | src/main/java/jp/haya10/jenkins/seleneserunnerplugin/SeleneseRunnerBuilder.java:271 | `String.split` gives `[s]` when the separator is absent, otherwise a prefix of the pieces that ends in a non-empty one, and only empty pieces are dropped |
| `Text.RegexSplitNonEmpty` | src/main/java/jp/haya10/jenkins/seleneserunnerplugin/SeleneseRunnerBuilder.java:267-272 | after dropping empty strings, `String.split` and the reference decomposition agree |
| `Text.Trim` | src/main/java/jp/haya10/jenkins/seleneserunnerplugin/SeleneseRunnerBuilder.java:216 | the trimmed string is an infix with only blanks (code point at most U+0020) outside it, and it neither starts nor ends with a blank |
| `Text.TrimToEmpty` | src/main/java/jp/haya10/jenkins/seleneserunnerplugin/SeleneseRunnerBuilder.java:216 | `StringUtils.trimToEmpty`: `null` gives the empty string, any other string gives its trim (`Text.Trim`), which is never longer than the input and is its own trim |
| `Text.TrimOfTrimmed` | src/main/java/jp/haya10/jenkins/seleneserunnerplugin/SeleneseRunnerBuilder.java:216 | trimming a string without blanks at its ends changes nothing, so trimming is idempotent |
| `Integers.ParseInt` | src/main/java/jp/haya10/jenkins/seleneserunnerplugin/SeleneseRunnerBuilder.java:305-310 | `Integer.parseInt` succeeds exactly on an optional `+` or `-` followed by at least one digit (leading zeros allowed) whose value fits in an `int`, and then returns that value |
| `Integers.ToString` | src/main/java/jp/haya10/jenkins/seleneserunnerplugin/SeleneseRunnerBuilder.java:142-143 | the decimal rendering is non-empty, all digits except a leading minus, starts with minus exactly for negative values, and has no leading zero (the shortest form) |
| `Integers.ParseToString` | src/main/java/jp/haya10/jenkins/seleneserunnerplugin/SeleneseRunnerBuilder.java:306-307 | parsing the decimal rendering of any `int` gives that `int` back |
| `Integers.ParseOutOfRange` | src/main/java/jp/haya10/jenkins/seleneserunnerplugin/SeleneseRunnerBuilder.java:306-309 | a well-formed number outside the 32-bit range is rejected |
| `Integers.DigitsRoundTrip` | src/main/java/jp/haya10/jenkins/seleneserunnerplugin/SeleneseRunnerBuilder.java:306-307 | the value of the shortest digit string of `n` is `n` |
| `SeleneseRunnerBuilder.ParseSize` | src/main/java/jp/haya10/jenkins/seleneserunnerplugin/SeleneseRunnerBuilder.java:295-313 | succeeds exactly when the input has two non-empty `x`-separated fields that both parse as `int`; then the result is (first, second) as (width, height); every other input fails with an error naming it, and `null` fails separately |
| `SeleneseRunnerBuilder.ParseSizeRoundTrip` | src/main/java/jp/haya10/jenkins/seleneserunnerplugin/SeleneseRunnerBuilder.java:295-312 | for all `int` width and height, parsing `<width>x<height>` returns (width, height) |
| `SeleneseRunnerBuilder.ParseSizeIgnoresLeadingSeparator` | src/main/java/jp/haya10/jenkins/seleneserunnerplugin/SeleneseRunnerBuilder.java:296-298 | a leading `x` changes neither success nor the size |
| `SeleneseRunnerBuilder.ParseSizeIgnoresTrailingSeparator` | src/main/java/jp/haya10/jenkins/seleneserunnerplugin/SeleneseRunnerBuilder.java:296-298 | a trailing `x` changes neither success nor the size |
| `SeleneseRunnerBuilder.ParseSizeMergesSeparators` | src/main/java/jp/haya10/jenkins/seleneserunnerplugin/SeleneseRunnerBuilder.java:296-298 | a doubled `x` acts as a single one: same success, same size |
| `SeleneseRunnerBuilder.SameFieldsSameOutcome` | src/main/java/jp/haya10/jenkins/seleneserunnerplugin/SeleneseRunnerBuilder.java:296-312 | inputs with the same fields parse to the same outcome |
| `SeleneseRunnerBuilder.TwoFields` | src/main/java/jp/haya10/jenkins/seleneserunnerplugin/SeleneseRunnerBuilder.java:296 | two non-empty `x`-free strings joined by `x` split into exactly those two |
| `SeleneseRunnerBuilder.ParseSizeNeedsSeparator` | src/main/java/jp/haya10/jenkins/seleneserunnerplugin/SeleneseRunnerBuilder.java:296-300 | an input without `x` (the empty string included) is rejected |
| `SeleneseRunnerBuilder.ParseSizeAccepts1024x768` | src/test/java/jp/haya10/jenkins/seleneserunnerplugin/SeleneseRunnerBuilderWithoutBrowserTest.java:32-36 | `"1024x768"` parses to (1024, 768) |
| `SeleneseRunnerBuilder.ParseSizeAccepts1x1` | src/test/java/jp/haya10/jenkins/seleneserunnerplugin/SeleneseRunnerBuilderWithoutBrowserTest.java:38-40 | `"1x1"` parses to (1, 1) |
| `SeleneseRunnerBuilder.ParseSizeRejects1024x` | src/test/java/jp/haya10/jenkins/seleneserunnerplugin/SeleneseRunnerBuilderWithoutBrowserTest.java:44-48 | `"1024x"` is rejected |
| `SeleneseRunnerBuilder.ParseSizeRejectsX768` | src/test/java/jp/haya10/jenkins/seleneserunnerplugin/SeleneseRunnerBuilderWithoutBrowserTest.java:50-54 | `"x768"` is rejected |
| `SeleneseRunnerBuilder.ParseSizeRejectsX` | src/test/java/jp/haya10/jenkins/seleneserunnerplugin/SeleneseRunnerBuilderWithoutBrowserTest.java:56-60 | `"x"` is rejected |
| `SeleneseRunnerBuilder.ParseSizeRejectsAxa` | src/test/java/jp/haya10/jenkins/seleneserunnerplugin/SeleneseRunnerBuilderWithoutBrowserTest.java:62-66 | `"axa"` is rejected |
| `SeleneseRunnerBuilder.NewBuilder` | src/main/java/jp/haya10/jenkins/seleneserunnerplugin/SeleneseRunnerBuilder.java:181-197 | construction fails exactly when `parseSize` fails, with its error; otherwise it stores every argument and width = left, height = right of the parsed size |
| `SeleneseRunnerBuilder.NewBuilderExample` | src/test/java/jp/haya10/jenkins/seleneserunnerplugin/SeleneseRunnerBuilderWithoutBrowserTest.java:25-28 | the builder made from `"1024x768"` stores width 1024 and height 768 |
| `SeleneseRunnerBuilder.GetBaseUrl` | src/main/java/jp/haya10/jenkins/seleneserunnerplugin/SeleneseRunnerBuilder.java:215-217 | `null` gives the empty string; otherwise the result is the infix of the base URL left after cutting blanks from both ends |
| `SeleneseRunnerBuilder.PerformArgs` | src/main/java/jp/haya10/jenkins/seleneserunnerplugin/SeleneseRunnerBuilder.java:254-272 | the width and height passed are those of the re-parsed size string, for every builder whose size parses, so for a constructed builder they equal the stored ones; the JUnit directory is passed iff `junitresult` is non-empty; the non-empty capability entries are the non-empty lines of the capabilities string |
| `RunnerCallable.RunnerConfigOf` | src/main/java/jp/haya10/jenkins/seleneserunnerplugin/SeleneseRunnerBuilder.java:105-126 | base URL set iff its trimmed form is non-empty, and then to that form; "all" directory iff `screenshotAll` and a non-empty directory; "on fail" directory iff `screenshotOnFail` and a non-empty directory; plain directory iff a non-empty directory; all three are the workspace screenshot path; JUnit directory as passed |
| `RunnerCallable.RunnerConfigConsistent` | src/main/java/jp/haya10/jenkins/seleneserunnerplugin/SeleneseRunnerBuilder.java:105-122 | a screenshot mode is never set without the plain screenshot directory, and the base URL given to the runner is already trimmed |
| `RunnerCallable.Defines` | src/main/java/jp/haya10/jenkins/seleneserunnerplugin/SeleneseRunnerBuilder.java:147-152 | the capability settings are all `DEFINE`s and define exactly the non-empty capabilities, in order |
| `RunnerCallable.DefinitionsMembers` | src/main/java/jp/haya10/jenkins/seleneserunnerplugin/SeleneseRunnerBuilder.java:148-151 | a capability is among those defined iff a `DEFINE` setting of it was made |
| `RunnerCallable.DefinitionsAppend` | src/main/java/jp/haya10/jenkins/seleneserunnerplugin/SeleneseRunnerBuilder.java:134-152 | the capabilities defined by consecutive runs of settings add up in order |
| `RunnerCallable.DefinesStep` | src/main/java/jp/haya10/jenkins/seleneserunnerplugin/SeleneseRunnerBuilder.java:148-151 | one loop step: a non-empty capability line adds exactly one `DEFINE` for itself, an empty one adds nothing |
| `RunnerCallable.AddCapabilities` | src/main/java/jp/haya10/jenkins/seleneserunnerplugin/SeleneseRunnerBuilder.java:147-152 | the loop appends exactly one `DEFINE` per non-empty capability line, in order, and nothing else |
| `RunnerCallable.ConfigureRunner` | src/main/java/jp/haya10/jenkins/seleneserunnerplugin/SeleneseRunnerBuilder.java:104-126 | the runner's final state is `RunnerConfigOf` of the builder |
| `RunnerCallable.ConfigureDriver` | src/main/java/jp/haya10/jenkins/seleneserunnerplugin/SeleneseRunnerBuilder.java:134-152 | the driver options' settings are `DriverSettingsOf` the browser, size and capability lines |
| `RunnerCallable.Call` | src/main/java/jp/haya10/jenkins/seleneserunnerplugin/SeleneseRunnerBuilder.java:103-154 | `call` yields a fresh runner and fresh options in exactly those two states |
| `RunnerCallable.Perform` | src/main/java/jp/haya10/jenkins/seleneserunnerplugin/SeleneseRunnerBuilder.java:236-285 | the step starts the runner iff the size string parses, and then with the settings derived from the builder |
| `RunnerCallable.DriverDefinitionsAreNonEmptyLines` | src/main/java/jp/haya10/jenkins/seleneserunnerplugin/SeleneseRunnerBuilder.java:134-152 | of all driver settings, the `DEFINE`s are exactly the non-empty capability lines in order |
| `RunnerCallable.DriverWindowSize` | src/main/java/jp/haya10/jenkins/seleneserunnerplugin/SeleneseRunnerBuilder.java:140-145 | height and width are set iff the browser is PhantomJS and both are non-zero; any height or width set carries the decimal rendering of the given dimension |
| `RunnerCallable.DriverChromedriver` | src/main/java/jp/haya10/jenkins/seleneserunnerplugin/SeleneseRunnerBuilder.java:135-139 | the chromedriver path is set iff the browser is Chrome, and then first |
| `RunnerCallable.CapabilitiesBecomeDefinitions` | src/main/java/jp/haya10/jenkins/seleneserunnerplugin/SeleneseRunnerBuilder.java:148-152 | through `perform` and `call`, a `null` capabilities string defines nothing; otherwise the defined capabilities are its non-empty newline-separated lines in order |
| `RunnerCallable.ConfiguredWindowSize` | src/main/java/jp/haya10/jenkins/seleneserunnerplugin/SeleneseRunnerBuilder.java:140-145 | through `perform` and `call`, PhantomJS first gets the height and then the width parsed from the builder's size string, when both are non-zero |
| `Descriptor.DoCheckSeleneseFile` | src/main/java/jp/haya10/jenkins/seleneserunnerplugin/SeleneseRunnerBuilder.java:342-348 | error iff the value is empty or `null` (whatever the file system says); warning iff non-empty and the file does not exist; ok iff non-empty and it exists |
| `Descriptor.DoCheckBaseUrl` | src/main/java/jp/haya10/jenkins/seleneserunnerplugin/SeleneseRunnerBuilder.java:350-358 | an empty value is always ok; otherwise ok iff the URL validator accepts it, else the fixed error |

## Left out

- Console logging (`listener.getLogger()`), `setPrintStream` and the stack trace printed on failure: output only.
- Workspace resolution and `mkdirs` (`build.getWorkspace().child(...)`): the resolved screenshot and JUnit paths are parameters. A failing `mkdirs` is not modelled.
- `RunnerCallable.Perform`: `started` is read under the workspace abstraction. `child` throws for a `null` screenshot directory (line 245) or a `null` selenese file (line 252), `perform` catches that at line 279 and returns false; the model does not, so its `started <==> ParseSize(b.size).Ok?` holds in the source only for builders whose screenshot directory and selenese file are non-null.
- The environment (`build.getEnvironment`), the `WebDriverManager` singleton, `runner.run`, its result and `quitAllDrivers`: foreign library calls and browser control.
- The remote channel (`launcher.getChannel().call`) and serialization: `perform` and `call` are composed directly.
- The chromedriver search `PathUtils.searchExecutableFile`: `PathUtils` is not part of this model. The path it finds is a parameter, and a search that finds nothing (an exception in the source) is not modelled.
- `DoCheckBaseUrl`: the verdict of commons-validator's `UrlValidator` is a parameter, since that code is not part of this model.
- `DoCheckSeleneseFile`: file existence is a parameter.
- `RunnerCallable.DriverOptions`: the options are modelled as the ordered sequence of `set` calls, not as the library's keyed store. Each key other than `DEFINE` is set at most once, so no information is lost.
- The browser name is a non-null string. A `null` browser makes the source throw before any option is set.
- `Integers.ParseInt`: digits are ASCII `0`-`9` only. `Integer.parseInt` also accepts other Unicode decimal digits.
- `ParseSize` with a `null` size fails with `NullSize`, standing for the `NullPointerException` of the source.
- `doCheckSize` is exercised by a unit test but does not exist in the builder's source, so it is not modelled.
- The older builder in the `jp.haya10` package is not part of this model. It only sequences driver and file-system calls.
- Plain accessors (`getSeleneseFile`, `getBrowser`, ...), `getDescriptor`, `isApplicable`, `getDisplayName` and `configure`: UI glue without decisions.

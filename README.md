# A model of the test runner and the waypoint list

This project models two pieces of the repository in Dafny.

The first is the end-to-end test runner, tests/selenium/src/main.mjs:
- `parseArgs` sorts each command-line argument into a URL, a flag or a test name. It resolves test names against `src/tests/`. With no test name given, it falls back to every `.mjs` file of that directory in sorted order.
- `runTest` decides how one test ends: its setup, its function and its screenshot check each have a say.
- `cycleTests` runs the tests in order and counts passes and failures. With `--stop` it ends the run at the first failure.
- The screenshot rules of `manageScreenshot`: the file name a screenshot is stored under, and when the stored screenshot fails a test.
- The exit code is 1 exactly when a test failed.

The second is the data rules of the waypoint list in the map's info block, map/src/infoblock/components/tabs/WaypointsTab.jsx:
- which layers the list is built from (`getLayers`);
- how markers are joined with the GPX file's waypoints by coordinate key (`getPoints`);
- how a row shortens its name and text (`getName`, `getLength`, `hasInfo`);
- what "delete all waypoints" does to the selected file (`deleteAllWpts`).

Modules:
- `Wrappers`: the Option and Result types.
- `JsText`: the JavaScript string operations the runner relies on. These are anchored regular-expression tests, the default `sort` order, `replaceAll` with an empty replacement, the first-line `replace`, and `String(n)` for whole numbers below 10^21.
- `RunnerArgs`: `parseArgs`.
- `RunnerScreenshot`: the decisions inside `manageScreenshot`.
- `RunnerControl`: `runTest`, `cycleTests` and the whole script. The runner's counters are the fields of a `Runner` class.
- `WaypointsTab`: the tab's data rules. The selected GPX file is a `GpxFile` class whose fields `deleteAllWpts` updates.

The outside world enters as parameters:
- the set of existing paths (`fs`) and the directory listing, or its error;
- the package-manager script name;
- the set of trusted screenshots;
- `env(i)`, what the browser, the test module and the image comparison do for the i-th test.

Where the code does something other than what its names, comments or intent suggest, the model follows the code:
- `Error('unknown test:', a)` passes the name as the second argument, the options bag. The thrown message is therefore just `unknown test:` and does not name the argument.
- The run tag does not lower-case the script name. Every character other than `a`-`z` becomes `-`, and `-` is appended.
- `file.replaceAll('.mjs', '')` removes every `.mjs` in the file name, not only the suffix.
- A layer group is skipped by `getLayers` when lodash's `isEmpty` holds of the group OBJECT. That is a test of the object's own enumerable properties, not of its member layers.

## Model

| member | source | states |
|---|---|---|
| `RunnerArgs.Resolve` | tests/selenium/src/main.mjs:186-192 | A name resolves exactly when `src/tests/<name>.mjs` or `src/tests/<name>` exists. The result is a path that exists and is the name with or without `.mjs`. The `.mjs` file wins when both exist. |
| `RunnerArgs.ParseArgs` | tests/selenium/src/main.mjs:169-203 | Parsing throws exactly when some test name resolves to no file, or when no name is given and the directory cannot be read. The error is `unknown test:` in the first case and the directory error in the second. On success the URL is the last URL argument and each flag is set iff that exact flag appears. The tests are the resolutions of the names, one per name in order, or, with no names, the discovered `.mjs` files. |
| `RunnerArgs.ScanArguments` | tests/selenium/src/main.mjs:177-194 | The argument loop fails iff some test name is unknown. Otherwise it yields the last URL, the flags present and one resolved file per test name, in command-line order. |
| `RunnerArgs.KeepModules` | tests/selenium/src/main.mjs:196-200 | The loop over the sorted listing keeps exactly its `.mjs` entries, in order. |
| `RunnerArgs.LastUrlIsLast` | tests/selenium/src/main.mjs:177-179 | The URL kept is a URL argument after which no URL argument comes. There is none exactly when no argument is a URL. |
| `RunnerArgs.TestNamesAreNameArguments` | tests/selenium/src/main.mjs:177-193 | The test names are exactly the arguments that are neither URLs nor flags. |
| `RunnerArgs.ModulesOfCounts` | tests/selenium/src/main.mjs:199 | The filter keeps every `.mjs` entry as often as it occurs and drops every other entry. |
| `RunnerArgs.ModulesOfAscending` | tests/selenium/src/main.mjs:196-200 | Filtering a sorted listing leaves it sorted. |
| `RunnerArgs.DiscoverIsSortedModules` | tests/selenium/src/main.mjs:195-201 | The default run is the sorted list of the directory's `.mjs` entries: sorting then filtering equals filtering then sorting. |
| `RunnerArgs.DiscoverMembers` | tests/selenium/src/main.mjs:195-201 | The default run is in ascending order, and an entry is run iff it is in the directory and ends with `.mjs`. |
| `JsText.Sort` | tests/selenium/src/main.mjs:197 | `sort()` returns an ascending permutation of the listing. |
| `JsText.SortUnique` | tests/selenium/src/main.mjs:197 | Any ascending permutation of a listing equals the sorted listing, so the run order does not depend on the order the directory is read in. |
| `JsText.RemoveAll` | tests/selenium/src/main.mjs:111 | `replaceAll` with an empty replacement never lengthens the string, and leaves a string without the pattern unchanged. |
| `JsText.RemoveModuleSuffix` | tests/selenium/src/main.mjs:111 | Removing every `.mjs` from `stem.mjs` leaves `stem` when the stem itself holds no `.mjs`. |
| `JsText.DropContinuations` | tests/selenium/src/main.mjs:97 | The replacement never lengthens the message, and leaves a message without a line feed unchanged. |
| `JsText.DropContinuationsSingleLine` | tests/selenium/src/main.mjs:97 | The shortened failure message holds no line feed. |
| `JsText.DropContinuationsIsFirstLine` | tests/selenium/src/main.mjs:97 | For a message whose only line terminator is the line feed, the shortened message is its text before the first line feed. |
| `JsText.Decimal` | tests/selenium/src/main.mjs:138 | `String(n)` of a whole number below 10^21 is a non-empty string of decimal digits with no leading zero unless the number is 0. |
| `JsText.DecimalRoundTrip` | tests/selenium/src/main.mjs:138 | Reading the written digits back gives the number. |
| `RunnerScreenshot.Sanitize` | tests/selenium/src/main.mjs:110 | The replacement keeps the length, and each character is kept when it is a lower-case ASCII letter and becomes `-` otherwise. |
| `RunnerScreenshot.Tag` | tests/selenium/src/main.mjs:110 | The tag is one character longer than the script name (`test` when unset) and ends in `-`. Each character is a lower-case letter or `-`. At each position the name's character is kept when it is in `a`-`z` and becomes `-` otherwise. |
| `RunnerScreenshot.ScreenshotName` | tests/selenium/src/main.mjs:111 | The name starts with the tag and ends with `.png`. Its length is the tag's, plus 7 for `mobile-` and 9 for `headless-` when those modes are on, plus the file name's with every `.mjs` removed, plus 4. |
| `RunnerScreenshot.ScreenshotNameOfModule` | tests/selenium/src/main.mjs:111 | A module's screenshot is named by the tag, `mobile-` and `headless-` for the modes in force, the module's stem and `.png`. |
| `RunnerScreenshot.ScreenshotNameSeparatesModes` | tests/selenium/src/main.mjs:111 | Runs in different mobile or headless modes never share a screenshot name. |
| `RunnerScreenshot.MismatchMessage` | tests/selenium/src/main.mjs:138 | The message starts with `screenshot mismatch ` and ends with `%`. Between them are decimal digits that read back as the percentage. |
| `RunnerScreenshot.ScreenshotCheck` | tests/selenium/src/main.mjs:103-141 | A failed capture is the error. Without validation or without a trusted screenshot nothing is thrown. With both, the check throws iff the mismatch is above zero, with the message `screenshot mismatch <p>%`, or it throws the comparison's own error. |
| `RunnerControl.FinalError` | tests/selenium/src/main.mjs:62-86 | A setup error decides the test. Otherwise what the test's function threw decides it unless that was nothing or `null`, in which case the screenshot check's error, if any, does. |
| `RunnerControl.FailureMessage` | tests/selenium/src/main.mjs:97 | A verbose run prints the whole message. Otherwise the printed message holds no line feed and is never longer than the message. A message without a line feed is printed as it is either way. |
| `RunnerControl.TestVerdict` | tests/selenium/src/main.mjs:84-99 | A test fails iff it ends with a thrown error object. A failure carries that error's printed message, which is a single line unless the run is verbose. |
| `RunnerControl.TestFailsIffAnError` | tests/selenium/src/main.mjs:84-99 | A test fails iff any of these holds: its setup threw; its function threw an error; or its function threw nothing (or `null`) and the validated screenshot check threw. |
| `RunnerControl.ScreenshotCannotMaskBody` | tests/selenium/src/main.mjs:76-82 | Once the test's function threw a non-null value, no screenshot outcome and no set of trusted files changes how the test ends. |
| `RunnerControl.MismatchDecidesCleanTest` | tests/selenium/src/main.mjs:119-139 | A test whose steps all succeed and that has a trusted screenshot fails iff the mismatch is above zero. The printed message names the percentage. |
| `RunnerControl.NoTrustedScreenshotPasses` | tests/selenium/src/main.mjs:119 | Without a trusted screenshot, a test whose steps all succeed passes. |
| `RunnerControl.FalsyThrowPasses` | tests/selenium/src/main.mjs:76-92 | A test whose function throws a falsy value counts as passed, whatever its screenshot step does. A failed capture is dropped, since the screenshot's error only replaces a `null`. |
| `RunnerControl.Runner.constructor` | tests/selenium/src/main.mjs:28-31 | The runner starts with the parsed configuration, the tag, both counters at zero and nothing printed. |
| `RunnerControl.Runner.RunTest` | tests/selenium/src/main.mjs:58-101 | Running test i prints one line, `[i+1/total] file` with the test's verdict. It adds one to `failed` for a failure and one to `successful` otherwise, and the counters keep agreeing with the printed lines. |
| `RunnerControl.Runner.CycleTests` | tests/selenium/src/main.mjs:43-50 | The lines printed are those of the run specification: the tests in order, up to and including the first failure when `--stop` is set. The counters sum to the number of lines. |
| `RunnerControl.ExitCode` | tests/selenium/src/main.mjs:41 | The exit code is 0 or 1, and 1 iff the failure counter is positive. |
| `RunnerControl.Runner.ExitStatus` | tests/selenium/src/main.mjs:41 | The exit code is 0 or 1, and it is 1 iff a printed line is a failure. |
| `RunnerControl.Execute` | tests/selenium/src/main.mjs:28-41 | The exit code is 0 or 1. A parse failure exits with 1 before any test runs. Otherwise the configuration returned has `parseArgs`' URL, flags and tests, and the printed lines are exactly the run of those tests with the tag of the script name. The exit code is 1 iff one of them failed. Lines are numbered from 1 in order, and with `--stop` every line but the last is a pass. |
| `RunnerControl.CountFailedPositive` | tests/selenium/src/main.mjs:96 | The failure counter is positive iff some printed line is a failure. |
| `RunnerControl.StoppedRunStaysStopped` | tests/selenium/src/main.mjs:46-48 | Once a failure has stopped a `--stop` run, later tests add no line. |
| `RunnerControl.RunInOrder` | tests/selenium/src/main.mjs:44-45 | The j-th printed line is the j-th test's. At most one line is printed per test, and fewer only when a failure stopped a `--stop` run. |
| `RunnerControl.RunWithoutStopRunsAll` | tests/selenium/src/main.mjs:44-49 | Without `--stop`, every test runs. |
| `RunnerControl.RunWithStopEndsAtFirstFailure` | tests/selenium/src/main.mjs:46-48 | With `--stop`, every printed line except the last is a pass. A run that ends early ends on a failure. |
| `RunnerControl.RunCounters` | tests/selenium/src/main.mjs:37-41 | The failed count never exceeds the lines printed. The exit code is 1 iff some test that ran failed. |
| `WaypointsTab.GetLayers` | map/src/infoblock/components/tabs/WaypointsTab.jsx:167-175 | The layers come from the file's layer group when it is present and not an empty object, otherwise from its parsed GPX when present, otherwise there are none. |
| `WaypointsTab.GetPoints` | map/src/infoblock/components/tabs/WaypointsTab.jsx:177-195 | A file without a waypoint list gives no rows. Otherwise the dictionary loop and the layer loop together give the join of the layers with the waypoints. |
| `WaypointsTab.LastWithKeyIsLast` | map/src/infoblock/components/tabs/WaypointsTab.jsx:182 | The dictionary keeps, for each key, a waypoint with that key after which no waypoint has it. It keeps one exactly when some waypoint has the key. |
| `WaypointsTab.PairFollowsLayers` | map/src/infoblock/components/tabs/WaypointsTab.jsx:184-191 | The rows follow layer order, at most one per layer. Each row pairs a marker with the last waypoint of the marker's key. A layer gets a row iff it is a marker whose key some waypoint has. |
| `WaypointsTab.GpxFile.DeleteAllWpts` | map/src/infoblock/components/tabs/WaypointsTab.jsx:203-214 | After the confirmed deletion the file has an empty waypoint list and asks for its layers to be rebuilt. Its layers are unchanged, and the list built from it is empty. |
| `WaypointsTab.GpxFile.constructor` | map/src/infoblock/components/tabs/WaypointsTab.jsx:177-214 | The file holds the waypoint list, layer group, parsed GPX and rebuild flag it is given. |
| `WaypointsTab.GetName` | map/src/infoblock/components/tabs/WaypointsTab.jsx:40-49 | There is no name iff the marker has no non-empty title. Otherwise the name is a prefix of the title of length min(title length, 30). |
| `WaypointsTab.GetLength` | map/src/infoblock/components/tabs/WaypointsTab.jsx:36-38 | The text length is 15 or 30. It is 15 iff the marker has both a non-empty description and a non-empty address. A `null` description or address gives 30. |
| `WaypointsTab.HasInfo` | map/src/infoblock/components/tabs/WaypointsTab.jsx:51-53 | A row has details iff the marker's description or address is anything but `undefined` (even `null` or empty), or the waypoint has a non-empty category. A `null` description counts as present. |

## Left out

- Browser driving: building the Selenium driver, its options and timeouts, quitting it. A rejected `driver.quit()` is not modelled. A setup failure is the input `setup`, which also covers a test module that cannot be imported.
- The image comparison itself: resemble's result is an input, a whole-number mismatch percentage or an error.
- RunnerScreenshot.ScreenshotCheck: the mismatch percentage is a whole number. The source's percentage is a decimal fraction, which `String` writes with a decimal point.
- File writes and directory creation (`mkdirSync`, `writeFileSync`, the diff image), and their failures apart from the capture step's.
- Timing (`timer`, `Date.now`) and the run time printed after `OK`.
- Console output and colouring: the printed line is the `Line` value. The closing `failed`/`successful` summary lines are not modelled.
- `process.env` is a parameter: the package-manager script name. `HOME` and the Chromium path only affect the driver.
- RunnerControl.Runner.RunTest: a thrown truthy value that is not an `Error` object is not modelled, since reading its message depends on the value. With `--verbose` the whole error object is printed; the model keeps only its message.
- RunnerScreenshot.Sanitize: replaces each Unicode character outside `a`-`z` by one `-`. The source's `/[^a-z]/g` has no `u` flag and works on UTF-16 code units, so a character outside the Basic Multilingual Plane becomes `--` there.
- RunnerScreenshot.Tag: inherits that difference from Sanitize, and so does the screenshot name derived from the tag.
- JsText.Decimal: writes all the digits of every whole number. From 10^21 up, JavaScript's `String(n)` switches to exponent notation (`1e+21`). A mismatch percentage is at most 100, so the screenshot message never reaches that range.
- JsText.Sort: compares Unicode code points. JavaScript compares UTF-16 code units, which differ for characters outside the Basic Multilingual Plane.
- WaypointsTab.GetName: shortens by characters. JavaScript's `substring` counts UTF-16 code units.
- Waypoint and marker coordinates are an opaque key: the formatting of `lat + ',' + lon` from floating-point numbers is not modelled. Two coordinates are joined exactly when they render to the same text.
- Looking up a key in the plain object `wptsMap` could also find inherited properties such as `constructor`. Coordinate text never has that form, so the model uses a map.
- The React side of the tab: rendering, `useMemo`, the `showMore` state, `showPoint`, the confirmation dialog (the model is the confirmed callback), `TracksManager.updateState` and `setSelectedGpxFile`.
- A selected file that is `undefined` when `getPoints` reads `wpts` (the source would throw); the model always has a selected file.
- map/src/manager/AccountManager.js is not part of this model.

/**
 * Command-line parsing of the end-to-end test runner (`parseArgs` in
 * tests/selenium/src/main.mjs).
 *
 * Each argument is a URL (it starts with `http:` or `https:`), a flag (it
 * starts with `--`; only `--mobile`, `--headless`, `--verbose` and `--stop`
 * have an effect) or the name of a test, resolved against the files under
 * `src/tests/`. Without test names the run takes every `.mjs` file of that
 * directory in sorted order.
 *
 * The filesystem is an input: `fs` is the set of paths that exist (relative
 * to the runner's working directory) and `listing` is what reading the
 * directory `src/tests/` yields, or the error it throws.
 */
module RunnerArgs {
  import opened Wrappers
  import opened JsText

  /** A thrown JavaScript `Error`; only its message is kept. */
  datatype Error = Error(message: string)

  /** The run configuration `parseArgs` returns. */
  datatype Config = Config(
    url: Option<string>,
    tests: seq<string>,
    stop: bool,
    verbose: bool,
    mobile: bool,
    headless: bool)

  /** The directory test names are resolved in. */
  const TestsDir := "src/tests/"

  /** The message of the error thrown for a name that resolves to no file. */
  const UnknownTest := "unknown test:"

  /** An argument matching `/^(http:|https:)/`. */
  predicate IsUrl(a: string) {
    StartsWith(a, "http:") || StartsWith(a, "https:")
  }

  /** An argument matching `/^--/`. */
  predicate IsFlag(a: string) {
    StartsWith(a, "--")
  }

  /** An argument taken as a test name: neither a URL nor a flag. */
  predicate IsTestName(a: string) {
    !IsUrl(a) && !IsFlag(a)
  }

  /**
   * The test file a name stands for: the name with `.mjs` appended when
   * that file exists, otherwise the name itself when it exists, otherwise
   * nothing.
   */
  function Resolve(fs: set<string>, a: string): (r: Option<string>)
    ensures r.Some? <==> TestsDir + a + ".mjs" in fs || TestsDir + a in fs
    ensures r.Some? ==> TestsDir + r.value in fs && (r.value == a + ".mjs" || r.value == a)
    ensures TestsDir + a + ".mjs" in fs ==> r == Some(a + ".mjs")
  {
    if TestsDir + a + ".mjs" in fs then
      assert TestsDir + (a + ".mjs") == TestsDir + a + ".mjs";
      Some(a + ".mjs")
    else if TestsDir + a in fs then Some(a)
    else None
  }

  /** The URL arguments override each other: the last one is kept. */
  function LastUrl(argv: seq<string>): Option<string>
  {
    if argv == [] then None
    else if IsUrl(argv[|argv| - 1]) then Some(argv[|argv| - 1])
    else LastUrl(argv[..|argv| - 1])
  }

  /** The test-name arguments, in command-line order. */
  function TestNames(argv: seq<string>): seq<string>
  {
    if argv == [] then []
    else TestNames(argv[..|argv| - 1]) + (if IsTestName(argv[|argv| - 1]) then [argv[|argv| - 1]] else [])
  }

  /** Some test-name argument resolves to no file. */
  predicate HasUnknownTest(argv: seq<string>, fs: set<string>) {
    exists j :: 0 <= j < |argv| && IsTestName(argv[j]) && Resolve(fs, argv[j]).None?
  }

  /** `parseArgs` throws: a test name is unknown, or the directory it would fall back to cannot be read. */
  predicate ParseFails(argv: seq<string>, fs: set<string>, listing: Result<seq<string>, Error>) {
    HasUnknownTest(argv, fs) || (TestNames(argv) == [] && listing.Failure?)
  }

  /** The entries of a listing that match `/\.mjs$/`, in listing order. */
  function ModulesOf(listing: seq<string>): seq<string>
  {
    if listing == [] then []
    else
      var last := listing[|listing| - 1];
      ModulesOf(listing[..|listing| - 1]) + (if EndsWith(last, ".mjs") then [last] else [])
  }

  /** The default run: the sorted listing, restricted to `.mjs` files. */
  function Discover(listing: seq<string>): seq<string>
  {
    ModulesOf(Sort(listing))
  }

  /**
   * `parseArgs`: one pass over the arguments, then the directory fallback.
   * It fails exactly when a test name resolves to no file, or when the
   * fallback is needed and the directory cannot be read.
   */
  method ParseArgs(argv: seq<string>, fs: set<string>, listing: Result<seq<string>, Error>)
    returns (r: Result<Config, Error>)
    ensures r.Failure? <==> ParseFails(argv, fs, listing)
    ensures r.Failure? && HasUnknownTest(argv, fs) ==> r.error == Error(UnknownTest)
    ensures r.Failure? && !HasUnknownTest(argv, fs) ==> r.error == listing.error
    ensures r.Success? ==> r.value.url == LastUrl(argv)
    ensures r.Success? ==> (r.value.mobile <==> "--mobile" in argv)
    ensures r.Success? ==> (r.value.headless <==> "--headless" in argv)
    ensures r.Success? ==> (r.value.verbose <==> "--verbose" in argv)
    ensures r.Success? ==> (r.value.stop <==> "--stop" in argv)
    ensures r.Success? && TestNames(argv) != [] ==>
      |r.value.tests| == |TestNames(argv)| &&
      forall k :: 0 <= k < |r.value.tests| ==> Resolve(fs, TestNames(argv)[k]) == Some(r.value.tests[k])
    ensures r.Success? && TestNames(argv) == [] ==> r.value.tests == Discover(listing.value)
  {
    r := ScanArguments(argv, fs);
    if r.Success? && |r.value.tests| == 0 {
      if listing.Failure? {
        return Failure(listing.error);
      }
      var tests := KeepModules(Sort(listing.value));
      r := Success(r.value.(tests := tests));
    }
  }

  /**
   * The loop of `parseArgs` over the arguments: the last URL, the flags
   * present and the resolved test names, or the error thrown at the first
   * name that resolves to no file.
   */
  method ScanArguments(argv: seq<string>, fs: set<string>) returns (r: Result<Config, Error>)
    ensures r.Failure? <==> HasUnknownTest(argv, fs)
    ensures r.Failure? ==> r.error == Error(UnknownTest)
    ensures r.Success? ==> r.value.url == LastUrl(argv)
    ensures r.Success? ==> (r.value.mobile <==> "--mobile" in argv)
    ensures r.Success? ==> (r.value.headless <==> "--headless" in argv)
    ensures r.Success? ==> (r.value.verbose <==> "--verbose" in argv)
    ensures r.Success? ==> (r.value.stop <==> "--stop" in argv)
    ensures r.Success? ==> |r.value.tests| == |TestNames(argv)|
    ensures r.Success? ==>
      forall k :: 0 <= k < |r.value.tests| ==> Resolve(fs, TestNames(argv)[k]) == Some(r.value.tests[k])
  {
    var url: Option<string> := None;
    var tests: seq<string> := [];
    var stop, verbose, mobile, headless := false, false, false, false;
    var i := 0;
    while i < |argv|
      invariant 0 <= i <= |argv|
      invariant url == LastUrl(argv[..i])
      invariant mobile <==> "--mobile" in argv[..i]
      invariant headless <==> "--headless" in argv[..i]
      invariant verbose <==> "--verbose" in argv[..i]
      invariant stop <==> "--stop" in argv[..i]
      invariant forall j :: 0 <= j < i && IsTestName(argv[j]) ==> Resolve(fs, argv[j]).Some?
      invariant |tests| == |TestNames(argv[..i])|
      invariant forall k :: 0 <= k < |tests| ==> Resolve(fs, TestNames(argv[..i])[k]) == Some(tests[k])
    {
      var a := argv[i];
      assert argv[..i + 1] == argv[..i] + [a];
      ArgumentStep(argv[..i], a, fs);
      KnownFlags();
      if IsUrl(a) {
        url := Some(a);
      } else if IsFlag(a) {
        if a == "--mobile" { mobile := true; }
        if a == "--headless" { headless := true; }
        if a == "--verbose" { verbose := true; }
        if a == "--stop" { stop := true; }
      } else {
        var file := Resolve(fs, a);
        if file.None? {
          return Failure(Error(UnknownTest));
        }
        tests := tests + [file.value];
      }
      i := i + 1;
    }
    assert argv[..i] == argv;
    r := Success(Config(url, tests, stop, verbose, mobile, headless));
  }

  /** What one more argument adds to the URL, the test names and the flags seen. */
  lemma ArgumentStep(seen: seq<string>, a: string, fs: set<string>)
    ensures LastUrl(seen + [a]) == if IsUrl(a) then Some(a) else LastUrl(seen)
    ensures TestNames(seen + [a]) == TestNames(seen) + (if IsTestName(a) then [a] else [])
    ensures "--mobile" in seen + [a] <==> "--mobile" in seen || a == "--mobile"
    ensures "--headless" in seen + [a] <==> "--headless" in seen || a == "--headless"
    ensures "--verbose" in seen + [a] <==> "--verbose" in seen || a == "--verbose"
    ensures "--stop" in seen + [a] <==> "--stop" in seen || a == "--stop"
  {
    assert (seen + [a])[..|seen|] == seen;
  }

  /** The four recognised flags are flags, not URLs. */
  lemma KnownFlags()
    ensures IsFlag("--mobile") && !IsUrl("--mobile")
    ensures IsFlag("--headless") && !IsUrl("--headless")
    ensures IsFlag("--verbose") && !IsUrl("--verbose")
    ensures IsFlag("--stop") && !IsUrl("--stop")
  {
    assert "--mobile"[0] == '-' && "--headless"[0] == '-' && "--verbose"[0] == '-' && "--stop"[0] == '-';
  }

  /** The `forEach` over the sorted listing that keeps the `.mjs` entries. */
  method KeepModules(sorted: seq<string>) returns (tests: seq<string>)
    ensures tests == ModulesOf(sorted)
  {
    tests := [];
    var j := 0;
    while j < |sorted|
      invariant 0 <= j <= |sorted|
      invariant tests == ModulesOf(sorted[..j])
    {
      assert sorted[..j + 1][..j] == sorted[..j];
      if EndsWith(sorted[j], ".mjs") {
        tests := tests + [sorted[j]];
      }
      j := j + 1;
    }
    assert sorted[..j] == sorted;
  }

  // ---------------------------------------------------------------------
  // Properties of the classification
  // ---------------------------------------------------------------------

  /**
   * The URL kept is the last URL argument: it is a URL argument and no URL
   * comes after it; there is none exactly when no argument is a URL.
   */
  lemma {:induction false} LastUrlIsLast(argv: seq<string>)
    ensures LastUrl(argv).None? <==> forall i :: 0 <= i < |argv| ==> !IsUrl(argv[i])
    ensures LastUrl(argv).Some? ==>
      exists i :: 0 <= i < |argv| && argv[i] == LastUrl(argv).value && IsUrl(argv[i]) &&
        forall j :: i < j < |argv| ==> !IsUrl(argv[j])
  {
    if argv != [] {
      var n := |argv| - 1;
      var init := argv[..n];
      LastUrlIsLast(init);
      assert forall i :: 0 <= i < n ==> argv[i] == init[i];
      if !IsUrl(argv[n]) && LastUrl(init).Some? {
        var i :| 0 <= i < n && init[i] == LastUrl(init).value && IsUrl(init[i]) &&
          forall j :: i < j < n ==> !IsUrl(init[j]);
        assert argv[i] == init[i];
      }
    }
  }

  /** The test names are exactly the arguments that are neither URLs nor flags. */
  lemma {:induction false} TestNamesAreNameArguments(argv: seq<string>)
    ensures forall a :: a in TestNames(argv) <==> a in argv && IsTestName(a)
  {
    if argv != [] {
      var n := |argv| - 1;
      TestNamesAreNameArguments(argv[..n]);
      assert argv == argv[..n] + [argv[n]];
    }
  }

  /** Every element of `ModulesOf(s)` is an `.mjs` entry of `s`. */
  lemma {:induction false} ModulesOfMembers(s: seq<string>)
    ensures forall x :: x in ModulesOf(s) ==> x in s && EndsWith(x, ".mjs")
  {
    if s != [] {
      var n := |s| - 1;
      ModulesOfMembers(s[..n]);
      assert s == s[..n] + [s[n]];
    }
  }

  /** `ModulesOf` keeps every `.mjs` entry as often as it occurs and drops the rest. */
  lemma {:induction false} ModulesOfCounts(s: seq<string>, x: string)
    ensures multiset(ModulesOf(s))[x] == if EndsWith(x, ".mjs") then multiset(s)[x] else 0
  {
    if s != [] {
      var n := |s| - 1;
      ModulesOfCounts(s[..n], x);
      assert s == s[..n] + [s[n]];
      assert multiset(s) == multiset(s[..n]) + multiset{s[n]};
    }
  }

  /** Keeping the `.mjs` entries of an ascending listing leaves it ascending. */
  lemma {:induction false} ModulesOfAscending(s: seq<string>)
    requires Ascending(s)
    ensures Ascending(ModulesOf(s))
  {
    if s != [] {
      var n := |s| - 1;
      var init := s[..n];
      assert Ascending(init);
      ModulesOfAscending(init);
      var m := ModulesOf(init);
      if EndsWith(s[n], ".mjs") && m != [] {
        ModulesOfMembers(init);
        assert m[|m| - 1] in m;
        var j :| 0 <= j < n && init[j] == m[|m| - 1];
        AscendingPairs(s, j, n);
        assert ModulesOf(s) == m + [s[n]];
      }
    }
  }

  /**
   * The default run is exactly the `.mjs` entries of the directory, sorted:
   * filtering then sorting gives the same list as the source's sorting then
   * filtering.
   */
  lemma DiscoverIsSortedModules(listing: seq<string>)
    ensures Discover(listing) == Sort(ModulesOf(listing))
  {
    var sorted := Sort(listing);
    ModulesOfAscending(sorted);
    forall x
      ensures multiset(Discover(listing))[x] == multiset(ModulesOf(listing))[x]
    {
      ModulesOfCounts(sorted, x);
      ModulesOfCounts(listing, x);
    }
    assert multiset(Discover(listing)) == multiset(ModulesOf(listing));
    SortUnique(ModulesOf(listing), Discover(listing));
  }

  /** A directory entry is run by default exactly when it is a `.mjs` file; the run is in sorted order. */
  lemma DiscoverMembers(listing: seq<string>)
    ensures Ascending(Discover(listing))
    ensures forall x :: x in Discover(listing) <==> x in listing && EndsWith(x, ".mjs")
  {
    var sorted := Sort(listing);
    ModulesOfAscending(sorted);
    forall x
      ensures x in Discover(listing) <==> x in listing && EndsWith(x, ".mjs")
    {
      ModulesOfCounts(sorted, x);
      assert x in sorted <==> x in multiset(listing);
    }
  }
}

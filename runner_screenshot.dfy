/**
 * The decisions inside `manageScreenshot` (tests/selenium/src/main.mjs):
 * the file name a test's screenshot is stored under, and when the stored
 * screenshot makes the test fail.
 *
 * Writing the files and comparing the images are inputs: the capture step
 * either succeeds or throws, and the comparison yields a mismatch
 * percentage or throws.
 */
module RunnerScreenshot {
  import opened Wrappers
  import opened JsText
  import opened RunnerArgs

  /** Where the approved screenshots are kept. */
  const TrustedDir := "screenshots/trusted/"

  /** The run tag's source when the package manager names no script. */
  const DefaultEvent := "test"

  /** Each character that is not a lower-case ASCII letter becomes `-`. */
  function Sanitize(s: string): (r: string)
    ensures |r| == |s|
    ensures forall i :: 0 <= i < |s| ==> r[i] == (if 'a' <= s[i] <= 'z' then s[i] else '-')
  {
    if s == [] then []
    else [if 'a' <= s[0] <= 'z' then s[0] else '-'] + Sanitize(s[1..])
  }

  /**
   * The run tag: the name of the script that launched the runner (`test`
   * when there is none), with every character other than `a`-`z` replaced by
   * `-`, and a `-` appended.
   */
  function Tag(lifecycleEvent: Option<string>): (t: string)
    ensures |t| == |lifecycleEvent.GetOr(DefaultEvent)| + 1
    ensures t[|t| - 1] == '-'
    ensures forall i :: 0 <= i < |t| ==> 'a' <= t[i] <= 'z' || t[i] == '-'
    ensures forall i :: 0 <= i < |t| - 1 ==>
      t[i] == (if 'a' <= lifecycleEvent.GetOr(DefaultEvent)[i] <= 'z' then lifecycleEvent.GetOr(DefaultEvent)[i] else '-')
  {
    Sanitize(lifecycleEvent.GetOr(DefaultEvent)) + "-"
  }

  /**
   * The screenshot's file name: the tag, `mobile-` and `headless-` for the
   * modes in force, the test file with every `.mjs` removed, and `.png`.
   */
  function ScreenshotName(tag: string, mobile: bool, headless: bool, file: string): (n: string)
    ensures StartsWith(n, tag) && EndsWith(n, ".png")
    ensures |n| == |tag| + (if mobile then 7 else 0) + (if headless then 9 else 0) + |RemoveAll(file, ".mjs")| + 4
  {
    tag + (if mobile then "mobile-" else "") + (if headless then "headless-" else "") + RemoveAll(file, ".mjs") + ".png"
  }

  /**
   * For a module file `stem.mjs` whose stem does not contain `.mjs`, the name
   * is the tag, the mode prefixes, the stem and `.png`.
   */
  lemma ScreenshotNameOfModule(tag: string, mobile: bool, headless: bool, stem: string)
    requires !Contains(stem, ".mjs")
    ensures ScreenshotName(tag, mobile, headless, stem + ".mjs") ==
      tag + (if mobile then "mobile-" else "") + (if headless then "headless-" else "") + stem + ".png"
  {
    RemoveModuleSuffix(stem);
  }

  /**
   * Runs in different modes store their screenshots under different names,
   * so that they never overwrite, or get compared with, each other's.
   */
  lemma ScreenshotNameSeparatesModes(tag: string, file: string, m1: bool, h1: bool, m2: bool, h2: bool)
    requires m1 != m2 || h1 != h2
    ensures ScreenshotName(tag, m1, h1, file) != ScreenshotName(tag, m2, h2, file)
  {
    var base := |tag| + |RemoveAll(file, ".mjs")| + 4;
    assert |ScreenshotName(tag, m1, h1, file)| == base + (if m1 then 7 else 0) + (if h1 then 9 else 0);
    assert |ScreenshotName(tag, m2, h2, file)| == base + (if m2 then 7 else 0) + (if h2 then 9 else 0);
  }

  /** The message of the error a mismatching screenshot throws. */
  function MismatchMessage(percentage: nat): (m: string)
    ensures StartsWith(m, "screenshot mismatch ") && EndsWith(m, "%")
    ensures |m| > 21
    ensures forall i :: 20 <= i < |m| - 1 ==> '0' <= m[i] <= '9'
    ensures DigitsValue(m[20..|m| - 1]) == percentage
  {
    var m := "screenshot mismatch " + Decimal(percentage) + "%";
    assert m[20..|m| - 1] == Decimal(percentage);
    DecimalRoundTrip(percentage);
    m
  }

  /**
   * The error `manageScreenshot` throws, if any. A failed capture step
   * throws first; otherwise the screenshot is compared only when validation
   * is requested and a trusted screenshot of the same name exists, and any
   * mismatch above zero, or an error of the comparison, is thrown.
   */
  function ScreenshotCheck(validate: bool, trustedExists: bool, capture: Option<Error>, compare: Result<nat, Error>)
    : (e: Option<Error>)
    ensures capture.Some? ==> e == capture
    ensures capture.None? && !(validate && trustedExists) ==> e.None?
    ensures capture.None? && compare.Success? ==>
      (e.Some? <==> validate && trustedExists && compare.value > 0)
    ensures capture.None? && compare.Success? && e.Some? ==> e.value.message == MismatchMessage(compare.value)
    ensures capture.None? && compare.Failure? && validate && trustedExists ==> e == Some(compare.error)
  {
    if capture.Some? then capture
    else if validate && trustedExists then
      match compare
      case Failure(err) => Some(err)
      case Success(p) => if p > 0 then Some(Error(MismatchMessage(p))) else None
    else None
  }
}

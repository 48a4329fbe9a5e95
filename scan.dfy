/**
 * What a scan request can run into, and the text shown for each failure.
 * sidepanel.js and popup.js use the same literal messages; only the side
 * panel has the permission category.
 */
module ScanOutcomes {
  import opened Wrappers
  import opened Strings
  import opened Fonts

  const NO_ACTIVE_TAB := "No active tab found"
  // The two long messages are written as two literals so that their first characters are visible to the verifier.
  const SCRIPTING_UNAVAILABLE :=
    "Scripting API not available. " +
    "Please: 1) Reload the extension in chrome://extensions/, 2) Make sure you're using Chrome 88+"
  const CANNOT_ACCESS_PAGE :=
    "Cannot access this page. " +
    "Please click the extension icon in the toolbar to grant permission for this tab."
  const SCAN_FAILED := "Failed to scan fonts"
  const ERROR_PREFIX := "Error: "

  /**
   * The answers of the browser to one scan request: the active tab's id (if
   * any), whether `chrome.scripting.executeScript` is a function,
   * `chrome.runtime.lastError.message` after the injection (if set), and
   * `results[0].result` when `results`, `results[0]` and the result are all
   * truthy (an empty array is truthy).
   */
  datatype ScanOutcome = ScanOutcome(
    activeTab: Option<int>,
    scriptingAvailable: bool,
    lastError: Option<string>,
    result: Option<seq<FontRecord>>)

  /** The check a scan failed at. */
  datatype Cause =
    | NoActiveTab
    | NoScripting
    | PermissionDenied
    | RuntimeError(detail: string)
    | NoResult

  /** The text `showError` displays for each cause. */
  function ErrorText(c: Cause): string
  {
    match c
    case NoActiveTab => NO_ACTIVE_TAB
    case NoScripting => SCRIPTING_UNAVAILABLE
    case PermissionDenied => CANNOT_ACCESS_PAGE
    case RuntimeError(detail) => ERROR_PREFIX + detail
    case NoResult => SCAN_FAILED
  }

  /** Reads a displayed message back as the cause it reports. */
  function ReadMessage(s: string): Option<Cause>
  {
    if s == NO_ACTIVE_TAB then Some(NoActiveTab)
    else if s == SCRIPTING_UNAVAILABLE then Some(NoScripting)
    else if s == CANNOT_ACCESS_PAGE then Some(PermissionDenied)
    else if s == SCAN_FAILED then Some(NoResult)
    else if ERROR_PREFIX <= s then Some(RuntimeError(s[|ERROR_PREFIX|..]))
    else None
  }

  /** No fixed message starts with the runtime-error prefix. */
  lemma FixedMessagesUnprefixed()
    ensures !(ERROR_PREFIX <= NO_ACTIVE_TAB) && !(ERROR_PREFIX <= SCRIPTING_UNAVAILABLE)
    ensures !(ERROR_PREFIX <= CANNOT_ACCESS_PAGE) && !(ERROR_PREFIX <= SCAN_FAILED)
  {
    assert ERROR_PREFIX[0] == 'E';
    assert NO_ACTIVE_TAB[0] == 'N' && SCRIPTING_UNAVAILABLE[0] == 'S';
    assert CANNOT_ACCESS_PAGE[0] == 'C' && SCAN_FAILED[0] == 'F';
  }

  /** Every failure shows a different text: the message names the check that failed. */
  lemma MessageRoundTrip(c: Cause)
    ensures ReadMessage(ErrorText(c)) == Some(c)
  {
    FixedMessagesUnprefixed();
    if c.RuntimeError? {
      var s := ERROR_PREFIX + c.detail;
      assert ERROR_PREFIX <= s && s[|ERROR_PREFIX|..] == c.detail;
      assert s != NO_ACTIVE_TAB && s != SCRIPTING_UNAVAILABLE && s != CANNOT_ACCESS_PAGE && s != SCAN_FAILED;
    }
  }

  /** Hence two causes with the same message are the same cause. */
  lemma MessageInjective(c: Cause, d: Cause)
    ensures ErrorText(c) == ErrorText(d) <==> c == d
  {
    MessageRoundTrip(c);
    MessageRoundTrip(d);
  }

  /** The side panel's test for a permission problem (sidepanel.js:61-66), case-sensitive. */
  predicate IsPermissionError(errorMsg: string)
  {
    Contains(errorMsg, "Cannot access contents") ||
    Contains(errorMsg, "permission") ||
    Contains(errorMsg, "host") ||
    Contains(errorMsg, "Cannot access")
  }

  /** The first of the four substrings is subsumed by the last. */
  lemma PermissionTestRedundant(errorMsg: string)
    ensures IsPermissionError(errorMsg) <==>
      (Contains(errorMsg, "permission") || Contains(errorMsg, "host") || Contains(errorMsg, "Cannot access"))
  {
    assert "Cannot access" + " contents" == "Cannot access contents";
    if Contains(errorMsg, "Cannot access contents") {
      ContainsPrefixOfPattern(errorMsg, "Cannot access", " contents");
    }
  }

  /** The permission test in terms of positions: one of the substrings occurs somewhere. */
  lemma PermissionErrorOccurrence(errorMsg: string)
    ensures IsPermissionError(errorMsg) <==>
      ((exists i :: OccursAt(errorMsg, "permission", i)) ||
       (exists i :: OccursAt(errorMsg, "host", i)) ||
       (exists i :: OccursAt(errorMsg, "Cannot access", i)))
  {
    PermissionTestRedundant(errorMsg);
    ContainsIffOccurrence(errorMsg, "permission");
    ContainsIffOccurrence(errorMsg, "host");
    ContainsIffOccurrence(errorMsg, "Cannot access");
  }
}

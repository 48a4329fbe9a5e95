/**
 * popup.js: the same scan as the side panel, run when the popup opens,
 * rendered without entry metadata and with a simpler error mapping. Its copy
 * of `scanAllFonts` (popup.js:51-82) is the function of the same name in
 * `Extractor`; its `displayFonts` and `showError` are `Display.Panel`'s with
 * metadata off.
 */
module Popup {
  import opened Wrappers
  import opened Display
  import opened ScanOutcomes
  import SidePanel

  /** Which check of the popup's `scanFonts` fails (popup.js:13-45): every runtime error is shown verbatim. */
  function PopupDiagnose(o: ScanOutcome): (r: Option<Cause>)
    ensures r != Some(PermissionDenied)
    ensures r.None? <==> o.activeTab.Some? && o.scriptingAvailable && o.lastError.None? && o.result.Some?
  {
    if o.activeTab.None? then Some(NoActiveTab)
    else if !o.scriptingAvailable then Some(NoScripting)
    else if o.lastError.Some? then Some(RuntimeError(o.lastError.value))
    else if o.result.None? then Some(NoResult)
    else None
  }

  /**
   * The popup and the side panel report the same outcome, except that where
   * the side panel shows its permission advice the popup shows
   * `"Error: " + message`.
   */
  lemma PopupAgreesWithSidePanel(o: ScanOutcome)
    ensures SidePanel.Diagnose(o) != Some(PermissionDenied) ==> PopupDiagnose(o) == SidePanel.Diagnose(o)
    ensures SidePanel.Diagnose(o) == Some(PermissionDenied) <==>
      (PopupDiagnose(o).Some? && PopupDiagnose(o).value.RuntimeError? && IsPermissionError(PopupDiagnose(o).value.detail))
    ensures SidePanel.Diagnose(o) == Some(PermissionDenied) ==>
      ErrorText(PopupDiagnose(o).value) == ERROR_PREFIX + o.lastError.value
  {
  }

  /**
   * `scanFonts` (popup.js:11-48) with every callback run to completion; the
   * result is the scan request it issues, if it gets that far.
   */
  method ScanFonts(panel: Panel, outcome: ScanOutcome) returns (issued: seq<SidePanel.Command>)
    requires panel.Valid()
    modifies panel
    ensures panel.Valid() && !panel.loadingVisible
    ensures issued == if outcome.activeTab.Some? && outcome.scriptingAvailable then [SidePanel.RunScan(outcome.activeTab.value)] else []
    ensures PopupDiagnose(outcome).Some? ==>
      panel.errorVisible && panel.errorText == ErrorText(PopupDiagnose(outcome).value) &&
      panel.results == old(panel.results) && panel.highlighted == old(panel.highlighted)
    ensures PopupDiagnose(outcome).None? ==>
      panel.results == Render(outcome.result.value, false) && panel.highlighted == {} &&
      panel.errorVisible == old(panel.errorVisible) && panel.errorText == old(panel.errorText)
  {
    issued := [];
    if outcome.activeTab.None? {
      panel.ShowError(NO_ACTIVE_TAB);
      return;
    }
    if !outcome.scriptingAvailable {
      panel.ShowError(SCRIPTING_UNAVAILABLE);
      return;
    }
    issued := [SidePanel.RunScan(outcome.activeTab.value)];
    if outcome.lastError.Some? {
      panel.ShowError(ERROR_PREFIX + outcome.lastError.value);
      return;
    }
    if outcome.result.Some? {
      panel.DisplayFonts(outcome.result.value, false);
    } else {
      panel.ShowError(SCAN_FAILED);
    }
  }
}

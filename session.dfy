/**
 * The side panel controller of sidepanel.js: the module-level hover state,
 * the scan request, highlighting of the entry the page reports as hovered,
 * and the resets on tab changes. Browser calls are modelled by their answers,
 * given as parameters, and by the commands the panel issues, kept in a log.
 */
module SidePanel {
  import opened Wrappers
  import opened Fonts
  import opened Messages
  import opened Display
  import opened Extractor
  import opened ScanOutcomes

  /** A browser call issued by the panel. */
  datatype Command =
    | RunScan(tab: int)                   // executeScript({ func: scanAllFonts })
    | InjectContentScript(tab: int)       // executeScript({ files: ["content-script.js"] })
    | Send(tab: int, message: Message)    // chrome.tabs.sendMessage

  /** Which check of `scanFonts` fails, if any, in the order the code makes them (sidepanel.js:23-87). */
  function Diagnose(o: ScanOutcome): (r: Option<Cause>)
    ensures r.None? <==> o.activeTab.Some? && o.scriptingAvailable && o.lastError.None? && o.result.Some?
    ensures r == Some(PermissionDenied) <==>
      o.activeTab.Some? && o.scriptingAvailable && o.lastError.Some? && IsPermissionError(o.lastError.value)
  {
    if o.activeTab.None? then Some(NoActiveTab)
    else if !o.scriptingAvailable then Some(NoScripting)
    else if o.lastError.Some? then
      (if IsPermissionError(o.lastError.value) then Some(PermissionDenied) else Some(RuntimeError(o.lastError.value)))
    else if o.result.None? then Some(NoResult)
    else None
  }

  /** Earlier checks win: an absent tab hides every later problem, and so on down the list. */
  lemma DiagnoseOrder(o: ScanOutcome)
    ensures o.activeTab.None? ==> Diagnose(o) == Some(NoActiveTab)
    ensures o.activeTab.Some? && !o.scriptingAvailable ==> Diagnose(o) == Some(NoScripting)
    ensures o.activeTab.Some? && o.scriptingAvailable && o.lastError.Some? ==>
      ErrorText(Diagnose(o).value) ==
        (if IsPermissionError(o.lastError.value) then CANNOT_ACCESS_PAGE else ERROR_PREFIX + o.lastError.value)
    ensures o.activeTab.Some? && o.scriptingAvailable && o.lastError.None? && o.result.None? ==>
      Diagnose(o) == Some(NoResult)
  {
  }

  /** JavaScript truthiness of `currentTabIdForHover`: `null` and `0` are falsy. */
  predicate TabIsSet(tab: Option<int>)
  {
    tab.Some? && tab.value != 0
  }

  /** What `injectHoverDetection` issues: the injection, then START when it succeeded. */
  function InjectCommands(tabId: int, injectOk: bool): seq<Command>
  {
    [InjectContentScript(tabId)] + (if injectOk then [Send(tabId, StartHoverDetection)] else [])
  }

  /**
   * What `toggleHoverMode` sends once the mode is flipped to `enabling`
   * (sidepanel.js:169-187); `startDelivered` is whether the START reached a
   * listener, `injectOk` whether a re-injection succeeded.
   */
  function ToggleCommands(enabling: bool, tab: Option<int>, startDelivered: bool, injectOk: bool): seq<Command>
  {
    if !TabIsSet(tab) then []
    else if enabling then
      [Send(tab.value, StartHoverDetection)] + (if startDelivered then [] else InjectCommands(tab.value, injectOk))
    else [Send(tab.value, StopHoverDetection)]
  }

  /**
   * Toggling addresses only the hover tab, sends nothing without one (tab id
   * 0 included), never sends STOP when enabling, and sends exactly STOP when
   * disabling.
   */
  lemma ToggleCommandsSpec(enabling: bool, tab: Option<int>, startDelivered: bool, injectOk: bool)
    ensures var r := ToggleCommands(enabling, tab, startDelivered, injectOk);
      (r == [] <==> !TabIsSet(tab)) &&
      |r| <= 3 &&
      (forall k :: 0 <= k < |r| ==> r[k].tab == tab.value) &&
      (enabling && TabIsSet(tab) ==> r[0] == Send(tab.value, StartHoverDetection)) &&
      (enabling ==> forall k :: 0 <= k < |r| ==> r[k] != Send(tab.value, StopHoverDetection)) &&
      (!enabling && TabIsSet(tab) ==> r == [Send(tab.value, StopHoverDetection)])
  {
  }

  /**
   * The index of the first entry whose `data-font-key` is `key`, as
   * `Array.prototype.find` returns it (sidepanel.js:151-153).
   */
  function FirstMatch(keys: seq<Option<string>>, key: string): (r: Option<nat>)
    ensures r.Some? ==> r.value < |keys| && keys[r.value] == Some(key)
    ensures r.Some? ==> forall j :: 0 <= j < r.value ==> keys[j] != Some(key)
    ensures r.None? <==> Some(key) !in keys
    decreases |keys|
  {
    if |keys| == 0 then None
    else if keys[0] == Some(key) then Some(0)
    else
      match FirstMatch(keys[1..], key)
      case None => None
      case Some(j) => Some(j + 1)
  }

  /** The highlighted set after a hover report for `font` (sidepanel.js:134-163). */
  function HighlightAfterHover(keys: seq<Option<string>>, hoverModeEnabled: bool, highlighted: set<nat>, font: FontRecord): set<nat>
  {
    if !hoverModeEnabled then highlighted
    else
      match FirstMatch(keys, RecordKey(font))
      case None => {}
      case Some(j) => {j}
  }

  /**
   * With hover mode on, exactly the first entry whose key is the report's
   * `family|weight|fontSize|lineHeight` is highlighted, and nothing when no
   * entry matches; with it off, nothing changes.
   */
  lemma HighlightAfterHoverSpec(keys: seq<Option<string>>, hoverModeEnabled: bool, highlighted: set<nat>, font: FontRecord)
    ensures !hoverModeEnabled ==> HighlightAfterHover(keys, hoverModeEnabled, highlighted, font) == highlighted
    ensures hoverModeEnabled ==>
      var r := HighlightAfterHover(keys, hoverModeEnabled, highlighted, font);
      |r| <= 1 &&
      (r == {} <==> Some(RecordKey(font)) !in keys) &&
      (forall j: nat :: j in r <==>
        (j < |keys| && keys[j] == Some(RecordKey(font)) && forall i :: 0 <= i < j ==> keys[i] != Some(RecordKey(font))))
  {
    if hoverModeEnabled {
      var m := FirstMatch(keys, RecordKey(font));
      if m.Some? {
        forall j: nat | j < |keys| && keys[j] == Some(RecordKey(font)) && (forall i :: 0 <= i < j ==> keys[i] != Some(RecordKey(font)))
          ensures j == m.value
        {
          assert !(m.value < j);
        }
      }
    }
  }

  /**
   * End to end: after a scan of `doc` fills the panel, a hover report for any
   * element of `doc` highlights exactly one entry, the first one carrying that
   * element's key, provided no weight, size or line height contains `|`.
   */
  lemma HoverOverScannedElement(doc: seq<RawStyle>, i: nat, highlighted: set<nat>)
    requires i < |doc|
    requires forall k :: 0 <= k < |doc| ==> PlainValues(doc[k])
    ensures var keys := EntryKeys(Render(Extract(doc), true));
      var key := RecordKey(FontProperties(doc[i]));
      FirstMatch(keys, key).Some? &&
      HighlightAfterHover(keys, true, highlighted, FontProperties(doc[i])) == {FirstMatch(keys, key).value}
  {
    ExtractComplete(doc, i);
    RenderedKeyPresent(Extract(doc), FontProperties(doc[i]));
  }

  /** The module-level variables of sidepanel.js and the state of its two buttons. */
  class SessionController {
    var hoverModeEnabled: bool
    var currentTabIdForHover: Option<int>
    var currentTabId: Option<int>
    var scanButtonDisabled: bool
    var hoverToggleDisabled: bool
    /** Every browser call issued, in order. */
    var commands: seq<Command>
    /** The loading, error and results elements. */
    const panel: Panel

    ghost predicate Valid()
      reads this, panel
    {
      panel.Valid()
    }

    /** The panel as loaded, before `DOMContentLoaded`; the hover button starts disabled. */
    constructor ()
      ensures Valid() && fresh(panel)
      ensures !hoverModeEnabled && currentTabIdForHover == None && currentTabId == None
      ensures !scanButtonDisabled && hoverToggleDisabled && commands == []
      ensures panel.results == Cleared && panel.highlighted == {} && !panel.errorVisible
      ensures !panel.loadingVisible && panel.errorText == ""
    {
      hoverModeEnabled := false;
      currentTabIdForHover := None;
      currentTabId := None;
      scanButtonDisabled := false;
      hoverToggleDisabled := true;
      commands := [];
      panel := new Panel();
    }

    /** `clearHighlights` (sidepanel.js:126-131): remove the class from every entry. */
    method ClearHighlights()
      requires Valid()
      modifies panel
      ensures Valid() && panel.highlighted == {}
      ensures panel.results == old(panel.results) && panel.loadingVisible == old(panel.loadingVisible)
      ensures panel.errorText == old(panel.errorText) && panel.errorVisible == old(panel.errorVisible)
    {
      var n := |EntryKeys(panel.results)|;
      var i := 0;
      while i < n
        invariant 0 <= i <= n
        invariant panel.highlighted <= old(panel.highlighted)
        invariant forall j :: j in panel.highlighted ==> i <= j < n
        invariant panel.results == old(panel.results) && panel.loadingVisible == old(panel.loadingVisible)
        invariant panel.errorText == old(panel.errorText) && panel.errorVisible == old(panel.errorVisible)
      {
        panel.highlighted := panel.highlighted - {i};
        i := i + 1;
      }
      assert forall j :: j !in panel.highlighted;
    }

    /** `injectHoverDetection` (sidepanel.js:110-123). */
    method InjectHoverDetection(tabId: int, injectOk: bool)
      modifies this
      ensures commands == old(commands) + InjectCommands(tabId, injectOk)
      ensures hoverModeEnabled == old(hoverModeEnabled) && currentTabIdForHover == old(currentTabIdForHover)
      ensures currentTabId == old(currentTabId)
      ensures scanButtonDisabled == old(scanButtonDisabled) && hoverToggleDisabled == old(hoverToggleDisabled)
    {
      commands := commands + [InjectContentScript(tabId)];
      if injectOk {
        commands := commands + [Send(tabId, StartHoverDetection)];
      }
    }

    /**
     * `scanFonts` (sidepanel.js:15-92) with every callback run to completion;
     * `injectOk` is whether the follow-up content-script injection succeeds.
     */
    method ScanFonts(outcome: ScanOutcome, injectOk: bool)
      requires Valid()
      modifies this, panel
      ensures Valid()
      ensures !scanButtonDisabled && !panel.loadingVisible && panel.highlighted == {}
      ensures hoverModeEnabled == old(hoverModeEnabled) && currentTabId == old(currentTabId)
      ensures Diagnose(outcome).Some? ==>
        panel.errorVisible && panel.errorText == ErrorText(Diagnose(outcome).value) && panel.results == Cleared &&
        currentTabIdForHover == old(currentTabIdForHover) && hoverToggleDisabled == old(hoverToggleDisabled) &&
        commands == old(commands) +
          (if outcome.activeTab.Some? && outcome.scriptingAvailable then [RunScan(outcome.activeTab.value)] else [])
      ensures Diagnose(outcome).None? ==>
        !panel.errorVisible && panel.errorText == old(panel.errorText) &&
        panel.results == Render(outcome.result.value, true) &&
        currentTabIdForHover == outcome.activeTab && !hoverToggleDisabled &&
        commands == old(commands) + [RunScan(outcome.activeTab.value)] + InjectCommands(outcome.activeTab.value, injectOk)
    {
      panel.errorVisible := false;
      panel.results := Cleared;
      panel.highlighted := {};
      panel.loadingVisible := true;
      scanButtonDisabled := true;

      if outcome.activeTab.None? {
        panel.ShowError(NO_ACTIVE_TAB);
        scanButtonDisabled := false;
        return;
      }
      var tab := outcome.activeTab.value;
      if !outcome.scriptingAvailable {
        panel.ShowError(SCRIPTING_UNAVAILABLE);
        scanButtonDisabled := false;
        return;
      }
      commands := commands + [RunScan(tab)];
      scanButtonDisabled := false;
      if outcome.lastError.Some? {
        var errorMsg := outcome.lastError.value;
        if IsPermissionError(errorMsg) {
          panel.ShowError(CANNOT_ACCESS_PAGE);
        } else {
          panel.ShowError(ERROR_PREFIX + errorMsg);
        }
        return;
      }
      if outcome.result.Some? {
        panel.DisplayFonts(outcome.result.value, true);
        InjectHoverDetection(tab, injectOk);
        currentTabIdForHover := Some(tab);
        hoverToggleDisabled := false;
      } else {
        panel.ShowError(SCAN_FAILED);
      }
    }

    /** `highlightFontCombination` (sidepanel.js:134-163). */
    method HighlightFontCombination(font: FontRecord)
      requires Valid()
      modifies panel
      ensures Valid()
      ensures panel.highlighted == HighlightAfterHover(EntryKeys(panel.results), hoverModeEnabled, old(panel.highlighted), font)
      ensures panel.results == old(panel.results) && panel.loadingVisible == old(panel.loadingVisible)
      ensures panel.errorText == old(panel.errorText) && panel.errorVisible == old(panel.errorVisible)
    {
      if !hoverModeEnabled {
        return;
      }
      var fontKey := RecordKey(font);
      ClearHighlights();
      var matchingElement := FirstMatch(EntryKeys(panel.results), fontKey);
      if matchingElement.Some? {
        panel.highlighted := panel.highlighted + {matchingElement.value};
      }
    }

    /** `toggleHoverMode` (sidepanel.js:166-191). */
    method ToggleHoverMode(startDelivered: bool, injectOk: bool)
      requires Valid()
      modifies this, panel
      ensures Valid()
      ensures hoverModeEnabled == !old(hoverModeEnabled)
      ensures commands == old(commands) + ToggleCommands(hoverModeEnabled, currentTabIdForHover, startDelivered, injectOk)
      ensures panel.highlighted == if hoverModeEnabled then old(panel.highlighted) else {}
      ensures currentTabIdForHover == old(currentTabIdForHover) && currentTabId == old(currentTabId)
      ensures scanButtonDisabled == old(scanButtonDisabled) && hoverToggleDisabled == old(hoverToggleDisabled)
      ensures panel.results == old(panel.results) && panel.errorVisible == old(panel.errorVisible)
      ensures panel.errorText == old(panel.errorText) && panel.loadingVisible == old(panel.loadingVisible)
    {
      hoverModeEnabled := !hoverModeEnabled;
      if hoverModeEnabled {
        if TabIsSet(currentTabIdForHover) {
          var tab := currentTabIdForHover.value;
          commands := commands + [Send(tab, StartHoverDetection)];
          if !startDelivered {
            InjectHoverDetection(tab, injectOk);
          }
        }
      } else {
        if TabIsSet(currentTabIdForHover) {
          commands := commands + [Send(currentTabIdForHover.value, StopHoverDetection)];
        }
        ClearHighlights();
      }
    }

    /** The `chrome.runtime.onMessage` listener (sidepanel.js:194-200). */
    method OnMessage(message: Message)
      requires Valid()
      modifies panel
      ensures Valid()
      ensures panel.highlighted ==
        match message
        case FontHover(font) => HighlightAfterHover(EntryKeys(panel.results), hoverModeEnabled, old(panel.highlighted), font)
        case MouseLeftPage => {}
        case _ => old(panel.highlighted)
      ensures panel.results == old(panel.results) && panel.loadingVisible == old(panel.loadingVisible)
      ensures panel.errorText == old(panel.errorText) && panel.errorVisible == old(panel.errorVisible)
    {
      if message.FontHover? {
        HighlightFontCombination(message.font);
      } else if message.MouseLeftPage? {
        ClearHighlights();
      }
    }

    /** `updateCurrentTab` (sidepanel.js:98-107) once its query has answered `activeTab`. */
    method UpdateCurrentTab(activeTab: Option<int>)
      requires Valid()
      modifies this, panel
      ensures Valid()
      ensures var changed := activeTab.Some? && activeTab != old(currentTabId);
        currentTabId == (if changed then activeTab else old(currentTabId)) &&
        panel.results == (if changed then Cleared else old(panel.results)) &&
        panel.errorVisible == (if changed then false else old(panel.errorVisible)) &&
        panel.highlighted == (if changed then {} else old(panel.highlighted))
      ensures hoverModeEnabled == old(hoverModeEnabled) && currentTabIdForHover == old(currentTabIdForHover)
      ensures commands == old(commands) && panel.errorText == old(panel.errorText)
      ensures panel.loadingVisible == old(panel.loadingVisible)
      ensures scanButtonDisabled == old(scanButtonDisabled) && hoverToggleDisabled == old(hoverToggleDisabled)
    {
      if activeTab.Some? && activeTab != currentTabId {
        currentTabId := activeTab;
        panel.results := Cleared;
        panel.highlighted := {};
        panel.errorVisible := false;
      }
    }

    /** The hover reset shared by both tab listeners (sidepanel.js:214-220, 230-236). */
    method ResetHoverMode()
      requires Valid()
      modifies this, panel
      ensures Valid() && !hoverModeEnabled
      ensures currentTabIdForHover == if old(hoverModeEnabled) then None else old(currentTabIdForHover)
      ensures panel.highlighted == if old(hoverModeEnabled) then {} else old(panel.highlighted)
      ensures currentTabId == old(currentTabId) && commands == old(commands)
      ensures panel.results == old(panel.results) && panel.errorVisible == old(panel.errorVisible)
      ensures panel.errorText == old(panel.errorText) && panel.loadingVisible == old(panel.loadingVisible)
      ensures scanButtonDisabled == old(scanButtonDisabled) && hoverToggleDisabled == old(hoverToggleDisabled)
    {
      if hoverModeEnabled {
        hoverModeEnabled := false;
        ClearHighlights();
        currentTabIdForHover := None;
      }
    }

    /**
     * The `chrome.tabs.onActivated` listener (sidepanel.js:211-221): the hover
     * reset runs at once, the tab query answers `activeTab` afterwards.
     */
    method OnActivated(activeTab: Option<int>)
      requires Valid()
      modifies this, panel
      ensures Valid() && !hoverModeEnabled
      ensures var changed := activeTab.Some? && activeTab != old(currentTabId);
        currentTabId == (if changed then activeTab else old(currentTabId)) &&
        panel.results == (if changed then Cleared else old(panel.results)) &&
        panel.errorVisible == (if changed then false else old(panel.errorVisible)) &&
        panel.highlighted == (if changed || old(hoverModeEnabled) then {} else old(panel.highlighted))
      ensures currentTabIdForHover == if old(hoverModeEnabled) then None else old(currentTabIdForHover)
      ensures commands == old(commands) && panel.errorText == old(panel.errorText)
      ensures panel.loadingVisible == old(panel.loadingVisible)
      ensures scanButtonDisabled == old(scanButtonDisabled) && hoverToggleDisabled == old(hoverToggleDisabled)
    {
      ResetHoverMode();
      UpdateCurrentTab(activeTab);
    }

    /** The `chrome.tabs.onUpdated` listener (sidepanel.js:224-238); `status` is `changeInfo.status`. */
    method OnUpdated(tabId: int, status: Option<string>)
      requires Valid()
      modifies this, panel
      ensures Valid()
      ensures var reset := status == Some("complete") && Some(tabId) == old(currentTabId);
        (reset ==>
          panel.results == Cleared && !panel.errorVisible && panel.highlighted == {} && !hoverModeEnabled &&
          currentTabIdForHover == (if old(hoverModeEnabled) then None else old(currentTabIdForHover))) &&
        (!reset ==>
          panel.results == old(panel.results) && panel.errorVisible == old(panel.errorVisible) &&
          panel.highlighted == old(panel.highlighted) && hoverModeEnabled == old(hoverModeEnabled) &&
          currentTabIdForHover == old(currentTabIdForHover))
      ensures currentTabId == old(currentTabId) && commands == old(commands) && panel.errorText == old(panel.errorText)
      ensures panel.loadingVisible == old(panel.loadingVisible)
      ensures scanButtonDisabled == old(scanButtonDisabled) && hoverToggleDisabled == old(hoverToggleDisabled)
    {
      if status == Some("complete") && Some(tabId) == currentTabId {
        panel.results := Cleared;
        panel.highlighted := {};
        panel.errorVisible := false;
        ResetHoverMode();
      }
    }
  }
}

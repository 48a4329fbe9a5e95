/**
 * The messages exchanged between the side panel and the content script:
 * the two commands sent with `chrome.tabs.sendMessage` and the two events sent
 * with `chrome.runtime.sendMessage`, dispatched on their `type` field.
 */
module Messages {
  import opened Fonts

  datatype Message =
    | StartHoverDetection          // { type: "START_HOVER_DETECTION" }
    | StopHoverDetection           // { type: "STOP_HOVER_DETECTION" }
    | FontHover(font: FontRecord)  // { type: "FONT_HOVER", font }
    | MouseLeftPage                // { type: "MOUSE_LEFT_PAGE" }
    | OtherMessage(kind: string)   // any other `type`

  /** The `sendResponse` payload `{ success: true }`. */
  datatype Reply = Reply(success: bool)
}

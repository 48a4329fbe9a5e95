/**
 * The hover observer of content-script.js: three listener slots, one debounce
 * timer slot and the messages it sends. The timer's 100 ms delay is not
 * modelled: the pending callback is the target it will report, and its firing
 * is an explicit event.
 */
module HoverObserver {
  import opened Wrappers
  import opened Fonts
  import opened Messages

  /** The nodes that matter to the mouseout test; `NoNode` is a null `relatedTarget`. */
  datatype Node = NoNode | Body | DocumentElement | OtherElement

  /** What the page does to the observer. */
  datatype PageEvent =
    | MouseOver(element: RawStyle)
    | MouseOut(target: Node, relatedTarget: Node)
    | MouseLeave
    | TimerFires

  /**
   * The closure variables: whether each listener is attached, the target of
   * the pending debounce callback (if any) and the messages sent so far.
   */
  datatype ObserverState = ObserverState(
    hoverListener: bool,
    mouseOutListener: bool,
    mouseLeaveListener: bool,
    debounceTimer: Option<RawStyle>,
    outbox: seq<Message>)

  /** Listeners come and go together, and a callback is pending only while listening. */
  predicate Consistent(s: ObserverState)
  {
    s.hoverListener == s.mouseOutListener == s.mouseLeaveListener &&
    (s.debounceTimer.Some? ==> s.hoverListener)
  }

  /** The state right after injection: nothing attached, nothing pending, nothing sent. */
  const Idle := ObserverState(false, false, false, None, [])

  /** `startHoverDetection` (content-script.js:27-91): a no-op when the hover listener exists. */
  function Start(s: ObserverState): (r: ObserverState)
    ensures Consistent(s) ==> Consistent(r)
  {
    if s.hoverListener then s
    else s.(hoverListener := true, mouseOutListener := true, mouseLeaveListener := true)
  }

  /** `stopHoverDetection` (content-script.js:93-110): detach everything and cancel the timer. */
  function Stop(s: ObserverState): (r: ObserverState)
    ensures Consistent(r)
  {
    s.(hoverListener := false, mouseOutListener := false, mouseLeaveListener := false, debounceTimer := None)
  }

  /** The mouseout test for leaving the page (content-script.js:34). */
  predicate LeavesPage(target: Node, relatedTarget: Node)
  {
    relatedTarget == NoNode || (relatedTarget == Body && target == DocumentElement)
  }

  /**
   * One page event. A delivery failure is ignored by every send
   * (content-script.js:40-45, 56-60, 78-83), so a send is just an append.
   */
  function OnPage(s: ObserverState, e: PageEvent): (r: ObserverState)
    ensures Consistent(s) ==> Consistent(r)
    ensures r.hoverListener == s.hoverListener && r.mouseOutListener == s.mouseOutListener
    ensures r.mouseLeaveListener == s.mouseLeaveListener
    ensures |s.outbox| <= |r.outbox| <= |s.outbox| + 1 && r.outbox[..|s.outbox|] == s.outbox
  {
    match e
    case MouseOver(target) =>
      if s.hoverListener then s.(debounceTimer := Some(target)) else s
    case MouseOut(target, relatedTarget) =>
      if s.mouseOutListener && LeavesPage(target, relatedTarget) then s.(outbox := s.outbox + [MouseLeftPage]) else s
    case MouseLeave =>
      if s.mouseLeaveListener then s.(outbox := s.outbox + [MouseLeftPage]) else s
    case TimerFires =>
      match s.debounceTimer
      case None => s
      case Some(target) => s.(debounceTimer := None, outbox := s.outbox + [FontHover(FontProperties(target))])
  }

  /**
   * The `onMessage` handler (content-script.js:113-121): START and STOP are
   * acted on and answered with `{ success: true }`; anything else is ignored
   * and gets no answer.
   */
  function HandleMessage(s: ObserverState, m: Message): (r: (ObserverState, Option<Reply>))
    ensures r.1.Some? <==> m.StartHoverDetection? || m.StopHoverDetection?
    ensures r.1.Some? ==> r.1.value.success
    ensures Consistent(s) ==> Consistent(r.0)
    ensures !r.1.Some? ==> r.0 == s
  {
    match m
    case StartHoverDetection => (Start(s), Some(Reply(true)))
    case StopHoverDetection => (Stop(s), Some(Reply(true)))
    case _ => (s, None)
  }

  /** A sequence of page events, in order. */
  function Run(s: ObserverState, events: seq<PageEvent>): ObserverState
    decreases |events|
  {
    if events == [] then s else Run(OnPage(s, events[0]), events[1..])
  }

  function MouseOvers(targets: seq<RawStyle>): seq<PageEvent>
  {
    seq(|targets|, i requires 0 <= i < |targets| => MouseOver(targets[i]))
  }

  lemma {:induction false} RunAppend(s: ObserverState, a: seq<PageEvent>, b: seq<PageEvent>)
    ensures Run(s, a + b) == Run(Run(s, a), b)
    decreases |a|
  {
    if a == [] {
      assert a + b == b;
    } else {
      assert (a + b)[0] == a[0] && (a + b)[1..] == a[1..] + b;
      RunAppend(OnPage(s, a[0]), a[1..], b);
    }
  }

  /** Starting twice is starting once; starting an active observer changes nothing. */
  lemma StartIdempotent(s: ObserverState)
    ensures Start(Start(s)) == Start(s)
    ensures s.hoverListener ==> Start(s) == s
    ensures !s.hoverListener ==>
      (Start(s).hoverListener && Start(s).mouseOutListener && Start(s).mouseLeaveListener &&
       Start(s).debounceTimer == s.debounceTimer && Start(s).outbox == s.outbox)
  {
  }

  /** Stopping is idempotent, keeps what was sent, and stopping an idle observer is harmless. */
  lemma StopIdempotent(s: ObserverState)
    ensures Stop(Stop(s)) == Stop(s)
    ensures Stop(s).outbox == s.outbox && Stop(s).debounceTimer == None && !Stop(s).hoverListener
    ensures Stop(Idle) == Idle
  {
  }

  /** After a stop no page event changes anything, so no report is ever sent. */
  lemma {:induction false} StoppedObserverSilent(s: ObserverState, events: seq<PageEvent>)
    ensures Run(Stop(s), events) == Stop(s)
    decreases |events|
  {
    if events != [] {
      assert OnPage(Stop(s), events[0]) == Stop(s);
      StoppedObserverSilent(s, events[1..]);
    }
  }

  /** A burst of mouseovers leaves only the last target pending and sends nothing. */
  lemma {:induction false} MouseOverBurst(s: ObserverState, targets: seq<RawStyle>)
    requires s.hoverListener && |targets| > 0
    ensures Run(s, MouseOvers(targets)) == s.(debounceTimer := Some(targets[|targets| - 1]))
    decreases |targets|
  {
    var evs := MouseOvers(targets);
    var s1 := OnPage(s, evs[0]);
    assert s1 == s.(debounceTimer := Some(targets[0]));
    if |targets| > 1 {
      assert evs[1..] == MouseOvers(targets[1..]);
      MouseOverBurst(s1, targets[1..]);
      assert s1.(debounceTimer := Some(targets[|targets| - 1])) == s.(debounceTimer := Some(targets[|targets| - 1]));
    } else {
      assert evs[1..] == [];
    }
  }

  /**
   * Trailing-edge debounce: a burst of mouseovers followed by the timer firing
   * sends exactly one `FONT_HOVER`, for the last target.
   */
  lemma DebounceSendsOneReport(s: ObserverState, targets: seq<RawStyle>)
    requires s.hoverListener && |targets| > 0
    ensures Run(s, MouseOvers(targets) + [TimerFires]).outbox ==
      s.outbox + [FontHover(FontProperties(targets[|targets| - 1]))]
    ensures Run(s, MouseOvers(targets) + [TimerFires]).debounceTimer == None
  {
    RunAppend(s, MouseOvers(targets), [TimerFires]);
    MouseOverBurst(s, targets);
  }

  /** The target of the last mouseover of a trace, if it has one. */
  function LastMouseOver(events: seq<PageEvent>): Option<RawStyle>
    decreases |events|
  {
    if events == [] then None
    else if events[|events| - 1].MouseOver? then Some(events[|events| - 1].element)
    else LastMouseOver(events[..|events| - 1])
  }

  /**
   * Any pointer movement before the timer fires (mouseovers, mouseouts and
   * mouseleaves in any order): the listeners stay attached, the pending
   * target is the last mouseover's (or the old one if there was none), and
   * every message sent in between is `MOUSE_LEFT_PAGE`.
   */
  lemma {:induction false} QuietTrace(s: ObserverState, events: seq<PageEvent>)
    requires Consistent(s) && s.hoverListener
    requires forall k :: 0 <= k < |events| ==> !events[k].TimerFires?
    ensures var r := Run(s, events);
      Consistent(r) && r.hoverListener &&
      r.debounceTimer == (if LastMouseOver(events).Some? then LastMouseOver(events) else s.debounceTimer) &&
      |s.outbox| <= |r.outbox| && r.outbox[..|s.outbox|] == s.outbox &&
      (forall k :: |s.outbox| <= k < |r.outbox| ==> r.outbox[k] == MouseLeftPage)
    decreases |events|
  {
    if events != [] {
      var n := |events| - 1;
      var init, e := events[..n], events[n];
      assert events == init + [e];
      RunAppend(s, init, [e]);
      QuietTrace(s, init);
      var x := Run(s, init);
      assert [e][1..] == [];
      assert Run(x, [e]) == OnPage(x, e);
      var r := OnPage(x, e);
      assert r.outbox[..|x.outbox|] == x.outbox;
      assert r.outbox[..|s.outbox|] == x.outbox[..|s.outbox|];
    }
  }

  /**
   * Trailing-edge debounce under real pointer movement: when the timer
   * finally fires after a trace with at least one mouseover and no earlier
   * fire, exactly one `FONT_HOVER` is sent, for the last mouseover's target,
   * and it comes after nothing but `MOUSE_LEFT_PAGE` messages.
   */
  lemma DebounceOverPointerTrace(s: ObserverState, events: seq<PageEvent>)
    requires Consistent(s) && s.hoverListener
    requires forall k :: 0 <= k < |events| ==> !events[k].TimerFires?
    requires LastMouseOver(events).Some?
    ensures var r := Run(s, events + [TimerFires]);
      |s.outbox| < |r.outbox| && r.outbox[..|s.outbox|] == s.outbox &&
      r.outbox[|r.outbox| - 1] == FontHover(FontProperties(LastMouseOver(events).value)) &&
      (forall k :: |s.outbox| <= k < |r.outbox| - 1 ==> r.outbox[k] == MouseLeftPage) &&
      r.debounceTimer == None
  {
    QuietTrace(s, events);
    RunAppend(s, events, [TimerFires]);
    var x := Run(s, events);
    assert [TimerFires][1..] == [];
    assert Run(x, [TimerFires]) == OnPage(x, TimerFires);
    var r := OnPage(x, TimerFires);
    assert r.outbox == x.outbox + [FontHover(FontProperties(LastMouseOver(events).value))];
    assert r.outbox[..|s.outbox|] == x.outbox[..|s.outbox|];
  }

  /**
   * Neither left-page signal cancels a pending callback: a page-leave followed
   * by the timer sends `MOUSE_LEFT_PAGE` and then `FONT_HOVER`.
   */
  lemma LeavingKeepsPendingReport(s: ObserverState, target: RawStyle, leave: PageEvent)
    requires Consistent(s) && s.debounceTimer == Some(target)
    requires leave == MouseLeave || (leave.MouseOut? && LeavesPage(leave.target, leave.relatedTarget))
    ensures Run(s, [leave, TimerFires]).outbox == s.outbox + [MouseLeftPage, FontHover(FontProperties(target))]
  {
    var s1 := OnPage(s, leave);
    assert s1.debounceTimer == Some(target) && s1.outbox == s.outbox + [MouseLeftPage];
    var s2 := OnPage(s1, TimerFires);
    assert s2.outbox == s.outbox + [MouseLeftPage, FontHover(FontProperties(target))];
    assert [leave, TimerFires][1..] == [TimerFires] && [TimerFires][1..] == [];
    assert Run(s, [leave, TimerFires]) == Run(s1, [TimerFires]) == Run(s2, []);
  }

  /** A mouseout sends `MOUSE_LEFT_PAGE` exactly in the left-page cases, and sends nothing otherwise. */
  lemma MouseOutReport(s: ObserverState, target: Node, relatedTarget: Node)
    requires s.mouseOutListener
    ensures OnPage(s, MouseOut(target, relatedTarget)).outbox ==
      s.outbox + (if relatedTarget == NoNode || (relatedTarget == Body && target == DocumentElement) then [MouseLeftPage] else [])
    ensures OnPage(s, MouseOut(target, relatedTarget)).debounceTimer == s.debounceTimer
  {
  }

  /** The content script's closure: `hoverListener`, `mouseOutListener`, `documentMouseLeaveListener`, `debounceTimer`. */
  class Observer {
    var hoverListener: bool
    var mouseOutListener: bool
    var mouseLeaveListener: bool
    var debounceTimer: Option<RawStyle>
    /** Every message handed to `chrome.runtime.sendMessage`, in order. */
    var outbox: seq<Message>

    function State(): ObserverState
      reads this
    {
      ObserverState(hoverListener, mouseOutListener, mouseLeaveListener, debounceTimer, outbox)
    }

    ghost predicate Valid()
      reads this
    {
      Consistent(State())
    }

    /** Injection of the script: all slots `null`. */
    constructor ()
      ensures Valid() && State() == Idle
    {
      hoverListener, mouseOutListener, mouseLeaveListener := false, false, false;
      debounceTimer := None;
      outbox := [];
    }

    method StartHoverDetection()
      requires Valid()
      modifies this
      ensures Valid() && State() == Start(old(State()))
    {
      if hoverListener {
        return;
      }
      mouseOutListener := true;
      mouseLeaveListener := true;
      hoverListener := true;
    }

    method StopHoverDetection()
      requires Valid()
      modifies this
      ensures Valid() && State() == Stop(old(State()))
    {
      if hoverListener {
        hoverListener := false;
      }
      if mouseOutListener {
        mouseOutListener := false;
      }
      if mouseLeaveListener {
        mouseLeaveListener := false;
      }
      if debounceTimer.Some? {
        debounceTimer := None;
      }
    }

    /** A `mouseover` reaching the document: reschedule the callback for this target. */
    method MouseOver(target: RawStyle)
      requires Valid()
      modifies this
      ensures Valid() && State() == OnPage(old(State()), PageEvent.MouseOver(target))
    {
      if hoverListener {
        debounceTimer := None;
        debounceTimer := Some(target);
      }
    }

    /** A `mouseout` reaching the document. */
    method MouseOut(target: Node, relatedTarget: Node)
      requires Valid()
      modifies this
      ensures Valid() && State() == OnPage(old(State()), PageEvent.MouseOut(target, relatedTarget))
    {
      if mouseOutListener {
        if relatedTarget == NoNode || (relatedTarget == Body && target == DocumentElement) {
          outbox := outbox + [MouseLeftPage];
        }
      }
    }

    /**
     * A `mouseleave` seen by the document's capture-phase listener: the
     * pointer leaving the page, and also leaving any element of it, since a
     * capturing listener on the document receives the non-bubbling
     * `mouseleave` of every descendant.
     */
    method MouseLeave()
      requires Valid()
      modifies this
      ensures Valid() && State() == OnPage(old(State()), PageEvent.MouseLeave)
    {
      if mouseLeaveListener {
        outbox := outbox + [MouseLeftPage];
      }
    }

    /** The pending debounce callback runs: report the target's font properties. */
    method TimerFires()
      requires Valid()
      modifies this
      ensures Valid() && State() == OnPage(old(State()), PageEvent.TimerFires)
    {
      if debounceTimer.Some? {
        var fontProps := FontProperties(debounceTimer.value);
        debounceTimer := None;
        outbox := outbox + [FontHover(fontProps)];
      }
    }

    /** The `chrome.runtime.onMessage` listener; the reply is what `sendResponse` receives. */
    method OnMessage(message: Message) returns (reply: Option<Reply>)
      requires Valid()
      modifies this
      ensures Valid() && (State(), reply) == HandleMessage(old(State()), message)
    {
      if message.StartHoverDetection? {
        StartHoverDetection();
        reply := Some(Reply(true));
      } else if message.StopHoverDetection? {
        StopHoverDetection();
        reply := Some(Reply(true));
      } else {
        reply := None;
      }
    }
  }
}

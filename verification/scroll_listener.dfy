/**
 * ScrollListenerAdapter.kt: the state machine that turns the recycler's
 * scroll callbacks into the pager's page-change events. Each callback is a
 * function from the listener's fields (and what the layout currently shows)
 * to the new fields and the events dispatched, in order.
 */
module ScrollListener {
  import opened Wrappers
  import opened Kotlin

  /** The pager's scroll states, as reported to its callbacks. */
  const SCROLL_STATE_IDLE: int := 0
  const SCROLL_STATE_DRAGGING: int := 1
  const SCROLL_STATE_SETTLING: int := 2

  /** What the listener believes is driving the scroll. */
  const STATE_IDLE: int := 0
  const STATE_IN_MANUAL_DRAG: int := 1
  const STATE_IN_SMOOTH_SCROLL: int := 2
  const STATE_IN_IMMEDIATE_SCROLL: int := 3

  /** The first visible page and how far, in pixels, it is scrolled past the start. */
  datatype ScrollValues = ScrollValues(position: int, offsetPx: int)

  const NO_SCROLL_VALUES: ScrollValues := ScrollValues(NO_POSITION, 0)

  datatype Listener = Listener(
    scrollState: int,
    adapterState: int,
    values: ScrollValues,
    isScrolling: bool,
    dragStartPosition: int,
    dragTargetPosition: int,
    shouldDispatchSelected: bool,
    isDataSetChanged: bool)

  /** The page-change callbacks, one constructor per dispatch helper. */
  datatype Event = StateChanged(state: int) | Scrolled(position: int, offsetPx: int) | Selected(position: int)

  /**
   * What the layout shows when a callback asks: the first partially and the
   * first completely visible positions, and the start offset of the view at
   * the chosen position (after decorations, margins, padding and, in a
   * right-to-left horizontal pager, negation), if that view is found.
   */
  datatype Screen = Screen(firstVisible: int, firstCompletelyVisible: int, startOffset: Option<int>)

  datatype Transition = Transition(listener: Listener, events: seq<Event>)

  /** The field values at construction. */
  function Initial(): (r: Listener)
    ensures r.scrollState == SCROLL_STATE_IDLE && r.adapterState == STATE_IDLE && r.values == NO_SCROLL_VALUES
    ensures r.dragStartPosition == NO_POSITION && r.dragTargetPosition == NO_POSITION
    ensures !r.isScrolling && !r.shouldDispatchSelected && !r.isDataSetChanged
  {
    Listener(SCROLL_STATE_IDLE, STATE_IDLE, ScrollValues(NO_POSITION, 0), false, NO_POSITION, NO_POSITION, false, false)
  }

  /** `reset`: every tracking field goes back to its value at construction. */
  function Reset(s: Listener): (r: Listener)
    ensures r == Initial()
  {
    s.(adapterState := STATE_IDLE, scrollState := SCROLL_STATE_IDLE, values := NO_SCROLL_VALUES,
       isScrolling := false, dragStartPosition := NO_POSITION, dragTargetPosition := NO_POSITION,
       shouldDispatchSelected := false, isDataSetChanged := false)
  }

  /** The first completely visible position if there is one, else the first partially visible one. */
  function FirstVisiblePosition(screen: Screen): (r: int)
    ensures r == screen.firstCompletelyVisible || r == screen.firstVisible
    ensures screen.firstCompletelyVisible != NO_POSITION ==> r == screen.firstCompletelyVisible
  {
    if screen.firstCompletelyVisible != NO_POSITION then screen.firstCompletelyVisible else screen.firstVisible
  }

  /** `updateScrollEventValues`: no position and no offset unless a first visible view is found. */
  function UpdateScrollEventValues(screen: Screen): (r: ScrollValues)
    ensures r == NO_SCROLL_VALUES || (r.position == FirstVisiblePosition(screen) && r.position != NO_POSITION)
    ensures r.position == NO_POSITION ==> r.offsetPx == 0
    ensures r.position != NO_POSITION ==> screen.startOffset.Some? && r.offsetPx == -screen.startOffset.value
  {
    var position := FirstVisiblePosition(screen);
    if position == NO_POSITION then NO_SCROLL_VALUES
    else match screen.startOffset
      case None => NO_SCROLL_VALUES
      case Some(start) => ScrollValues(position, -start)
  }

  /** The callback is entering a drag the listener has not yet recorded. */
  predicate EntersDrag(s: Listener, newState: int) {
    (s.adapterState != STATE_IN_MANUAL_DRAG || s.scrollState != SCROLL_STATE_DRAGGING) &&
    newState == SCROLL_STATE_DRAGGING
  }

  /** The drag start: a pending programmatic target wins, then a recorded start, then what is on screen. */
  function EnterDrag(s: Listener, screen: Screen): (r: Transition)
    ensures r.listener.adapterState == STATE_IN_MANUAL_DRAG
    ensures r.events == [StateChanged(SCROLL_STATE_DRAGGING)]
    ensures s.dragTargetPosition != NO_POSITION ==>
              r.listener.dragStartPosition == s.dragTargetPosition && r.listener.dragTargetPosition == NO_POSITION
    ensures s.dragTargetPosition == NO_POSITION && s.dragStartPosition != NO_POSITION ==>
              r.listener.dragStartPosition == s.dragStartPosition && r.listener.dragTargetPosition == NO_POSITION
    ensures s.dragTargetPosition == NO_POSITION && s.dragStartPosition == NO_POSITION ==>
              r.listener.dragStartPosition == FirstVisiblePosition(screen) && r.listener.dragTargetPosition == NO_POSITION
    ensures r.listener.(adapterState := s.adapterState, dragStartPosition := s.dragStartPosition,
                        dragTargetPosition := s.dragTargetPosition) == s
  {
    var s1 := s.(adapterState := STATE_IN_MANUAL_DRAG);
    var s2 :=
      if s.dragTargetPosition != NO_POSITION then
        s1.(dragStartPosition := s.dragTargetPosition, dragTargetPosition := NO_POSITION)
      else if s.dragStartPosition == NO_POSITION then
        s1.(dragStartPosition := FirstVisiblePosition(screen))
      else s1;
    Transition(s2, [StateChanged(SCROLL_STATE_DRAGGING)])
  }

  /** Dragging to settling: reported, and the selection armed, only once something has scrolled. */
  function DragToSettling(s: Listener): (r: Transition)
    ensures s.isScrolling ==> r.events == [StateChanged(SCROLL_STATE_SETTLING)] && r.listener == s.(shouldDispatchSelected := true)
    ensures !s.isScrolling ==> r == Transition(s, [])
  {
    if s.isScrolling then Transition(s.(shouldDispatchSelected := true), [StateChanged(SCROLL_STATE_SETTLING)])
    else Transition(s, [])
  }

  /**
   * Dragging or settling to idle. A drag that never scrolled reports the
   * page it stayed on; one that came to rest on a page boundary reports the
   * page if it changed; either way the pager goes idle and the listener
   * resets. A drag that stopped between pages leaves the listener dragging.
   */
  function DragToIdle(s: Listener, screen: Screen): (r: Transition)
    ensures var v := UpdateScrollEventValues(screen);
            !s.isScrolling ==>
              r.listener == Initial() &&
              r.events == (if v.position != NO_POSITION then [Scrolled(v.position, 0)] else []) + [StateChanged(SCROLL_STATE_IDLE)]
    ensures var v := UpdateScrollEventValues(screen);
            s.isScrolling && v.offsetPx == 0 ==>
              r.listener == Initial() &&
              r.events == (if s.dragStartPosition != v.position then [Selected(v.position)] else []) + [StateChanged(SCROLL_STATE_IDLE)]
    ensures var v := UpdateScrollEventValues(screen);
            s.isScrolling && v.offsetPx != 0 ==> r.listener == s.(values := v) && r.events == []
  {
    var v := UpdateScrollEventValues(screen);
    var s1 := s.(values := v);
    if !s.isScrolling then
      var scrolled := if v.position != NO_POSITION then [Scrolled(v.position, 0)] else [];
      Transition(Reset(s1), scrolled + [StateChanged(SCROLL_STATE_IDLE)])
    else if v.offsetPx == 0 then
      var selected := if s.dragStartPosition != v.position then [Selected(v.position)] else [];
      Transition(Reset(s1), selected + [StateChanged(SCROLL_STATE_IDLE)])
    else
      Transition(s1, [])
  }

  /** After a data-set change, a programmatic smooth scroll that comes to rest on a page boundary ends here. */
  function SmoothScrollToIdle(s: Listener, screen: Screen): (r: Transition)
    ensures var v := UpdateScrollEventValues(screen);
            v.offsetPx == 0 ==>
              r.listener == Initial() &&
              r.events == (if s.dragTargetPosition != v.position then [Selected(v.position)] else []) + [StateChanged(SCROLL_STATE_IDLE)]
    ensures var v := UpdateScrollEventValues(screen);
            v.offsetPx != 0 ==> r == Transition(s.(values := v), [])
  {
    var v := UpdateScrollEventValues(screen);
    var s1 := s.(values := v);
    if v.offsetPx == 0 then
      var selected := if s.dragTargetPosition != v.position then [Selected(v.position)] else [];
      Transition(Reset(s1), selected + [StateChanged(SCROLL_STATE_IDLE)])
    else
      Transition(s1, [])
  }

  /** `onScrollStateChanged`. */
  function OnScrollStateChanged(s: Listener, newState: int, screen: Screen): (r: Transition)
    ensures EntersDrag(s, newState) ==> r == EnterDrag(s, screen)
    ensures !EntersDrag(s, newState) && s.adapterState == STATE_IN_MANUAL_DRAG && newState == SCROLL_STATE_SETTLING ==>
              r == DragToSettling(s)
    ensures !EntersDrag(s, newState) && s.adapterState == STATE_IN_MANUAL_DRAG && newState == SCROLL_STATE_IDLE ==>
              r == DragToIdle(s, screen)
    ensures s.isDataSetChanged && s.adapterState == STATE_IN_SMOOTH_SCROLL && newState == SCROLL_STATE_IDLE ==>
              r == SmoothScrollToIdle(s, screen)
    ensures r.listener.scrollState == s.scrollState || r.listener.scrollState == SCROLL_STATE_IDLE
  {
    if EntersDrag(s, newState) then EnterDrag(s, screen)
    else if s.adapterState == STATE_IN_MANUAL_DRAG && newState == SCROLL_STATE_SETTLING then DragToSettling(s)
    else
      var t := if s.adapterState == STATE_IN_MANUAL_DRAG && newState == SCROLL_STATE_IDLE then DragToIdle(s, screen)
               else Transition(s, []);
      var u := t.listener;
      if u.isDataSetChanged && u.adapterState == STATE_IN_SMOOTH_SCROLL && newState == SCROLL_STATE_IDLE then
        var w := SmoothScrollToIdle(u, screen);
        Transition(w.listener, t.events + w.events)
      else t
  }

  /**
   * The page a drag released toward: the next page, round the seam, when
   * moving forward and not exactly on a page, else the page on screen.
   */
  function DragTarget(v: ScrollValues, scrollingForward: bool, itemCount: int): (r: int)
    ensures scrollingForward && v.offsetPx != 0 && itemCount > 0 && 0 <= v.position < itemCount ==>
              r == (v.position + 1) % itemCount
    ensures !(scrollingForward && v.offsetPx != 0) ==> r == v.position
    ensures 0 <= v.position < itemCount ==> 0 <= r < itemCount
  {
    if scrollingForward && v.offsetPx != 0 then
      if v.position == itemCount - 1 then 0 else v.position + 1
    else v.position
  }

  /** Whether `dx`, `dy` move toward later pages; a horizontal pager runs the other way when right-to-left. */
  predicate ScrollingForward(dx: int, dy: int, rtl: bool) {
    (dy == 0 && (dx < 0) == rtl) || dy > 0
  }

  /** The trailing check of `onScrolled`: a programmatic scroll has arrived, or nothing is targeted, on a page boundary. */
  predicate ArrivedAtRest(s: Listener) {
    (s.values.position == s.dragTargetPosition || s.dragTargetPosition == NO_POSITION) &&
    s.values.offsetPx == 0 && s.scrollState != SCROLL_STATE_DRAGGING
  }

  /** The selection part of `onScrolled`. */
  function SelectOnScroll(s: Listener, dx: int, dy: int, rtl: bool, itemCount: int): (r: Transition)
    ensures s.shouldDispatchSelected ==>
              var target := DragTarget(s.values, ScrollingForward(dx, dy, rtl), itemCount);
              r.listener == s.(shouldDispatchSelected := false, dragTargetPosition := target) &&
              r.events == (if s.dragStartPosition != target then [Selected(target)] else [])
    ensures !s.shouldDispatchSelected && s.adapterState == STATE_IDLE ==>
              r == Transition(s, [Selected(s.values.position)])
    ensures !s.shouldDispatchSelected && s.adapterState != STATE_IDLE ==> r == Transition(s, [])
  {
    if s.shouldDispatchSelected then
      var target := DragTarget(s.values, ScrollingForward(dx, dy, rtl), itemCount);
      var s1 := s.(shouldDispatchSelected := false, dragTargetPosition := target);
      Transition(s1, if s.dragStartPosition != target then [Selected(target)] else [])
    else if s.adapterState == STATE_IDLE then
      Transition(s, [Selected(s.values.position)])
    else
      Transition(s, [])
  }

  /**
   * `onScrolled`: records that scrolling happened, dispatches a selection if
   * one is armed (or if nothing drives the scroll), always reports the
   * scroll, and goes idle when a programmatic scroll has arrived.
   */
  function OnScrolled(s: Listener, dx: int, dy: int, rtl: bool, itemCount: int, screen: Screen): (r: Transition)
    ensures var v := UpdateScrollEventValues(screen);
            var sel := SelectOnScroll(s.(isScrolling := true, values := v), dx, dy, rtl, itemCount);
            (ArrivedAtRest(sel.listener) ==>
               r.listener == Initial() && r.events == sel.events + [Scrolled(v.position, v.offsetPx), StateChanged(SCROLL_STATE_IDLE)]) &&
            (!ArrivedAtRest(sel.listener) ==>
               r.listener == sel.listener && r.events == sel.events + [Scrolled(v.position, v.offsetPx)])
    ensures r.listener.scrollState == s.scrollState || r.listener.scrollState == SCROLL_STATE_IDLE
  {
    var v := UpdateScrollEventValues(screen);
    var sel := SelectOnScroll(s.(isScrolling := true, values := v), dx, dy, rtl, itemCount);
    var events := sel.events + [Scrolled(v.position, v.offsetPx)];
    if ArrivedAtRest(sel.listener) then Transition(Reset(sel.listener), events + [StateChanged(SCROLL_STATE_IDLE)])
    else Transition(sel.listener, events)
  }

  /**
   * `notifyProgrammaticScroll`: a `setCurrentItem` is under way. The pager
   * settles, and the target is selected unless it was already the target.
   */
  function NotifyProgrammaticScroll(s: Listener, targetPosition: int, smoothScroll: bool): (r: Transition)
    ensures r.listener == s.(adapterState := r.listener.adapterState, dragTargetPosition := targetPosition)
    ensures r.listener.adapterState == if smoothScroll then STATE_IN_SMOOTH_SCROLL else STATE_IN_IMMEDIATE_SCROLL
    ensures targetPosition != s.dragTargetPosition <==> r.events == [StateChanged(SCROLL_STATE_SETTLING), Selected(targetPosition)]
    ensures targetPosition == s.dragTargetPosition <==> r.events == [StateChanged(SCROLL_STATE_SETTLING)]
  {
    var isNewTarget := targetPosition != s.dragTargetPosition;
    var s1 := s.(adapterState := if smoothScroll then STATE_IN_SMOOTH_SCROLL else STATE_IN_IMMEDIATE_SCROLL,
                 dragTargetPosition := targetPosition);
    Transition(s1, [StateChanged(SCROLL_STATE_SETTLING)] + if isNewTarget then [Selected(targetPosition)] else [])
  }

  /** `notifyDataSetChanged`. */
  function NotifyDataSetChanged(s: Listener): (r: Listener)
    ensures r.isDataSetChanged && r.(isDataSetChanged := s.isDataSetChanged) == s
  {
    s.(isDataSetChanged := true)
  }

  /** How many `Selected` events a dispatch sequence holds. */
  function SelectedCount(events: seq<Event>): nat {
    if |events| == 0 then 0 else (if events[0].Selected? then 1 else 0) + SelectedCount(events[1..])
  }

  lemma {:induction false} SelectedCountAppend(a: seq<Event>, b: seq<Event>)
    ensures SelectedCount(a + b) == SelectedCount(a) + SelectedCount(b)
  {
    if |a| > 0 {
      assert (a + b)[1..] == a[1..] + b;
      SelectedCountAppend(a[1..], b);
    } else {
      assert a + b == b;
    }
  }

  /** Asking twice for the same page selects it at most once. */
  lemma RepeatedTargetSelectedOnce(s: Listener, target: int, smooth1: bool, smooth2: bool)
    ensures var t1 := NotifyProgrammaticScroll(s, target, smooth1);
            var t2 := NotifyProgrammaticScroll(t1.listener, target, smooth2);
            SelectedCount(t1.events + t2.events) == (if target != s.dragTargetPosition then 1 else 0) &&
            t2.events == [StateChanged(SCROLL_STATE_SETTLING)]
  {
    var t1 := NotifyProgrammaticScroll(s, target, smooth1);
    var t2 := NotifyProgrammaticScroll(t1.listener, target, smooth2);
    SelectedCountAppend(t1.events, t2.events);
    assert SelectedCount(t2.events) == 0;
    if target != s.dragTargetPosition {
      assert SelectedCount(t1.events) == 1 by {
        assert t1.events[1..] == [Selected(target)];
        assert t1.events[1..][1..] == [];
      }
    }
  }

  /** The callbacks the listener receives, with what the layout shows at each. */
  datatype Input =
    | StateChange(newState: int, screen: Screen)
    | Scroll(dx: int, dy: int, rtl: bool, itemCount: int, screen: Screen)
    | Programmatic(targetPosition: int, smoothScroll: bool)
    | DataSetChange

  function Apply(s: Listener, input: Input): (r: Transition)
    ensures r.listener.scrollState == s.scrollState || r.listener.scrollState == SCROLL_STATE_IDLE
  {
    match input
    case StateChange(newState, screen) => OnScrollStateChanged(s, newState, screen)
    case Scroll(dx, dy, rtl, itemCount, screen) => OnScrolled(s, dx, dy, rtl, itemCount, screen)
    case Programmatic(target, smooth) => NotifyProgrammaticScroll(s, target, smooth)
    case DataSetChange => Transition(NotifyDataSetChanged(s), [])
  }

  /** The listener after a run of callbacks, with every event dispatched on the way. */
  function Run(s: Listener, inputs: seq<Input>): Transition
    decreases |inputs|
  {
    if |inputs| == 0 then Transition(s, [])
    else
      var t := Apply(s, inputs[0]);
      var rest := Run(t.listener, inputs[1..]);
      Transition(rest.listener, t.events + rest.events)
  }

  /**
   * `scrollState` is only ever written by `reset`, to idle, so the listener
   * reports idle after any run of callbacks; in particular it never sees
   * itself as dragging, and every drag report counts as entering a drag.
   */
  lemma {:induction false} ScrollStateAlwaysIdle(inputs: seq<Input>, s: Listener)
    requires s.scrollState == SCROLL_STATE_IDLE
    ensures Run(s, inputs).listener.scrollState == SCROLL_STATE_IDLE
    decreases |inputs|
  {
    if |inputs| > 0 {
      ScrollStateAlwaysIdle(inputs[1..], Apply(s, inputs[0]).listener);
    }
  }

  /** In any reachable state, a drag report always enters a drag. */
  lemma DragReportAlwaysEntersDrag(inputs: seq<Input>, screen: Screen)
    ensures var s := Run(Initial(), inputs).listener;
            OnScrollStateChanged(s, SCROLL_STATE_DRAGGING, screen) == EnterDrag(s, screen)
  {
    ScrollStateAlwaysIdle(inputs, Initial());
  }
}

/**
 * The info modal of static/assets/main.js: the element's class set, the
 * animation-frame callbacks `openInfoModal` has scheduled and the
 * `transitionend` listeners `closeInfoModal` has registered. The browser's
 * events (an animation frame, the end of the opacity transition) are
 * inputs like the user's clicks and keys.
 */
module Modal {

  /** The classes the code toggles on the modal element. */
  datatype CssClass = Hidden | Opacity0 | Opacity100

  /**
   * The modal element: its classes, how many frame callbacks are pending
   * and how many one-shot `transitionend` listeners are registered.
   */
  datatype ModalState = ModalState(classes: set<CssClass>, pendingFrames: nat, listeners: nat)

  /** What can happen to the modal. */
  datatype Event =
    | OpenClicked                        // the "openInfo" button
    | CloseClicked                       // the "closeInfo" button
    | ModalClicked(onBackdrop: bool)     // a click inside the modal; true when the target is the modal element itself
    | KeyDown(key: string)
    | AnimationFrame                     // the browser runs the pending frame callbacks
    | TransitionEnd                      // the opacity transition of the modal finished

  /** The closed modal as the page starts: display none and transparent. */
  const Closed := ModalState({Hidden, Opacity0}, 0, 0)

  /** Shown in the layout and fully opaque. */
  predicate Visible(s: ModalState) {
    Hidden !in s.classes && Opacity100 in s.classes && Opacity0 !in s.classes
  }

  /** `openInfoModal`: un-hide now, fade in on the next frame. */
  function Open(s: ModalState): ModalState {
    s.(classes := s.classes - {Hidden}, pendingFrames := s.pendingFrames + 1)
  }

  /** `closeInfoModal`: fade out now, hide once the transition ends. */
  function Close(s: ModalState): ModalState {
    s.(classes := s.classes - {Opacity100} + {Opacity0}, listeners := s.listeners + 1)
  }

  /** The frame callbacks, each swapping opacity-0 for opacity-100. */
  function Frame(s: ModalState): ModalState {
    if s.pendingFrames == 0 then s
    else s.(classes := s.classes - {Opacity0} + {Opacity100}, pendingFrames := 0)
  }

  /** Every registered listener adds `hidden` and removes itself. */
  function TransitionEnded(s: ModalState): ModalState {
    if s.listeners == 0 then s
    else s.(classes := s.classes + {Hidden}, listeners := 0)
  }

  /** The handlers as the page wires them. */
  function Step(s: ModalState, e: Event): ModalState {
    match e
    case OpenClicked => Open(s)
    case CloseClicked => Close(s)
    case ModalClicked(onBackdrop) => if onBackdrop then Close(s) else s
    case KeyDown(key) => if key == "Escape" then Close(s) else s
    case AnimationFrame => Frame(s)
    case TransitionEnd => TransitionEnded(s)
  }

  function Run(s: ModalState, events: seq<Event>): ModalState
    decreases |events|
  {
    if events == [] then s else Run(Step(s, events[0]), events[1..])
  }

  /** Opening, then the next frame, leaves the modal shown and opaque, whatever came before. */
  lemma OpenThenFrameShows(s: ModalState)
    ensures Visible(Run(s, [OpenClicked, AnimationFrame]))
    ensures Run(s, [OpenClicked, AnimationFrame]).pendingFrames == 0
  {
  }

  /**
   * Closing fades out at once but keeps the element laid out until the
   * transition ends; then it is hidden and the listener is gone.
   */
  lemma CloseThenTransitionHides(s: ModalState)
    ensures var c := Step(s, CloseClicked);
            && Opacity0 in c.classes && Opacity100 !in c.classes
            && (Hidden in c.classes <==> Hidden in s.classes)
            && c.listeners > 0
    ensures var t := Run(s, [CloseClicked, TransitionEnd]);
            && t.classes == s.classes - {Opacity100} + {Opacity0, Hidden}
            && t.listeners == 0
  {
  }

  /** Closing twice ends in the same state as closing once. */
  lemma CloseTwiceSameAsOnce(s: ModalState)
    ensures Run(s, [CloseClicked, CloseClicked, TransitionEnd]) == Run(s, [CloseClicked, TransitionEnd])
  {
  }

  /** A click closes exactly when its target is the modal element, not its content; only Escape among keys closes. */
  lemma ClickAndKeyRules(s: ModalState, onBackdrop: bool, key: string)
    ensures Step(s, ModalClicked(onBackdrop)) == if onBackdrop then Step(s, CloseClicked) else s
    ensures Step(s, KeyDown(key)) == if key == "Escape" then Step(s, CloseClicked) else s
    ensures Step(s, KeyDown(key)) != s <==> key == "Escape"
  {
    assert Step(s, CloseClicked).listeners != s.listeners;
  }

  /** The sequence of a full open and close cycle returns the modal to its starting classes. */
  lemma {:induction false} OpenCloseCycle()
    ensures Run(Closed, [OpenClicked, AnimationFrame, CloseClicked, TransitionEnd]) == Closed
  {
    var a := Step(Closed, OpenClicked);
    assert a.classes == {Opacity0};
    var b := Step(a, AnimationFrame);
    assert b.classes == {Opacity100};
    var c := Step(b, CloseClicked);
    assert c.classes == {Opacity0};
    var d := Step(c, TransitionEnd);
    assert d.classes == {Opacity0, Hidden};
    assert Run(d, []) == d;
  }

  /**
   * As written, Escape on the closed modal still registers a listener.
   * With no transition to end it stays; the next open fades in, that
   * transition's end runs it, and the modal the user just opened is hidden.
   */
  lemma {:induction false} EscapeWhileClosedHidesNextOpen()
    ensures Step(Closed, KeyDown("Escape")) != Closed
    ensures Hidden in Run(Closed, [KeyDown("Escape"), OpenClicked, AnimationFrame, TransitionEnd]).classes
  {
    var a := Step(Closed, KeyDown("Escape"));
    assert a.listeners == 1;
    var b := Step(Step(a, OpenClicked), AnimationFrame);
    assert b.listeners == 1;
    var c := Step(b, TransitionEnd);
    assert Hidden in c.classes;
    assert Run(c, []) == c;
  }

  /** A close that acts only on a shown modal: on a hidden modal it does nothing. */
  function CloseIfShown(s: ModalState): ModalState {
    if Hidden in s.classes then s else Close(s)
  }

  /** The handlers with that close. */
  function StepIfShown(s: ModalState, e: Event): ModalState {
    match e
    case OpenClicked => Open(s)
    case CloseClicked => CloseIfShown(s)
    case ModalClicked(onBackdrop) => if onBackdrop then CloseIfShown(s) else s
    case KeyDown(key) => if key == "Escape" then CloseIfShown(s) else s
    case AnimationFrame => Frame(s)
    case TransitionEnd => TransitionEnded(s)
  }

  function RunIfShown(s: ModalState, events: seq<Event>): ModalState
    decreases |events|
  {
    if events == [] then s else RunIfShown(StepIfShown(s, events[0]), events[1..])
  }

  /** With that close, a closed modal ignores close triggers and reopens to stay visible. */
  lemma {:induction false} ClosedIgnoresClose(e: Event)
    requires e == CloseClicked || e == KeyDown("Escape") || e.ModalClicked?
    ensures StepIfShown(Closed, e) == Closed
    ensures Visible(RunIfShown(Closed, [e, OpenClicked, AnimationFrame, TransitionEnd]))
  {
    var evs := [e, OpenClicked, AnimationFrame, TransitionEnd];
    var a := StepIfShown(Closed, e);
    assert a == Closed;
    assert RunIfShown(Closed, evs) == RunIfShown(a, evs[1..]);
    var o := StepIfShown(a, OpenClicked);
    assert RunIfShown(a, evs[1..]) == RunIfShown(o, evs[2..]);
    var b := StepIfShown(o, AnimationFrame);
    assert b.classes == {Opacity100} && b.listeners == 0;
    assert RunIfShown(o, evs[2..]) == RunIfShown(b, evs[3..]);
    var c := StepIfShown(b, TransitionEnd);
    assert c == b;
    assert RunIfShown(b, evs[3..]) == RunIfShown(c, []) == c;
  }

  /** On a shown modal the two closes agree. */
  lemma CloseIfShownAgrees(s: ModalState, e: Event)
    requires Hidden !in s.classes
    ensures StepIfShown(s, e) == Step(s, e)
  {
  }

  /** The modal element with the handlers attached. */
  class InfoModal {
    var classes: set<CssClass>
    var pendingFrames: nat
    var listeners: nat

    function State(): ModalState
      reads this
    {
      ModalState(classes, pendingFrames, listeners)
    }

    /** The element as the markup creates it, with nothing scheduled or registered. */
    constructor(initial: set<CssClass>)
      ensures State() == ModalState(initial, 0, 0)
    {
      classes := initial;
      pendingFrames := 0;
      listeners := 0;
    }

    method OpenInfoModal()
      modifies this
      ensures State() == Open(old(State()))
    {
      classes := classes - {Hidden};
      pendingFrames := pendingFrames + 1;
    }

    method CloseInfoModal()
      modifies this
      ensures State() == Close(old(State()))
    {
      classes := classes - {Opacity100};
      classes := classes + {Opacity0};
      listeners := listeners + 1;
    }

    /** The frame callbacks scheduled by `OpenInfoModal`. */
    method RunAnimationFrame()
      modifies this
      ensures State() == Frame(old(State()))
    {
      if pendingFrames > 0 {
        classes := classes - {Opacity0};
        classes := classes + {Opacity100};
        pendingFrames := 0;
      }
    }

    /** The end of the modal's opacity transition: each listener hides the modal and detaches itself. */
    method OnTransitionEnd()
      modifies this
      ensures State() == TransitionEnded(old(State()))
    {
      if listeners > 0 {
        classes := classes + {Hidden};
        listeners := 0;
      }
    }

    /** The handler of the "openInfo" button, the "closeInfo" button, the modal's click and the document's keydown. */
    method Dispatch(e: Event)
      modifies this
      ensures State() == Step(old(State()), e)
    {
      match e {
        case OpenClicked => OpenInfoModal();
        case CloseClicked => CloseInfoModal();
        case ModalClicked(onBackdrop) =>
          if onBackdrop {
            CloseInfoModal();
          }
        case KeyDown(key) =>
          if key == "Escape" {
            CloseInfoModal();
          }
        case AnimationFrame => RunAnimationFrame();
        case TransitionEnd => OnTransitionEnd();
      }
    }
  }
}

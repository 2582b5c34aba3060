/** The keyboard-shortcut hook: which keydown events trigger the callback,
    what the handler does to such an event, and the listeners the hook keeps
    registered on the document and the window across focus changes and
    cleanup. */
module KeyboardShortcut {
  import opened Wrappers
  import opened Seqs
  import opened Text

  // ===== combinations and events =====

  /** A shortcut: the key and the modifiers it demands; an absent modifier is
      not checked. */
  datatype KeyCombination = KeyCombination(
    key: string,
    ctrlKey: Option<bool>,
    metaKey: Option<bool>,
    altKey: Option<bool>,
    shiftKey: Option<bool>)

  /** The hook accepts one combination or a list of them. */
  datatype KeyCombinations = One(combo: KeyCombination) | Many(combos: seq<KeyCombination>)

  /** The hook's options; each defaults to true when absent. */
  datatype Options = Options(preventDefault: Option<bool>, stopPropagation: Option<bool>, useCapture: Option<bool>)

  /** The target of an event: an HTML element, or anything else (the
      document, the window, a non-HTML element). */
  datatype Target = HtmlElement(tagName: string, isContentEditable: bool) | OtherTarget

  datatype KeyEvent = KeyEvent(
    key: string,
    ctrlKey: bool,
    metaKey: bool,
    altKey: bool,
    shiftKey: bool,
    target: Target)

  const NO_OPTIONS: Options := Options(None, None, None)

  /** An option with its default. */
  function Enabled(o: Option<bool>): bool {
    o.GetOr(true)
  }

  /** A single combination is treated as a list of one. */
  function Combinations(kc: KeyCombinations): seq<KeyCombination> {
    match kc
    case One(c) => [c]
    case Many(cs) => cs
  }

  // ===== matching =====

  /** Typing into an input, a text area or an editable element is never a
      shortcut. */
  predicate IsEditable(t: Target) {
    t.HtmlElement? && (t.tagName == "INPUT" || t.tagName == "TEXTAREA" || t.isContentEditable)
  }

  predicate ModifierMatches(wanted: Option<bool>, pressed: bool) {
    wanted.None? || pressed == wanted.value
  }

  /** The keys agree ignoring case and every modifier the combination names
      is in the state it names. */
  predicate ComboMatches(c: KeyCombination, e: KeyEvent) {
    && ToLower(e.key) == ToLower(c.key)
    && ModifierMatches(c.ctrlKey, e.ctrlKey)
    && ModifierMatches(c.metaKey, e.metaKey)
    && ModifierMatches(c.altKey, e.altKey)
    && ModifierMatches(c.shiftKey, e.shiftKey)
  }

  /** `combinations.some(...)`. */
  function MatchesAny(cs: seq<KeyCombination>, e: KeyEvent): (b: bool)
    ensures b <==> exists i :: 0 <= i < |cs| && ComboMatches(cs[i], e)
  {
    if |cs| == 0 then false
    else
      var rest := MatchesAny(cs[1..], e);
      assert forall i :: 1 <= i < |cs| ==> cs[1..][i - 1] == cs[i];
      ComboMatches(cs[0], e) || rest
  }

  // ===== the handler =====

  /** What handling one keydown did: how often the callback ran, whether the
      default action was prevented and propagation stopped, and the value
      returned (`false` on a match, nothing otherwise). */
  datatype Outcome = Outcome(callbackCalls: nat, defaultPrevented: bool, propagationStopped: bool, returned: Option<bool>)

  /** The event left as it was. */
  const UNTOUCHED: Outcome := Outcome(0, false, false, None)

  /** `handleKeyDown`. */
  function HandleKeyDown(kc: KeyCombinations, options: Options, e: KeyEvent): (o: Outcome)
    ensures IsEditable(e.target) ==> o == UNTOUCHED
    ensures !MatchesAny(Combinations(kc), e) ==> o == UNTOUCHED
    ensures o.callbackCalls > 0 <==> !IsEditable(e.target) && exists c :: c in Combinations(kc) && ComboMatches(c, e)
    ensures o.callbackCalls > 0 ==>
      o == Outcome(1, Enabled(options.preventDefault), Enabled(options.stopPropagation), Some(false))
  {
    if IsEditable(e.target) then UNTOUCHED
    else if MatchesAny(Combinations(kc), e) then
      Outcome(1, Enabled(options.preventDefault), Enabled(options.stopPropagation), Some(false))
    else UNTOUCHED
  }

  /** With the default options a matching keydown is both prevented and
      stopped. */
  lemma DefaultsPreventAndStop(kc: KeyCombinations, e: KeyEvent)
    requires !IsEditable(e.target) && MatchesAny(Combinations(kc), e)
    ensures HandleKeyDown(kc, NO_OPTIONS, e) == Outcome(1, true, true, Some(false))
  {
  }

  /** The case of the pressed key does not matter. */
  lemma KeyCaseIgnored(c: KeyCombination, e: KeyEvent)
    ensures ComboMatches(c, e) <==> ComboMatches(c, e.(key := ToLower(e.key)))
  {
    ToLowerIdempotent(e.key);
  }

  /** A modifier the combination leaves unspecified matches either state. */
  lemma UnspecifiedModifiersIgnored(c: KeyCombination, e: KeyEvent)
    ensures c.ctrlKey.None? ==> (ComboMatches(c, e) <==> ComboMatches(c, e.(ctrlKey := !e.ctrlKey)))
    ensures c.metaKey.None? ==> (ComboMatches(c, e) <==> ComboMatches(c, e.(metaKey := !e.metaKey)))
    ensures c.altKey.None? ==> (ComboMatches(c, e) <==> ComboMatches(c, e.(altKey := !e.altKey)))
    ensures c.shiftKey.None? ==> (ComboMatches(c, e) <==> ComboMatches(c, e.(shiftKey := !e.shiftKey)))
  {
  }

  /** A specified modifier in the other state never matches. */
  lemma SpecifiedModifierChecked(c: KeyCombination, e: KeyEvent)
    requires c.ctrlKey == Some(true) && !e.ctrlKey
    ensures !ComboMatches(c, e)
  {
  }

  /** One combination behaves as the list holding it. */
  lemma OneIsListOfOne(c: KeyCombination, options: Options, e: KeyEvent)
    ensures HandleKeyDown(One(c), options, e) == HandleKeyDown(Many([c]), options, e)
    ensures HandleKeyDown(One(c), options, e).callbackCalls == 1 <==> !IsEditable(e.target) && ComboMatches(c, e)
  {
  }

  // ===== listener registrations =====

  datatype EventType = KeyDown | Focus

  /** The hook's two handlers, and any other code's. */
  datatype Handler = KeyDownHandler | WindowFocusHandler | OtherHandler(id: nat)

  /** A registration, identified as the DOM identifies it: event type,
      handler and capture flag. */
  datatype Listener = Listener(event: EventType, handler: Handler, capture: bool)

  /** `addEventListener`: registering an identical listener again does
      nothing. */
  function Added(ls: seq<Listener>, l: Listener): (r: seq<Listener>)
    ensures NoDups(ls) ==> NoDups(r)
    ensures l in r && multiset(r)[l] >= 1
    ensures forall x :: x in r <==> x in ls || x == l
  {
    if l in ls then ls else ls + [l]
  }

  /** `removeEventListener`. */
  function Removed(ls: seq<Listener>, l: Listener): (r: seq<Listener>)
    ensures NoDups(ls) ==> NoDups(r)
    ensures l !in r
    ensures forall x :: x in r <==> x in ls && x != l
  {
    if NoDups(ls) then
      WithoutNoDups(ls, l);
      Without(ls, l)
    else Without(ls, l)
  }

  /** The focus handler's remove-then-add. */
  function Reattached(ls: seq<Listener>, l: Listener): (r: seq<Listener>)
    ensures multiset(r)[l] == 1
    ensures NoDups(ls) ==> NoDups(r)
  {
    var w := Removed(ls, l);
    assert multiset(w)[l] == 0;
    Added(w, l)
  }

  /** Reattaching twice is reattaching once. */
  lemma ReattachedIdempotent(ls: seq<Listener>, l: Listener)
    ensures Reattached(Reattached(ls, l), l) == Reattached(ls, l)
  {
    var w := Without(ls, l);
    WithoutAppend(w, [l], l);
    WithoutAbsent(w, l);
    assert Without([l], l) == [];
  }

  /** The listeners after `n` focus events. */
  function FocusEvents(ls: seq<Listener>, l: Listener, n: nat): seq<Listener> {
    if n == 0 then ls else Reattached(FocusEvents(ls, l, n - 1), l)
  }

  /** Any number of focus events leaves the same registrations as one. */
  lemma {:induction false} FocusEventsCollapse(ls: seq<Listener>, l: Listener, n: nat)
    requires n >= 1
    ensures FocusEvents(ls, l, n) == Reattached(ls, l)
  {
    if n > 1 {
      FocusEventsCollapse(ls, l, n - 1);
      assert FocusEvents(ls, l, n) == Reattached(FocusEvents(ls, l, n - 1), l);
      ReattachedIdempotent(ls, l);
    }
  }

  /** Mounting, any number of focus events and cleanup leave the document's
      other listeners as they were (when the hook's listener was not already
      there). */
  lemma MountFocusCleanupRestores(ls: seq<Listener>, l: Listener, n: nat)
    requires l !in ls
    ensures Removed(FocusEvents(Added(ls, l), l, n), l) == ls
  {
    if n >= 1 {
      FocusEventsCollapse(Added(ls, l), l, n);
      var w := Without(ls + [l], l);
      WithoutAppend(ls, [l], l);
      WithoutAbsent(ls, l);
      assert Without([l], l) == [];
      assert w == ls;
      WithoutAppend(ls, [l], l);
    } else {
      WithoutAppend(ls, [l], l);
      WithoutAbsent(ls, l);
      assert Without([l], l) == [];
    }
  }

  // ===== the hook =====

  /** One use of the hook: its combinations and options, the listener lists
      of the document and the window, and how often the callback has run. */
  class ShortcutHook {
    const combinations: KeyCombinations
    const options: Options
    var documentListeners: seq<Listener>
    var windowListeners: seq<Listener>
    var callbackCalls: nat

    /** The DOM keeps no listener twice. */
    ghost predicate Valid()
      reads this
    {
      NoDups(documentListeners) && NoDups(windowListeners)
    }

    /** The keydown registration: on the document, in the capture phase
      unless `useCapture` is false. */
    function KeyDownListener(): Listener {
      Listener(KeyDown, KeyDownHandler, Enabled(options.useCapture))
    }

    /** The focus registration on the window (bubbling phase). */
    function FocusListener(): Listener {
      Listener(Focus, WindowFocusHandler, false)
    }

    /** Whether the keydown handler is registered exactly once and the focus
      handler is registered. */
    predicate Mounted()
      reads this
    {
      multiset(documentListeners)[KeyDownListener()] == 1 && FocusListener() in windowListeners
    }

    /** The hook on a page whose document and window already hold the given
      listeners. */
    constructor(kc: KeyCombinations, opts: Options, doc: seq<Listener>, win: seq<Listener>)
      requires NoDups(doc) && NoDups(win)
      ensures Valid()
      ensures combinations == kc && options == opts
      ensures documentListeners == doc && windowListeners == win && callbackCalls == 0
    {
      combinations := kc;
      options := opts;
      documentListeners := doc;
      windowListeners := win;
      callbackCalls := 0;
    }

    /** `addKeydownListener`. */
    method AddKeydownListener()
      requires Valid()
      modifies this
      ensures Valid()
      ensures documentListeners == Added(old(documentListeners), KeyDownListener())
      ensures windowListeners == old(windowListeners) && callbackCalls == old(callbackCalls)
    {
      var l := KeyDownListener();
      if l !in documentListeners {
        documentListeners := documentListeners + [l];
      }
    }

    /** `removeKeydownListener`. */
    method RemoveKeydownListener()
      requires Valid()
      modifies this
      ensures Valid()
      ensures documentListeners == Removed(old(documentListeners), KeyDownListener())
      ensures windowListeners == old(windowListeners) && callbackCalls == old(callbackCalls)
    {
      documentListeners := Removed(documentListeners, KeyDownListener());
    }

    /** The effect: the keydown listener on the document and the focus
      listener on the window. */
    method Mount()
      requires Valid()
      modifies this
      ensures Valid() && Mounted()
      ensures documentListeners == Added(old(documentListeners), KeyDownListener())
      ensures windowListeners == Added(old(windowListeners), FocusListener())
      ensures callbackCalls == old(callbackCalls)
    {
      AddKeydownListener();
      var f := FocusListener();
      if f !in windowListeners {
        windowListeners := windowListeners + [f];
      }
      NoDupsCount(documentListeners, KeyDownListener());
    }

    /** `handleWindowFocus`: remove, then add, so the keydown listener is
      registered exactly once whatever came before. */
    method HandleWindowFocus()
      requires Valid()
      modifies this
      ensures Valid()
      ensures documentListeners == Reattached(old(documentListeners), KeyDownListener())
      ensures multiset(documentListeners)[KeyDownListener()] == 1
      ensures windowListeners == old(windowListeners) && callbackCalls == old(callbackCalls)
    {
      RemoveKeydownListener();
      AddKeydownListener();
    }

    /** The effect's cleanup: neither listener is left. */
    method Cleanup()
      requires Valid()
      modifies this
      ensures Valid()
      ensures documentListeners == Removed(old(documentListeners), KeyDownListener())
      ensures windowListeners == Removed(old(windowListeners), FocusListener())
      ensures KeyDownListener() !in documentListeners && FocusListener() !in windowListeners
      ensures callbackCalls == old(callbackCalls)
    {
      RemoveKeydownListener();
      windowListeners := Removed(windowListeners, FocusListener());
    }

    /** A keydown reaching the document: the handler runs once if it is
      registered, and the callback runs when the handler says so. */
    method DispatchKeyDown(e: KeyEvent) returns (o: Outcome)
      requires Valid()
      modifies this
      ensures Valid()
      ensures o == if KeyDownListener() in documentListeners then HandleKeyDown(combinations, options, e) else UNTOUCHED
      ensures callbackCalls == old(callbackCalls) + o.callbackCalls
      ensures documentListeners == old(documentListeners) && windowListeners == old(windowListeners)
    {
      if KeyDownListener() in documentListeners {
        o := HandleKeyDown(combinations, options, e);
      } else {
        o := UNTOUCHED;
      }
      callbackCalls := callbackCalls + o.callbackCalls;
    }
  }

  /** A mounted hook, after a focus event, calls back exactly once for a
      matching keydown outside an editable element, and after cleanup not at
      all. */
  method Lifecycle(kc: KeyCombinations, opts: Options, doc: seq<Listener>, win: seq<Listener>, e: KeyEvent)
    returns (before: Outcome, after: Outcome)
    requires NoDups(doc) && NoDups(win)
    ensures before.callbackCalls == 1 <==> !IsEditable(e.target) && MatchesAny(Combinations(kc), e)
    ensures after == UNTOUCHED
  {
    var hook := new ShortcutHook(kc, opts, doc, win);
    hook.Mount();
    hook.HandleWindowFocus();
    before := hook.DispatchKeyDown(e);
    hook.Cleanup();
    after := hook.DispatchKeyDown(e);
  }
}

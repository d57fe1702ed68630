/** The interaction state of the Suggest typeahead control as a value: the props its
    handlers read, the state record they patch, the callbacks and input effects they
    produce, and one transition function per handler. The class in suggest.dfy is
    specified against these functions; the lemmas here are about runs of them. */
module SuggestState {

  datatype Option<+T> = None | Some(value: T)

  /** The keys the key-down handler tells apart; every other key is `Other`. */
  datatype Key = Escape | Tab | Backspace | ArrowLeft | ArrowRight | Other

  /** The props a handler reads when it runs. A flag the caller left unset is `None`
      and resolves to its default. `truthy` is how JavaScript's conditional operator
      judges an item value: false exactly for JavaScript's falsy values. */
  datatype Props<!T> = Props(
    items: seq<T>,
    inputValueRenderer: T -> string,
    closeOnSelect: Option<bool>,
    openOnKeyDown: Option<bool>,
    truthy: T -> bool)

  const DefaultCloseOnSelect: bool := true
  const DefaultOpenOnKeyDown: bool := false

  function CloseOnSelect<T>(p: Props<T>): bool
  {
    match p.closeOnSelect
    case Some(b) => b
    case None => DefaultCloseOnSelect
  }

  function OpenOnKeyDown<T>(p: Props<T>): bool
  {
    match p.openOnKeyDown
    case Some(b) => b
    case None => DefaultOpenOnKeyDown
  }

  /** The state record; an absent item is `None` (the source's `undefined`). */
  datatype State<T> = State(
    activeItem: Option<T>,
    isOpen: bool,
    isTyping: bool,
    query: string,
    selectedItem: Option<T>)

  function Initial<T>(): State<T>
  {
    State(None, false, false, "", None)
  }

  /** Whether the source's `item ? ... : ...` takes its first branch. */
  predicate Present<T>(o: Option<T>, p: Props<T>)
  {
    o.Some? && p.truthy(o.value)
  }

  /** `items[0]`, which is `undefined` for an empty list. */
  function First<T>(items: seq<T>): Option<T>
  {
    if |items| > 0 then Some(items[0]) else None
  }

  predicate IsDismissKey(key: Key)
  {
    key == Escape || key == Tab
  }

  /** Keys that edit or move the caret and so do not open the popover on key-down. */
  predicate IsCaretKey(key: Key)
  {
    key == Backspace || key == ArrowLeft || key == ArrowRight
  }

  /** What a handler does besides patching the state, in the order it does it:
      input-element effects, the query list's own key handlers, and the optional
      callbacks of the props (an absent callback makes its entry a no-op). */
  datatype Effect<T> =
    | SelectInputText                     // deferred selection of the whole input text
    | FocusInput
    | BlurInput
    | ListKeyDown(key: Key)               // the query list's key-down handler
    | ListKeyUp(key: Key)                 // the query list's key-up handler
    | OnFocus                             // inputProps.onFocus
    | OnChange(value: string)             // inputProps.onChange
    | OnKeyDown(key: Key)                 // inputProps.onKeyDown
    | OnKeyUp(key: Key)                   // inputProps.onKeyUp
    | OnItemSelect(item: T)               // props.onItemSelect
    | OnInteraction(nextOpenState: bool)  // popoverProps.onInteraction
    | PopoverDidOpen                      // popoverProps.popoverDidOpen

  // ---- one transition per handler ----

  function AfterInputFocus<T>(s: State<T>, p: Props<T>): State<T>
  {
    if !OpenOnKeyDown(p) then s.(isOpen := true) else s
  }

  function AfterActiveItemChange<T>(s: State<T>, item: T): State<T>
  {
    s.(activeItem := Some(item))
  }

  function AfterItemSelect<T>(s: State<T>, p: Props<T>, item: T): State<T>
  {
    s.(isOpen := !CloseOnSelect(p), isTyping := false, query := "", selectedItem := Some(item))
  }

  /** The deferred part of the popover-interaction handler; `inputMounted` and
      `inputFocused` stand for `this.input != null` and `this.input === document.activeElement`. */
  function AfterPopoverInteraction<T>(s: State<T>, inputMounted: bool, inputFocused: bool): State<T>
  {
    if inputMounted && !inputFocused then s.(isOpen := false) else s
  }

  function AfterPopoverWillClose<T>(s: State<T>, p: Props<T>): State<T>
  {
    s.(activeItem := if Present(s.selectedItem, p) then s.selectedItem else First(p.items), query := "")
  }

  function AfterQueryChange<T>(s: State<T>, value: string): State<T>
  {
    s.(isTyping := true, query := value)
  }

  function AfterKeyDown<T>(s: State<T>, p: Props<T>, key: Key): State<T>
  {
    if IsDismissKey(key) then
      s.(isOpen := false, selectedItem := if s.isTyping then None else s.selectedItem)
    else if OpenOnKeyDown(p) && !IsCaretKey(key) then
      s.(isOpen := true)
    else
      s
  }

  /** The key-down handler's effects. React batches `setState` inside an event handler,
      so the open test that decides forwarding to the list sees the state before the key. */
  function KeyDownEffects<T>(before: State<T>, key: Key): seq<Effect<T>>
  {
    (if IsDismissKey(key) then [BlurInput] else [])
    + (if before.isOpen then [ListKeyDown(key)] else [])
    + [OnKeyDown(key)]
  }

  function KeyUpEffects<T>(s: State<T>, key: Key): seq<Effect<T>>
  {
    (if s.isOpen then [ListKeyUp(key)] else []) + [OnKeyUp(key)]
  }

  // ---- runs of events ----

  datatype Event<T> =
    | InputFocus
    | ActiveItemChange(item: T)
    | ItemSelect(item: T)
    | PopoverInteraction(inputMounted: bool, inputFocused: bool)
    | PopoverWillClose
    | QueryChange(value: string)
    | KeyDown(key: Key)
    | KeyUp(key: Key)

  function Step<T>(s: State<T>, p: Props<T>, e: Event<T>): State<T>
  {
    match e
    case InputFocus => AfterInputFocus(s, p)
    case ActiveItemChange(item) => AfterActiveItemChange(s, item)
    case ItemSelect(item) => AfterItemSelect(s, p, item)
    case PopoverInteraction(mounted, focused) => AfterPopoverInteraction(s, mounted, focused)
    case PopoverWillClose => AfterPopoverWillClose(s, p)
    case QueryChange(value) => AfterQueryChange(s, value)
    case KeyDown(key) => AfterKeyDown(s, p, key)
    case KeyUp(_) => s
  }

  function Run<T>(s: State<T>, p: Props<T>, events: seq<Event<T>>): State<T>
    decreases |events|
  {
    if events == [] then s else Run(Step(s, p, events[0]), p, events[1..])
  }

  /** The state invariant: while the user is not typing, the query list is not filtered. */
  predicate ListFilterShown<T>(s: State<T>)
  {
    !s.isTyping ==> s.query == ""
  }

  lemma StepKeepsListFilterShown<T>(s: State<T>, p: Props<T>, e: Event<T>)
    requires ListFilterShown(s)
    ensures ListFilterShown(Step(s, p, e))
  {
  }

  lemma {:induction false} RunKeepsListFilterShown<T>(s: State<T>, p: Props<T>, events: seq<Event<T>>)
    requires ListFilterShown(s)
    ensures ListFilterShown(Run(s, p, events))
    decreases |events|
  {
    if events != [] {
      StepKeepsListFilterShown(s, p, events[0]);
      RunKeepsListFilterShown(Step(s, p, events[0]), p, events[1..]);
    }
  }

  lemma {:induction false} RunAppend<T>(s: State<T>, p: Props<T>, a: seq<Event<T>>, b: seq<Event<T>>)
    ensures Run(s, p, a + b) == Run(Run(s, p, a), p, b)
    decreases |a|
  {
    if a == [] {
      assert a + b == b;
    } else {
      assert (a + b)[0] == a[0];
      assert (a + b)[1..] == a[1..] + b;
      RunAppend(Step(s, p, a[0]), p, a[1..], b);
    }
  }

  /** Every handler is idempotent: delivering the same event twice in a row leaves the
      state as delivering it once. */
  lemma StepIdempotent<T>(s: State<T>, p: Props<T>, e: Event<T>)
    ensures Step(Step(s, p, e), p, e) == Step(s, p, e)
  {
  }

  /** Typing twice keeps only the last value. */
  lemma QueryChangeLastWins<T>(s: State<T>, a: string, b: string)
    ensures AfterQueryChange(AfterQueryChange(s, a), b) == AfterQueryChange(s, b)
  {
  }

  /** ESCAPE and TAB always close; they clear the selection exactly when the user had
      started typing, and touch nothing else. */
  lemma DismissKeyClears<T>(s: State<T>, p: Props<T>, key: Key)
    requires IsDismissKey(key)
    ensures !AfterKeyDown(s, p, key).isOpen
    ensures AfterKeyDown(s, p, key).selectedItem == (if s.isTyping then None else s.selectedItem)
    ensures AfterKeyDown(s, p, key).(isOpen := s.isOpen, selectedItem := s.selectedItem) == s
  {
  }

  /** With `openOnKeyDown`, a key other than ESCAPE and TAB leaves the popover open
      afterwards exactly when it was open already or the key is not a caret key. */
  lemma OpenOnKeyDownOpens<T>(s: State<T>, p: Props<T>, key: Key)
    requires OpenOnKeyDown(p) && !IsDismissKey(key)
    ensures AfterKeyDown(s, p, key).isOpen <==> s.isOpen || !IsCaretKey(key)
    ensures AfterKeyDown(s, p, key).(isOpen := s.isOpen) == s
  {
  }

  /** Without `openOnKeyDown` (its default), only ESCAPE and TAB change the state. */
  lemma KeyDownWithoutOpenOnKeyDown<T>(s: State<T>, p: Props<T>, key: Key)
    requires !OpenOnKeyDown(p) && !IsDismissKey(key)
    ensures AfterKeyDown(s, p, key) == s
  {
  }

  /** Key-down never changes the query, the typing flag or the active item. */
  lemma KeyDownKeepsQuery<T>(s: State<T>, p: Props<T>, key: Key)
    ensures AfterKeyDown(s, p, key).query == s.query
    ensures AfterKeyDown(s, p, key).isTyping == s.isTyping
    ensures AfterKeyDown(s, p, key).activeItem == s.activeItem
  {
  }

  /** The key reaches the list's navigation handler exactly when the popover was open
      before the key, and the input's own handler always gets it, last. */
  lemma KeyDownForwarding<T>(s: State<T>, key: Key)
    ensures ListKeyDown(key) in KeyDownEffects(s, key) <==> s.isOpen
    ensures KeyDownEffects(s, key)[|KeyDownEffects(s, key)| - 1] == OnKeyDown(key)
    ensures BlurInput in KeyDownEffects(s, key) <==> IsDismissKey(key)
  {
  }

  /** The key that opens a closed popover under `openOnKeyDown` is not passed to the list:
      the popover is open afterwards, yet the list did not see the key. */
  lemma OpeningKeyNotForwarded<T>(s: State<T>, p: Props<T>, key: Key)
    requires !s.isOpen && OpenOnKeyDown(p) && !IsDismissKey(key) && !IsCaretKey(key)
    ensures AfterKeyDown(s, p, key).isOpen
    ensures ListKeyDown(key) !in KeyDownEffects(s, key)
  {
  }

  lemma KeyUpForwarding<T>(s: State<T>, key: Key)
    ensures ListKeyUp(key) in KeyUpEffects(s, key) <==> s.isOpen
    ensures KeyUpEffects(s, key)[|KeyUpEffects(s, key)| - 1] == OnKeyUp(key)
  {
  }

  /** Will-close empties the query and points the active item at the selection, or at
      the first item when nothing (truthy) is selected. */
  lemma WillCloseResets<T>(s: State<T>, p: Props<T>)
    ensures AfterPopoverWillClose(s, p).query == ""
    ensures Present(s.selectedItem, p) ==> AfterPopoverWillClose(s, p).activeItem == s.selectedItem
    ensures !Present(s.selectedItem, p) && |p.items| > 0 ==> AfterPopoverWillClose(s, p).activeItem == Some(p.items[0])
    ensures !Present(s.selectedItem, p) && |p.items| == 0 ==> AfterPopoverWillClose(s, p).activeItem == None
    ensures AfterPopoverWillClose(s, p).(activeItem := s.activeItem, query := s.query) == s
  {
  }
}

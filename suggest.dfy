/** The Suggest control: its state record as mutable fields and one method per event
    handler. Each handler patches the fields as one atomic update and returns, in order,
    the input-element effects and the callbacks it invokes. */
module SuggestComponent {
  import opened SuggestState

  class Suggest<T> {
    var activeItem: Option<T>
    var isOpen: bool
    var isTyping: bool
    var query: string
    var selectedItem: Option<T>

    function Snapshot(): State<T>
      reads this
    {
      State(activeItem, isOpen, isTyping, query, selectedItem)
    }

    /** While the user is not typing, the query list is not filtered. */
    ghost predicate Valid()
      reads this
    {
      ListFilterShown(Snapshot())
    }

    constructor ()
      ensures Valid()
      ensures !isOpen && !isTyping && query == ""
      ensures activeItem == None && selectedItem == None
      ensures Snapshot() == Initial()
    {
      activeItem, isOpen, isTyping, query, selectedItem := None, false, false, "", None;
    }

    /** Focus opens the popover unless it opens on key-down; the whole input text gets
        selected once the focus has settled. */
    method HandleInputFocus(props: Props<T>) returns (effects: seq<Effect<T>>)
      requires Valid()
      modifies this
      ensures Valid()
      ensures isOpen == if OpenOnKeyDown(props) then old(isOpen) else true
      ensures activeItem == old(activeItem) && isTyping == old(isTyping)
      ensures query == old(query) && selectedItem == old(selectedItem)
      ensures Snapshot() == AfterInputFocus(old(Snapshot()), props)
      ensures effects == [SelectInputText, OnFocus]
    {
      effects := [SelectInputText];
      if !OpenOnKeyDown(props) {
        isOpen := true;
      }
      effects := effects + [OnFocus];
    }

    method HandleActiveItemChange(item: T)
      requires Valid()
      modifies this
      ensures Valid()
      ensures activeItem == Some(item)
      ensures isOpen == old(isOpen) && isTyping == old(isTyping)
      ensures query == old(query) && selectedItem == old(selectedItem)
      ensures Snapshot() == AfterActiveItemChange(old(Snapshot()), item)
    {
      activeItem := Some(item);
    }

    /** Selecting commits the item, leaves typing mode and empties the query; the popover
        stays open (input refocused, text reselected) exactly when `closeOnSelect` is off. */
    method HandleItemSelect(props: Props<T>, item: T) returns (effects: seq<Effect<T>>)
      requires Valid()
      modifies this
      ensures Valid()
      ensures isOpen == !CloseOnSelect(props)
      ensures !isTyping && query == "" && selectedItem == Some(item)
      ensures activeItem == old(activeItem)
      ensures Snapshot() == AfterItemSelect(old(Snapshot()), props, item)
      ensures effects == (if CloseOnSelect(props) then [BlurInput] else [FocusInput, SelectInputText])
                         + [OnItemSelect(item)]
    {
      var nextOpenState: bool;
      if !CloseOnSelect(props) {
        effects := [FocusInput, SelectInputText];
        nextOpenState := true;
      } else {
        effects := [BlurInput];
        nextOpenState := false;
      }
      isOpen, isTyping, query, selectedItem := nextOpenState, false, "", Some(item);
      effects := effects + [OnItemSelect(item)];
    }

    /** The deferred check after a popover interaction: close once the input has lost focus. */
    method HandlePopoverInteraction(nextOpenState: bool, inputMounted: bool, inputFocused: bool)
      returns (effects: seq<Effect<T>>)
      requires Valid()
      modifies this
      ensures Valid()
      ensures isOpen == if inputMounted && !inputFocused then false else old(isOpen)
      ensures activeItem == old(activeItem) && isTyping == old(isTyping)
      ensures query == old(query) && selectedItem == old(selectedItem)
      ensures Snapshot() == AfterPopoverInteraction(old(Snapshot()), inputMounted, inputFocused)
      ensures effects == [OnInteraction(nextOpenState)]
    {
      if inputMounted && !inputFocused {
        isOpen := false;
      }
      effects := [OnInteraction(nextOpenState)];
    }

    /** Before the popover closes: empty the query and point the active item at the
        selection, or at the first item. The callback invoked is `popoverDidOpen`, as
        the source has it, not a will-close callback. */
    method HandlePopoverWillClose(props: Props<T>) returns (effects: seq<Effect<T>>)
      requires Valid()
      modifies this
      ensures Valid()
      ensures query == ""
      ensures activeItem == if Present(old(selectedItem), props) then old(selectedItem) else First(props.items)
      ensures isOpen == old(isOpen) && isTyping == old(isTyping) && selectedItem == old(selectedItem)
      ensures Snapshot() == AfterPopoverWillClose(old(Snapshot()), props)
      ensures effects == [PopoverDidOpen]
    {
      activeItem := if Present(selectedItem, props) then selectedItem else First(props.items);
      query := "";
      effects := [PopoverDidOpen];
    }

    /** Typing enters typing mode with the typed text as the query. */
    method HandleQueryChange(value: string) returns (effects: seq<Effect<T>>)
      requires Valid()
      modifies this
      ensures Valid()
      ensures isTyping && query == value
      ensures activeItem == old(activeItem) && isOpen == old(isOpen) && selectedItem == old(selectedItem)
      ensures Snapshot() == AfterQueryChange(old(Snapshot()), value)
      ensures effects == [OnChange(value)]
    {
      isTyping, query := true, value;
      effects := [OnChange(value)];
    }

    /** The input's key-down handler. ESCAPE and TAB blur the input and close, dropping
        the selection if the user was typing; under `openOnKeyDown` other keys but the
        caret keys open. The key reaches the list only if the popover was open before it. */
    method TargetKeyDown(props: Props<T>, key: Key) returns (effects: seq<Effect<T>>)
      requires Valid()
      modifies this
      ensures Valid()
      ensures IsDismissKey(key) ==> !isOpen && selectedItem == (if old(isTyping) then None else old(selectedItem))
      ensures !IsDismissKey(key) ==> selectedItem == old(selectedItem)
      ensures !IsDismissKey(key) && OpenOnKeyDown(props) && !IsCaretKey(key) ==> isOpen
      ensures !IsDismissKey(key) && (!OpenOnKeyDown(props) || IsCaretKey(key)) ==> isOpen == old(isOpen)
      ensures activeItem == old(activeItem) && isTyping == old(isTyping) && query == old(query)
      ensures Snapshot() == AfterKeyDown(old(Snapshot()), props, key)
      ensures effects == KeyDownEffects(old(Snapshot()), key)
      ensures ListKeyDown(key) in effects <==> old(isOpen)
    {
      // setState is batched inside a React event handler: the open test below reads the
      // state as it was before this key
      var wasOpen := isOpen;
      effects := [];
      if key == Escape || key == Tab {
        effects := effects + [BlurInput];
        isOpen, selectedItem := false, if isTyping then None else selectedItem;
      } else if OpenOnKeyDown(props) && key != Backspace && key != ArrowLeft && key != ArrowRight {
        isOpen := true;
      }
      if wasOpen {
        effects := effects + [ListKeyDown(key)];
      }
      effects := effects + [OnKeyDown(key)];
    }

    /** The input's key-up handler: the key reaches the list only while the popover is open. */
    method TargetKeyUp(key: Key) returns (effects: seq<Effect<T>>)
      ensures effects == KeyUpEffects(Snapshot(), key)
      ensures ListKeyUp(key) in effects <==> isOpen
      ensures effects[|effects| - 1] == OnKeyUp(key)
    {
      effects := [];
      if isOpen {
        effects := effects + [ListKeyUp(key)];
      }
      effects := effects + [OnKeyUp(key)];
    }
  }
}

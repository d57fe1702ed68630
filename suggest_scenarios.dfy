/** Walk-throughs of the Suggest control with string items rendered as themselves,
    driven through the class's handlers and proved from their contracts alone. */
module SuggestScenarios {
  import opened SuggestState
  import opened SuggestRender
  import opened SuggestComponent

  function Fruits(): seq<string>
  {
    ["apple", "banana", "cherry"]
  }

  /** String props over the fruits; a string is truthy when it is not empty. */
  function FruitProps(closeOnSelect: Option<bool>): Props<string>
  {
    Props(Fruits(), (s: string) => s, closeOnSelect, None, (s: string) => s != "")
  }

  /** Focus, type "ban", pick "banana" with the default `closeOnSelect`: the popover
      closes, the input is blurred and shows "banana". */
  method SelectClosing() returns (state: State<string>, shown: string, effects: seq<Effect<string>>)
    ensures state == State(None, false, false, "", Some("banana"))
    ensures shown == "banana"
    ensures effects == [BlurInput, OnItemSelect("banana")]
  {
    var props := FruitProps(None);
    var suggest := new Suggest<string>();
    var _ := suggest.HandleInputFocus(props);
    assert suggest.isOpen;
    var _ := suggest.HandleQueryChange("ban");
    assert suggest.query == "ban" && suggest.isTyping;
    effects := suggest.HandleItemSelect(props, "banana");
    state := suggest.Snapshot();
    shown := InputValue(state, props);
  }

  /** The same with `closeOnSelect` off: the popover stays open, the input is refocused
      with its text selected, and shows "banana". */
  method SelectStayingOpen() returns (state: State<string>, shown: string, effects: seq<Effect<string>>)
    ensures state == State(None, true, false, "", Some("banana"))
    ensures shown == "banana"
    ensures effects == [FocusInput, SelectInputText, OnItemSelect("banana")]
  {
    var props := FruitProps(Some(false));
    var suggest := new Suggest<string>();
    var _ := suggest.HandleInputFocus(props);
    var _ := suggest.HandleQueryChange("ban");
    effects := suggest.HandleItemSelect(props, "banana");
    state := suggest.Snapshot();
    shown := InputValue(state, props);
  }

  /** With "apple" selected and nothing typed, TAB closes and keeps "apple"; once the
      user has typed, TAB drops the selection. */
  method TabAfterSelection() returns (kept: Option<string>, dropped: Option<string>)
    ensures kept == Some("apple")
    ensures dropped == None
  {
    var props := FruitProps(None);
    var suggest := new Suggest<string>();
    var _ := suggest.HandleItemSelect(props, "apple");
    var _ := suggest.TargetKeyDown(props, Tab);
    assert !suggest.isOpen;
    kept := suggest.selectedItem;
    var _ := suggest.HandleQueryChange("ch");
    var _ := suggest.TargetKeyDown(props, Tab);
    dropped := suggest.selectedItem;
  }
}

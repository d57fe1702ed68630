# Suggest interaction state machine

A Dafny model of the interaction logic of Blueprint's `Suggest` typeahead control
(`packages/select/src/components/select/suggest.tsx`). The control is a text input with a
popover that holds a filtered item list. It keeps the state record
`{activeItem, isOpen, isTyping, query, selectedItem}` and patches it from a fixed set of
event handlers: input focus, active-item change, item select, popover interaction,
popover will-close, query change, and key-down/key-up on the input.

- `suggest_state.dfy` (module `SuggestState`) holds the props the handlers read. Unset
  `closeOnSelect`/`openOnKeyDown` fall back to the `DEFAULT_PROPS` values `true`/`false`.
  The module also holds the state record as a value, the effects a handler produces, and
  one transition function per handler (`AfterInputFocus`, …, `AfterKeyDown`). Runs of
  events (`Run`) and the lemmas about them live here too.
- `suggest_render.dfy` (module `SuggestRender`) has the input's display-value rule and
  `renderItems` (map, drop nulls, fall back to the `noResults` placeholder), with lemmas.
- `suggest.dfy` (module `SuggestComponent`) has the class `Suggest<T>`. Its five mutable
  fields are the state record. There is one method per handler. Each method states its
  whole new state field by field, ties it to the transition function, keeps the class
  invariant `Valid()`, and returns the handler's effects in order. The effects are
  blur/focus of the input, selection of its text, forwarding to the query list's key
  handlers, and invocation of the optional user callbacks.
- `suggest_scenarios.dfy` (module `SuggestScenarios`) drives the class through three
  walk-throughs with string items, proved from the handlers' contracts.

Environment choices. The item type is a type parameter. `inputValueRenderer` and
`renderItem` are function values. JavaScript truthiness of an item value (the source's
`selectedItem ? … : …`) is the function `Props.truthy`. Keys are an enum:
ESCAPE, TAB, BACKSPACE, ARROW_LEFT, ARROW_RIGHT, Other. The DOM checks `this.input != null`
and `this.input === document.activeElement` are boolean arguments of the deferred
popover-interaction method.

Two behaviours are modelled as the code has them:

- Key-down forwarding. The key-down handler tests `this.state.isOpen` right after
  `setState`. React batches `setState` inside an event handler, so that test sees the
  state from before the key. The model forwards the key to the list exactly when the
  popover was open before the key (`KeyDownForwarding`). So the key that opens a closed
  popover under `openOnKeyDown` is not passed to the list (`OpeningKeyNotForwarded`).
- Will-close forwarding. `handlePopoverWillClose` invokes `popoverProps.popoverDidOpen`,
  not a will-close callback (line 243). This is most likely a copy-and-paste defect. The
  model reproduces it: `HandlePopoverWillClose` returns `[PopoverDidOpen]`.

The model also proves an invariant that the source keeps without stating it: while the
user is not typing, the query is empty (`ListFilterShown`). So in every reachable state
the list is filtered by the computed input value, or not filtered at all
(`ListFiltersByShownText`). A related behaviour: when the popover closes while the user
is typing, the input empties, because `isTyping` stays true while the query is cleared
(`InputValueChangedOnlyBy`).

## Model

| member | source | states |
|---|---|---|
| `SuggestComponent.Suggest.constructor` | packages/select/src/components/select/suggest.tsx:69-73 | initial state: closed, not typing, empty query, no active or selected item; the invariant holds |
| `SuggestComponent.Suggest.HandleInputFocus` | packages/select/src/components/select/suggest.tsx:170-183 | `isOpen` becomes true exactly when `openOnKeyDown` is off (default off); no other field changes; effects are the deferred text selection, then `onFocus` |
| `SuggestComponent.Suggest.HandleActiveItemChange` | packages/select/src/components/select/suggest.tsx:185 | only `activeItem` changes, to the reported item |
| `SuggestComponent.Suggest.HandleItemSelect` | packages/select/src/components/select/suggest.tsx:187-207 | `isTyping` false, `query` "", `selectedItem` the item, `isOpen == !closeOnSelect` (default true), `activeItem` unchanged; effects are blur, or refocus and reselect, then `onItemSelect(item)` |
| `SuggestComponent.Suggest.HandlePopoverInteraction` | packages/select/src/components/select/suggest.tsx:209-219 | the deferred check closes the popover exactly when the input is mounted and not the focused element, otherwise the state is unchanged; `onInteraction(nextOpenState)` is always forwarded |
| `SuggestComponent.Suggest.HandlePopoverWillClose` | packages/select/src/components/select/suggest.tsx:232-244 | `query` becomes ""; `activeItem` becomes the selected item if a truthy one is set, else `items[0]` (absent for no items); `isOpen`, `isTyping`, `selectedItem` unchanged; forwards `popoverDidOpen` as written |
| `SuggestComponent.Suggest.HandleQueryChange` | packages/select/src/components/select/suggest.tsx:246-255 | `isTyping` true and `query` the typed value, whatever was selected; nothing else changes; forwards `onChange` |
| `SuggestComponent.Suggest.TargetKeyDown` | packages/select/src/components/select/suggest.tsx:257-289 | ESCAPE/TAB close and clear `selectedItem` only if typing; otherwise under `openOnKeyDown` any non-caret key opens; other keys change nothing; `query`, `isTyping` and `activeItem` never change; forwarded to the list iff open before the key; `onKeyDown` always, last |
| `SuggestComponent.Suggest.TargetKeyUp` | packages/select/src/components/select/suggest.tsx:291-299 | forwarded to the list iff the popover is open; `onKeyUp` always, last |
| `SuggestState.CloseOnSelect` | packages/select/src/components/select/suggest.tsx:80-85 | definition of the resolved `closeOnSelect` flag: the caller's value, else the default `true` |
| `SuggestState.OpenOnKeyDown` | packages/select/src/components/select/suggest.tsx:80-85 | definition of the resolved `openOnKeyDown` flag: the caller's value, else the default `false` |
| `SuggestState.Initial` | packages/select/src/components/select/suggest.tsx:69-73 | definition of the initial state record |
| `SuggestState.AfterInputFocus` | packages/select/src/components/select/suggest.tsx:170-183 | definition of the state after input focus |
| `SuggestState.AfterActiveItemChange` | packages/select/src/components/select/suggest.tsx:185 | definition of the state after an active-item change |
| `SuggestState.AfterItemSelect` | packages/select/src/components/select/suggest.tsx:187-207 | definition of the state after an item select |
| `SuggestState.AfterPopoverInteraction` | packages/select/src/components/select/suggest.tsx:209-219 | definition of the state after the deferred popover-interaction check |
| `SuggestState.AfterPopoverWillClose` | packages/select/src/components/select/suggest.tsx:232-244 | definition of the state after popover will-close |
| `SuggestState.AfterQueryChange` | packages/select/src/components/select/suggest.tsx:246-255 | definition of the state after a query change |
| `SuggestState.AfterKeyDown` | packages/select/src/components/select/suggest.tsx:268-281 | definition of the state after a key-down |
| `SuggestState.KeyDownEffects` | packages/select/src/components/select/suggest.tsx:268-287 | definition of the key-down handler's effects, forwarding decided from the pre-key state |
| `SuggestState.KeyUpEffects` | packages/select/src/components/select/suggest.tsx:294-297 | definition of the key-up handler's effects |
| `SuggestState.RunAppend` | packages/select/src/components/select/suggest.tsx:170-289 | running two event sequences one after the other equals running their concatenation |
| `SuggestRender.InputValue` | packages/select/src/components/select/suggest.tsx:126 | definition of the computed input value: the query while typing, else the rendered truthy selection, else "" |
| `SuggestRender.MapItems` | packages/select/src/components/select/suggest.tsx:159 | `items.map(renderItem)`: same length, entry `i` is `renderItem(items[i], i)` |
| `SuggestRender.WithoutNull` | packages/select/src/components/select/suggest.tsx:159 | definition of `.filter(item => item != null)` |
| `SuggestRender.RenderedItems` | packages/select/src/components/select/suggest.tsx:159 | definition of the rendered elements: the map, nulls dropped |
| `SuggestState.DismissKeyClears` | packages/select/src/components/select/suggest.tsx:268-273 | ESCAPE/TAB always close, drop the selection exactly when typing, and change nothing else |
| `SuggestState.OpenOnKeyDownOpens` | packages/select/src/components/select/suggest.tsx:274-281 | under `openOnKeyDown`, a non-dismiss key leaves the popover open iff it was open or the key is not BACKSPACE/ARROW_LEFT/ARROW_RIGHT; nothing else changes |
| `SuggestState.KeyDownWithoutOpenOnKeyDown` | packages/select/src/components/select/suggest.tsx:268-281 | without `openOnKeyDown`, keys other than ESCAPE/TAB leave the state unchanged |
| `SuggestState.KeyDownKeepsQuery` | packages/select/src/components/select/suggest.tsx:268-281 | key-down never changes `query`, `isTyping` or `activeItem` |
| `SuggestState.KeyDownForwarding` | packages/select/src/components/select/suggest.tsx:283-287 | the list's key-down handler runs iff the popover was open before the key; the input's own handler always runs, last; blur iff ESCAPE/TAB |
| `SuggestState.OpeningKeyNotForwarded` | packages/select/src/components/select/suggest.tsx:274-285 | the key that opens a closed popover under `openOnKeyDown` is not seen by the list |
| `SuggestState.KeyUpForwarding` | packages/select/src/components/select/suggest.tsx:294-297 | the list's key-up handler runs iff open; the input's own handler always, last |
| `SuggestState.WillCloseResets` | packages/select/src/components/select/suggest.tsx:238-241 | will-close empties the query and sets the active item to the truthy selection or `items[0]`, touching nothing else |
| `SuggestState.QueryChangeLastWins` | packages/select/src/components/select/suggest.tsx:249-252 | two query changes in a row equal the last one alone |
| `SuggestState.StepIdempotent` | packages/select/src/components/select/suggest.tsx:170-289 | delivering any handler's event twice in a row equals delivering it once |
| `SuggestState.StepKeepsListFilterShown` | packages/select/src/components/select/suggest.tsx:170-289 | every handler keeps "not typing implies empty query" |
| `SuggestState.RunKeepsListFilterShown` | packages/select/src/components/select/suggest.tsx:69-289 | the invariant holds after any run of events from a state that has it |
| `SuggestRender.InputValueAfterSelect` | packages/select/src/components/select/suggest.tsx:126 | after a selection the input shows `inputValueRenderer(item)` (or "" for a falsy item value) |
| `SuggestRender.InputValueAfterQueryChange` | packages/select/src/components/select/suggest.tsx:126 | after typing the input shows the typed text, and the selection is kept |
| `SuggestRender.InputValueAfterRunThenSelect` | packages/select/src/components/select/suggest.tsx:126 | after any events followed by a selection, the item is selected and the input shows it rendered |
| `SuggestRender.ListFiltersByShownText` | packages/select/src/components/select/suggest.tsx:105-126 | in every reachable state, the query passed to the list is "" or the text the input shows |
| `SuggestRender.InputValueChangedOnlyBy` | packages/select/src/components/select/suggest.tsx:126 | events other than select and type leave the input text unchanged, except that will-close while typing empties it |
| `SuggestRender.RenderItems` | packages/select/src/components/select/suggest.tsx:158-161 | the placeholder exactly when no item renders to a non-null element; otherwise the non-empty rendered sequence |
| `SuggestRender.RenderedItemsMembers` | packages/select/src/components/select/suggest.tsx:159 | an element is rendered iff some item (with its index) renders to it |
| `SuggestRender.RenderedItemsKeepOrder` | packages/select/src/components/select/suggest.tsx:159 | two items that render keep their relative order among the rendered elements |
| `SuggestRender.WithoutNullAppend` | packages/select/src/components/select/suggest.tsx:159 | dropping nulls distributes over concatenation |
| `SuggestRender.WithoutNullEmpty` | packages/select/src/components/select/suggest.tsx:159-160 | dropping nulls gives the empty sequence iff every entry is null |
| `SuggestRender.WithoutNullMembers` | packages/select/src/components/select/suggest.tsx:159 | a value survives dropping nulls iff it was present |
| `SuggestRender.WithoutNullKeepsOrder` | packages/select/src/components/select/suggest.tsx:159 | dropping nulls keeps the relative order of the remaining values |
| `SuggestScenarios.SelectClosing` | packages/select/src/components/select/suggest.tsx:170-207 | focus, type "ban", select "banana" (default `closeOnSelect`): closed, not typing, empty query, "banana" selected and shown, input blurred |
| `SuggestScenarios.SelectStayingOpen` | packages/select/src/components/select/suggest.tsx:187-207 | the same with `closeOnSelect` off: open, input refocused with its text selected, "banana" shown |
| `SuggestScenarios.TabAfterSelection` | packages/select/src/components/select/suggest.tsx:268-273 | TAB keeps a selection made before any typing, and drops it after typing |

## Left out

- Rendering and JSX: `render`, the props spread into `QueryList`, `Popover`, `InputGroup` and `Menu`, class names, the placeholder text and the ref handlers. The spreads do carry behaviour: see the next line.
- SuggestRender.InputValue: the model is the computed `inputValue` of line 126. The source spreads `inputProps` after `value={inputValue}` (lines 143-144), so a supplied `inputProps.value` replaces it, as lines 32-34 document. Likewise `popoverProps` is spread after `isOpen={this.state.isOpen}` (lines 132-134), so a supplied `popoverProps.isOpen` overrides the open state the model tracks. The lemmas about what "the input shows" hold only when those props are unset.
- DOM side effects are not executed. `input.focus()`, `input.blur()` and `selectText`'s `setSelectionRange` appear only as entries in the returned effect list. `document.activeElement` and `this.input != null` are boolean arguments.
- `requestAnimationFrame` deferral: `HandlePopoverInteraction` is the body of the deferred callback, invoked when the caller decides. `SelectInputText` marks a scheduled selection.
- `componentDidUpdate` and `handlePopoverDidOpen` call `scrollActiveItemIntoView` on the query list. These are layout effects on an external component.
- The `QueryList` component: filtering, its keyboard navigation and `renderItem`'s internals are external. `renderItem` is a function parameter.
- Absent user callbacks: `Utils.safeInvoke` makes an absent callback a no-op. The effect list records each invocation attempt, whether or not the callback is supplied.
- `SuggestComponent.Suggest.HandleItemSelect` and `SuggestComponent.Suggest.TargetKeyDown`: the source calls `this.input.focus()`/`blur()` without a null check, and would throw with the input unmounted. The model assumes the input is mounted while its own events and the list's selection events fire.
- React's merging of several `setState` calls: every handler issues at most one, so each method applies its patch as one assignment.

/** The two pure rules of the Suggest control's render pass: the text the input shows,
    and the menu content (the rendered items, or the no-results placeholder). */
module SuggestRender {
  import opened SuggestState

  /** The input's display value: the raw query while typing, otherwise the rendered
      selected item if there is a (truthy) one, otherwise the empty string. */
  function InputValue<T>(s: State<T>, p: Props<T>): string
  {
    if s.isTyping then s.query
    else if Present(s.selectedItem, p) then p.inputValueRenderer(s.selectedItem.value)
    else ""
  }

  /** Selecting an item makes the computed input value that item rendered, whatever was
      typed before (unless the item value is falsy, which the source shows as ""). */
  lemma InputValueAfterSelect<T>(s: State<T>, p: Props<T>, item: T)
    ensures InputValue(AfterItemSelect(s, p, item), p)
         == if p.truthy(item) then p.inputValueRenderer(item) else ""
  {
  }

  /** Typing makes the computed input value exactly the typed text, whatever was selected. */
  lemma InputValueAfterQueryChange<T>(s: State<T>, p: Props<T>, value: string)
    ensures InputValue(AfterQueryChange(s, value), p) == value
    ensures AfterQueryChange(s, value).selectedItem == s.selectedItem
  {
  }

  /** After any run of events ending in a selection, the computed input value is the
      selected item rendered. */
  lemma InputValueAfterRunThenSelect<T>(s: State<T>, p: Props<T>, events: seq<Event<T>>, item: T)
    requires p.truthy(item)
    ensures Run(s, p, events + [ItemSelect(item)]).selectedItem == Some(item)
    ensures InputValue(Run(s, p, events + [ItemSelect(item)]), p) == p.inputValueRenderer(item)
  {
    RunAppend(s, p, events, [ItemSelect(item)]);
  }

  /** In every reachable state the query list is filtered by the computed input value,
      or not filtered at all. */
  lemma ListFiltersByShownText<T>(p: Props<T>, events: seq<Event<T>>)
    ensures var t := Run(Initial(), p, events);
      t.query == "" || InputValue(t, p) == t.query
  {
    RunKeepsListFilterShown(Initial(), p, events);
  }

  /** Only selecting, typing and will-close change the computed input value; will-close
      changes it only while typing, and then empties it. */
  lemma InputValueChangedOnlyBy<T>(s: State<T>, p: Props<T>, e: Event<T>)
    requires !e.ItemSelect? && !e.QueryChange?
    ensures e.PopoverWillClose? && s.isTyping ==> InputValue(Step(s, p, e), p) == ""
    ensures !(e.PopoverWillClose? && s.isTyping) ==> InputValue(Step(s, p, e), p) == InputValue(s, p)
  {
  }

  // ---- the menu content ----

  /** What `renderItems` returns: the rendered elements, or the placeholder. */
  datatype MenuContent<R, N> = Rendered(elements: seq<R>) | NoResults(placeholder: N)

  /** `items.map(renderItem)`: `map` passes each item with its index. */
  function MapItems<T, R>(items: seq<T>, renderItem: (T, nat) -> Option<R>): (r: seq<Option<R>>)
    ensures |r| == |items| && forall i :: 0 <= i < |items| ==> r[i] == renderItem(items[i], i)
  {
    seq(|items|, i requires 0 <= i < |items| => renderItem(items[i], i))
  }

  /** `.filter(item => item != null)`. */
  function WithoutNull<R>(s: seq<Option<R>>): seq<R>
    decreases |s|
  {
    if s == [] then []
    else (if s[0].Some? then [s[0].value] else []) + WithoutNull(s[1..])
  }

  function RenderedItems<T, R>(items: seq<T>, renderItem: (T, nat) -> Option<R>): seq<R>
  {
    WithoutNull(MapItems(items, renderItem))
  }

  /** The rendered elements, or the placeholder exactly when no item rendered to anything. */
  function RenderItems<T, R, N>(items: seq<T>, renderItem: (T, nat) -> Option<R>, noResults: N): (r: MenuContent<R, N>)
    ensures r.NoResults? <==> forall i :: 0 <= i < |items| ==> renderItem(items[i], i).None?
    ensures r.NoResults? ==> r.placeholder == noResults
    ensures r.Rendered? ==> r.elements == RenderedItems(items, renderItem) && r.elements != []
  {
    var rendered := RenderedItems(items, renderItem);
    WithoutNullEmpty(MapItems(items, renderItem));
    if |rendered| > 0 then Rendered(rendered) else NoResults(noResults)
  }

  lemma {:induction false} WithoutNullAppend<R>(a: seq<Option<R>>, b: seq<Option<R>>)
    ensures WithoutNull(a + b) == WithoutNull(a) + WithoutNull(b)
    decreases |a|
  {
    if a == [] {
      assert a + b == b;
    } else {
      assert (a + b)[0] == a[0];
      assert (a + b)[1..] == a[1..] + b;
      WithoutNullAppend(a[1..], b);
    }
  }

  lemma {:induction false} WithoutNullEmpty<R>(s: seq<Option<R>>)
    ensures WithoutNull(s) == [] <==> forall i :: 0 <= i < |s| ==> s[i].None?
    decreases |s|
  {
    if s != [] {
      WithoutNullEmpty(s[1..]);
      assert forall i :: 1 <= i < |s| ==> s[i] == s[1..][i - 1];
    }
  }

  lemma {:induction false} WithoutNullMembers<R>(s: seq<Option<R>>, v: R)
    ensures v in WithoutNull(s) <==> Some(v) in s
    decreases |s|
  {
    if s != [] {
      WithoutNullMembers(s[1..], v);
      assert s == [s[0]] + s[1..];
    }
  }

  /** Two non-null renderings keep their relative order among the rendered elements. */
  lemma WithoutNullKeepsOrder<R>(s: seq<Option<R>>, i: nat, j: nat)
    requires i < j < |s| && s[i].Some? && s[j].Some?
    ensures exists p, q :: (0 <= p < q < |WithoutNull(s)|
      && WithoutNull(s)[p] == s[i].value && WithoutNull(s)[q] == s[j].value)
  {
    var front, back := s[..j], s[j..];
    assert s == front + back;
    WithoutNullAppend(front, back);
    assert front[i] == s[i];
    WithoutNullMembers(front, s[i].value);
    var p :| 0 <= p < |WithoutNull(front)| && WithoutNull(front)[p] == s[i].value;
    assert back[0] == s[j];
    var q := |WithoutNull(front)|;
    assert WithoutNull(s)[p] == s[i].value;
    assert WithoutNull(s)[q] == WithoutNull(back)[0] == s[j].value;
  }

  /** An element is shown exactly when some item rendered to it. */
  lemma RenderedItemsMembers<T, R>(items: seq<T>, renderItem: (T, nat) -> Option<R>, v: R)
    ensures v in RenderedItems(items, renderItem)
        <==> exists i :: 0 <= i < |items| && renderItem(items[i], i) == Some(v)
  {
    var m := MapItems(items, renderItem);
    WithoutNullMembers(m, v);
    assert Some(v) in m <==> exists i :: 0 <= i < |m| && m[i] == Some(v);
  }

  /** Items keep their original order among the rendered elements. */
  lemma RenderedItemsKeepOrder<T, R>(items: seq<T>, renderItem: (T, nat) -> Option<R>, i: nat, j: nat)
    requires i < j < |items| && renderItem(items[i], i).Some? && renderItem(items[j], j).Some?
    ensures exists p, q :: (0 <= p < q < |RenderedItems(items, renderItem)|
      && RenderedItems(items, renderItem)[p] == renderItem(items[i], i).value
      && RenderedItems(items, renderItem)[q] == renderItem(items[j], j).value)
  {
    var m := MapItems(items, renderItem);
    assert m[i] == renderItem(items[i], i) && m[j] == renderItem(items[j], j);
    WithoutNullKeepsOrder(m, i, j);
    var p, q :| 0 <= p < q < |WithoutNull(m)| && WithoutNull(m)[p] == m[i].value && WithoutNull(m)[q] == m[j].value;
    assert RenderedItems(items, renderItem) == WithoutNull(m);
  }
}

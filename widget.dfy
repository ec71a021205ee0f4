/**
 * The directive's closure state and its event handlers: opening the dropdown,
 * the keydown handlers of the search input and of the item list, the remote
 * search debounce, selecting an item and the text shown on the anchor.
 *
 * Angular's `$parse` evaluation of the display and value expressions is taken
 * as two given total functions: `displayOf` reads the label with the item bound
 * to `valueName` (`None` when the name is bound to `undefined`), `valueOf` the
 * value. The DOM is not modelled: the handlers take the number of listed items
 * (and, where an item is read, the listed items in order) as parameters.
 */
module Widget {
  import opened Wrappers
  import opened Text
  import opened Settings
  import opened Keyboard
  import opened Debounce
  import opened Binding

  /** `childScope.search`: never set, reset to the initial model, or typed in. */
  datatype SearchValue = Unset | Reset(initial: InitialSearch) | Entered(text: string)

  /** `text || options.displayText`: a falsy label falls back to the configured text. */
  function OrFallback(options: Options, text: JsValue): (r: JsValue)
    ensures Truthy(text) ==> r == text
    ensures !Truthy(text) ==> r == Lookup(options, "displayText")
    ensures Truthy(r) || r == Lookup(options, "displayText")
  {
    if Truthy(text) then text else Lookup(options, "displayText")
  }

  /**
   * `(valuesFn(childScope) || [])[key]`: a missing collection reads as the
   * empty array, and a key reads an element only when it is the decimal
   * string of an index inside the array; anything else reads `undefined`.
   */
  function ItemAt<Item>(collection: Option<seq<Item>>, key: string): (r: Option<Item>)
    ensures collection.None? ==> r.None?
    ensures ParseIndex(key).None? ==> r.None?
    ensures r.Some? <==> collection.Some? && ParseIndex(key).Some? && ParseIndex(key).value < |collection.value|
    ensures r.Some? ==> r.value in collection.value
  {
    match (collection, ParseIndex(key))
    case (Some(c), Some(i)) => if i < |c| then Some(c[i]) else None
    case (_, _) => None
  }

  /** The key of the `i`-th option reads the `i`-th item, and only that key does. */
  lemma ItemAtIndex<Item>(c: seq<Item>, i: nat, key: string)
    requires i < |c|
    ensures ItemAt(Some(c), DecimalString(i)) == Some(c[i])
    ensures ParseIndex(key) == Some(i) ==> key == DecimalString(i)
  {
    ParseDecimal(i);
    if ParseIndex(key) == Some(i) {
      DecimalOfParsed(key, i);
    }
  }

  /**
   * `setDisplayText`: the selected option's key (`None` for a `null` value)
   * picks the item whose label is shown; no key, the empty key and the
   * unknown-option key `'?'` show the configured text, as does a falsy label.
   */
  function DisplayText<Item>(options: Options, key: Option<string>, collection: Option<seq<Item>>,
                             displayOf: Option<Item> -> JsValue): (r: JsValue)
    ensures key.None? || key.value == "" || key.value == "?" ==> r == Lookup(options, "displayText")
    ensures key.Some? && key.value != "" && key.value != "?" ==>
              r == OrFallback(options, displayOf(ItemAt(collection, key.value)))
    ensures collection.None? && key.Some? && key.value != "" && key.value != "?" ==>
              r == OrFallback(options, displayOf(None))
  {
    var text := if key.Some? && key.value != "" && key.value != "?" then displayOf(ItemAt(collection, key.value))
                else Undefined;
    OrFallback(options, text)
  }

  /**
   * After selecting the `i`-th item, reading the text back from the option
   * key the hidden select then holds gives the text the selection showed.
   */
  lemma SelectionResync<Item>(options: Options, c: seq<Item>, i: nat, displayOf: Option<Item> -> JsValue)
    requires i < |c|
    ensures DisplayText(options, Some(DecimalString(i)), Some(c), displayOf) == OrFallback(options, displayOf(Some(c[i])))
  {
    ItemAtIndex(c, i, DecimalString(i));
    var d := DecimalString(i);
    assert d != "" && d != "?" by {
      assert IsDigit(d[0]);
    }
  }

  class CustomSelect<Item> {
    const descriptor: Descriptor
    const displayOf: Option<Item> -> JsValue
    const valueOf: Item -> JsValue
    /** `typeof options.onSearch === 'function'`, decided once from the options at link time. */
    const remoteSearch: bool

    /** The options in force; re-read each time the display-text watch runs. */
    var options: Options
    /** `childScope.disabled`, copied from the element's `disabled` attribute. */
    var disabled: JsValue
    /** The focused item of the list, or -1 for the search input. */
    var focusedIndex: int
    var search: SearchValue
    /** `timeoutHandle` with the term and delay it was scheduled for. */
    var pending: Option<Timer>
    var lastSearch: string
    /** The terms `options.onSearch` has been called with, in order. */
    var searchCalls: seq<string>
    var displayText: JsValue
    /** The last value handed to `$setViewValue`, if any. */
    var viewValue: Option<JsValue>
    /** The items `options.onSelect` has been called with, in order. */
    var selectCalls: seq<Item>

    /** The debounce state, as the pure model of the debounce sees it. */
    function State(): SearchState
      reads this
    {
      SearchState(pending, lastSearch, searchCalls)
    }

    /**
     * The focus is the input or an item, the debounce history is well formed,
     * and without a remote search nothing is ever scheduled or called.
     */
    predicate Valid()
      reads this
    {
      && focusedIndex >= -1
      && Good(State())
      && (!remoteSearch ==> pending.None? && searchCalls == [])
    }

    /**
     * Linking: the options are the defaults overridden by the user's, the
     * remote mode is fixed, and the text is read from the select's key.
     */
    constructor(d: Descriptor, user: Option<Options>, displayOf: Option<Item> -> JsValue, valueOf: Item -> JsValue,
                key: Option<string>, collection: Option<seq<Item>>)
      ensures descriptor == d && this.displayOf == displayOf && this.valueOf == valueOf
      ensures options == Effective(user)
      ensures remoteSearch == IsFunction(Lookup(Effective(user), "onSearch"))
      ensures disabled == Undefined && focusedIndex == -1 && search == Unset
      ensures State() == Initial
      ensures displayText == DisplayText(Effective(user), key, collection, displayOf)
      ensures viewValue == None && selectCalls == []
      ensures Valid()
    {
      descriptor := d;
      this.displayOf := displayOf;
      this.valueOf := valueOf;
      var o := Effective(user);
      options := o;
      remoteSearch := IsFunction(Lookup(o, "onSearch"));
      disabled := Undefined;
      focusedIndex := -1;
      search := Unset;
      pending := None;
      lastSearch := "";
      searchCalls := [];
      displayText := DisplayText(o, key, collection, displayOf);
      viewValue := None;
      selectCalls := [];
      new;
      InitialGood();
    }

    // ---- opening ----------------------------------------------------------

    /**
     * A click on the anchor: nothing when disabled; otherwise, in local mode
     * the search and the last search are cleared, and the focus goes to the input.
     */
    method Open()
      requires Valid()
      modifies this`focusedIndex, this`search, this`lastSearch
      ensures Valid()
      ensures Truthy(disabled) ==>
                focusedIndex == old(focusedIndex) && search == old(search) && lastSearch == old(lastSearch)
      ensures !Truthy(disabled) ==> focusedIndex == -1
      ensures !Truthy(disabled) && !remoteSearch ==> search == Reset(descriptor.initialSearch) && lastSearch == ""
      ensures remoteSearch ==> search == old(search) && lastSearch == old(lastSearch)
    {
      if Truthy(disabled) {
        return;
      }
      if !remoteSearch {
        lastSearch := "";
        search := Reset(descriptor.initialSearch);
      }
      focusedIndex := -1;
    }

    /** A key typed on the anchor opens the dropdown unless Alt or Ctrl is held. */
    method KeyPress(altKey: bool, ctrlKey: bool)
      requires Valid()
      modifies this`focusedIndex, this`search, this`lastSearch
      ensures Valid()
      ensures altKey || ctrlKey || Truthy(disabled) ==>
                focusedIndex == old(focusedIndex) && search == old(search) && lastSearch == old(lastSearch)
      ensures !(altKey || ctrlKey) && !Truthy(disabled) ==> focusedIndex == -1
      ensures !(altKey || ctrlKey) && !Truthy(disabled) && !remoteSearch ==>
                search == Reset(descriptor.initialSearch) && lastSearch == ""
      ensures remoteSearch ==> search == old(search) && lastSearch == old(lastSearch)
    {
      if !(altKey || ctrlKey) {
        Open();
      }
    }

    // ---- selecting --------------------------------------------------------

    /** What `childScope.select(item)` leaves behind, against the state before it. */
    twostate predicate SelectedBy(item: Item)
      reads this
    {
      && displayText == OrFallback(options, displayOf(Some(item)))
      && viewValue == Some(valueOf(item))
      && search == Reset(descriptor.initialSearch)
      && selectCalls == old(selectCalls) + (if IsFunction(Lookup(options, "onSelect")) then [item] else [])
    }

    /**
     * `childScope.select(item)`: the label or the configured text is shown,
     * the item's value becomes the view value, the search is reset, and
     * `onSelect` is called with the item when it is a function.
     */
    method Select(item: Item)
      requires Valid()
      modifies this`displayText, this`viewValue, this`search, this`selectCalls
      ensures Valid()
      ensures SelectedBy(item)
    {
      displayText := OrFallback(options, displayOf(Some(item)));
      viewValue := Some(valueOf(item));
      search := Reset(descriptor.initialSearch);
      if IsFunction(Lookup(options, "onSelect")) {
        selectCalls := selectCalls + [item];
      }
    }

    // ---- keyboard -----------------------------------------------------------

    /**
     * The search input's keydown handler, with `visible` the listed items in
     * order: Enter selects the first and Down focuses it, when there is one.
     * The action returned says what happened to the event and the dropdown.
     */
    method InputKeyDown(code: nat, visible: seq<Item>) returns (action: InputAction)
      requires Valid()
      modifies this`focusedIndex, this`displayText, this`viewValue, this`search, this`selectCalls
      ensures Valid()
      ensures action == InputActionFor(code, |visible|)
      ensures focusedIndex == InputFocus(old(focusedIndex), code, |visible|)
      ensures action == SelectFirst ==> SelectedBy(visible[0])
      ensures action != SelectFirst ==>
                && displayText == old(displayText) && viewValue == old(viewValue)
                && search == old(search) && selectCalls == old(selectCalls)
    {
      if !InputIntercepts(code) {
        return PassThrough;
      }
      if code == Escape || code == Tab {
        action := Toggle;
      } else if code == Enter {
        if |visible| > 0 {
          Select(visible[0]);
          action := SelectFirst;
        } else {
          action := Swallow;
        }
      } else if code == DownArrow {
        if |visible| > 0 {
          focusedIndex := 0;
          action := FocusFirst;
        } else {
          action := Swallow;
        }
      } else {
        action := Swallow;
      }
    }

    /** The list's keydown handler over `n` listed items. */
    method ListKeyDown(code: nat, n: nat)
      requires Valid()
      modifies this`focusedIndex
      ensures Valid()
      ensures focusedIndex == ListStep(old(focusedIndex), n, code)
      ensures -1 <= old(focusedIndex) < n ==> -1 <= focusedIndex < n
    {
      if !ListIntercepts(code) {
        return;
      }
      if n == 0 {
        return;
      }
      if code == UpArrow {
        focusedIndex := focusedIndex - 1;
      }
      if code == DownArrow && focusedIndex < n - 1 {
        focusedIndex := focusedIndex + 1;
      }
      if focusedIndex < 0 {
        focusedIndex := -1;
      }
    }

    // ---- remote search ------------------------------------------------------

    /**
     * `childScope.onSearch(term)`, bound to the input's `ng-change` in remote
     * mode only: the pending timer is replaced by one for the trimmed term.
     */
    method OnSearch(term: Option<string>)
      requires Valid() && remoteSearch
      modifies this`pending
      ensures Valid()
      ensures State() == Debounce.OnSearch(old(State()), term, Lookup(options, "searchDelay"))
    {
      SearchGood(State(), term, Lookup(options, "searchDelay"));
      if pending.Some? {
        pending := None;
      }
      var t := Trim(term.GetOr(""));
      pending := Some(Timer(t, Delay(t, Lookup(options, "searchDelay"))));
    }

    /** The pending timer runs out: `onSearch` is called unless the term was the last searched. */
    method TimerFires()
      requires Valid()
      modifies this`pending, this`lastSearch, this`searchCalls
      ensures Valid()
      ensures State() == Fire(old(State()))
    {
      FireGood(State());
      if pending.Some? {
        var term := pending.value.term;
        pending := None;
        if term != lastSearch {
          lastSearch := term;
          searchCalls := searchCalls + [term];
        }
      }
    }

    // ---- watches ------------------------------------------------------------

    /** `setDisplayText()`, with the key the hidden select holds and the collection in scope. */
    method SetDisplayText(key: Option<string>, collection: Option<seq<Item>>)
      modifies this`displayText
      ensures displayText == DisplayText(options, key, collection, displayOf)
    {
      var text := Undefined;
      if key.Some? && key.value != "" && key.value != "?" {
        text := displayOf(ItemAt(collection, key.value));
      }
      displayText := OrFallback(options, text);
    }

    /** The watch on the element's `disabled` attribute. */
    method SetDisabled(value: JsValue)
      requires Valid()
      modifies this`disabled
      ensures Valid()
      ensures disabled == value
    {
      disabled := value;
    }

    /**
     * The display-text watch: the options are read again, and when the
     * configured display text changed the anchor text is recomputed.
     */
    method RefreshOptions(user: Option<Options>, key: Option<string>, collection: Option<seq<Item>>)
      requires Valid()
      modifies this`options, this`displayText
      ensures Valid()
      ensures options == Effective(user)
      ensures Lookup(options, "displayText") != Lookup(old(options), "displayText") ==>
                displayText == DisplayText(options, key, collection, displayOf)
      ensures Lookup(options, "displayText") == Lookup(old(options), "displayText") ==>
                displayText == old(displayText)
    {
      var before := Lookup(options, "displayText");
      options := Effective(user);
      if Lookup(options, "displayText") != before {
        SetDisplayText(key, collection);
      }
    }
  }
}

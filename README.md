# custom-select, modelled in Dafny

A model of the `customSelect` AngularJS directive (`js/customSelect.js`). The
directive replaces a `<select>` with a Bootstrap dropdown that has a search box.
The model covers the logic beneath its DOM wiring:

- **Binding expression.** The `ng-options` attribute is split by
  `NG_OPTIONS_REGEXP` (module `NgOptions`). The directive then derives the
  display and value expressions, the name each item is bound to, the collection,
  and the search path with its initial value (module `Binding`). The regular
  expression is written out as its own backtracking search: lazy groups try the
  shortest end first, and the greedy `group by` group tries the longest first.
  Module `Rendering` writes an expression back out from its parts. It proves
  that matching the written-out text returns exactly those parts.
- **Options.** The defaults are registered as `customSelectDefaults`. The
  user's options override them key by key (module `Settings`).
- **Keyboard.** The search input's and the item list's keydown handlers
  decide which key codes to intercept. They do so by testing a regular
  expression against the key code's decimal string, so the test is a substring
  test. The list handler moves `focusedIndex`, whose value -1 stands for the
  search input (module `Keyboard`). It is proved to agree with a plain menu
  navigation machine.
- **Remote search.** The debounce of `onSearch` has at most one pending
  timer, and `onSearch` is called only with a trimmed term that differs from
  the last one searched (module `Debounce`). Invariants are proved over any
  sequence of events.
- **The widget.** The closure state is one class, `Widget.CustomSelect`. Its
  methods are the handlers:
  - open (click or key press on the anchor);
  - the two keydown handlers;
  - `select`;
  - `onSearch` and the timer firing;
  - `setDisplayText`;
  - the watches on `disabled` and on the options.

Angular's `$parse` evaluation of the display and value expressions is not
modelled. The class takes it as two given total functions over the item type.
The DOM is replaced by parameters: the number of listed items, the listed
items, and the key the hidden select holds.

Where the code and the directive's documentation differ, the model follows the
code (the one exception is the search path for item names containing `$`, see
"## Findings"):
- `onSearch` always cancels the pending timer and schedules a new one, even
  for a term equal to the last search. The comparison happens only when the
  timer fires.
- An index left over from a longer list is not clamped. Down keeps it and Up
  decrements it.
- Key codes such as 113 or 138 are intercepted because their decimal strings
  contain `13` or `38`.

## Model

| member | source | states |
|---|---|---|
| NgOptions.Match | js/customSelect.js:22 | the regular expression's backtracking search over an `ng-options` string; every match captures identifiers (`[\$\w]+`) as the single iteration name or as both names of the `(key, value)` pair; what else it captures is pinned by `Rendering.MatchRender` and `Binding.WordRejected` |
| Rendering.MatchRender | js/customSelect.js:22 | an expression written out from well-formed parts (words without white space, identifiers for the iteration names, no later `for` under a `group by`) matches with exactly those parts as its groups: select, alias, group by, single name or `(key, value)` pair, collection, track by |
| Text.Trim | js/customSelect.js:5-9 | the trimmed string is the part after the leading white space, does not start or end with white space, and only white space follows it |
| Text.TrimmedFixed | js/customSelect.js:274 | a trimmed string is trimmed, and trimming a string that is already trimmed gives it back |
| Text.TrimIdempotent | js/customSelect.js:274 | trimming twice equals trimming once |
| Text.ParseDecimal | js/customSelect.js:208 | the decimal string of an index reads back as that index when used as an array key |
| Text.DecimalOfParsed | js/customSelect.js:208 | a key that reads as an index is that index's decimal string: the reading is one to one |
| Binding.Parse | js/customSelect.js:28-38 | a missing or empty attribute is `MissingAttribute`; a string that does not match is `Malformed` carrying the expression; otherwise the descriptor derived from the groups; these three cases are exact (if and only if); the item name, and the key name when there is one, are identifiers |
| Binding.Derive | js/customSelect.js:43-57 | with a non-empty alias the label is the alias and the value is the select expression, the search path is the alias with its item prefix replaced, and the initial search is `{}`; without one the label is the select expression, the value the bare item name, the path `search`, and the initial search `''`; the item name is the single name or the pair's second name |
| Binding.SearchModel | js/customSelect.js:50 | an alias that starts with `valueName.` becomes `search.` followed by the rest of the alias; any other alias is kept unchanged |
| Binding.SearchModelPath | js/customSelect.js:50 | `valueName.path` becomes `search.path` |
| Binding.ParseRender | js/customSelect.js:22-57 | parsing a well-formed expression written from its parts gives the descriptor derived from those parts |
| Binding.WordRejected | js/customSelect.js:32-38 | text without white space (for example a bare collection name) is rejected as malformed |
| Binding.AliasScenario | js/customSelect.js:22-57 | `u as u.name for u in users` gives label `u.name`, value `u`, item name `u`, search path `search.name`, initial search `{}` |
| Binding.PlainScenario | js/customSelect.js:22-57 | `u for u in users track by u.id` gives label and value `u`, track by `u.id`, search path `search`, initial search `''` |
| Binding.PairScenario | js/customSelect.js:22-57 | `x.d as x.n group by x.k for (i,x) in xs` gives item name `x` (the pair's second name), key `i`, group by `x.k`, search path `search.n` |
| Binding.SearchModelAsWritten | js/customSelect.js:50 | the code's search path: either the alias unchanged, or, only when the alias starts with `valueName.`, `search.` followed by the rest of the alias |
| Binding.PrefixPatternEnd | js/customSelect.js:50 | where the pattern `'^' + valueName + '\\.'` matches is always past the start and within the input |
| Binding.LiteralPattern | js/customSelect.js:50 | for a name without `$` the pattern matches exactly when the input starts with the name and a dot |
| Binding.DollarNeverMatches | js/customSelect.js:50 | for a name with `$` the pattern never matches |
| Binding.AsWrittenAgrees | js/customSelect.js:50 | for names without `$` the code's search path equals `SearchModel` |
| Binding.AsWrittenNeverRewrites | js/customSelect.js:50 | for names with `$` the code's search path is the alias unchanged |
| Binding.DollarNameCounterexample | js/customSelect.js:50 | for `$item.name` with item `$item` the code keeps `$item.name`, while the intended path is `search.name` |
| Settings.Merge | js/customSelect.js:215-217 | the merged keys are the base's and the user's; a user key wins, every other key reads as the base; options that are not an object change nothing |
| Settings.DefaultValues | js/customSelect.js:13-19 | the registered defaults: `Select...`, the two empty-list texts, `Add`, a search delay of 1000, and no callbacks |
| Settings.MergeIdempotent | js/customSelect.js:215-217 | applying the same user options twice equals applying them once |
| Keyboard.InputIntercepts | js/customSelect.js:130 | the regular-expression test of the key code's decimal string for `13`, `27` or `40` anywhere, or exactly `9`; below 100 it holds exactly for Tab, Enter, Esc and Down |
| Keyboard.Code113Intercepted | js/customSelect.js:130 | code 113 is intercepted because its decimal string contains `13` |
| Keyboard.Code113Swallowed | js/customSelect.js:130-147 | code 113 is swallowed with no action |
| Keyboard.ListIntercepts | js/customSelect.js:152 | the regular-expression test of the key code's decimal string for `38` or `40` anywhere; below 100 it holds exactly for Up and Down |
| Keyboard.Code138Intercepted | js/customSelect.js:152 | code 138 is intercepted by the list because it contains `38` |
| Keyboard.InputActionFor | js/customSelect.js:129-148 | a code passes through iff it is not intercepted; Esc and Tab toggle; Enter selects the first item iff there is one; Down focuses the first item iff there is one; every other intercepted code, and Enter or Down with an empty list, is swallowed (each an if and only if) |
| Keyboard.InputFocus | js/customSelect.js:224-230 | Down with items sets the index to 0; any other key keeps it; a valid index stays valid |
| Keyboard.ListStep | js/customSelect.js:151-170 | with no items, or a code not intercepted, nothing changes; otherwise the index is at least -1; an index in [-1, N) stays in [-1, N) |
| Keyboard.StaleIndex | js/customSelect.js:159-160 | an index at or beyond N is not clamped: Down keeps it and Up decrements it |
| Keyboard.OtherListKey | js/customSelect.js:157-167 | an intercepted code other than Up and Down leaves a valid index where it is |
| Keyboard.ListStepNavigates | js/customSelect.js:151-170 | on a valid index, Up and Down move the focus as a menu does: Up from the first item goes back to the input, Down from the input enters the list, and Down on the last item stays there |
| Keyboard.InputDownNavigates | js/customSelect.js:139-141 | Down in the input enters the list as that menu's Down from the input |
| Debounce.Delay | js/customSelect.js:283-284 | an empty term, or a falsy search delay, gives delay 0; otherwise the delay is the search delay |
| Debounce.OnSearch | js/customSelect.js:269-285 | a timer is pending afterwards, for the trimmed term (a missing term counts as empty), with that term's delay; the last search and the calls are unchanged |
| Debounce.Fire | js/customSelect.js:276-282 | no timer is left; with a timer whose term differs from the last search, `onSearch` is called once with it and it becomes the last search; with an equal term nothing is called; with no timer nothing happens |
| Debounce.FireIdempotent | js/customSelect.js:276-282 | a second fire after a fire does nothing |
| Debounce.BurstPending | js/customSelect.js:269-285 | a burst of search changes leaves one timer, for the last term, and calls nothing |
| Debounce.BurstThenFire | js/customSelect.js:269-285 | a burst followed by the timer firing calls `onSearch` at most once, with the last term trimmed, and only if it differs from the last search |
| Debounce.SearchGood | js/customSelect.js:269-285 | a search change keeps the debounce invariant: calls trimmed, no two consecutive calls equal, the first call not empty, the last search equal to the last call, and a trimmed pending term |
| Debounce.FireGood | js/customSelect.js:276-282 | the timer firing keeps that invariant |
| Debounce.RunGood | js/customSelect.js:269-285 | any sequence of search changes and firings keeps that invariant |
| Debounce.RunFromInitial | js/customSelect.js:269-285 | from the initial state (no timer, last search `''`), every run satisfies the invariant |
| Widget.OrFallback | js/customSelect.js:212 | a truthy label is kept; a falsy one becomes the configured display text |
| Widget.ItemAt | js/customSelect.js:207-208 | a missing collection or a key that is not an index reads nothing; an element is read iff the key is an index inside the collection, and the element read belongs to the collection |
| Widget.ItemAtIndex | js/customSelect.js:208 | the `i`-th key reads the `i`-th item, and no other key reads index `i` |
| Widget.DisplayText | js/customSelect.js:200-213 | no key, the empty key and `'?'` show the configured text; any other key shows the label of the item it reads, or the configured text when that label is falsy; a missing collection reads the label of `undefined` |
| Widget.SelectionResync | js/customSelect.js:200-213 | after the `i`-th item is selected, recomputing the text from its key gives the text that selecting it showed |
| Widget.CustomSelect.constructor | js/customSelect.js:49-57 | the options are the defaults merged with the user's; remote mode holds iff `onSearch` is a function; there is no timer; the last search is `''`; the index is -1; the text is read from the select's key |
| Widget.CustomSelect.Open | js/customSelect.js:107-119 | a disabled widget changes nothing; otherwise the index becomes -1, and in local mode the search is reset to its initial model and the last search to `''`; remote mode keeps both |
| Widget.CustomSelect.KeyPress | js/customSelect.js:122-126 | a key press without Alt or Ctrl opens as a click does; with either held nothing changes |
| Widget.CustomSelect.Select | js/customSelect.js:250-262 | the text becomes the item's label or the fallback; the view value becomes the item's value; the search is reset; `onSelect` is called with the item iff it is a function |
| Widget.CustomSelect.InputKeyDown | js/customSelect.js:129-148 | the action is `InputActionFor` the code and the number of listed items; the index is `InputFocus`; Enter with items performs `select` on the first listed item, and every other key leaves the selection state alone |
| Widget.CustomSelect.ListKeyDown | js/customSelect.js:151-170 | the new index is `ListStep` of the old one, so a valid index stays in [-1, N) |
| Widget.CustomSelect.OnSearch | js/customSelect.js:267-285 | the debounce state becomes `Debounce.OnSearch` of the old one, with the current search delay; the invariant is kept |
| Widget.CustomSelect.TimerFires | js/customSelect.js:276-282 | the debounce state becomes `Debounce.Fire` of the old one; the invariant is kept |
| Widget.CustomSelect.SetDisplayText | js/customSelect.js:200-213 | the text becomes `DisplayText` of the current options, key and collection |
| Widget.CustomSelect.SetDisabled | js/customSelect.js:190-192 | the disabled flag becomes the attribute's value |
| Widget.CustomSelect.RefreshOptions | js/customSelect.js:219-222 | the options are re-read; the text is recomputed iff the configured display text changed |

## Left out

- DOM and jQuery work is not modelled. This covers `elem.html`, `find`,
  `.focus()`, `.dropdown('toggle')`, classes, and the template strings
  (`js/customSelect.js:59-100`). The open/closed state of the dropdown is not
  tracked either: `InputKeyDown` returns `Toggle` instead of toggling it.
- `$compile`, scope creation and the digest loop (`js/customSelect.js:103,
  172-198`) are not modelled. The watches are methods the caller invokes.
- Real `$parse` evaluation is not modelled. The display and value
  expressions are given functions of the item, and the collection expression
  is replaced by the collection passed in.
- The local `filter: search` filtering and the `format` filter belong to the
  template and to other files, so they are not modelled. Which items are
  listed is a parameter.
- Real timers are not modelled. `$timeout` is a slot holding the term and the
  delay it was scheduled with.
- The 50 ms `$render` resync (`js/customSelect.js:181-185`) is a timing
  workaround and is not modelled. `SelectionResync` states what it relies on.
- `childScope.add` and `onAdd` (`js/customSelect.js:263-265`) hand `select` to
  foreign code, so they are not modelled.
- The `stopPropagation` directive (`js/customSelect.js:294-304`) is event
  plumbing and is not modelled.
- Group-by and track-by only reach the hidden native select, so they are
  parsed and carried but given no meaning.
- Rendering.MatchRender: the round trip is proved for well-formed parts only.
  Parts must be non-empty words without white space. Iteration names must be
  identifiers. Under a `group by`, no later part may be the word `for`. Outside
  this class the lazy and greedy groups can split an expression differently.
- Widget.ItemAt: only index keys into an array are modelled. Keys that are
  not canonical index strings (such as `length`) read nothing, and object
  collections are not modelled.
- Binding.Derive: it uses the corrected `Binding.SearchModel`, so for an item
  name containing `$` its search path is `search.` plus the rest of the alias,
  where the code keeps the alias unchanged. The code's path is
  `Binding.SearchModelAsWritten`; `Binding.AsWrittenAgrees` shows the two agree
  on every name without `$`.
- Widget.CustomSelect.RefreshOptions: the display-text watch's first run,
  which Angular makes whether or not the value changed, is not part of this
  method. The caller stands for it by calling `SetDisplayText`.
- Widget.CustomSelect.TimerFires: the call is recorded even when the
  re-read options no longer hold an `onSearch` function. In the source that
  call would throw.
- Settings.Truthy: numbers are integers, so `NaN` and fractional delays are
  not modelled. Strings are sequences of characters with no UTF-16 detail.
- The messages of the thrown errors are not modelled. The two error kinds are
  distinguished, and the malformed kind carries the expression.

## Findings

| source | as written | input that shows it | evidently intended | confidence | as-written member | corrected member |
|---|---|---|---|---|---|---|
| js/customSelect.js:50 | the search path is computed by `alias.replace(new RegExp('^' + valueName + '\\.'), 'search.')`, so the item name is read as a pattern; `$` is a legal identifier character but an end anchor in a pattern, so the prefix is never replaced | `$item as $item.name for $item in items` keeps the search path `$item.name` | the leading `valueName.` is replaced, giving `search.name` | not executed | Binding.DollarNameCounterexample | Binding.SearchModel |

The corrected `Binding.SearchModel` is the one `Binding.Derive` uses. The code
as written is `Binding.SearchModelAsWritten`. `Binding.AsWrittenAgrees` shows
the two agree on every name without `$`.

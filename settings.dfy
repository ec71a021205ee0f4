/**
 * The widget's options: the defaults registered as `customSelectDefaults`,
 * overridden key by key by the object the `custom-select` attribute evaluates to.
 */
module Settings {
  import opened Wrappers

  /** The JavaScript values an option, an evaluated expression or a model can hold. */
  datatype JsValue =
    | Undefined
    | Null
    | Bool(b: bool)
    | Num(n: int)
    | Str(s: string)
    | Fn(name: string)
    | Obj

  /** JavaScript truthiness (integers only: `NaN` is not a value here). */
  predicate Truthy(v: JsValue) {
    match v
    case Undefined => false
    case Null => false
    case Bool(b) => b
    case Num(n) => n != 0
    case Str(s) => s != ""
    case Fn(_) => true
    case Obj => true
  }

  /** `typeof v === 'function'`. */
  predicate IsFunction(v: JsValue) {
    v.Fn?
  }

  /** An options object: its own keys and their values. */
  type Options = map<string, JsValue>

  /** Reading a property: a missing key reads as `undefined`. */
  function Lookup(o: Options, key: string): JsValue {
    if key in o then o[key] else Undefined
  }

  const Defaults: Options := map[
    "displayText" := Str("Select..."),
    "emptyListText" := Str("There are no items to display"),
    "emptySearchResultText" := Str("No results match \"$0\""),
    "addText" := Str("Add"),
    "searchDelay" := Num(1000)
  ]

  /**
   * `angular.extend({}, base, user)`: every key of `user` is copied over the
   * copy of `base`, including keys whose value is `undefined`; an evaluated
   * attribute that is not an object (`None`) adds nothing.
   */
  function Merge(base: Options, user: Option<Options>): (r: Options)
    ensures user.None? ==> r == base
    ensures forall k :: k in r <==> k in base || (user.Some? && k in user.value)
    ensures forall k :: Lookup(r, k) == if user.Some? && k in user.value then user.value[k] else Lookup(base, k)
  {
    if user.None? then base else base + user.value
  }

  /** The options in force: the defaults with the user's options over them. */
  function Effective(user: Option<Options>): Options {
    Merge(Defaults, user)
  }

  lemma DefaultValues()
    ensures Lookup(Defaults, "displayText") == Str("Select...")
    ensures Lookup(Defaults, "emptyListText") == Str("There are no items to display")
    ensures Lookup(Defaults, "emptySearchResultText") == Str("No results match \"$0\"")
    ensures Lookup(Defaults, "addText") == Str("Add")
    ensures Lookup(Defaults, "searchDelay") == Num(1000)
    ensures !IsFunction(Lookup(Defaults, "onSearch")) && !IsFunction(Lookup(Defaults, "onSelect"))
    ensures !IsFunction(Lookup(Defaults, "onAdd"))
  {
  }

  /** Applying the same user options twice changes nothing more. */
  lemma MergeIdempotent(base: Options, user: Option<Options>)
    ensures Merge(Merge(base, user), user) == Merge(base, user)
  {
  }
}

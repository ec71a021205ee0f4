/**
 * The remote-search debounce. Each change of the search text cancels the
 * pending timer and schedules a new one; when a timer fires, the `onSearch`
 * callback is called with its term, unless that term is the last one searched.
 *
 * The timer is a slot holding the scheduled term and the delay it was
 * scheduled with; `Fire` is the moment that timer runs out.
 */
module Debounce {
  import opened Wrappers
  import opened Text
  import opened Settings

  datatype Timer = Timer(term: string, delay: JsValue)

  /** The debounce closure state and the calls made to `onSearch` so far. */
  datatype SearchState = SearchState(pending: Option<Timer>, lastSearch: string, calls: seq<string>)

  const Initial := SearchState(None, "", [])

  /** `(term && options.searchDelay) || 0`: an empty term is searched without delay. */
  function Delay(term: string, searchDelay: JsValue): (r: JsValue)
    ensures term == "" || !Truthy(searchDelay) ==> r == Num(0)
    ensures term != "" && Truthy(searchDelay) ==> r == searchDelay
  {
    if term != "" && Truthy(searchDelay) then searchDelay else Num(0)
  }

  /**
   * `onSearch(term)`: a missing term counts as `''`, the term is trimmed, the
   * pending timer (if any) is cancelled and a new one scheduled. The term is
   * not compared with the last search here; that happens when the timer fires.
   */
  function OnSearch(s: SearchState, term: Option<string>, searchDelay: JsValue): (r: SearchState)
    ensures r.pending.Some? && r.pending.value.term == Trim(term.GetOr(""))
    ensures r.pending.value.delay == Delay(r.pending.value.term, searchDelay)
    ensures r.lastSearch == s.lastSearch && r.calls == s.calls
  {
    var t := Trim(term.GetOr(""));
    s.(pending := Some(Timer(t, Delay(t, searchDelay))))
  }

  /**
   * The pending timer fires: the slot is cleared, and `onSearch` is called
   * once with the term exactly when it differs from the last term searched,
   * which it then becomes. With no timer pending nothing happens.
   */
  function Fire(s: SearchState): (r: SearchState)
    ensures r.pending.None?
    ensures s.pending.None? ==> r == s
    ensures s.pending.Some? && s.pending.value.term != s.lastSearch ==>
              r.calls == s.calls + [s.pending.value.term] && r.lastSearch == s.pending.value.term
    ensures s.pending.Some? && s.pending.value.term == s.lastSearch ==>
              r.calls == s.calls && r.lastSearch == s.lastSearch
  {
    match s.pending
    case None => s
    case Some(timer) =>
      if timer.term != s.lastSearch then SearchState(None, timer.term, s.calls + [timer.term])
      else s.(pending := None)
  }

  /** Firing again after a fire does nothing: there is no timer left. */
  lemma FireIdempotent(s: SearchState)
    ensures Fire(Fire(s)) == Fire(s)
  {
  }

  // ---- bursts of typing -------------------------------------------------------

  /** Several changes of the search text in a row, before any timer fires. */
  function Burst(s: SearchState, terms: seq<Option<string>>, searchDelay: JsValue): SearchState
    decreases |terms|
  {
    if terms == [] then s else Burst(OnSearch(s, terms[0], searchDelay), terms[1..], searchDelay)
  }

  /** A burst leaves one timer, for the last term, and calls nothing. */
  lemma {:induction false} BurstPending(s: SearchState, terms: seq<Option<string>>, searchDelay: JsValue)
    requires terms != []
    ensures var last := Trim(terms[|terms| - 1].GetOr(""));
      Burst(s, terms, searchDelay)
        == SearchState(Some(Timer(last, Delay(last, searchDelay))), s.lastSearch, s.calls)
    decreases |terms|
  {
    if |terms| > 1 {
      BurstPending(OnSearch(s, terms[0], searchDelay), terms[1..], searchDelay);
      assert terms[1..][|terms| - 2] == terms[|terms| - 1];
    }
  }

  /**
   * Typing a burst and letting the timer fire calls `onSearch` at most once,
   * with the last term trimmed, and only if it differs from the last search.
   */
  lemma BurstThenFire(s: SearchState, terms: seq<Option<string>>, searchDelay: JsValue)
    requires terms != []
    ensures var last := Trim(terms[|terms| - 1].GetOr(""));
      var r := Fire(Burst(s, terms, searchDelay));
      && r.pending.None?
      && (last != s.lastSearch ==> r.calls == s.calls + [last] && r.lastSearch == last)
      && (last == s.lastSearch ==> r.calls == s.calls && r.lastSearch == s.lastSearch)
  {
    BurstPending(s, terms, searchDelay);
  }

  // ---- any sequence of events -----------------------------------------------

  datatype Event = Search(term: Option<string>, searchDelay: JsValue) | Elapse

  function Step(s: SearchState, e: Event): SearchState {
    match e
    case Search(term, searchDelay) => OnSearch(s, term, searchDelay)
    case Elapse => Fire(s)
  }

  function Run(s: SearchState, events: seq<Event>): SearchState
    decreases |events|
  {
    if events == [] then s else Run(Step(s, events[0]), events[1..])
  }

  /**
   * What holds of the calls at every point: every term is trimmed (so trimming
   * it again gives it back, by `TrimmedFixed`), no two
   * consecutive calls repeat a term, the first call is not the empty term
   * (the last search starts as `''`), and the last search is the last call.
   */
  predicate Good(s: SearchState) {
    && (forall i :: 0 <= i < |s.calls| ==> Trimmed(s.calls[i]))
    && (forall i :: 0 <= i < |s.calls| - 1 ==> s.calls[i] != s.calls[i + 1])
    && (s.calls == [] ==> s.lastSearch == "")
    && (s.calls != [] ==> s.lastSearch == s.calls[|s.calls| - 1] && s.calls[0] != "")
    && (s.pending.Some? ==> Trimmed(s.pending.value.term))
  }

  lemma InitialGood()
    ensures Good(Initial)
  {
  }

  lemma SearchGood(s: SearchState, term: Option<string>, searchDelay: JsValue)
    requires Good(s)
    ensures Good(OnSearch(s, term, searchDelay))
  {
    TrimmedFixed(term.GetOr(""));
  }

  lemma FireGood(s: SearchState)
    requires Good(s)
    ensures Good(Fire(s))
  {
    if s.pending.Some? && s.pending.value.term != s.lastSearch {
      var t, r := s.pending.value.term, Fire(s);
      assert r.calls == s.calls + [t];
      assert forall i :: 0 <= i < |s.calls| ==> r.calls[i] == s.calls[i];
      assert r.calls[|s.calls|] == t;
    }
  }

  lemma StepGood(s: SearchState, e: Event)
    requires Good(s)
    ensures Good(Step(s, e))
  {
    match e
    case Search(term, searchDelay) => SearchGood(s, term, searchDelay);
    case Elapse => FireGood(s);
  }

  lemma {:induction false} RunGood(s: SearchState, events: seq<Event>)
    requires Good(s)
    ensures Good(Run(s, events))
    decreases |events|
  {
    if events != [] {
      StepGood(s, events[0]);
      RunGood(Step(s, events[0]), events[1..]);
    }
  }

  /** From the start, every run keeps the calls trimmed and free of immediate repeats. */
  lemma RunFromInitial(events: seq<Event>)
    ensures Good(Run(Initial, events))
  {
    InitialGood();
    RunGood(Initial, events);
  }
}

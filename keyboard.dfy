/**
 * The keyboard handling of the open dropdown: which key codes the search input
 * and the item list intercept, what the input does with them, and how Up and
 * Down move the focused item index (-1 stands for the search input).
 *
 * Interception is decided as the source decides it: by a regular expression
 * tested against the decimal string of the key code, so it is a substring test.
 */
module Keyboard {
  import opened Text

  const Tab := 9
  const Enter := 13
  const Escape := 27
  const UpArrow := 38
  const DownArrow := 40

  /** `/(13|27|40|^9$)/` tested against the decimal string `d` of a key code. */
  predicate InputPattern(d: string) {
    Contains(d, "13") || Contains(d, "27") || Contains(d, "40") || d == "9"
  }

  /** `/(38|40)/` tested against the decimal string `d` of a key code. */
  predicate ListPattern(d: string) {
    Contains(d, "38") || Contains(d, "40")
  }

  /** The search input intercepts a key; below 100 exactly Tab, Enter, Esc and Down. */
  predicate InputIntercepts(code: nat): (b: bool)
    ensures code < 100 ==> (b <==> code in {Tab, Enter, Escape, DownArrow})
  {
    assert code < 100 ==> (InputPattern(DecimalString(code)) <==> code in {Tab, Enter, Escape, DownArrow}) by {
      if code < 100 {
        InputPatternShort(code);
      }
    }
    InputPattern(DecimalString(code))
  }

  /** The item list intercepts a key; below 100 exactly Up and Down. */
  predicate ListIntercepts(code: nat): (b: bool)
    ensures code < 100 ==> (b <==> code in {UpArrow, DownArrow})
  {
    assert code < 100 ==> (ListPattern(DecimalString(code)) <==> code in {UpArrow, DownArrow}) by {
      if code < 100 {
        ListPatternShort(code);
      }
    }
    ListPattern(DecimalString(code))
  }

  // ---- reading the substring tests on short codes ---------------------------

  lemma TwoDigits(code: nat)
    requires 10 <= code < 100
    ensures DecimalString(code) == [DigitChar(code / 10), DigitChar(code % 10)]
  {
  }

  lemma ContainsOne(a: char, x: char, y: char)
    ensures !Contains([a], [x, y])
  {
    assert [a][1..] == [];
  }

  lemma ContainsTwo(a: char, b: char, x: char, y: char)
    ensures Contains([a, b], [x, y]) <==> a == x && b == y
  {
    assert [a, b][1..] == [b] && [a, b][..2] == [a, b];
    ContainsOne(b, x, y);
  }

  lemma DigitPair(code: nat, x: char, y: char)
    requires 10 <= code < 100 && IsDigit(x) && IsDigit(y)
    ensures Contains(DecimalString(code), [x, y]) <==> code == 10 * DigitValue(x) + DigitValue(y)
  {
    TwoDigits(code);
    ContainsTwo(DigitChar(code / 10), DigitChar(code % 10), x, y);
    if DigitChar(code / 10) == x && DigitChar(code % 10) == y {
      assert code / 10 == DigitValue(x) && code % 10 == DigitValue(y);
    }
  }

  lemma InputPatternShort(code: nat)
    requires code < 100
    ensures InputPattern(DecimalString(code)) <==> code in {Tab, Enter, Escape, DownArrow}
  {
    if code < 10 {
      var c := DigitChar(code);
      assert DecimalString(code) == [c];
      ContainsOne(c, '1', '3');
      ContainsOne(c, '2', '7');
      ContainsOne(c, '4', '0');
      assert [c] == "9" <==> c == '9';
    } else {
      DigitPair(code, '1', '3');
      DigitPair(code, '2', '7');
      DigitPair(code, '4', '0');
      assert |DecimalString(code)| == 2;
    }
  }

  lemma ListPatternShort(code: nat)
    requires code < 100
    ensures ListPattern(DecimalString(code)) <==> code in {UpArrow, DownArrow}
  {
    if code < 10 {
      var c := DigitChar(code);
      assert DecimalString(code) == [c];
      ContainsOne(c, '3', '8');
      ContainsOne(c, '4', '0');
    } else {
      DigitPair(code, '3', '8');
      DigitPair(code, '4', '0');
    }
  }

  lemma Decimal113()
    ensures DecimalString(113) == "113"
  {
    assert DecimalString(11) == "11";
  }

  lemma Decimal138()
    ensures DecimalString(138) == "138"
  {
    assert DecimalString(13) == "13";
  }

  /** Code 113 (F2) contains `13`: the input intercepts it although it is not Enter. */
  lemma Code113Intercepted()
    ensures InputIntercepts(113)
  {
    Decimal113();
    assert "113"[1..] == "13";
  }

  /** Code 138 contains `38`: the list intercepts it although it is not Up. */
  lemma Code138Intercepted()
    ensures ListIntercepts(138)
  {
    Decimal138();
    assert "138"[1..] == "38";
  }

  // ---- the search input -----------------------------------------------------

  /** What the input's keydown handler does. */
  datatype InputAction =
    | PassThrough   // not intercepted: the browser's default action happens
    | Swallow       // intercepted, default prevented, nothing else
    | Toggle        // Esc or Tab: the dropdown is toggled closed
    | SelectFirst   // Enter with items listed: the first item is selected, then the dropdown toggled
    | FocusFirst    // Down with items listed: the first item gets the focus

  /** The input's keydown handler, for a key code and `n` listed items. */
  function InputActionFor(code: nat, n: nat): (a: InputAction)
    ensures a == PassThrough <==> !InputIntercepts(code)
    ensures a == Toggle <==> code == Escape || code == Tab
    ensures a == SelectFirst <==> code == Enter && n > 0
    ensures a == FocusFirst <==> code == DownArrow && n > 0
    ensures a == Swallow <==> (InputIntercepts(code) && code !in {Tab, Enter, Escape, DownArrow})
                               || (code in {Enter, DownArrow} && n == 0)
  {
    if !InputIntercepts(code) then PassThrough
    else if code == Escape || code == Tab then Toggle
    else if code == Enter then (if n > 0 then SelectFirst else Swallow)
    else if code == DownArrow then (if n > 0 then FocusFirst else Swallow)
    else Swallow
  }

  /** The focused index after the input's keydown handler. */
  function InputFocus(f: int, code: nat, n: nat): (r: int)
    ensures InputActionFor(code, n) == FocusFirst ==> r == 0
    ensures InputActionFor(code, n) != FocusFirst ==> r == f
    ensures -1 <= f < n ==> -1 <= r < n
  {
    if InputActionFor(code, n) == FocusFirst then 0 else f
  }

  lemma Code113Swallowed(n: nat)
    ensures InputActionFor(113, n) == Swallow
  {
    Code113Intercepted();
  }

  // ---- the item list --------------------------------------------------------

  /**
   * The list's keydown handler: Up decrements the index, Down increments it
   * unless it is on the last item, and any index below 0 becomes -1 (the focus
   * goes back to the input). With no items listed nothing changes.
   */
  function ListStep(f: int, n: nat, code: nat): (r: int)
    ensures n == 0 || !ListIntercepts(code) ==> r == f
    ensures n > 0 && ListIntercepts(code) ==> r >= -1
    ensures -1 <= f < n ==> -1 <= r < n
  {
    if n == 0 || !ListIntercepts(code) then f
    else
      var up := if code == UpArrow then f - 1 else f;
      var down := if code == DownArrow && up < n - 1 then up + 1 else up;
      if down >= 0 then down else -1
  }

  /** An index left over from a longer list is not clamped: Down keeps it, Up decrements it. */
  lemma StaleIndex(f: int, n: nat)
    requires 0 < n <= f
    ensures ListStep(f, n, DownArrow) == f
    ensures ListStep(f, n, UpArrow) == f - 1
  {
  }

  /** A code the list intercepts other than Up and Down leaves a valid index where it is. */
  lemma OtherListKey(f: int, n: nat, code: nat)
    requires f >= -1 && code != UpArrow && code != DownArrow
    ensures ListStep(f, n, code) == f
  {
  }

  // ---- the navigation the handlers implement --------------------------------

  /** Where the keyboard focus is: the search input or one of the listed items. */
  datatype Focus = OnInput | OnItem(index: nat)

  datatype Move = Up | Down

  function MoveCode(m: Move): nat {
    match m
    case Up => UpArrow
    case Down => DownArrow
  }

  function FocusOf(f: int): Focus {
    if f >= 0 then OnItem(f) else OnInput
  }

  /**
   * Menu navigation over `n` items: Up from the first item returns to the input,
   * Down from the input enters the list, Down on the last item stays there.
   */
  function Navigate(fc: Focus, n: nat, m: Move): Focus {
    if n == 0 then fc
    else
      match (fc, m)
      case (OnInput, Up) => OnInput
      case (OnItem(i), Up) => if i == 0 then OnInput else OnItem(i - 1)
      case (OnInput, Down) => OnItem(0)
      case (OnItem(i), Down) => if i + 1 < n then OnItem(i + 1) else OnItem(i)
  }

  /** On a valid index the list handler moves the focus as `Navigate` does. */
  lemma ListStepNavigates(f: int, n: nat, m: Move)
    requires -1 <= f < n
    ensures FocusOf(ListStep(f, n, MoveCode(m))) == Navigate(FocusOf(f), n, m)
  {
  }

  /** Down in the input enters the list exactly as Down from the input would in `Navigate`. */
  lemma InputDownNavigates(f: int, n: nat)
    requires n > 0
    ensures FocusOf(InputFocus(f, DownArrow, n)) == Navigate(OnInput, n, Down)
  {
  }
}

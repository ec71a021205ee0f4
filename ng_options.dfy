/**
 * The `ng-options` binding expression and the regular expression that splits it,
 *
 *   ^\s*(.*?)(?:\s+as\s+(.*?))?(?:\s+group\s+by\s+(.*))?\s+for\s+
 *     (?:([\$\w][\$\w]*)|(?:\(\s*([\$\w][\$\w]*)\s*,\s*([\$\w][\$\w]*)\s*\)))
 *     \s+in\s+(.*?)(?:\s+track\s+by\s+(.*?))?$
 *
 * `Match` is that expression's backtracking search written out: each lazy group
 * tries its end positions shortest first, the greedy `group by` group longest first,
 * an optional group is tried present before absent, and the first complete match
 * wins. A greedy `\s+` in front of a literal keyword, a parenthesis or a comma only
 * ever succeeds with its longest run (a shorter run leaves a white-space character
 * where the literal must start), so there only that run is tried; in front of a
 * `(.*?)` group every run length is tried, longest first. Every stage reads the
 * rest of the input and fills in the groups it captures.
 */
module NgOptions {
  import opened Wrappers
  import opened Text

  /** Groups 4 to 6: one identifier, or the `(key, value)` pair. */
  datatype Iteration = Single(name: string) | Pair(key: string, value: string)

  /** What a successful match captures; an absent optional group is `None`. */
  datatype Groups = Groups(
    select: string,                // group 1
    alias: Option<string>,         // group 2, after `as`
    groupBy: Option<string>,       // group 3, after `group by`
    iteration: Iteration,          // groups 4, 5 and 6
    collection: string,            // group 7, after `in`
    trackBy: Option<string>)       // group 8, after `track by`

  /** The groups later stages have not filled in yet. */
  const Unfilled := Groups("", None, None, Single(""), "", None)

  /** An identifier, `[\$\w][\$\w]*`. */
  predicate Ident(w: string) {
    |w| > 0 && forall i :: 0 <= i < |w| ==> IsWordChar(w[i])
  }

  /** The longest identifier prefix, when it is not empty, is an identifier. */
  lemma IdPrefix(w: string)
    requires IdRun(w) > 0
    ensures Ident(w[..IdRun(w)])
  {
  }

  /** The names groups 4 to 6 capture are identifiers. */
  predicate IterationOk(it: Iteration) {
    match it
    case Single(n) => Ident(n)
    case Pair(k, v) => Ident(k) && Ident(v)
  }

  function Match(s: string): (found: Option<Groups>)
    ensures found.Some? ==> IterationOk(found.value.iteration)
  {
    LeadingSpace(s, WsRun(s))
  }

  /** `^\s*`, greedy: `k` leading white-space characters are skipped. */
  function LeadingSpace(s: string, k: nat): (found: Option<Groups>)
    requires k <= |s|
    ensures found.Some? ==> IterationOk(found.value.iteration)
    decreases k
  {
    var r := SelectFrom(s[k..], 0);
    if r.Some? || k == 0 then r else LeadingSpace(s, k - 1)
  }

  /** Group 1, `(.*?)`: its first `e` characters. */
  function SelectFrom(t: string, e: nat): (found: Option<Groups>)
    requires e <= |t|
    ensures found.Some? ==> IterationOk(found.value.iteration)
    decreases |t| - e
  {
    var r := AfterSelect(t[e..]);
    if r.Some? then Some(r.value.(select := t[..e]))
    else if e < |t| && IsDot(t[e]) then SelectFrom(t, e + 1)
    else None
  }

  /** `(?:\s+as\s+(.*?))?`, present first. */
  function AfterSelect(t: string): (found: Option<Groups>)
    ensures found.Some? ==> IterationOk(found.value.iteration)
  {
    var r := AsPart(t);
    if r.Some? then r else AfterAlias(t)
  }

  function AsPart(t: string): (found: Option<Groups>)
    ensures found.Some? ==> IterationOk(found.value.iteration)
  {
    var n := WsRun(t);
    if n > 0 && StartsWith(t[n..], "as") then
      var v := t[n + 2..];
      AliasSpace(v, WsRun(v))
    else None
  }

  /** The `\s+` after `as`, `L` characters long. */
  function AliasSpace(v: string, L: nat): (found: Option<Groups>)
    requires L <= |v|
    ensures found.Some? ==> IterationOk(found.value.iteration)
    decreases L
  {
    if L == 0 then None
    else
      var r := AliasFrom(v[L..], 0);
      if r.Some? then r else AliasSpace(v, L - 1)
  }

  /** Group 2, `(.*?)`: its first `e` characters. */
  function AliasFrom(w: string, e: nat): (found: Option<Groups>)
    requires e <= |w|
    ensures found.Some? ==> IterationOk(found.value.iteration)
    decreases |w| - e
  {
    var r := AfterAlias(w[e..]);
    if r.Some? then Some(r.value.(alias := Some(w[..e])))
    else if e < |w| && IsDot(w[e]) then AliasFrom(w, e + 1)
    else None
  }

  /** `(?:\s+group\s+by\s+(.*))?`, present first. */
  function AfterAlias(t: string): (found: Option<Groups>)
    ensures found.Some? ==> IterationOk(found.value.iteration)
  {
    var r := GroupPart(t);
    if r.Some? then r else ForPart(t)
  }

  function GroupPart(t: string): (found: Option<Groups>)
    ensures found.Some? ==> IterationOk(found.value.iteration)
  {
    var n := WsRun(t);
    if n > 0 && StartsWith(t[n..], "group") then
      var v := t[n + 5..];
      var m := WsRun(v);
      if m > 0 && StartsWith(v[m..], "by") then
        var x := v[m + 2..];
        GroupSpace(x, WsRun(x))
      else None
    else None
  }

  /** The `\s+` after `by`, `L` characters long. */
  function GroupSpace(x: string, L: nat): (found: Option<Groups>)
    requires L <= |x|
    ensures found.Some? ==> IterationOk(found.value.iteration)
    decreases L
  {
    if L == 0 then None
    else
      var w := x[L..];
      var r := GroupFrom(w, DotRun(w));
      if r.Some? then r else GroupSpace(x, L - 1)
  }

  /** Group 3, `(.*)`, greedy: its first `e` characters, longest first. */
  function GroupFrom(w: string, e: nat): (found: Option<Groups>)
    requires e <= DotRun(w)
    ensures found.Some? ==> IterationOk(found.value.iteration)
    decreases e
  {
    var r := ForPart(w[e..]);
    if r.Some? then Some(r.value.(groupBy := Some(w[..e])))
    else if e > 0 then GroupFrom(w, e - 1)
    else None
  }

  /** `\s+for\s+` and the iteration variables. */
  function ForPart(t: string): (found: Option<Groups>)
    ensures found.Some? ==> IterationOk(found.value.iteration)
  {
    var n := WsRun(t);
    if n > 0 && StartsWith(t[n..], "for") then
      var v := t[n + 3..];
      var m := WsRun(v);
      if m > 0 then IterationPart(v[m..]) else None
    else None
  }

  /** `(?:([\$\w][\$\w]*)|(?:\(\s*([\$\w][\$\w]*)\s*,\s*([\$\w][\$\w]*)\s*\)))`. */
  function IterationPart(w: string): (found: Option<Groups>)
    ensures found.Some? ==> IterationOk(found.value.iteration)
  {
    var k := IdRun(w);
    var r := if k > 0 then InPart(w[k..]) else None;
    assert r.Some? ==> Ident(w[..k]) by {
      if k > 0 { IdPrefix(w); }
    }
    if r.Some? then Some(r.value.(iteration := Single(w[..k]))) else PairPart(w)
  }

  function PairPart(w: string): (found: Option<Groups>)
    ensures found.Some? ==> IterationOk(found.value.iteration)
  {
    if !StartsWith(w, "(") then None
    else
      var a := w[1..];
      var a1 := a[WsRun(a)..];
      var k := IdRun(a1);
      var b := a1[k..];
      var b1 := b[WsRun(b)..];
      if k == 0 || !StartsWith(b1, ",") then None
      else
        IdPrefix(a1);
        var c := b1[1..];
        var c1 := c[WsRun(c)..];
        var k2 := IdRun(c1);
        var d := c1[k2..];
        var d1 := d[WsRun(d)..];
        if k2 == 0 || !StartsWith(d1, ")") then None
        else
          IdPrefix(c1);
          var r := InPart(d1[1..]);
          if r.Some? then Some(r.value.(iteration := Pair(a1[..k], c1[..k2]))) else None
  }

  /** `\s+in\s+`. */
  function InPart(t: string): Option<Groups> {
    var n := WsRun(t);
    if n > 0 && StartsWith(t[n..], "in") then
      var v := t[n + 2..];
      CollectionSpace(v, WsRun(v))
    else None
  }

  /** The `\s+` after `in`, `L` characters long. */
  function CollectionSpace(v: string, L: nat): Option<Groups>
    requires L <= |v|
    decreases L
  {
    if L == 0 then None
    else
      var r := CollectionFrom(v[L..], 0);
      if r.Some? then r else CollectionSpace(v, L - 1)
  }

  /** Group 7, `(.*?)`: its first `e` characters. */
  function CollectionFrom(w: string, e: nat): Option<Groups>
    requires e <= |w|
    decreases |w| - e
  {
    var r := AfterCollection(w[e..]);
    if r.Some? then Some(r.value.(collection := w[..e]))
    else if e < |w| && IsDot(w[e]) then CollectionFrom(w, e + 1)
    else None
  }

  /** `(?:\s+track\s+by\s+(.*?))?$`, present first. */
  function AfterCollection(t: string): Option<Groups> {
    var r := TrackPart(t);
    if r.Some? then r else if t == [] then Some(Unfilled) else None
  }

  function TrackPart(t: string): Option<Groups> {
    var n := WsRun(t);
    if n > 0 && StartsWith(t[n..], "track") then
      var v := t[n + 5..];
      var m := WsRun(v);
      if m > 0 && StartsWith(v[m..], "by") then
        var x := v[m + 2..];
        TrackSpace(x, WsRun(x))
      else None
    else None
  }

  /** The `\s+` after the second `by`, `L` characters long. */
  function TrackSpace(x: string, L: nat): Option<Groups>
    requires L <= |x|
    decreases L
  {
    if L == 0 then None
    else
      var r := TrackFrom(x[L..], 0);
      if r.Some? then r else TrackSpace(x, L - 1)
  }

  /** Group 8, `(.*?)` followed by `$`: its first `e` characters. */
  function TrackFrom(w: string, e: nat): Option<Groups>
    requires e <= |w|
    decreases |w| - e
  {
    if e == |w| then Some(Unfilled.(trackBy := Some(w)))
    else if IsDot(w[e]) then TrackFrom(w, e + 1)
    else None
  }
}

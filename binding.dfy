/**
 * What the directive derives from its `ng-options` attribute: the expressions
 * that give an item's label and value, the name the item is bound to, the
 * collection, and the path the search input writes to.
 */
module Binding {
  import opened Wrappers
  import opened Text
  import opened NgOptions
  import opened Rendering

  /** `getInitialSearchModel()`: `{}` when an alias is given, `''` otherwise. */
  datatype InitialSearch = EmptyText | EmptyObject

  datatype Descriptor = Descriptor(
    displayExpr: string,          // parsed into `displayFn`
    valueExpr: string,            // parsed into `valueFn`
    valueName: string,            // the name each item is bound to
    keyName: Option<string>,      // the key of `(key, value)`: captured, never used
    collectionExpr: string,       // `values`
    groupBy: Option<string>,      // captured, only handed on to the hidden select
    trackBy: Option<string>,      // likewise
    searchModel: string,          // the `ng-model` of the search input
    initialSearch: InitialSearch)

  datatype ParseError =
    | MissingAttribute            // 'Expected ng-options attribute.'
    | Malformed(expression: string)  // 'Expected expression in form of ... but got ...'

  /** `match[2]` is truthy: an `as` part was matched and is not empty. */
  predicate HasAlias(g: Groups) {
    g.alias.Some? && g.alias.value != ""
  }

  /** `match[4] || match[6]`: the single name, or the second name of the pair. */
  function ValueName(it: Iteration): string {
    match it
    case Single(n) => n
    case Pair(_, v) => v
  }

  function KeyName(it: Iteration): Option<string> {
    match it
    case Single(_) => None
    case Pair(k, _) => Some(k)
  }

  /**
   * The search path for an alias: a leading `valueName.` becomes `search.`,
   * so that the search object is matched against the same property of the items.
   */
  function SearchModel(alias: string, valueName: string): (r: string)
    ensures StartsWith(alias, valueName + ".") ==> r == "search." + alias[|valueName| + 1..]
    ensures !StartsWith(alias, valueName + ".") ==> r == alias
  {
    if StartsWith(alias, valueName + ".") then "search." + alias[|valueName| + 1..] else alias
  }

  lemma SearchModelPath(valueName: string, path: string)
    ensures SearchModel(valueName + "." + path, valueName) == "search." + path
  {
    var a := valueName + "." + path;
    assert a[..|valueName| + 1] == valueName + ".";
    assert a[|valueName| + 1..] == path;
  }

  /** The names, expressions and search model the link function derives from the captured groups. */
  function Derive(g: Groups): (d: Descriptor)
    ensures d.valueName == ValueName(g.iteration) && d.keyName == KeyName(g.iteration)
    ensures d.collectionExpr == g.collection && d.groupBy == g.groupBy && d.trackBy == g.trackBy
    ensures HasAlias(g) ==>
      && d.displayExpr == g.alias.value && d.valueExpr == g.select
      && d.searchModel == SearchModel(g.alias.value, d.valueName) && d.initialSearch == EmptyObject
    ensures !HasAlias(g) ==>
      && d.displayExpr == g.select && d.valueExpr == d.valueName
      && d.searchModel == "search" && d.initialSearch == EmptyText
  {
    var valueName := ValueName(g.iteration);
    if HasAlias(g) then
      Descriptor(g.alias.value, g.select, valueName, KeyName(g.iteration), g.collection,
                 g.groupBy, g.trackBy, SearchModel(g.alias.value, valueName), EmptyObject)
    else
      Descriptor(g.select, valueName, valueName, KeyName(g.iteration), g.collection,
                 g.groupBy, g.trackBy, "search", EmptyText)
  }

  /** Reading the attribute (`None` when it is absent): an error, or the descriptor. */
  function Parse(attr: Option<string>): (r: Result<Descriptor, ParseError>)
    ensures r == Err(MissingAttribute) <==> attr.None? || attr.value == ""
    ensures r.Err? && r.error.Malformed? <==> attr.Some? && attr.value != "" && Match(attr.value).None?
    ensures r.Err? && r.error.Malformed? ==> r.error.expression == attr.value
    ensures r.Ok? <==> attr.Some? && attr.value != "" && Match(attr.value).Some?
    ensures r.Ok? ==> r.value == Derive(Match(attr.value).value)
    ensures r.Ok? ==> Ident(r.value.valueName) && (r.value.keyName.Some? ==> Ident(r.value.keyName.value))
  {
    if attr.None? || attr.value == "" then Err(MissingAttribute)
    else
      match Match(attr.value)
      case None => Err(Malformed(attr.value))
      case Some(g) => Ok(Derive(g))
  }

  /** A well-formed expression, written out, parses to the descriptor of its parts. */
  lemma ParseRender(g: Groups)
    requires WellFormed(g)
    ensures Parse(Some(Render(g))) == Ok(Derive(g))
  {
    MatchRender(g);
  }

  // ---- expressions without the `for ... in` part are rejected ---------------

  lemma {:induction false} SelectFails(t: string, e: nat)
    requires e <= |t| && forall i :: 0 <= i < |t| ==> !IsWs(t[i])
    ensures SelectFrom(t, e) == None
    decreases |t| - e
  {
    if e < |t| {
      assert t[e..][0] == t[e];
      NoSpaceHead(t[e..]);
      SelectFails(t, e + 1);
    } else {
      assert t[e..] == [];
    }
  }

  /** Text without white space, such as a bare collection name, never matches. */
  lemma WordRejected(s: string)
    requires Word(s)
    ensures Parse(Some(s)) == Err(Malformed(s))
  {
    NoSpaceStart(s);
    SelectFails(s, 0);
  }

  // ---- scenarios ----------------------------------------------------------

  lemma Scenario(g: Groups, attr: string, d: Descriptor)
    requires WellFormed(g) && Render(g) == attr && Derive(g) == d
    ensures Parse(Some(attr)) == Ok(d)
  {
    ParseRender(g);
  }

  const AliasExample := Groups("u", Some("u.name"), None, Single("u"), "users", None)
  const PlainExample := Groups("u", None, None, Single("u"), "users", Some("u.id"))
  const PairExample := Groups("x.d", Some("x.n"), Some("x.k"), Pair("i", "x"), "xs", None)

  lemma AliasExampleWellFormed()
    ensures WellFormed(AliasExample)
  {
  }

  /** The written form of groups with an alias, one name and nothing else optional. */
  lemma AliasShape(g: Groups)
    requires g.alias.Some? && g.groupBy.None? && g.iteration.Single? && g.trackBy.None?
    ensures Render(g) == g.select + (" as " + (g.alias.value + (" for " + g.iteration.name + " in " + g.collection)))
  {
  }

  lemma AliasLiteral(s: string, a: string, n: string, c: string)
    requires s == "u" && a == "u.name" && n == "u" && c == "users"
    ensures s + (" as " + (a + (" for " + n + " in " + c))) == "u as u.name for u in users"
  {
  }

  lemma AliasExampleRender(g: Groups)
    requires g == AliasExample
    ensures Render(g) == "u as u.name for u in users"
  {
    AliasShape(g);
    AliasLiteral(g.select, g.alias.value, g.iteration.name, g.collection);
  }

  /** The written form of groups with one name and a `track by` part only. */
  lemma PlainShape(g: Groups)
    requires g.alias.None? && g.groupBy.None? && g.iteration.Single? && g.trackBy.Some?
    ensures Render(g) == g.select + (" for " + g.iteration.name + " in " + g.collection + (" track by " + g.trackBy.value))
  {
  }

  lemma PlainLiteral(s: string, n: string, c: string, t: string)
    requires s == "u" && n == "u" && c == "users" && t == "u.id"
    ensures s + (" for " + n + " in " + c + (" track by " + t)) == "u for u in users track by u.id"
  {
  }

  lemma PlainExampleRender(g: Groups)
    requires g == PlainExample
    ensures Render(g) == "u for u in users track by u.id"
  {
    PlainShape(g);
    PlainLiteral(g.select, g.iteration.name, g.collection, g.trackBy.value);
  }

  /** The written form of groups with an alias, a `group by` part and a pair. */
  lemma PairShape(g: Groups)
    requires g.alias.Some? && g.groupBy.Some? && g.iteration.Pair? && g.trackBy.None?
    ensures Render(g) == g.select + (" as " + (g.alias.value + (" group by " + (g.groupBy.value
                         + (" for " + ("(" + g.iteration.key + "," + g.iteration.value + ")") + " in " + g.collection)))))
  {
  }

  lemma PairForLiteral(k: string, v: string, c: string)
    requires k == "i" && v == "x" && c == "xs"
    ensures " for " + ("(" + k + "," + v + ")") + " in " + c == " for (i,x) in xs"
  {
  }

  lemma PairLiteral(s: string, a: string, b: string, f: string)
    requires s == "x.d" && a == "x.n" && b == "x.k" && f == " for (i,x) in xs"
    ensures s + (" as " + (a + (" group by " + (b + f)))) == "x.d as x.n group by x.k for (i,x) in xs"
  {
  }

  lemma PairExampleRender(g: Groups)
    requires g == PairExample
    ensures Render(g) == "x.d as x.n group by x.k for (i,x) in xs"
  {
    PairShape(g);
    PairForLiteral(g.iteration.key, g.iteration.value, g.collection);
    PairLiteral(g.select, g.alias.value, g.groupBy.value, " for (i,x) in xs");
  }

  lemma PairExampleWellFormed()
    ensures WellFormed(PairExample)
  {
    assert IterationText(PairExample.iteration) == "(i,x)";
  }

  lemma NameToSearch(valueName: string)
    ensures SearchModel(valueName + ".name", valueName) == "search.name"
  {
    SearchModelPath(valueName, "name");
    assert valueName + "." + "name" == valueName + ".name" && "search." + "name" == "search.name";
  }

  /** `u as u.name for u in users`: label `u.name`, value `u`, search path `search.name`. */
  lemma AliasScenario(attr: string)
    requires attr == "u as u.name for u in users"
    ensures Parse(Some(attr))
         == Ok(Descriptor("u.name", "u", "u", None, "users", None, None, "search.name", EmptyObject))
  {
    AliasExampleWellFormed();
    AliasExampleRender(AliasExample);
    NameToSearch("u");
    assert "u" + ".name" == "u.name";
    Scenario(AliasExample, attr,
             Descriptor("u.name", "u", "u", None, "users", None, None, "search.name", EmptyObject));
  }

  /** `u for u in users track by u.id`: label and value both `u`, search path `search`. */
  lemma PlainScenario(attr: string)
    requires attr == "u for u in users track by u.id"
    ensures Parse(Some(attr))
         == Ok(Descriptor("u", "u", "u", None, "users", None, Some("u.id"), "search", EmptyText))
  {
    PlainExampleRender(PlainExample);
    Scenario(PlainExample, attr, Descriptor("u", "u", "u", None, "users", None, Some("u.id"), "search", EmptyText));
  }

  /** Every part at once: the pair's second name is the item, its first is kept aside. */
  lemma PairScenario(attr: string)
    requires attr == "x.d as x.n group by x.k for (i,x) in xs"
    ensures Parse(Some(attr))
         == Ok(Descriptor("x.n", "x.d", "x", Some("i"), "xs", Some("x.k"), None, "search.n", EmptyObject))
  {
    PairExampleRender(PairExample);
    PairExampleWellFormed();
    SearchModelPath("x", "n");
    assert "x" + "." + "n" == "x.n" && "search." + "n" == "search.n";
    Scenario(PairExample, attr,
             Descriptor("x.n", "x.d", "x", Some("i"), "xs", Some("x.k"), None, "search.n", EmptyObject));
  }

  // ---- the search path as the source computes it ---------------------------

  /**
   * Where `new RegExp('^' + valueName + '\\.')` matches `s` from position `i`:
   * the characters of `valueName` read as a pattern, in which an identifier
   * character stands for itself and `$` is the end-of-input assertion, then a dot.
   */
  function PrefixPatternEnd(p: string, s: string, i: nat): (r: Option<nat>)
    requires i <= |s|
    ensures r.Some? ==> i < r.value <= |s|
    decreases |p|
  {
    if p == [] then (if i < |s| && s[i] == '.' then Some(i + 1) else None)
    else if p[0] == '$' then (if i == |s| then PrefixPatternEnd(p[1..], s, i) else None)
    else if i < |s| && s[i] == p[0] then PrefixPatternEnd(p[1..], s, i + 1)
    else None
  }

  /** The `searchModel` initialiser as written: `alias.replace(new RegExp('^' + valueName + '\\.'), 'search.')`. */
  function SearchModelAsWritten(alias: string, valueName: string): (r: string)
    ensures r == alias || (StartsWith(alias, valueName + ".") && r == "search." + alias[|valueName| + 1..])
  {
    var p := PrefixPatternEnd(valueName, alias, 0);
    assert p.Some? ==> StartsWith(alias, valueName + ".") && p.value == |valueName| + 1 by {
      assert alias[0..] == alias;
      if '$' in valueName {
        DollarNeverMatches(valueName, alias, 0);
      } else {
        LiteralPattern(valueName, alias, 0);
      }
    }
    match p
    case Some(e) => "search." + alias[e..]
    case None => alias
  }

  lemma {:induction false} PatternAtEnd(p: string, s: string)
    ensures PrefixPatternEnd(p, s, |s|) == None
    decreases |p|
  {
    if p != [] {
      PatternAtEnd(p[1..], s);
    }
  }

  /** A `$` in the name is an anchor: the pattern never matches. */
  lemma {:induction false} DollarNeverMatches(p: string, s: string, i: nat)
    requires i <= |s| && '$' in p
    ensures PrefixPatternEnd(p, s, i) == None
    decreases |p|
  {
    if p[0] == '$' {
      if i == |s| {
        PatternAtEnd(p[1..], s);
      }
    } else if i < |s| && s[i] == p[0] {
      assert '$' in p[1..] by {
        var k :| 0 <= k < |p| && p[k] == '$';
        assert p[1..][k - 1] == '$';
      }
      DollarNeverMatches(p[1..], s, i + 1);
    }
  }

  /** Without a `$`, the pattern matches exactly the literal prefix `p.`. */
  lemma {:induction false} LiteralPattern(p: string, s: string, i: nat)
    requires i <= |s| && '$' !in p
    ensures PrefixPatternEnd(p, s, i)
         == if StartsWith(s[i..], p + ".") then Some(i + |p| + 1) else None
    decreases |p|
  {
    if p == [] {
      assert StartsWith(s[i..], p + ".") <==> i < |s| && s[i] == '.' by {
        if i < |s| {
          assert s[i..][..1] == [s[i]];
        }
      }
    } else {
      assert '$' !in p[1..] by {
        forall k | 0 <= k < |p| - 1 ensures p[1..][k] != '$' {
          assert p[1..][k] == p[k + 1];
        }
      }
      if i < |s| && s[i] == p[0] {
        LiteralPattern(p[1..], s, i + 1);
        assert p + "." == [p[0]] + (p[1..] + ".");
        StartsWithCons(s, i, p[0], p[1..] + ".");
      } else {
        assert !StartsWith(s[i..], p + ".");
      }
    }
  }

  lemma StartsWithCons(s: string, i: nat, c: char, q: string)
    requires i < |s| && s[i] == c
    ensures StartsWith(s[i..], [c] + q) <==> StartsWith(s[i + 1..], q)
  {
    if |q| + 1 <= |s[i..]| {
      var x := s[i + 1..][..|q|];
      assert s[i..][..|q| + 1] == [c] + x;
      assert ([c] + x)[1..] == x && ([c] + q)[1..] == q;
    }
  }

  /** For names without `$` the code computes the intended search path. */
  lemma AsWrittenAgrees(alias: string, valueName: string)
    requires '$' !in valueName
    ensures SearchModelAsWritten(alias, valueName) == SearchModel(alias, valueName)
  {
    LiteralPattern(valueName, alias, 0);
    assert alias[0..] == alias;
  }

  /** For names with `$` the alias is never rewritten. */
  lemma AsWrittenNeverRewrites(alias: string, valueName: string)
    requires '$' in valueName
    ensures SearchModelAsWritten(alias, valueName) == alias
  {
    DollarNeverMatches(valueName, alias, 0);
  }

  /** `$item as $item.name for $item in items`: the search path stays `$item.name`. */
  lemma DollarNameCounterexample()
    ensures SearchModelAsWritten("$item.name", "$item") == "$item.name"
    ensures SearchModel("$item.name", "$item") == "search.name"
  {
    AsWrittenNeverRewrites("$item.name", "$item");
    SearchModelPath("$item", "name");
    assert "$item" + "." + "name" == "$item.name";
  }
}

/**
 * Writing a binding expression back from its groups, and the round trip:
 * matching the rendered expression recovers exactly the groups it was written from.
 *
 * The round trip holds for groups whose parts are single words (no white space),
 * rendered with one space around each keyword. When a `group by` part is present,
 * its greedy `(.*)` would swallow a later word `for` together with what follows it,
 * so the words after it may not be `for`.
 */
module Rendering {
  import opened Wrappers
  import opened Text
  import opened NgOptions

  /** A non-empty run of characters without white space. */
  predicate Word(w: string) {
    |w| > 0 && forall i :: 0 <= i < |w| ==> !IsWs(w[i])
  }

  predicate AllWords(ws: seq<string>) {
    forall k :: 0 <= k < |ws| ==> Word(ws[k])
  }

  /** The words separated by single spaces. */
  function Join(ws: seq<string>): string {
    if ws == [] then "" else if |ws| == 1 then ws[0] else ws[0] + " " + Join(ws[1..])
  }

  function IterationText(it: Iteration): string {
    match it
    case Single(n) => n
    case Pair(k, v) => "(" + k + "," + v + ")"
  }

  function TrackText(g: Groups): string {
    if g.trackBy.Some? then " track by " + g.trackBy.value else ""
  }

  function ForText(g: Groups): string {
    " for " + IterationText(g.iteration) + " in " + g.collection + TrackText(g)
  }

  function GroupText(g: Groups): string {
    if g.groupBy.Some? then " group by " + (g.groupBy.value + ForText(g)) else ForText(g)
  }

  function AliasText(g: Groups): string {
    if g.alias.Some? then " as " + (g.alias.value + GroupText(g)) else GroupText(g)
  }

  /** `select [as alias] [group by g] for iteration in collection [track by t]`. */
  function Render(g: Groups): string {
    g.select + AliasText(g)
  }

  /** The groups the round trip is stated for. */
  predicate WellFormed(g: Groups) {
    && Word(g.select)
    && (g.alias.Some? ==> Word(g.alias.value))
    && (g.groupBy.Some? ==> Word(g.groupBy.value))
    && IterationOk(g.iteration)
    && Word(g.collection)
    && (g.trackBy.Some? ==> Word(g.trackBy.value))
    && (g.groupBy.Some? ==>
          IterationText(g.iteration) != "for" && g.collection != "for"
          && (g.trackBy.Some? ==> g.trackBy.value != "for"))
  }

  // ---- small facts about strings -------------------------------------------

  lemma SpaceThen(x: string)
    requires x != [] && !IsWs(x[0])
    ensures WsRun(" " + x) == 1 && (" " + x)[1..] == x
  {
    assert (" " + x)[1..] == x;
  }

  lemma KeywordThen(kw: string, rest: string)
    ensures StartsWith(kw + rest, kw) && (kw + rest)[|kw|..] == rest
  {
    assert (kw + rest)[..|kw|] == kw;
  }

  lemma Regroup(a: string, b: string, c: string, d: string)
    ensures a + b + c + d == a + (b + c + d) && (b + c + d)[..|b|] == b
  {
    assert (b + c + d)[..|b|] == b;
  }

  lemma NoSpaceHead(t: string)
    requires t != [] && !IsWs(t[0])
    ensures WsRun(t) == 0
    ensures AfterSelect(t) == None && AfterAlias(t) == None && AfterCollection(t) == None
  {
  }

  /** Inside a word no stage that starts with `\s+` can begin. */
  lemma InsideWord(x: string, rest: string)
    requires Word(x)
    ensures forall j :: 0 <= j < |x| ==>
      IsDot((x + rest)[j]) && (x + rest)[j..] != [] && !IsWs((x + rest)[j..][0])
  {
  }

  lemma InsideWordFails(x: string, rest: string)
    requires Word(x)
    ensures forall j :: 0 <= j < |x| ==>
      IsDot((x + rest)[j]) && AfterSelect((x + rest)[j..]) == None
      && AfterAlias((x + rest)[j..]) == None && AfterCollection((x + rest)[j..]) == None
  {
    InsideWord(x, rest);
    forall j | 0 <= j < |x|
      ensures AfterSelect((x + rest)[j..]) == None && AfterAlias((x + rest)[j..]) == None
      ensures AfterCollection((x + rest)[j..]) == None
    {
      NoSpaceHead((x + rest)[j..]);
    }
  }

  // ---- the lazy and greedy searches skip positions that cannot match -------

  lemma {:induction false} SelectSkip(t: string, e: nat, target: nat)
    requires e <= target <= |t|
    requires forall j :: e <= j < target ==> IsDot(t[j]) && AfterSelect(t[j..]) == None
    ensures SelectFrom(t, e) == SelectFrom(t, target)
    decreases target - e
  {
    if e < target {
      SelectSkip(t, e + 1, target);
    }
  }

  lemma {:induction false} AliasSkip(w: string, e: nat, target: nat)
    requires e <= target <= |w|
    requires forall j :: e <= j < target ==> IsDot(w[j]) && AfterAlias(w[j..]) == None
    ensures AliasFrom(w, e) == AliasFrom(w, target)
    decreases target - e
  {
    if e < target {
      AliasSkip(w, e + 1, target);
    }
  }

  lemma {:induction false} CollectionSkip(w: string, e: nat, target: nat)
    requires e <= target <= |w|
    requires forall j :: e <= j < target ==> IsDot(w[j]) && AfterCollection(w[j..]) == None
    ensures CollectionFrom(w, e) == CollectionFrom(w, target)
    decreases target - e
  {
    if e < target {
      CollectionSkip(w, e + 1, target);
    }
  }

  lemma {:induction false} GroupSkip(w: string, e: nat, target: nat)
    requires target <= e <= DotRun(w)
    requires forall j :: target < j <= e ==> ForPart(w[j..]) == None
    ensures GroupFrom(w, e) == GroupFrom(w, target)
    decreases e
  {
    if target < e {
      GroupSkip(w, e - 1, target);
    }
  }

  lemma {:induction false} TrackAllDots(w: string, e: nat)
    requires e <= |w|
    requires forall j :: e <= j < |w| ==> IsDot(w[j])
    ensures TrackFrom(w, e) == Some(Unfilled.(trackBy := Some(w)))
    decreases |w| - e
  {
    if e < |w| {
      TrackAllDots(w, e + 1);
    }
  }

  // ---- words joined by spaces ----------------------------------------------

  /** `\s+kw\s+` starts here: the shape every keyword of the expression has. */
  predicate KeywordStart(t: string, kw: string) {
    var n := WsRun(t);
    n > 0 && StartsWith(t[n..], kw) && WsRun(t[n + |kw|..]) > 0
  }

  lemma ForPartNeedsFor(t: string)
    ensures ForPart(t).Some? ==> KeywordStart(t, "for")
  {
  }

  lemma SpaceAt(t: string, k: nat)
    requires k <= |t| && WsRun(t[k..]) > 0
    ensures k < |t| && IsWs(t[k])
  {
    assert t[k..][0] == t[k];
  }

  lemma PrefixChars(t: string, prefix: string)
    requires StartsWith(t, prefix)
    ensures forall i :: 0 <= i < |prefix| ==> t[i] == prefix[i]
  {
    assert forall i :: 0 <= i < |prefix| ==> t[..|prefix|][i] == t[i];
  }

  lemma JoinCons(w: string, ws: seq<string>)
    ensures Join([w] + ws) == if ws == [] then w else w + " " + Join(ws)
  {
    assert ([w] + ws)[1..] == ws;
  }

  lemma JoinHead(ws: seq<string>)
    requires ws != [] && AllWords(ws)
    ensures |Join(ws)| >= |ws[0]| && Join(ws)[..|ws[0]|] == ws[0]
    ensures forall i :: 0 <= i < |ws[0]| ==> Join(ws)[i] == ws[0][i]
    ensures |ws| > 1 ==> |Join(ws)| > |ws[0]| && Join(ws)[|ws[0]|] == ' '
    ensures |ws| == 1 ==> Join(ws) == ws[0]
    ensures |ws| > 1 ==> Join(ws) == ws[0] + " " + Join(ws[1..])
  {
    if |ws| > 1 {
      assert (ws[0] + " " + Join(ws[1..]))[..|ws[0]|] == ws[0];
    }
  }

  lemma {:induction false} JoinAllDots(ws: seq<string>)
    requires AllWords(ws)
    ensures forall i :: 0 <= i < |Join(ws)| ==> IsDot(Join(ws)[i])
    decreases |ws|
  {
    if |ws| > 1 {
      JoinAllDots(ws[1..]);
      var x, rest := ws[0], Join(ws[1..]);
      assert Join(ws) == x + " " + rest;
      forall i | 0 <= i < |Join(ws)| ensures IsDot(Join(ws)[i]) {
        if i > |x| {
          assert Join(ws)[i] == rest[i - |x| - 1];
        }
      }
    }
  }

  /** Where the joined words start with a keyword followed by white space, the first word is that keyword. */
  lemma FirstWordIsKeyword(ws: seq<string>, kw: string)
    requires ws != [] && AllWords(ws) && Word(kw)
    requires StartsWith(Join(ws), kw) && WsRun(Join(ws)[|kw|..]) > 0
    ensures ws[0] == kw
  {
    var j, x := Join(ws), ws[0];
    JoinHead(ws);
    SpaceAt(j, |kw|);
    PrefixChars(j, kw);
    assert kw == j[..|kw|];
  }

  lemma SpacedSlice(x: string, rest: string, i: nat)
    requires i <= |x| + 1 + |rest|
    ensures i < |x| ==> (x + " " + rest)[i..] != [] && (x + " " + rest)[i..][0] == x[i]
    ensures i == |x| ==> (x + " " + rest)[i..] == " " + rest
    ensures i > |x| ==> (x + " " + rest)[i..] == rest[i - |x| - 1..]
  {
    var j := x + " " + rest;
    if i < |x| {
      assert j[i..][0] == x[i];
    } else if i == |x| {
      assert j[i..] == " " + rest;
    } else {
      assert j[i..] == rest[i - |x| - 1..];
    }
  }

  /** At the space between two words, the keyword starts only if the second word is that keyword. */
  lemma NoKeywordAfterSpace(ws: seq<string>, kw: string)
    requires ws != [] && AllWords(ws) && Word(kw) && ws[0] != kw
    ensures !KeywordStart(" " + Join(ws), kw)
  {
    var rest := Join(ws);
    JoinHead(ws);
    SpaceThen(rest);
    if KeywordStart(" " + rest, kw) {
      FirstWordIsKeyword(ws, kw);
      assert false;
    }
  }

  /** The keyword starts nowhere in words joined by spaces unless one of them after the first is that keyword. */
  lemma {:induction false} JoinNoKeyword(ws: seq<string>, kw: string, i: nat)
    requires AllWords(ws) && Word(kw)
    requires forall k :: 1 <= k < |ws| ==> ws[k] != kw
    requires i <= |Join(ws)|
    ensures !KeywordStart(Join(ws)[i..], kw)
    decreases |ws|
  {
    var j := Join(ws);
    if ws == [] {
    } else if |ws| == 1 {
      if i < |j| {
        assert j[i..][0] == ws[0][i];
      }
    } else {
      var x, rest := ws[0], Join(ws[1..]);
      assert j == x + " " + rest;
      SpacedSlice(x, rest, i);
      if i < |x| {
      } else if i == |x| {
        NoKeywordAfterSpace(ws[1..], kw);
      } else {
        assert forall k :: 1 <= k < |ws| - 1 ==> ws[1..][k] == ws[k + 1];
        JoinNoKeyword(ws[1..], kw, i - |x| - 1);
      }
    }
  }

  // ---- the stages of the match, each on the text it reads -----------------

  lemma TrackStage(g: Groups)
    requires WellFormed(g)
    ensures AfterCollection(TrackText(g)) == Some(Unfilled.(trackBy := g.trackBy))
  {
    if g.trackBy.Some? {
      var T := g.trackBy.value;
      TrackKeywords(T);
      SpaceThen(T);
      TrackAllDots(T, 0);
    }
  }

  lemma TrackKeywords(w: string)
    requires w != [] && !IsWs(w[0])
    ensures var t := " track by " + w;
      WsRun(t) == 1 && StartsWith(t[1..], "track") && WsRun(t[6..]) == 1
      && StartsWith(t[6..][1..], "by") && t[6..][3..] == " " + w
  {
    var t := " track by " + w;
    var r := " " + ("by" + (" " + w));
    assert t == " " + ("track" + r) && t[6..] == r by {
      TrackSplit(w);
    }
    SpacedKeyword("track", r);
    SpacedKeyword("by", " " + w);
  }

  lemma TrackSplit(w: string)
    ensures var r := " " + ("by" + (" " + w));
      " track by " + w == " " + ("track" + r) && (" track by " + w)[6..] == r
  {
    var r := " " + ("by" + (" " + w));
    assert " track by " + w == " " + ("track" + r);
  }

  lemma CollectionStage(g: Groups)
    requires WellFormed(g)
    ensures CollectionFrom(g.collection + TrackText(g), 0)
         == Some(Unfilled.(trackBy := g.trackBy, collection := g.collection))
  {
    var C, TT := g.collection, TrackText(g);
    InsideWordFails(C, TT);
    CollectionSkip(C + TT, 0, |C|);
    assert (C + TT)[|C|..] == TT;
    assert (C + TT)[..|C|] == C;
    TrackStage(g);
  }

  lemma InStage(g: Groups)
    requires WellFormed(g)
    ensures InPart(" in " + g.collection + TrackText(g))
         == Some(Unfilled.(trackBy := g.trackBy, collection := g.collection))
  {
    var C, TT := g.collection, TrackText(g);
    var t := " in " + C + TT;
    var u := "in" + (" " + (C + TT));
    assert t == " " + u;
    SpaceThen(u);
    KeywordThen("in", " " + (C + TT));
    assert t[3..] == " " + (C + TT);
    SpaceThen(C + TT);
    CollectionStage(g);
  }

  lemma NoSpaceStart(t: string)
    requires t != [] && !IsWs(t[0])
    ensures WsRun(t) == 0 && t[WsRun(t)..] == t
  {
  }

  lemma IdThen(n: string, rest: string)
    requires Ident(n) && rest != [] && !IsWordChar(rest[0])
    ensures IdRun(n + rest) == |n| && (n + rest)[|n|..] == rest && (n + rest)[..|n|] == n
  {
    var k := IdRun(n + rest);
    assert (n + rest)[|n|] == rest[0];
    assert forall i :: 0 <= i < |n| ==> (n + rest)[i] == n[i];
  }

  lemma PairTail(v: string, R: string)
    requires Ident(v) && R != [] && R[0] == ' '
    ensures var c := v + (")" + R);
      var c1 := c[WsRun(c)..];
      var k2 := IdRun(c1);
      var d := c1[k2..];
      var d1 := d[WsRun(d)..];
      k2 == |v| && c1[..k2] == v && StartsWith(d1, ")") && d1[1..] == R
  {
    var c := v + (")" + R);
    NoSpaceStart(c);
    IdThen(v, ")" + R);
    var d := ")" + R;
    NoSpaceStart(d);
    KeywordThen(")", R);
  }

  lemma PairStage(k: string, v: string, R: string)
    requires Ident(k) && Ident(v) && R != [] && R[0] == ' '
    ensures PairPart("(" + (k + ("," + (v + (")" + R)))))
         == if InPart(R).Some? then Some(InPart(R).value.(iteration := Pair(k, v))) else None
  {
    var w := "(" + (k + ("," + (v + (")" + R))));
    KeywordThen("(", k + ("," + (v + (")" + R))));
    var a := w[1..];
    NoSpaceStart(a);
    IdThen(k, "," + (v + (")" + R)));
    var b := "," + (v + (")" + R));
    NoSpaceStart(b);
    KeywordThen(",", v + (")" + R));
    PairTail(v, R);
  }

  lemma SingleIteration(n: string, R: string)
    requires Ident(n) && R != [] && R[0] == ' '
    ensures IterationPart(n + R)
         == if InPart(R).Some? then Some(InPart(R).value.(iteration := Single(n))) else PairPart(n + R)
  {
    IdThen(n, R);
  }

  lemma PairIteration(w: string)
    requires w != [] && w[0] == '('
    ensures IterationPart(w) == PairPart(w)
  {
    assert IdRun(w) == 0;
  }

  lemma SingleStage(n: string, R: string)
    requires Ident(n) && R != [] && R[0] == ' ' && InPart(R).Some?
    ensures IterationPart(n + R) == Some(InPart(R).value.(iteration := Single(n)))
  {
    SingleIteration(n, R);
  }

  lemma PairFullStage(k: string, v: string, R: string)
    requires Ident(k) && Ident(v) && R != [] && R[0] == ' ' && InPart(R).Some?
    ensures IterationPart("(" + (k + ("," + (v + (")" + R)))))
         == Some(InPart(R).value.(iteration := Pair(k, v)))
  {
    PairIteration("(" + (k + ("," + (v + (")" + R)))));
    PairStage(k, v, R);
  }

  lemma IterationOver(it: Iteration, R: string)
    requires IterationOk(it) && R != [] && R[0] == ' ' && InPart(R).Some?
    ensures IterationPart(IterationText(it) + R) == Some(InPart(R).value.(iteration := it))
  {
    match it
    case Single(n) =>
      SingleStage(n, R);
    case Pair(k, v) =>
      PairText(k, v, R);
      PairFullStage(k, v, R);
  }

  lemma PairText(k: string, v: string, R: string)
    ensures IterationText(Pair(k, v)) + R == "(" + (k + ("," + (v + (")" + R))))
  {
    assert "(" + k + "," + v + ")" + R == "(" + (k + ("," + (v + (")" + R))));
  }

  lemma IterationStage(g: Groups)
    requires WellFormed(g)
    ensures IterationPart(IterationText(g.iteration) + " in " + g.collection + TrackText(g))
         == Some(Unfilled.(iteration := g.iteration, trackBy := g.trackBy, collection := g.collection))
  {
    var R := " in " + g.collection + TrackText(g);
    Regroup(IterationText(g.iteration), " in ", g.collection, TrackText(g));
    InStage(g);
    IterationOver(g.iteration, R);
  }

  lemma ForRegroup(it: string, c: string, tt: string)
    requires it != []
    ensures var r := it + " in " + c + tt;
      " for " + it + " in " + c + tt == " for " + r && r != [] && r[0] == it[0]
  {
    var r := it + " in " + c + tt;
    assert " for " + it + " in " + c + tt == " for " + r;
    assert r[0] == it[0];
  }

  /** `\s+for\s+` in front of the iteration variables. */
  lemma ForOver(r: string)
    requires r != [] && !IsWs(r[0])
    ensures ForPart(" for " + r) == IterationPart(r)
  {
    var u := "for" + (" " + r);
    assert " for " + r == " " + u;
    SpaceThen(u);
    KeywordThen("for", " " + r);
    SpaceThen(r);
  }

  lemma ForStage(g: Groups)
    requires WellFormed(g)
    ensures ForPart(ForText(g))
         == Some(Unfilled.(iteration := g.iteration, trackBy := g.trackBy, collection := g.collection))
  {
    var IT := IterationText(g.iteration);
    IterationWord(g.iteration);
    ForRegroup(IT, g.collection, TrackText(g));
    ForOver(IT + " in " + g.collection + TrackText(g));
    IterationStage(g);
  }

  function TrackWords(g: Groups): seq<string> {
    if g.trackBy.Some? then ["track", "by", g.trackBy.value] else []
  }

  /** The words that follow a `group by` part. */
  function ForWords(g: Groups): seq<string> {
    ["for", IterationText(g.iteration), "in", g.collection] + TrackWords(g)
  }

  lemma WordConcat(a: string, b: string)
    requires Word(a) && Word(b)
    ensures Word(a + b)
  {
    assert forall i :: |a| <= i < |a + b| ==> (a + b)[i] == b[i - |a|];
  }

  lemma IterationWord(it: Iteration)
    requires IterationOk(it)
    ensures Word(IterationText(it))
  {
    match it
    case Single(n) =>
    case Pair(k, v) =>
      assert Word("(") && Word(",") && Word(")");
      WordConcat("(", k);
      WordConcat("(" + k, ",");
      WordConcat("(" + k + ",", v);
      WordConcat("(" + k + "," + v, ")");
  }

  lemma AllWordsCons(w: string, ws: seq<string>)
    requires Word(w) && AllWords(ws)
    ensures AllWords([w] + ws)
  {
    assert forall k :: 1 <= k < |ws| + 1 ==> ([w] + ws)[k] == ws[k - 1];
  }

  lemma KeywordWords()
    ensures Word("for") && Word("in") && Word("track") && Word("by")
  {
  }

  lemma TrackJoin(g: Groups)
    ensures Join([g.collection] + TrackWords(g)) == g.collection + TrackText(g)
  {
    var C, TW := g.collection, TrackWords(g);
    if g.trackBy.Some? {
      TrackPhrase(g.trackBy.value);
    }
    JoinCons(C, TW);
  }

  lemma TrackPhrase(T: string)
    ensures Join(["track", "by", T]) == "track by " + T
  {
    JoinCons("by", [T]);
    assert ["track", "by", T] == ["track"] + ["by", T];
    JoinCons("track", ["by", T]);
  }

  lemma TrackWordsAreWords(g: Groups)
    requires WellFormed(g)
    ensures AllWords([g.collection] + TrackWords(g))
  {
    KeywordWords();
    if g.trackBy.Some? {
      var T := g.trackBy.value;
      AllWordsCons(T, []);
      AllWordsCons("by", [T]);
      AllWordsCons("track", ["by", T]);
    }
    AllWordsCons(g.collection, TrackWords(g));
  }

  lemma ForWordsAreWords(g: Groups)
    requires WellFormed(g)
    ensures AllWords(ForWords(g))
  {
    var IT, CT := IterationText(g.iteration), [g.collection] + TrackWords(g);
    IterationWord(g.iteration);
    KeywordWords();
    TrackWordsAreWords(g);
    AllWordsCons("in", CT);
    AllWordsCons(IT, ["in"] + CT);
    AllWordsCons("for", [IT] + (["in"] + CT));
    assert ForWords(g) == ["for"] + ([IT] + (["in"] + CT));
  }

  lemma ForTextIsJoin(g: Groups)
    ensures ForText(g) == " " + Join(ForWords(g))
  {
    var IT, C, TT := IterationText(g.iteration), g.collection, TrackText(g);
    var CT := [C] + TrackWords(g);
    TrackJoin(g);
    var j1 := C + TT;
    JoinCons("in", CT);
    var j2 := "in" + " " + j1;
    assert Join(["in"] + CT) == j2;
    JoinCons(IT, ["in"] + CT);
    var j3 := IT + " " + j2;
    assert Join([IT] + (["in"] + CT)) == j3;
    JoinCons("for", [IT] + (["in"] + CT));
    assert ForWords(g) == ["for"] + ([IT] + (["in"] + CT));
    assert Join(ForWords(g)) == "for" + " " + j3;
    ForShape(IT, C, TT);
  }

  lemma ForShape(it: string, c: string, tt: string)
    ensures " for " + it + " in " + c + tt == " " + ("for" + " " + (it + " " + ("in" + " " + (c + tt))))
  {
    var r := " " + ("for" + " " + (it + " " + ("in" + " " + (c + tt))));
    assert " for " + it + " in " + c + tt == " for " + (it + (" in " + (c + tt)));
    assert " in " + (c + tt) == " " + ("in" + " " + (c + tt));
  }

  lemma ForTextJoin(g: Groups)
    requires WellFormed(g)
    ensures ForText(g) == " " + Join(ForWords(g)) && AllWords(ForWords(g))
  {
    ForTextIsJoin(g);
    ForWordsAreWords(g);
  }

  lemma ForWordsNoFor(g: Groups)
    requires WellFormed(g) && g.groupBy.Some?
    ensures forall k :: 1 <= k < |ForWords(g)| ==> ForWords(g)[k] != "for"
  {
    var FW := ForWords(g);
    assert "in" != "for" && "track" != "for" && "by" != "for";
    assert FW[1] == IterationText(g.iteration) && FW[2] == "in" && FW[3] == g.collection;
    if g.trackBy.Some? {
      assert |FW| == 7 && FW[4] == "track" && FW[5] == "by" && FW[6] == g.trackBy.value;
    } else {
      assert |FW| == 4;
    }
  }

  /** After a `group by`, no later position starts `\s+for\s+` again. */
  lemma NoLaterFor(g: Groups)
    requires WellFormed(g) && g.groupBy.Some?
    ensures forall i :: 1 <= i <= |ForText(g)| ==> ForPart(ForText(g)[i..]) == None
  {
    var FT, FW := ForText(g), ForWords(g);
    ForTextJoin(g);
    ForWordsNoFor(g);
    forall i | 1 <= i <= |FT| ensures ForPart(FT[i..]) == None {
      NoForAt(FW, FT, i);
    }
  }

  lemma NoForAt(FW: seq<string>, FT: string, i: nat)
    requires FT == " " + Join(FW) && AllWords(FW)
    requires forall k :: 1 <= k < |FW| ==> FW[k] != "for"
    requires 1 <= i <= |FT|
    ensures ForPart(FT[i..]) == None
  {
    assert FT[i..] == Join(FW)[i - 1..];
    KeywordWords();
    JoinNoKeyword(FW, "for", i - 1);
    ForPartNeedsFor(FT[i..]);
  }

  lemma AllDotsRun(w: string)
    requires forall i :: 0 <= i < |w| ==> IsDot(w[i])
    ensures DotRun(w) == |w|
  {
  }

  lemma ShiftNoFor(G: string, FT: string)
    requires forall i :: 1 <= i <= |FT| ==> ForPart(FT[i..]) == None
    ensures forall j :: |G| < j <= |G + FT| ==> ForPart((G + FT)[j..]) == None
  {
    forall j | |G| < j <= |G + FT| ensures ForPart((G + FT)[j..]) == None {
      assert (G + FT)[j..] == FT[j - |G|..];
    }
  }

  lemma GroupAtEnd(G: string, FT: string)
    requires ForPart(FT).Some? && |G| <= DotRun(G + FT)
    ensures GroupFrom(G + FT, |G|) == Some(ForPart(FT).value.(groupBy := Some(G)))
  {
    assert (G + FT)[|G|..] == FT && (G + FT)[..|G|] == G;
  }

  /** The greedy `(.*)` of `group by` backs off to the one end where `\s+for\s+` follows. */
  lemma GreedyGroup(G: string, FT: string)
    requires Word(G) && ForPart(FT).Some?
    requires forall i :: 0 <= i < |FT| ==> IsDot(FT[i])
    requires forall i :: 1 <= i <= |FT| ==> ForPart(FT[i..]) == None
    ensures GroupFrom(G + FT, DotRun(G + FT)) == Some(ForPart(FT).value.(groupBy := Some(G)))
  {
    var w := G + FT;
    forall i | 0 <= i < |w| ensures IsDot(w[i]) {
      if i >= |G| {
        assert w[i] == FT[i - |G|];
      }
    }
    AllDotsRun(w);
    ShiftNoFor(G, FT);
    GroupSkip(w, |w|, |G|);
    GroupAtEnd(G, FT);
  }

  lemma ForTextDots(g: Groups)
    requires WellFormed(g)
    ensures forall i :: 0 <= i < |ForText(g)| ==> IsDot(ForText(g)[i])
  {
    var FT := ForText(g);
    ForTextJoin(g);
    JoinAllDots(ForWords(g));
    forall i | 0 <= i < |FT| ensures IsDot(FT[i]) {
      if i > 0 {
        assert FT[i] == Join(ForWords(g))[i - 1];
      }
    }
  }

  /** A space, a keyword, then the rest: the run is one space and the keyword follows it. */
  lemma SpacedKeyword(kw: string, rest: string)
    requires kw != [] && !IsWs(kw[0])
    ensures var t := " " + (kw + rest);
      WsRun(t) == 1 && StartsWith(t[1..], kw) && t[1..][|kw|..] == rest
  {
    SpaceThen(kw + rest);
    KeywordThen(kw, rest);
  }

  lemma GroupKeywords(w: string)
    requires w != [] && !IsWs(w[0])
    ensures var t := " group by " + w;
      WsRun(t) == 1 && StartsWith(t[1..], "group") && WsRun(t[6..]) == 1
      && StartsWith(t[6..][1..], "by") && t[6..][3..] == " " + w
  {
    var t := " group by " + w;
    var r := " " + ("by" + (" " + w));
    assert t == " " + ("group" + r) && t[6..] == r by {
      GroupSplit(w);
    }
    SpacedKeyword("group", r);
    SpacedKeyword("by", " " + w);
  }

  lemma GroupSplit(w: string)
    ensures var r := " " + ("by" + (" " + w));
      " group by " + w == " " + ("group" + r) && (" group by " + w)[6..] == r
  {
    var r := " " + ("by" + (" " + w));
    assert " group by " + w == " " + ("group" + r);
  }

  lemma GroupPresent(G: string, FT: string)
    requires Word(G) && ForPart(FT).Some?
    requires forall i :: 0 <= i < |FT| ==> IsDot(FT[i])
    requires forall i :: 1 <= i <= |FT| ==> ForPart(FT[i..]) == None
    ensures GroupPart(" group by " + (G + FT)) == Some(ForPart(FT).value.(groupBy := Some(G)))
  {
    GroupKeywords(G + FT);
    SpaceThen(G + FT);
    GreedyGroup(G, FT);
  }

  lemma GroupPresentAfterAlias(G: string, FT: string)
    requires Word(G) && ForPart(FT).Some?
    requires forall i :: 0 <= i < |FT| ==> IsDot(FT[i])
    requires forall i :: 1 <= i <= |FT| ==> ForPart(FT[i..]) == None
    ensures AfterAlias(" group by " + (G + FT)) == Some(ForPart(FT).value.(groupBy := Some(G)))
  {
    GroupPresent(G, FT);
  }

  /** Text that goes on with a word other than `group` has no `group by` part. */
  lemma GroupAbsent(t: string)
    requires |t| > 1 && t[0] == ' ' && t[1] != 'g' && !IsWs(t[1])
    ensures GroupPart(t) == None
  {
    SpaceThen(t[1..]);
    assert t == " " + t[1..];
  }

  lemma NoGroupAfterAlias(t: string)
    requires |t| > 1 && t[0] == ' ' && t[1] != 'g' && !IsWs(t[1])
    ensures AfterAlias(t) == ForPart(t)
  {
    GroupAbsent(t);
  }

  lemma ForTextHead(g: Groups)
    ensures |ForText(g)| > 1 && ForText(g)[0] == ' ' && ForText(g)[1] == 'f'
  {
    var rest := IterationText(g.iteration) + " in " + g.collection + TrackText(g);
    assert ForText(g) == " for " + rest;
  }

  lemma GroupStageAbsent(g: Groups)
    requires WellFormed(g) && g.groupBy.None?
    ensures AfterAlias(GroupText(g))
         == Some(Unfilled.(groupBy := g.groupBy, iteration := g.iteration, trackBy := g.trackBy,
                           collection := g.collection))
  {
    ForStage(g);
    ForNoGroup(g);
  }

  lemma ForNoGroup(g: Groups)
    ensures AfterAlias(ForText(g)) == ForPart(ForText(g))
  {
    ForTextHead(g);
    NoGroupAfterAlias(ForText(g));
  }

  lemma GroupOverFor(g: Groups)
    requires WellFormed(g) && g.groupBy.Some?
    ensures AfterAlias(" group by " + (g.groupBy.value + ForText(g)))
         == Some(Unfilled.(groupBy := g.groupBy, iteration := g.iteration, trackBy := g.trackBy,
                           collection := g.collection))
  {
    ForStage(g);
    ForTextDots(g);
    NoLaterFor(g);
    GroupPresentAfterAlias(g.groupBy.value, ForText(g));
  }

  lemma GroupStage(g: Groups)
    requires WellFormed(g)
    ensures AfterAlias(GroupText(g))
         == Some(Unfilled.(groupBy := g.groupBy, iteration := g.iteration, trackBy := g.trackBy,
                           collection := g.collection))
  {
    if g.groupBy.None? {
      GroupStageAbsent(g);
    } else {
      GroupOverFor(g);
    }
  }

  lemma GroupTextHead(g: Groups)
    ensures |GroupText(g)| > 1 && GroupText(g)[0] == ' ' && GroupText(g)[1] != 'a' && !IsWs(GroupText(g)[1])
  {
    ForTextHead(g);
  }

  /** Text that goes on with `for` or `group` has no `as` part. */
  lemma NoAliasAfterSelect(t: string)
    requires |t| > 1 && t[0] == ' ' && t[1] != 'a' && !IsWs(t[1])
    ensures AfterSelect(t) == AfterAlias(t)
  {
    SpaceThen(t[1..]);
    assert t == " " + t[1..];
    assert t[1..][0] == t[1];
    assert !StartsWith(t[1..], "as");
  }

  lemma AsKeywords(w: string)
    requires w != [] && !IsWs(w[0])
    ensures var t := " as " + w;
      WsRun(t) == 1 && StartsWith(t[1..], "as") && t[3..] == " " + w
  {
    var t := " as " + w;
    var u := "as" + (" " + w);
    assert t == " " + u;
    SpaceThen(u);
    KeywordThen("as", " " + w);
  }

  /** The lazy `(.*?)` after `as` ends where the alias word ends. */
  lemma AliasPresent(a: string, GT: string)
    requires Word(a) && |GT| > 1 && GT[0] == ' ' && AfterAlias(GT).Some?
    ensures AfterSelect(" as " + (a + GT)) == Some(AfterAlias(GT).value.(alias := Some(a)))
  {
    var w := a + GT;
    AsKeywords(w);
    SpaceThen(w);
    InsideWordFails(a, GT);
    AliasSkip(w, 0, |a|);
    assert w[|a|..] == GT && w[..|a|] == a;
  }

  lemma AliasStagePresent(g: Groups)
    requires WellFormed(g) && g.alias.Some?
    ensures AfterSelect(AliasText(g))
         == Some(Unfilled.(alias := g.alias, groupBy := g.groupBy, iteration := g.iteration,
                           trackBy := g.trackBy, collection := g.collection))
  {
    GroupStage(g);
    GroupTextHead(g);
    AliasPresent(g.alias.value, GroupText(g));
  }

  lemma AliasStageAbsent(g: Groups)
    requires WellFormed(g) && g.alias.None?
    ensures AfterSelect(AliasText(g))
         == Some(Unfilled.(alias := g.alias, groupBy := g.groupBy, iteration := g.iteration,
                           trackBy := g.trackBy, collection := g.collection))
  {
    GroupStage(g);
    GroupNoAlias(g);
  }

  lemma GroupNoAlias(g: Groups)
    ensures AfterSelect(GroupText(g)) == AfterAlias(GroupText(g))
  {
    GroupTextHead(g);
    NoAliasAfterSelect(GroupText(g));
  }

  lemma AliasStage(g: Groups)
    requires WellFormed(g)
    ensures AfterSelect(AliasText(g))
         == Some(Unfilled.(alias := g.alias, groupBy := g.groupBy, iteration := g.iteration,
                           trackBy := g.trackBy, collection := g.collection))
  {
    if g.alias.Some? {
      AliasStagePresent(g);
    } else {
      AliasStageAbsent(g);
    }
  }

  /** Matching a rendered expression gives back the groups it was rendered from. */
  lemma MatchRender(g: Groups)
    requires WellFormed(g)
    ensures Match(Render(g)) == Some(g)
  {
    var s, S, AT := Render(g), g.select, AliasText(g);
    assert s == S + AT;
    NoSpaceStart(s);
    assert s[0..] == s;
    InsideWordFails(S, AT);
    SelectSkip(s, 0, |S|);
    assert s[|S|..] == AT && s[..|S|] == S;
    AliasStage(g);
  }
}

/**
  Printing and parsing: what the parser makes of a whole sentence, and when a rendered
  tree is parsed back to itself.
*/
module PatternRoundTrip {
  import opened Wrappers
  import opened PatternText
  import opened PatternSpec
  import opened PatternSyntax
  import opened PatternProofs

  // ---------- Whole sentences ----------

  predicate AllSpaces(w: string) { forall k :: 0 <= k < |w| ==> IsSpace(w[k]) }

  /**
    Spaces in front of a pattern do not matter. Behind it they are accepted if and only if the text
    ends in a long form without argument list. Only a space ends the word of a short form: a tab or a
    line break behind it would belong to the word.
  */
  lemma SentenceParsed(e: Expr, front: string, back: string)
    requires Wf(e) && !e.Bare? && AllSpaces(front) && AllSpaces(back)
    requires TailOf(e) == WordTail && back != "" ==> back[0] == ' '
    ensures ParseTop(front + Show(e) + back) ==
      match Meaning(e)
      case None => Rejected
      case Some(t) => if back == "" || IsOpen(e) then Outcome.Tree(t) else Rejected
  {
    hide *;
    var s, i := front + Show(e) + back, |front|;
    var p := i + |Show(e)|;
    SentencePieces(front, Show(e), back);
    BeginsAt(e, s, i);
    SkipSpaceAt(s, 0, i);
    BackFollows(s, p, TailOf(e));
    OrReads(e, s, i);
    var r := ParseOr(s, i);
    ReadsMeans(s, i, r, Meaning(e), p, IsOpen(e));
    ReadsEnd(s, r, Meaning(e), p, IsOpen(e));
    TopStep(s, i);
  }

  lemma NoSpaces()
    ensures AllSpaces("")
  {
  }

  lemma SentencePieces(front: string, t: string, back: string)
    requires AllSpaces(front) && AllSpaces(back)
    ensures var s, i, p := front + t + back, |front|, |front| + |t|;
      && p <= |s| && Has(s, i, t) && (p == |s| <==> back == "")
      && (forall k :: 0 <= k < i ==> IsSpace(s[k])) && (forall k :: p <= k < |s| ==> IsSpace(s[k]))
      && (p < |s| ==> back != "" && At(s, p) == back[0])
  {
    var s, p := front + t + back, |front| + |t|;
    assert s[|front|..p] == t;
    forall k | p <= k < |s| ensures s[k] == back[k - p] {}
  }

  lemma BackFollows(s: string, p: nat, tail: Tail)
    requires p <= |s| && (forall k :: p <= k < |s| ==> IsSpace(s[k]))
    requires tail == WordTail && p < |s| ==> At(s, p) == ' '
    ensures SkipSpace(s, p) == |s| && Follows(s, p, tail)
    ensures IsStop(At(s, SkipSpace(s, p))) && At(s, SkipSpace(s, p)) != '|'
  {
    SkipSpaceAt(s, p, |s|);
  }

  lemma ReadsEnd(s: string, r: Parsed, m: Option<Tree>, p: nat, open: bool)
    requires p <= |s| && Reads(s, r, m, p, open)
    ensures m.Some? ==> r.Node? && r.tree == m.value && r.end == if open then SkipSpace(s, p) else p
    ensures m.None? || m.Some?
  {
  }

  lemma TopStep(s: string, i: nat)
    requires i <= |s| && SkipSpace(s, 0) == i
    ensures var r := ParseOr(s, i);
      ParseTop(s) == if r.Node? && r.end == |s| then Outcome.Tree(r.tree) else Rejected
  {
    hide ParseOr, SkipSpace;
  }

  // ---------- Rendered trees ----------

  /** Trees as the parser makes them from text without quotes. */
  predicate TreeOk(t: Tree) {
    match t
    case Word(w) => w != "" && IsLongWord(w)
    case Pattern(term, args, list) =>
      IsTerm(term) && (!list ==> args == []) && forall k :: 0 <= k < |args| ==> TreeOk(args[k])
  }

  /** No word begins with a space, tab or line break. */
  predicate Tight(t: Tree) {
    match t
    case Word(w) => w == "" || !IsSpace(w[0])
    case Pattern(_, args, _) => forall k :: 0 <= k < |args| ==> Tight(args[k])
  }

  /** The expression a rendered tree is the text of. */
  function Lift(t: Tree): Expr
  {
    match t
    case Word(w) => Bare(w)
    case Pattern(term, args, list) =>
      Long(term, seq(|args|, k requires 0 <= k < |args| => Lift(args[k])), list, args != [])
  }

  lemma LiftShows(t: Tree)
    requires TreeOk(t)
    ensures Show(Lift(t)) == Render(t) && (t.Pattern? <==> Lift(t).Long?)
    decreases t, 1, 0
  {
    if t.Pattern? && t.list { LiftShowsFrom(t, 0); }
  }

  lemma LiftShowsFrom(t: Tree, k: nat)
    requires TreeOk(t) && t.Pattern? && t.list && k <= |t.args|
    ensures Lift(t).Long? && |Lift(t).parts| == |t.args| && ShowFrom(Lift(t), k) == RenderArgs(t, k)
    decreases t, 0, |t.args| - k
  {
    if k < |t.args| {
      assert TreeOk(t.args[k]);
      LiftShows(t.args[k]);
      LiftShowsFrom(t, k + 1);
      assert Lift(t).parts[k] == Lift(t.args[k]) && Separator(Lift(t), k) == ",";
    }
  }

  lemma {:induction false} LiftIsWf(t: Tree)
    requires TreeOk(t)
    ensures Wf(Lift(t))
  {
    if t.Pattern? {
      forall k | 0 <= k < |t.args| ensures Wf(Lift(t.args[k])) {
        assert TreeOk(t.args[k]);
        LiftIsWf(t.args[k]);
      }
    }
  }

  /** A rendered tree stands for itself if and only if no word begins with a space. */
  lemma LiftMeans(t: Tree)
    requires TreeOk(t)
    ensures Meaning(Lift(t)) == Some(t) <==> Tight(t)
    decreases t, 1, 0
  {
    hide *;
    if t.Pattern? {
      LiftMeansFrom(t, 0);
      assert t.args[0..] == t.args;
      LiftedPattern(t);
    } else {
      WordNotEmpty(t);
      LiftedWord(t);
    }
  }

  lemma LiftedPattern(t: Tree)
    requires t.Pattern?
    ensures Lift(t).HasParts() && |Lift(t).parts| == |t.args|
    ensures Meaning(Lift(t)) == Some(t) <==> Meanings(Lift(t), 0) == Some(t.args)
    ensures Tight(t) <==> forall j :: 0 <= j < |t.args| ==> Tight(t.args[j])
  {
  }

  lemma LiftedWord(t: Tree)
    requires t.Word? && t.word != ""
    ensures Meaning(Lift(t)) == Some(t) <==> Tight(t)
  {
    hide StripLeft;
    StripKeeps(t.word);
    StripBegins(t.word);
  }

  lemma StripBegins(w: string)
    ensures StripLeft(w) != "" ==> !IsSpace(StripLeft(w)[0])
  {
  }

  lemma WordNotEmpty(t: Tree)
    requires TreeOk(t) && t.Word?
    ensures t.word != ""
  {
  }

  lemma StripKeeps(w: string)
    requires w != ""
    ensures StripLeft(w) == w <==> !IsSpace(w[0])
  {
  }

  lemma LiftMeansFrom(t: Tree, k: nat)
    requires TreeOk(t) && t.Pattern? && k <= |t.args|
    ensures Lift(t).HasParts() && |Lift(t).parts| == |t.args|
    ensures Meanings(Lift(t), k) == Some(t.args[k..]) <==> forall j :: k <= j < |t.args| ==> Tight(t.args[j])
    decreases t, 0, |t.args| - k
  {
    if k < |t.args| {
      assert TreeOk(t.args[k]) && Lift(t).parts[k] == Lift(t.args[k]);
      LiftMeans(t.args[k]);
      LiftMeansFrom(t, k + 1);
      FirstMeaning(Lift(t), k, t.args);
    } else {
      assert t.args[k..] == [];
    }
  }

  lemma FirstMeaning(e: Expr, k: nat, args: seq<Tree>)
    requires e.HasParts() && k < |e.parts| == |args|
    ensures Meanings(e, k) == Some(args[k..]) <==>
      Meaning(e.parts[k]) == Some(args[k]) && Meanings(e, k + 1) == Some(args[k + 1..])
  {
    assert args[k..] == [args[k]] + args[k + 1..];
    var m, ms := Meaning(e.parts[k]), Meanings(e, k + 1);
    if m.Some? && ms.Some? {
      var all := [m.value] + ms.value;
      assert Meanings(e, k) == Some(all);
      assert all[0] == m.value && all[1..] == ms.value;
      assert args[k..][0] == args[k] && args[k..][1..] == args[k + 1..];
    }
  }

  /** A rendered pattern is parsed back to itself if and only if no word begins with a space. */
  lemma RoundTrip(t: Tree)
    requires TreeOk(t) && t.Pattern?
    ensures ParseTop(Render(t)) == Outcome.Tree(t) <==> Tight(t)
  {
    hide *;
    LiftShows(t);
    LiftIsWf(t);
    LiftMeans(t);
    NoSpaces();
    SentenceParsed(Lift(t), "", "");
    assert "" + Show(Lift(t)) + "" == Render(t);
  }

  // ---------- Trees the parser makes ----------

  predicate QuoteFree(s: string) { forall k :: 0 <= k < |s| ==> s[k] != '"' }

  /** A parse function returned a pattern in order, or no node at all. */
  predicate Good(r: Parsed) { r.Node? ==> TreeOk(r.tree) && r.tree.Pattern? }

  predicate AllOk(nodes: seq<Tree>) { forall k :: 0 <= k < |nodes| ==> TreeOk(nodes[k]) }

  predicate AllGood(nodes: seq<Tree>) { forall k :: 0 <= k < |nodes| ==> TreeOk(nodes[k]) && nodes[k].Pattern? }

  lemma WrapOk(term: string, nodes: seq<Tree>)
    requires nodes != [] && AllGood(nodes) && IsTerm(term)
    ensures TreeOk(Wrap(term, nodes)) && Wrap(term, nodes).Pattern?
  {
  }

  lemma OrOk(s: string, i: nat)
    requires i <= |s| && QuoteFree(s)
    ensures Good(ParseOr(s, i))
    decreases |s| - i, 6
  {
    hide OrRest, ParseAnd, QuoteFree, TreeOk;
    AndOk(s, i);
    var r := ParseAnd(s, i);
    if r.Node? { OrRestOk(s, r.next, [r.tree], r.end); }
  }

  lemma OrRestOk(s: string, i: nat, nodes: seq<Tree>, end: nat)
    requires i <= |s| && nodes != [] && end <= i && QuoteFree(s) && AllGood(nodes)
    ensures Good(OrRest(s, i, nodes, end))
    decreases |s| - i, 7
  {
    hide ParseAnd, QuoteFree, TreeOk, Wrap, SkipSpace, IsTerm;
    var j := SkipSpace(s, i);
    if At(s, j) == '|' {
      AndOk(s, SkipSpace(s, j + 1));
      var r := ParseAnd(s, SkipSpace(s, j + 1));
      if r.Node? { OrRestOk(s, r.next, nodes + [r.tree], r.end); }
    } else {
      TermsOk();
      WrapOk("?or", nodes);
    }
  }

  lemma TermsOk()
    ensures IsTerm("?or") && IsTerm("?and") && IsTerm("?not")
  {
  }

  lemma AndOk(s: string, i: nat)
    requires i <= |s| && QuoteFree(s)
    ensures Good(ParseAnd(s, i))
    decreases |s| - i, 5
  {
    hide AndRest, QuoteFree, TreeOk;
    AndRestOk(s, i, [], i);
  }

  lemma AndRestOk(s: string, i: nat, nodes: seq<Tree>, end: nat)
    requires i <= |s| && end <= i && QuoteFree(s) && AllGood(nodes)
    ensures Good(AndRest(s, i, nodes, end))
    decreases |s| - i, 4
  {
    hide ParseUnary, QuoteFree, TreeOk, Wrap, SkipSpace, IsTerm;
    var j := SkipSpace(s, i);
    if nodes != [] {
      TermsOk();
      WrapOk("?and", nodes);
    }
    if j < |s| {
      UnaryOk(s, j);
      var r := ParseUnary(s, j);
      if r.Node? { AndRestOk(s, r.next, nodes + [r.tree], r.end); }
    }
  }

  lemma UnaryOk(s: string, i: nat)
    requires i <= |s| && QuoteFree(s)
    ensures Good(ParseUnary(s, i))
    decreases |s| - i, 3
  {
    hide ParsePrimary, QuoteFree;
    TermsOk();
    if At(s, i) == '!' { PrimaryOk(s, i + 1); } else { PrimaryOk(s, i); }
  }

  lemma PrimaryOk(s: string, i: nat)
    requires i <= |s| && QuoteFree(s)
    ensures Good(ParsePrimary(s, i))
    decreases |s| - i, 2
  {
    hide ParseShort, ParsePattern, ParseGroup, QuoteFree, TreeOk;
    ShortOk(s, i);
    PatternOk(s, i);
    GroupOk(s, i);
  }

  lemma GroupOk(s: string, i: nat)
    requires i <= |s| && QuoteFree(s)
    ensures Good(ParseGroup(s, i))
    decreases |s| - i, 1
  {
    hide ParseOr, QuoteFree, TreeOk, SkipSpace;
    if At(s, i) == '(' { OrOk(s, SkipSpace(s, i + 1)); }
  }

  /** Behind a short form anything may begin a word, else no space does. */
  lemma ArgumentOk(s: string, i: nat, shrt: bool)
    requires i <= |s| && QuoteFree(s) && (shrt || !IsSpace(At(s, i)))
    ensures ParseArgument(s, i, shrt).Node? ==> TreeOk(ParseArgument(s, i, shrt).tree)
    decreases |s| - i, 8
  {
    hide ParseOr, ParseWord, TreeOk;
    assert ParseQuotedWord(s, i) == Null(i);
    WordOk(s, i, shrt);
    OrOk(s, i);
  }

  lemma WordOk(s: string, i: nat, shrt: bool)
    requires i <= |s| && QuoteFree(s) && (shrt || !IsSpace(At(s, i)))
    ensures ParseWord(s, i, shrt).Node? ==> TreeOk(ParseWord(s, i, shrt).tree)
  {
    if !EndsShort(At(s, i)) {
      var j := WordEnd(s, i, shrt);
      var w := s[i..j];
      WordIs(s, i, j, shrt);
      hide StripLeft, WordEnd, EndsShort, EndsLong, QuoteFree, IsLongWord;
      assert ParseWord(s, i, shrt) == Node(Word(w), j, j);
    }
  }

  lemma WordIs(s: string, i: nat, j: nat, shrt: bool)
    requires i < j <= |s| && QuoteFree(s) && (shrt || !IsSpace(s[i])) && !EndsShort(s[i])
    requires forall k :: i <= k < j ==> !EndsWord(s[k], shrt)
    ensures IsLongWord(s[i..j])
  {
    var w := s[i..j];
    var core := StripLeft(w);
    assert forall k :: 0 <= k < |w| ==> w[k] == s[i + k];
    if core != "" {
      assert core[0] == w[|w| - |core|];
      if !shrt { StripKeeps(w); }
    }
    hide StripLeft;
  }

  lemma ShortOk(s: string, i: nat)
    requires i <= |s| && QuoteFree(s)
    ensures Good(ParseShort(s, i))
    decreases |s| - i, 1
  {
    hide ShortFormAt, FindShort, ParseArgument, QuoteFree, IsTerm;
    if At(s, i) == '~' {
      var k := FindShort(s, i + 1, 0);
      if k < SHORT_FORMS {
        LongNamesOk(k);
        ArgumentOk(s, i + 1 + |ShortFormAt(k).name|, true);
      }
    }
  }

  lemma PatternOk(s: string, i: nat)
    requires i <= |s| && QuoteFree(s)
    ensures Good(ParsePattern(s, i))
    decreases |s| - i, 1
  {
    if At(s, i) == '?' {
      var j := TermEnd(s, i + 1);
      if j > i + 1 {
        TermOk(s, i, j);
        hide ParseArgument, ArgsRest, QuoteFree, SkipSpace, TermEnd, IsTerm;
        var e := SkipSpace(s, j);
        if At(s, e) == '(' {
          var k := SkipSpace(s, e + 1);
          ArgumentOk(s, k, false);
          var r := ParseArgument(s, k, false);
          if r.Node? { ArgsRestOk(s, r.next, s[i..j], [r.tree]); }
        }
      }
    }
  }

  lemma TermOk(s: string, i: nat, j: nat)
    requires i + 1 < j <= |s| && At(s, i) == '?' && forall k :: i + 1 <= k < j ==> IsTermChar(s[k])
    ensures IsTerm(s[i..j])
  {
  }

  lemma ArgsRestOk(s: string, i: nat, term: string, args: seq<Tree>)
    requires i <= |s| && QuoteFree(s) && IsTerm(term) && AllOk(args)
    ensures Good(ArgsRest(s, i, term, args))
    decreases |s| - i, 9
  {
    hide ParseArgument, QuoteFree, SkipSpace, IsTerm;
    var j := SkipSpace(s, i);
    if At(s, j) == ',' {
      var k := SkipSpace(s, j + 1);
      if At(s, k) != ')' {
        ArgumentOk(s, k, false);
        var r := ParseArgument(s, k, false);
        if r.Node? { ArgsRestOk(s, r.next, term, args + [r.tree]); }
      }
    }
  }

  lemma LongNamesOk(k: nat)
    requires k < SHORT_FORMS
    ensures IsTerm(ShortFormAt(k).long)
  {
    hide *;
    if k < 8 { LongNamesOk1(k); }
    else if k < 16 { LongNamesOk2(k); }
    else if k < 20 { LongNamesOk3(k); }
    else if k < 24 { LongNamesOk4(k); }
    else if k < 32 { LongNamesOk5(k); }
    else if k < 37 { LongNamesOk6(k); }
    else { LongNamesOk7(k); }
  }

  lemma LongNamesOk1(k: nat) requires k < 8 ensures IsTerm(ShortFormAt(k).long) {}

  lemma LongNamesOk2(k: nat) requires 8 <= k < 16 ensures IsTerm(ShortFormAt(k).long) {}

  lemma LongNamesOk3(k: nat) requires 16 <= k < 20 ensures IsTerm(ShortFormAt(k).long) {}

  lemma LongNamesOk4(k: nat) requires 20 <= k < 24 ensures IsTerm(ShortFormAt(k).long) {}

  lemma LongNamesOk5(k: nat) requires 24 <= k < 32 ensures IsTerm(ShortFormAt(k).long) {}

  lemma LongNamesOk6(k: nat) requires 32 <= k < 37 ensures IsTerm(ShortFormAt(k).long) {}

  lemma LongNamesOk7(k: nat) requires 37 <= k < SHORT_FORMS ensures IsTerm(ShortFormAt(k).long) {}

  // ---------- Parse, render, parse ----------

  /** For text without quotes, parsing a rendered tree yields it again iff no word of it begins with a space. */
  lemma ParseRenderParse(s: string, t: Tree)
    requires QuoteFree(s) && ParseTop(s) == Outcome.Tree(t)
    ensures ParseTop(Render(t)) == Outcome.Tree(t) <==> Tight(t)
  {
    hide Render, Tight, TreeOk, QuoteFree, ParseOr;
    OrOk(s, SkipSpace(s, 0));
    RoundTrip(t);
  }

  /** The word behind ~n begins with a tab, which the long form would skip. */
  lemma TabIsLost(s: string, t: Tree)
    requires s == "~n\tx" && t == Pattern("?name", [Word("\tx")], true)
    ensures QuoteFree(s) && ParseTop(s) == Outcome.Tree(t) && ParseTop(Render(t)) != Outcome.Tree(t)
  {
    TabIsRead(s, t);
    assert !Tight(t.args[0]);
    hide ParseTop, TreeOk, Render;
    ParseRenderParse(s, t);
  }

  lemma TabIsRead(s: string, t: Tree)
    requires s == "~n\tx" && t == Pattern("?name", [Word("\tx")], true)
    ensures QuoteFree(s) && ParseTop(s) == Outcome.Tree(t)
  {
    NameIsFound(s);
    WordEndAt(s, 2, 4, true);
    NoSkip(s, 0);
    NoSkip(s, 4);
    assert s[2..4] == "\tx";
    assert ShortFormAt(31) == ShortForm("n", "?name", true);
    assert ParseWord(s, 2, true) == Node(Word("\tx"), 4, 4) && ParseQuotedWord(s, 2) == Null(2);
    TabArgument(s, t);
  }

  lemma TabArgument(s: string, t: Tree)
    requires |s| == 4 && At(s, 0) == '~' && t == Pattern("?name", [Word("\tx")], true)
    requires FindShort(s, 1, 0) == 31 && ShortFormAt(31) == ShortForm("n", "?name", true)
    requires ParseWord(s, 2, true) == Node(Word("\tx"), 4, 4) && ParseQuotedWord(s, 2) == Null(2)
    requires SkipSpace(s, 0) == 0 && SkipSpace(s, 4) == 4
    ensures ParseTop(s) == Outcome.Tree(t)
  {
    hide ShortFormAt, FindShort, ParseWord, ParseQuotedWord, SkipSpace;
    assert ParseArgument(s, 2, true) == Node(Word("\tx"), 4, 4);
    ShortStep(s, 0, 31);
    assert ParseUnary(s, 0) == Node(t, 4, 4);
    AndRestStep(s, 0, [], 0);
    AndStops(s, 4, [t], 4);
    OrStarts(s, 0);
    OrStops(s, 4, [t], 4);
    TopStep(s, 0);
  }

  lemma NameIsFound(s: string)
    requires s == "~n\tx"
    ensures FindShort(s, 1, 0) == 31
  {
    assert s[1..2] == "n";
    forall j: nat | j < 31 ensures !Has(s, 1, ShortFormAt(j).name) {
      assert ShortFormAt(j).name[0] != 'n';
      if Has(s, 1, ShortFormAt(j).name) { HasAt(s, 1, ShortFormAt(j).name, 0); }
    }
    FindIs(s, 1, 0, 31);
  }

  // ---------- Shorthand ----------

  lemma MeaningOk(e: Expr)
    requires Wf(e) && Meaning(e).Some? && Tight(Meaning(e).value)
    ensures TreeOk(Meaning(e).value) && (!e.Bare? ==> Meaning(e).value.Pattern?)
    decreases e, 1, 0
  {
    if e.HasParts() {
      ListMeaning(e);
      MeaningsOk(e, 0);
      ListTreeOk(e);
    } else if e.Short? {
      ShortMeaningOk(e);
    } else if e.Bare? {
      CoreOk(e.word);
    } else {
      InnerMeaning(e);
      MeaningOk(e.e);
      NotTreeOk(Meaning(e.e).value);
    }
  }

  /** What a list stands for, whatever list it is. */
  lemma ListMeaning(e: Expr)
    requires e.HasParts() && Wf(e) && Meaning(e).Some?
    ensures Meanings(e, 0).Some? && Meaning(e).value.Pattern? && Meaning(e).value.args == Meanings(e, 0).value
    ensures Tight(Meaning(e).value) ==> AllTight(Meanings(e, 0).value)
    ensures IsTerm(Meaning(e).value.term) && (!Meaning(e).value.list ==> Meanings(e, 0).value == [])
  {
    TermsOk();
    hide IsTerm;
  }

  lemma ListTreeOk(e: Expr)
    requires e.HasParts() && Meaning(e).Some? && Meaning(e).value.Pattern? && AllOk(Meaning(e).value.args)
    requires IsTerm(Meaning(e).value.term) && (!Meaning(e).value.list ==> Meaning(e).value.args == [])
    ensures TreeOk(Meaning(e).value)
  {
    hide Meaning, IsTerm;
  }

  lemma InnerMeaning(e: Expr)
    requires (e.Not? || e.Group?) && Wf(e) && Meaning(e).Some?
    ensures Wf(e.e) && !e.e.Bare? && Meaning(e.e).Some?
    ensures Meaning(e) == if e.Not? then Some(Pattern("?not", [Meaning(e.e).value], true)) else Meaning(e.e)
    ensures Tight(Meaning(e).value) ==> Tight(Meaning(e.e).value)
  {
    if e.Not? { assert [Meaning(e.e).value][0] == Meaning(e.e).value; }
  }

  lemma NotTreeOk(t: Tree)
    requires TreeOk(t)
    ensures TreeOk(Pattern("?not", [t], true))
  {
    TermsOk();
    hide IsTerm;
  }

  predicate AllTight(nodes: seq<Tree>) { forall k :: 0 <= k < |nodes| ==> Tight(nodes[k]) }

  lemma ShortMeaningOk(e: Expr)
    requires e.Short? && Wf(e) && Meaning(e).Some? && Tight(Meaning(e).value)
    ensures TreeOk(Meaning(e).value) && Meaning(e).value.Pattern?
  {
    hide *;
    ShortPieces(e);
    var sf := ShortFormAt(e.k);
    LongNamesOk(e.k);
    if sf.takesArgument {
      TightWord(sf.long, e.word);
      ShortWordOk(e.word);
    }
    ShortTreeOk(sf.long, Word(e.word));
  }

  lemma ShortTreeOk(long: string, w: Tree)
    requires IsTerm(long)
    ensures TreeOk(Pattern(long, [], false)) && (TreeOk(w) ==> TreeOk(Pattern(long, [w], true)))
  {
  }

  lemma TightWord(long: string, w: string)
    requires Tight(Pattern(long, [Word(w)], true))
    ensures w == "" || !IsSpace(w[0])
  {
    assert [Word(w)][0] == Word(w) && Tight(Word(w));
  }

  lemma ShortWordOk(w: string)
    requires IsShortWord(w) && (w == "" || !IsSpace(w[0]))
    ensures TreeOk(Word(w))
  {
    StripKeeps(w);
    hide StripLeft;
  }

  lemma CoreOk(w: string)
    requires IsLongWord(w) && StripLeft(w) != ""
    ensures TreeOk(Word(StripLeft(w)))
  {
    var core := StripLeft(w);
    CoreChars(w, core);
    StripKeeps(core);
    assert StripLeft(core) == core;
    hide StripLeft;
  }

  lemma CoreChars(w: string, core: string)
    requires IsLongWord(w) && core == StripLeft(w) != ""
    ensures !IsSpace(core[0]) && !EndsShort(core[0]) && core[0] != '"'
    ensures forall k :: 0 <= k < |core| ==> !EndsLong(core[k])
  {
    assert w[|w| - |core|..] == core;
    hide StripLeft, EndsShort;
    forall k | 0 <= k < |core| ensures !EndsLong(core[k]) { assert core[k] == w[|w| - |core| + k]; }
  }

  lemma MeaningsOk(e: Expr, k: nat)
    requires e.HasParts() && Wf(e) && k <= |e.parts|
    requires Meanings(e, k).Some? ==> AllTight(Meanings(e, k).value)
    ensures Meanings(e, k).Some? ==> AllOk(Meanings(e, k).value)
    decreases e, 0, |e.parts| - k
  {
    hide TreeOk, Wf, Tight;
    if k < |e.parts| {
      PartIsWf(e, k);
      var m, ms := Meaning(e.parts[k]), Meanings(e, k + 1);
      if m.Some? && ms.Some? {
        var all := [m.value] + ms.value;
        assert Meanings(e, k) == Some(all) && AllTight(all);
        assert all[0] == m.value && forall j :: 0 <= j < |ms.value| ==> ms.value[j] == all[j + 1];
        MeaningsOk(e, k + 1);
        MeaningOk(e.parts[k]);
      }
    }
  }

  lemma PartIsWf(e: Expr, k: nat)
    requires e.HasParts() && Wf(e) && k < |e.parts|
    ensures Wf(e.parts[k])
  {
  }

  /**
    Juxtaposition, bars, exclamation marks, groups and short forms are read as the long form of the
    tree they stand for would be.
  */
  lemma ShorthandIsLongForm(e: Expr)
    requires Wf(e) && !e.Bare? && Meaning(e).Some? && Tight(Meaning(e).value)
    ensures ParseTop(Show(e)) == ParseTop(Render(Meaning(e).value)) == Outcome.Tree(Meaning(e).value)
  {
    hide *;
    MeaningOk(e);
    NoSpaces();
    SentenceParsed(e, "", "");
    assert "" + Show(e) + "" == Show(e);
    RoundTrip(Meaning(e).value);
  }
}

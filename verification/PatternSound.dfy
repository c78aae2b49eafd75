/**
  Whatever the parser accepts is written by the grammar, and read as the tree the parser returns; so a
  text the grammar cannot write is rejected.
*/
module PatternSound {
  import opened PatternText
  import opened PatternSpec
  import opened PatternGrammar

  // ---------- Characters ----------

  lemma SpaceChars(c: char)
    ensures IsSpace(c) <==> c in SPACES
  {
    assert SPACES[0] == ' ' && SPACES[1] == '\t' && SPACES[2] == '\r' && SPACES[3] == '\n';
  }

  lemma WordEndChars(c: char)
    ensures EndsShort(c) <==> c in NOT_FIRST
    ensures EndsShort(c) <==> c in NOT_IN_SHORT
    ensures EndsLong(c) <==> c in NOT_IN_LONG
  {
    assert NOT_FIRST[0] == '!' && NOT_FIRST[1] == '?' && NOT_FIRST[2] == '~' && NOT_FIRST[3] == '|';
    assert NOT_FIRST[4] == ',' && NOT_FIRST[5] == '(' && NOT_FIRST[6] == ')' && NOT_FIRST[7] == ' ';
    assert NOT_FIRST[8] == '\0';
    assert NOT_IN_LONG[0] == '|' && NOT_IN_LONG[1] == ',' && NOT_IN_LONG[2] == '(' && NOT_IN_LONG[3] == ')';
    assert NOT_IN_LONG[4] == '\0';
  }

  lemma SkipIsSpaces(s: string, i: nat)
    requires i <= |s|
    ensures Spaces(s, i, SkipSpace(s, i))
  {
    forall k | i <= k < SkipSpace(s, i) ensures s[k] in SPACES { SpaceChars(s[k]); }
  }

  lemma MoreSpaces(s: string, i: nat, j: nat, k: nat)
    requires Spaces(s, i, j) && Spaces(s, j, k)
    ensures Spaces(s, i, k)
  {
  }

  /** Skipping spaces from the end of one thing to the beginning of the next. */
  lemma SkipOn(s: string, i: nat, j: nat)
    requires Spaces(s, i, j)
    ensures Spaces(s, i, SkipSpace(s, j))
  {
    SkipIsSpaces(s, j);
    MoreSpaces(s, i, j, SkipSpace(s, j));
  }

  /** A separator at b, and spaces around it. */
  lemma Separated(s: string, i: nat, b: nat, c: char)
    requires Spaces(s, i, b) && b < |s| && s[b] == c
    ensures Between(s, i, SkipSpace(s, b + 1), c)
  {
    SkipIsSpaces(s, b + 1);
  }

  // ---------- Words ----------

  lemma WordSound(s: string, i: nat, shrt: bool)
    requires i <= |s|
    ensures var r := ParseWord(s, i, shrt);
      r.Node? ==> r.end == r.next && GWord(s, i, r.end, r.tree, if shrt then NOT_IN_SHORT else NOT_IN_LONG)
  {
    var forbidden := if shrt then NOT_IN_SHORT else NOT_IN_LONG;
    var j := WordEnd(s, i, shrt);
    WordEndChars(At(s, i));
    forall k | i <= k < j ensures s[k] !in forbidden { WordEndChars(s[k]); }
  }

  lemma {:induction false} QuoteSound(s: string, i: nat)
    requires i <= |s|
    ensures NoneOf(s, i, QuoteEnd(s, i), "\"\0")
    decreases |s| - i
  {
    if At(s, i) != '"' && At(s, i) != '\0' { QuoteSound(s, i + 1); }
  }

  lemma QuotedSound(s: string, i: nat)
    requires i <= |s|
    ensures var r := ParseQuotedWord(s, i); r.Node? ==> r.end == r.next && GQuoted(s, i, r.end, r.tree)
  {
    if At(s, i) == '"' { QuoteSound(s, i + 1); }
  }

  // ---------- Patterns ----------

  /** What soundness says of one result. */
  ghost predicate OrIs(s: string, i: nat, r: Parsed) {
    r.Node? ==> GOr(s, i, r.end, r.tree) && Spaces(s, r.end, r.next)
  }

  lemma {:induction false} OrSound(s: string, i: nat)
    requires i <= |s|
    ensures OrIs(s, i, ParseOr(s, i))
    decreases |s| - i, 6
  {
    AndSound(s, i);
    var r := ParseAnd(s, i);
    if r.Node? {
      hide GAnd, Spaces;
      OrRestSound(s, i, r.next, [r.tree], r.end);
    }
  }

  lemma {:induction false} OrRestSound(s: string, i0: nat, i: nat, nodes: seq<Tree>, end: nat)
    requires i0 < end <= i <= |s| && GAlternatives(s, i0, end, nodes) && Spaces(s, end, i)
    requires nodes != []
    ensures OrIs(s, i0, OrRest(s, i, nodes, end))
    decreases |s| - i, 7
  {
    hide *;
    var j := SkipSpace(s, i);
    SkipOn(s, end, i);
    AlternativesAre(s, i, nodes, end);
    if At(s, j) == '|' {
      var p := SkipSpace(s, j + 1);
      AtIsInside(s, j);
      Separated(s, end, j, '|');
      AndSound(s, p);
      var r := ParseAnd(s, p);
      if r.Node? {
        AndAdvances(s, p);
        OneMoreAlternative(s, i0, end, p, r.end, nodes, r.tree);
        OrRestSound(s, i0, r.next, nodes + [r.tree], r.end);
      }
    } else {
      WrapIsOr(s, i0, end, nodes);
    }
    Sound(s, i0, OrRest(s, i, nodes, end));
  }

  lemma Sound(s: string, i: nat, r: Parsed)
    ensures OrIs(s, i, r) <==> (r.Node? ==> GOr(s, i, r.end, r.tree) && Spaces(s, r.end, r.next))
  {
  }

  lemma AlternativesAre(s: string, i: nat, nodes: seq<Tree>, end: nat)
    requires i <= |s| && nodes != [] && end <= i
    ensures var j := SkipSpace(s, i);
      if At(s, j) == '|' then
        j < |s| && var r := ParseAnd(s, SkipSpace(s, j + 1));
        OrRest(s, i, nodes, end) == if r.Node? then OrRest(s, r.next, nodes + [r.tree], r.end) else Error
      else OrRest(s, i, nodes, end) == Node(Wrap("?or", nodes), end, j)
  {
    hide ParseAnd;
  }

  lemma AndAdvances(s: string, p: nat)
    requires p <= |s|
    ensures var r := ParseAnd(s, p); r.Node? ==> p < r.end <= r.next <= |s|
  {
  }

  lemma OneMoreAlternative(s: string, i: nat, m: nat, n: nat, j: nat, nodes: seq<Tree>, t: Tree)
    requires i < m <= n < j <= |s| && nodes != [] && GAlternatives(s, i, m, nodes) && Between(s, m, n, '|')
    requires GAnd(s, n, j, t)
    ensures GAlternatives(s, i, j, nodes + [t])
  {
    hide GAnd;
    var more := nodes + [t];
    assert more[..|more| - 1] == nodes;
    assert LastAlternative(s, i, m, n, j, more);
  }

  lemma WrapIsOr(s: string, i: nat, j: nat, nodes: seq<Tree>)
    requires nodes != [] && GAlternatives(s, i, j, nodes)
    ensures GOr(s, i, j, Wrap("?or", nodes))
  {
    hide GAnd;
  }

  lemma {:induction false} AndSound(s: string, i: nat)
    requires i <= |s|
    ensures var r := ParseAnd(s, i); r.Node? ==> GAnd(s, i, r.end, r.tree) && Spaces(s, r.end, r.next)
    decreases |s| - i, 5
  {
    AndRestSound(s, i, i, [], i);
  }

  lemma {:induction false} AndRestSound(s: string, i0: nat, i: nat, nodes: seq<Tree>, end: nat)
    requires i0 <= end <= i <= |s| && Spaces(s, end, i)
    requires if nodes == [] then end == i0 else i0 < end && GSequence(s, i0, end, nodes)
    ensures var r := AndRest(s, i, nodes, end); r.Node? ==> GAnd(s, i0, r.end, r.tree) && Spaces(s, r.end, r.next)
    decreases |s| - i, 4
  {
    var j := SkipSpace(s, i);
    SkipOn(s, end, i);
    hide GUnary, Spaces;
    if |nodes| == 1 { assert nodes == [nodes[0]]; }
    if j < |s| {
      UnarySound(s, j);
      var r := ParseUnary(s, j);
      if r.Node? {
        var more := nodes + [r.tree];
        assert more[..|more| - 1] == nodes;
        assert LastInSequence(s, i0, end, j, r.end, more);
        AndRestSound(s, i0, r.next, more, r.end);
      }
    }
  }

  lemma {:induction false} UnarySound(s: string, i: nat)
    requires i <= |s|
    ensures var r := ParseUnary(s, i); r.Node? ==> GUnary(s, i, r.end, r.tree) && Spaces(s, r.end, r.next)
    decreases |s| - i, 3
  {
    hide GPrimary, Spaces;
    if At(s, i) != '!' { PrimarySound(s, i); } else { PrimarySound(s, i + 1); }
  }

  lemma {:induction false} PrimarySound(s: string, i: nat)
    requires i <= |s|
    ensures var r := ParsePrimary(s, i); r.Node? ==> GPrimary(s, i, r.end, r.tree) && Spaces(s, r.end, r.next)
    decreases |s| - i, 2
  {
    ShortSound(s, i);
    LongSound(s, i);
    GroupSound(s, i);
    hide GShort, GLong, GGroup, Spaces;
  }

  lemma {:induction false} GroupSound(s: string, i: nat)
    requires i <= |s|
    ensures var r := ParseGroup(s, i); r.Node? ==> GGroup(s, i, r.end, r.tree) && r.end == r.next
    decreases |s| - i, 1
  {
    if At(s, i) == '(' {
      var p := SkipSpace(s, i + 1);
      SkipIsSpaces(s, i + 1);
      OrSound(s, p);
      var r := ParseOr(s, p);
      if r.Node? {
        SkipOn(s, r.end, r.next);
        hide GOr;
      }
    }
  }

  lemma {:induction false} ArgumentSound(s: string, i: nat, shrt: bool)
    requires i <= |s|
    ensures var r := ParseArgument(s, i, shrt);
      r.Node? ==>
        GArgument(s, i, r.end, r.tree, if shrt then NOT_IN_SHORT else NOT_IN_LONG) && Spaces(s, r.end, r.next)
    decreases |s| - i, 8
  {
    QuotedSound(s, i);
    WordSound(s, i, shrt);
    OrSound(s, i);
    hide GQuoted, GWord, GOr;
  }

  /** The name found in the table stands behind the tilde. */
  lemma ShortFacts(s: string, i: nat)
    requires i < |s|
    ensures var k := FindShort(s, i + 1, 0);
      k < SHORT_FORMS ==> Has(s, i + 1, ShortFormAt(k).name) && i + 1 + |ShortFormAt(k).name| <= |s|
  {
    hide ShortFormAt, FindShort;
  }

  lemma {:induction false} ShortSound(s: string, i: nat)
    requires i <= |s|
    ensures var r := ParseShort(s, i); r.Node? ==> GShort(s, i, r.end, r.tree) && r.end == r.next
    decreases |s| - i, 1
  {
    hide GArgument, ShortFormAt, FindShort, Spaces;
    if At(s, i) == '~' {
      var k := FindShort(s, i + 1, 0);
      ShortFacts(s, i);
      if k < SHORT_FORMS {
        var j := i + 1 + |ShortFormAt(k).name|;
        EmptySpaces(s, j);
        if ShortFormAt(k).takesArgument {
          ArgumentSound(s, j, true);
          var r := ParseArgument(s, j, true);
          if r.Node? {
            var t := Pattern(ShortFormAt(k).long, [r.tree], true);
            assert t.args[0] == r.tree && GShortArgument(s, j, r.end, r.next, t.args[0]);
            assert GShortForm(s, i, r.next, t, k);
          }
        } else {
          assert GShortForm(s, i, j, Pattern(ShortFormAt(k).long, [], false), k);
        }
      }
    }
  }

  lemma {:induction false} LongSound(s: string, i: nat)
    requires i <= |s|
    ensures var r := ParsePattern(s, i); r.Node? ==> GLong(s, i, r.end, r.tree) && r.end == r.next
    decreases |s| - i, 1
  {
    if At(s, i) == '?' {
      var j := TermEnd(s, i + 1);
      assert NameChars(s, i + 1, j);
      if j > i + 1 {
        var e := SkipSpace(s, j);
        SkipIsSpaces(s, j);
        hide GArguments, NameChars, Spaces;
        if At(s, e) != '(' {
          assert GName(s, i, j, e, Pattern(s[i..j], [], false));
        } else {
          ListSound(s, i, j, e);
        }
      }
    }
  }

  lemma ListIs(s: string, i: nat, j: nat, o: nat)
    requires i + 1 < j <= o < |s| && s[i] == '?' && s[o] == '(' && TermEnd(s, i + 1) == j && SkipSpace(s, j) == o
    ensures var k := SkipSpace(s, o + 1);
      ParsePattern(s, i) ==
        if At(s, k) == ')' then Node(Pattern(s[i..j], [], true), k + 1, k + 1)
        else if ParseArgument(s, k, false).Node? then
          ArgsRest(s, ParseArgument(s, k, false).next, s[i..j], [ParseArgument(s, k, false).tree])
        else Error
  {
    hide ParseArgument, ArgsRest;
  }

  lemma RestIs(s: string, i: nat, term: string, args: seq<Tree>)
    requires i <= |s|
    ensures var j := SkipSpace(s, i);
      && (At(s, j) == ',' ==>
            var k := SkipSpace(s, j + 1);
            var a := ParseArgument(s, k, false);
            ArgsRest(s, i, term, args) ==
              if At(s, k) == ')' then Node(Pattern(term, args, true), k + 1, k + 1)
              else if a.Node? then ArgsRest(s, a.next, term, args + [a.tree]) else Error)
      && (At(s, j) == ')' ==> ArgsRest(s, i, term, args) == Node(Pattern(term, args, true), j + 1, j + 1))
      && (At(s, j) != ',' && At(s, j) != ')' ==> ArgsRest(s, i, term, args) == Error)
  {
    hide ParseArgument;
  }

  lemma ListIsLong(s: string, i: nat, j: nat, o: nat, end: nat, t: Tree)
    requires i + 1 < j <= o < end <= |s| && s[i] == '?' && NameChars(s, i + 1, j) && IsListOf(t, s[i..j])
    requires GList(s, j, o, end, t.args)
    ensures GLong(s, i, end, t)
  {
    hide GList, NameChars;
    assert GName(s, i, j, end, t);
  }

  lemma EmptyList(s: string, e: nat, o: nat, k: nat)
    requires e <= o < k < |s| && Spaces(s, e, o) && s[o] == '(' && Spaces(s, o + 1, k) && s[k] == ')'
    ensures GList(s, e, o, k + 1, [])
  {
  }

  /** The list in the parenthesis at o of the long form from i whose name ends at j. */
  lemma {:induction false} ListSound(s: string, i: nat, j: nat, o: nat)
    requires i + 1 < j <= o < |s| && s[i] == '?' && NameChars(s, i + 1, j) && Spaces(s, j, o) && s[o] == '('
    requires TermEnd(s, i + 1) == j && SkipSpace(s, j) == o
    ensures var r := ParsePattern(s, i); r.Node? ==> GLong(s, i, r.end, r.tree) && r.end == r.next
    decreases |s| - o, 10
  {
    hide *;
    var k, term := SkipSpace(s, o + 1), s[i..j];
    SkipIsSpaces(s, o + 1);
    ListIs(s, i, j, o);
    if At(s, k) == ')' {
      AtIsInside(s, k);
      EmptyList(s, j, o, k);
      IsList(term, []);
      ListIsLong(s, i, j, o, k + 1, Pattern(term, [], true));
    } else if ParseArgument(s, k, false).Node? {
      FilledListSound(s, j, o, term);
      var r := ParsePattern(s, i);
      if r.Node? { ListIsLong(s, i, j, o, r.end, r.tree); }
    }
  }

  lemma IsList(term: string, args: seq<Tree>)
    ensures IsListOf(Pattern(term, args, true), term)
  {
  }

  lemma {:induction false} FilledListSound(s: string, j: nat, o: nat, term: string)
    requires j <= o < |s| && Spaces(s, j, o) && s[o] == '('
    requires ParseArgument(s, SkipSpace(s, o + 1), false).Node?
    ensures var a := ParseArgument(s, SkipSpace(s, o + 1), false);
      var r := ArgsRest(s, a.next, term, [a.tree]);
      r.Node? ==> r.end == r.next <= |s| && o < r.end && IsListOf(r.tree, term) && GList(s, j, o, r.end, r.tree.args)
    decreases |s| - o, 9
  {
    hide *;
    var k := SkipSpace(s, o + 1);
    var a := ParseArgument(s, k, false);
    SkipIsSpaces(s, o + 1);
    ArgumentSound(s, k, false);
    ArgumentAdvances(s, k);
    FirstArgument(s, o + 1, k, a.end, a.tree);
    ArgsRestSound(s, j, o, a.end, a.next, term, [a.tree]);
  }

  lemma ArgumentAdvances(s: string, k: nat)
    requires k <= |s|
    ensures var a := ParseArgument(s, k, false); a.Node? ==> k < a.end <= a.next <= |s|
  {
  }

  predicate IsListOf(t: Tree, term: string) { t.Pattern? && t.term == term && t.list }

  lemma EmptySpaces(s: string, i: nat)
    requires i <= |s|
    ensures Spaces(s, i, i)
  {
  }

  lemma FirstArgument(s: string, i: nat, n: nat, j: nat, t: Tree)
    requires i <= n < j <= |s| && Spaces(s, i, n) && GArgument(s, n, j, t, NOT_IN_LONG)
    ensures GArguments(s, i, j, [t])
  {
    assert LastArgument(s, i, i, n, j, [t]);
  }

  lemma {:induction false} ArgsRestSound(s: string, e: nat, o: nat, m: nat, i: nat, term: string, args: seq<Tree>)
    requires e <= o && o + 1 < m <= i <= |s| && Spaces(s, e, o) && s[o] == '('
    requires args != [] && GArguments(s, o + 1, m, args) && Spaces(s, m, i)
    ensures var r := ArgsRest(s, i, term, args);
      r.Node? ==> r.end == r.next <= |s| && o < r.end && IsListOf(r.tree, term) && GList(s, e, o, r.end, r.tree.args)
    decreases |s| - i, 9
  {
    hide *;
    var j := SkipSpace(s, i);
    SkipOn(s, m, i);
    RestIs(s, i, term, args);
    AtIsInside(s, j);
    IsList(term, args);
    if At(s, j) == ',' {
      var k := SkipSpace(s, j + 1);
      AtIsInside(s, k);
      Separated(s, m, j, ',');
      if At(s, k) == ')' {
        ListEnds(s, e, o, m, k, args);
      } else {
        var r := ParseArgument(s, k, false);
        if r.Node? {
          ArgumentSound(s, k, false);
          ArgumentAdvances(s, k);
          OneMoreArgument(s, o + 1, m, k, r.end, args, r.tree);
          ArgsRestSound(s, e, o, r.end, r.next, term, args + [r.tree]);
        }
      }
    } else if At(s, j) == ')' {
      ListEnds(s, e, o, m, j, args);
    }
  }

  lemma AtIsInside(s: string, k: nat)
    requires k <= |s|
    ensures At(s, k) == ')' || At(s, k) == ',' || At(s, k) == '|' ==> k < |s| && s[k] == At(s, k)
  {
  }

  lemma ListEnds(s: string, e: nat, o: nat, m: nat, k: nat, args: seq<Tree>)
    requires e <= o && o + 1 < m <= k < |s| && Spaces(s, e, o) && s[o] == '(' && s[k] == ')'
    requires args != [] && GArguments(s, o + 1, m, args) && (Spaces(s, m, k) || Between(s, m, k, ','))
    ensures GList(s, e, o, k + 1, args)
  {
    hide GArguments, Spaces, Between;
    assert GArgumentList(s, o, m, k + 1, args);
  }

  lemma OneMoreArgument(s: string, i: nat, m: nat, n: nat, j: nat, args: seq<Tree>, t: Tree)
    requires i < m <= n < j <= |s| && args != [] && GArguments(s, i, m, args) && Between(s, m, n, ',')
    requires GArgument(s, n, j, t, NOT_IN_LONG)
    ensures GArguments(s, i, j, args + [t])
  {
    var more := args + [t];
    assert more[..|more| - 1] == args;
    assert LastArgument(s, i, m, n, j, more);
  }

  /** An accepted sentence is a pattern of the grammar with nothing but spaces in front. */
  lemma AcceptedIsWritten(s: string, t: Tree)
    requires ParseTop(s) == Outcome.Tree(t)
    ensures exists i: nat :: Spaces(s, 0, i) && GOr(s, i, |s|, t)
  {
    var i := SkipSpace(s, 0);
    SkipIsSpaces(s, 0);
    OrSound(s, i);
  }

  /** A text the grammar cannot write is rejected. */
  lemma UnwritableIsRejected(s: string)
    requires forall i: nat, t: Tree :: Spaces(s, 0, i) ==> !GOr(s, i, |s|, t)
    ensures ParseTop(s) == Rejected
  {
    if ParseTop(s) != Rejected { AcceptedIsWritten(s, ParseTop(s).tree); }
  }

  // ---------- Quoted words ----------

  lemma {:induction false} QuoteEndAt(s: string, i: nat, j: nat)
    requires i <= j <= |s| && NoneOf(s, i, j, "\"\0") && (At(s, j) == '"' || At(s, j) == '\0')
    ensures QuoteEnd(s, i) == j
    decreases j - i
  {
    if i < j { QuoteEndAt(s, i + 1, j); }
  }

  /** Whatever stands between two quotes is the word, brackets and spaces included; a missing quote is an error. */
  lemma QuotedRead(s: string, i: nat, j: nat, shrt: bool)
    requires i < j <= |s| && s[i] == '"' && NoneOf(s, i + 1, j, "\"\0")
    ensures j < |s| && s[j] == '"' ==> ParseArgument(s, i, shrt) == Node(Word(s[i + 1..j]), j + 1, j + 1)
    ensures j == |s| || s[j] == '\0' ==> ParseArgument(s, i, shrt) == Error
  {
    if At(s, j) == '"' || At(s, j) == '\0' { QuoteEndAt(s, i + 1, j); }
    hide ParseWord, ParseOr;
  }
}

/**
  The parser reads back what the surface syntax writes.
*/
module PatternProofs {
  import opened Wrappers
  import opened PatternText
  import opened PatternSpec
  import opened PatternSyntax

  // ---------- Text at a place ----------

  lemma HasBoth(s: string, i: nat, a: string, b: string)
    requires Has(s, i, a + b)
    ensures Has(s, i, a) && Has(s, i + |a|, b)
  {
    assert s[i..i + |a + b|][..|a|] == a;
    assert s[i..i + |a|] == s[i..i + |a + b|][..|a|];
    assert s[i..i + |a + b|][|a|..] == b;
    assert s[i + |a|..i + |a| + |b|] == s[i..i + |a + b|][|a|..];
  }

  lemma HasAt(s: string, i: nat, t: string, k: nat)
    requires Has(s, i, t) && k < |t|
    ensures i + k < |s| && At(s, i + k) == s[i + k] == t[k]
  {
    assert s[i..i + |t|][k] == t[k];
  }

  lemma NoSkip(s: string, i: nat)
    requires i <= |s| && !IsSpace(At(s, i))
    ensures SkipSpace(s, i) == i
  {
  }

  /** What may follow an expression. */
  predicate IsBreak(c: char) { c == ' ' || c == '|' || c == ')' || c == ',' || c == '\0' }

  predicate Follows(s: string, p: nat, tail: Tail) {
    && p <= |s| && (IsBreak(At(s, p)) || (tail != WordTail && IsSpace(At(s, p))))
    && (tail == OpenTail ==> At(s, SkipSpace(s, p)) != '(')
  }

  predicate Begins(c: char) { c == '!' || c == '~' || c == '?' || c == '(' }

  /** Every expression but a bare word begins with a character no word can begin with. */
  lemma {:induction false} FirstChar(e: Expr)
    requires Wf(e) && !e.Bare?
    ensures Show(e) != "" && Begins(Show(e)[0]) && (Show(e)[0] == '(' && e.IsUnary() ==> e.Group?)
    decreases e
  {
    if e.Or? || e.And? {
      FirstPart(e);
      FirstChar(e.parts[0]);
      hide *;
      FirstOfThree(Show(e.parts[0]), Separator(e, 0), ShowFrom(e, 1));
    } else {
      FirstOfUnary(e);
    }
  }

  lemma FirstPart(e: Expr)
    requires Wf(e) && (e.Or? || e.And?)
    ensures |e.parts| >= 2 && Wf(e.parts[0]) && !e.parts[0].Bare? && e.HasParts() && !e.IsUnary()
    ensures Show(e) == Show(e.parts[0]) + Separator(e, 0) + ShowFrom(e, 1)
  {
    assert Wf(e.parts[0]);
  }

  lemma FirstOfThree(a: string, b: string, c: string)
    requires a != ""
    ensures a + b + c != "" && (a + b + c)[0] == a[0]
  {
  }

  lemma FirstOfUnary(e: Expr)
    requires Wf(e) && e.IsUnary()
    ensures Show(e) != "" && Begins(Show(e)[0])
    ensures Show(e)[0] == match e case Not(_) => '!' case Group(_) => '(' case Short(_, _) => '~' case _ => '?'
  {
    if e.Not? { assert Begins(Show(e)[0]); }
    else if e.Group? { assert Show(e)[0] == '('; assert Begins(Show(e)[0]); }
    else if e.Short? { assert Show(e)[0] == '~'; assert Begins(Show(e)[0]); }
    else { assert Show(e)[0] == e.term[0] == '?'; assert Begins(Show(e)[0]); }
  }

  /** r is the node m stands for, ending at p; or an error if m stands for nothing. */
  predicate Reads(s: string, r: Parsed, m: Option<Tree>, p: nat, open: bool)
    requires p <= |s|
  {
    match m
    case None => r.Error?
    case Some(t) =>
      && r.Node? && r.tree == t && r.end == (if open then SkipSpace(s, p) else p)
      && p <= r.next <= |s| && SkipSpace(s, r.next) == SkipSpace(s, p)
  }

  // ---------- Nothing to parse ----------

  /** Where an alternative, a list or the text ends there is no further pattern. */
  predicate IsStop(c: char) { c == '|' || c == ')' || c == ',' || c == '\0' }

  lemma NothingAt(s: string, i: nat)
    requires i <= |s| && IsStop(At(s, i))
    ensures ParseUnary(s, i) == Null(i)
  {
    assert ParseShort(s, i) == Null(i) && ParsePattern(s, i) == Null(i) && ParseGroup(s, i) == Null(i);
    assert ParsePrimary(s, i) == Null(i);
  }

  lemma AndStops(s: string, i: nat, nodes: seq<Tree>, end: nat)
    requires i <= |s| && end <= i && IsStop(At(s, SkipSpace(s, i)))
    ensures AndRest(s, i, nodes, end) ==
      if nodes == [] then Null(SkipSpace(s, i)) else Node(Wrap("?and", nodes), end, SkipSpace(s, i))
  {
    hide ParseUnary;
    NothingAt(s, SkipSpace(s, i));
  }

  lemma OrStops(s: string, i: nat, nodes: seq<Tree>, end: nat)
    requires i <= |s| && nodes != [] && end <= i && At(s, SkipSpace(s, i)) != '|'
    ensures OrRest(s, i, nodes, end) == Node(Wrap("?or", nodes), end, SkipSpace(s, i))
  {
    hide ParseAnd;
  }

  lemma NoArgument(s: string, i: nat)
    requires i <= |s| && At(s, i) == ','
    ensures ParseArgument(s, i, false) == Error
  {
    NoSkip(s, i);
    AndStops(s, i, [], i);
    assert ParseAnd(s, i) == Null(i) && ParseOr(s, i) == Null(i);
    assert ParseQuotedWord(s, i) == Null(i) && ParseWord(s, i, false) == Null(i);
    hide AndRest, ParseUnary, OrRest;
  }

  // ---------- Primaries ----------

  lemma TermEndAt(s: string, i: nat, p: nat)
    requires i <= p <= |s| && (forall k :: i <= k < p ==> IsTermChar(s[k])) && !IsTermChar(At(s, p))
    ensures TermEnd(s, i) == p
    decreases p - i
  {
    if i < p { TermEndAt(s, i + 1, p); }
  }

  lemma WordEndAt(s: string, i: nat, p: nat, shrt: bool)
    requires i <= p <= |s| && (forall k :: i <= k < p ==> !EndsWord(s[k], shrt)) && EndsWord(At(s, p), shrt)
    ensures WordEnd(s, i, shrt) == p
    decreases p - i
  {
    if i < p { WordEndAt(s, i + 1, p, shrt); }
  }

  /** The name of a long form stands at i. */
  lemma TermAt(s: string, i: nat, term: string)
    requires IsTerm(term) && Has(s, i, term) && i + |term| <= |s| && !IsTermChar(At(s, i + |term|))
    ensures At(s, i) == '?' && TermEnd(s, i + 1) == i + |term| && s[i..i + |term|] == term
  {
    HasAt(s, i, term, 0);
    forall k | i + 1 <= k < i + |term| ensures IsTermChar(s[k]) { HasAt(s, i, term, k - i); }
    TermEndAt(s, i + 1, i + |term|);
  }

  lemma LongWithoutList(s: string, i: nat, term: string)
    requires IsTerm(term) && Has(s, i, term) && Follows(s, i + |term|, OpenTail)
    ensures var e := SkipSpace(s, i + |term|);
      ParsePrimary(s, i) == Node(Pattern(term, [], false), e, e)
  {
    TermAt(s, i, term);
    hide TermEnd, SkipSpace, ParseArgument;
  }

  /** The names in the table have no character that may follow an expression. */
  lemma NamesInRange(j: nat, k: nat)
    requires j < SHORT_FORMS && k < |ShortFormAt(j).name|
    ensures '-' <= ShortFormAt(j).name[k] <= 'z'
  {
    if 5 <= j < 10 { DependsNames(j, k); }
    else if 10 <= j < 15 { MoreDependsNames(j, k); }
    else if 16 <= j < 21 { ReverseNames(j, k); }
    else if 21 <= j < 26 { MoreReverseNames(j, k); }
    else { LetterNames(j, k); }
  }

  lemma LetterNames(j: nat, k: nat)
    requires j < SHORT_FORMS && !(5 <= j < 15) && !(16 <= j < 26) && k < |ShortFormAt(j).name|
    ensures '-' <= ShortFormAt(j).name[k] <= 'z'
  {
  }

  lemma DependsNames(j: nat, k: nat)
    requires 5 <= j < 10 && k < |ShortFormAt(j).name|
    ensures '-' <= ShortFormAt(j).name[k] <= 'z'
  {
  }

  lemma MoreDependsNames(j: nat, k: nat)
    requires 10 <= j < 15 && k < |ShortFormAt(j).name|
    ensures '-' <= ShortFormAt(j).name[k] <= 'z'
  {
  }

  lemma ReverseNames(j: nat, k: nat)
    requires 16 <= j < 21 && k < |ShortFormAt(j).name|
    ensures '-' <= ShortFormAt(j).name[k] <= 'z'
  {
  }

  lemma MoreReverseNames(j: nat, k: nat)
    requires 21 <= j < 26 && k < |ShortFormAt(j).name|
    ensures '-' <= ShortFormAt(j).name[k] <= 'z'
  {
  }

  /** A name found where `text` stands is found within it. */
  lemma NameWithin(s: string, i: nat, text: string, j: nat)
    requires j < SHORT_FORMS && Has(s, i, text) && Follows(s, i + |text|, ClosedTail) && Has(s, i, ShortFormAt(j).name)
    ensures Has(text, 0, ShortFormAt(j).name)
  {
    hide ShortFormAt;
    var name := ShortFormAt(j).name;
    if |name| <= |text| {
      assert text[0..0 + |name|] == s[i..i + |name|];
    } else {
      HasAt(s, i, name, |text|);
      NamesInRange(j, |text|);
    }
  }

  /** What follows a short form does not change which entry of the table is found. */
  lemma FoundHere(s: string, i: nat, k: nat, word: string)
    requires k < SHORT_FORMS && FoundFirst(k, word) && Has(s, i, ShortFormAt(k).name + word)
    requires Follows(s, i + |ShortFormAt(k).name + word|, ClosedTail)
    ensures FindShort(s, i, 0) == k
  {
    hide ShortFormAt, Has, Follows;
    HasBoth(s, i, ShortFormAt(k).name, word);
    forall j: nat | j < k ensures !Has(s, i, ShortFormAt(j).name) {
      if Has(s, i, ShortFormAt(j).name) { NameWithin(s, i, ShortFormAt(k).name + word, j); }
    }
    FoundInBounds(s, i, ShortFormAt(k).name);
    FindIs(s, i, 0, k);
  }

  lemma FoundInBounds(s: string, i: nat, t: string)
    requires Has(s, i, t)
    ensures i <= |s|
  {
  }

  lemma {:induction false} FindIs(s: string, i: nat, j: nat, k: nat)
    requires i <= |s| && j <= k < SHORT_FORMS && Has(s, i, ShortFormAt(k).name)
    requires forall m :: j <= m < k ==> !Has(s, i, ShortFormAt(m).name)
    ensures FindShort(s, i, j) == k
    decreases k - j
  {
    hide ShortFormAt, Has;
    if j < k { FindIs(s, i, j + 1, k); }
  }

  lemma ShortWordAt(s: string, i: nat, word: string)
    requires IsShortWord(word) && Has(s, i, word) && Follows(s, i + |word|, WordTail)
    ensures ParseArgument(s, i, true) == Node(Word(word), i + |word|, i + |word|)
  {
    HasAt(s, i, word, 0);
    forall k | i <= k < i + |word| ensures !EndsWord(s[k], true) { HasAt(s, i, word, k - i); }
    WordEndAt(s, i, i + |word|, true);
    assert ParseQuotedWord(s, i) == Null(i);
    hide ParseOr, WordEnd;
  }

  lemma ShortReads(s: string, i: nat, e: Expr)
    requires e.Short? && Wf(e) && Has(s, i, Show(e)) && Follows(s, i + |Show(e)|, TailOf(e))
    ensures Reads(s, ParsePrimary(s, i), Meaning(e), i + |Show(e)|, false)
  {
    hide *;
    ShortPieces(e);
    var name, p := ShortFormAt(e.k).name, i + |Show(e)|;
    HasBoth(s, i, "~", name + e.word);
    HasAt(s, i, "~", 0);
    FollowsInBounds(s, p, TailOf(e));
    FoundHere(s, i + 1, e.k, e.word);
    HasBoth(s, i + 1, name, e.word);
    if ShortFormAt(e.k).takesArgument { ShortWordAt(s, i + 1 + |name|, e.word); }
    ShortStep(s, i, e.k);
    PlainRead(s, ParsePrimary(s, i), p);
  }

  lemma ShortPieces(e: Expr)
    requires e.Short? && Wf(e)
    ensures e.k < SHORT_FORMS && FoundFirst(e.k, e.word)
    ensures Show(e) == "~" + (ShortFormAt(e.k).name + e.word)
    ensures TailOf(e) == if ShortFormAt(e.k).takesArgument then WordTail else ClosedTail
    ensures if ShortFormAt(e.k).takesArgument then
              IsShortWord(e.word) && Meaning(e) == Some(Pattern(ShortFormAt(e.k).long, [Word(e.word)], true))
            else e.word == "" && Meaning(e) == Some(Pattern(ShortFormAt(e.k).long, [], false))
  {
    hide ShortFormAt, FoundFirst, IsShortWord;
    var name := ShortFormAt(e.k).name;
    assert "~" + name + e.word == "~" + (name + e.word);
  }

  lemma ShortStep(s: string, i: nat, k: nat)
    requires i < |s| && At(s, i) == '~' && k < SHORT_FORMS && FindShort(s, i + 1, 0) == k
    ensures i + 1 + |ShortFormAt(k).name| <= |s|
    ensures var sf, j := ShortFormAt(k), i + 1 + |ShortFormAt(k).name|;
      if !sf.takesArgument then ParsePrimary(s, i) == Node(Pattern(sf.long, [], false), j, j)
      else
        var r := ParseArgument(s, j, true);
        && (r.Error? ==> ParsePrimary(s, i) == Error)
        && (r.Node? ==> ParsePrimary(s, i) == Node(Pattern(sf.long, [r.tree], true), r.next, r.next))
  {
    hide ShortFormAt, FindShort, ParseArgument, ParsePattern, ParseGroup;
  }

  lemma PlainRead(s: string, r: Parsed, p: nat)
    requires p <= |s| && r.Node? && r.end == r.next == p
    ensures Reads(s, r, Some(r.tree), p, false)
  {
  }

  // ---------- Lists of parts ----------

  lemma PartAt(e: Expr, k: nat, s: string, q: nat)
    requires (e.Or? || e.And? || e.Long?) && e.HasParts() && k < |e.parts| && Has(s, q, ShowFrom(e, k))
    ensures var l := |Show(e.parts[k])|;
      && |ShowFrom(e, k)| == l + |Separator(e, k)| + |ShowFrom(e, k + 1)|
      && Has(s, q, Show(e.parts[k])) && Has(s, q + l, Separator(e, k))
      && Has(s, q + l + |Separator(e, k)|, ShowFrom(e, k + 1))
  {
    hide *;
    var a, b, c := Show(e.parts[k]), Separator(e, k), ShowFrom(e, k + 1);
    ShowParts(e, k);
    assert (a + b) + c == a + (b + c);
    HasBoth(s, q, a + b, c);
    HasBoth(s, q, a, b);
  }

  lemma ShowParts(e: Expr, k: nat)
    requires e.HasParts() && k < |e.parts|
    ensures ShowFrom(e, k) == Show(e.parts[k]) + Separator(e, k) + ShowFrom(e, k + 1)
  {
  }

  lemma BeginsAt(e: Expr, s: string, q: nat)
    requires Wf(e) && !e.Bare? && Has(s, q, Show(e))
    ensures q < |s| && Begins(At(s, q)) && SkipSpace(s, q) == q
    ensures At(s, q) == '(' && e.IsUnary() ==> e.Group?
  {
    FirstChar(e);
    HasAt(s, q, Show(e), 0);
  }

  /** In front of the next part of a juxtaposition. */
  lemma BetweenParts(e: Expr, k: nat, s: string, p: nat)
    requires e.And? && Wf(e) && k + 1 < |e.parts| && Has(s, p, " ") && Has(s, p + 1, ShowFrom(e, k + 1))
    ensures Follows(s, p, TailOf(e.parts[k])) && SkipSpace(s, p) == p + 1 < |s|
  {
    PartAt(e, k + 1, s, p + 1);
    HasAt(s, p, " ", 0);
    BeginsAt(e.parts[k + 1], s, p + 1);
  }

  // ---------- The parser reads what Show writes ----------

  lemma UnaryReads(e: Expr, s: string, i: nat)
    requires Wf(e) && e.IsUnary() && Has(s, i, Show(e)) && Follows(s, i + |Show(e)|, TailOf(e))
    ensures Reads(s, ParseUnary(s, i), Meaning(e), i + |Show(e)|, IsOpen(e))
    decreases e, 4, 0
  {
    BeginsAt(e, s, i);
    FirstIsBang(e, s, i);
    hide *;
    if e.Not? {
      NotParts(e);
      HasBoth(s, i, "!", Show(e.e));
      PrimaryReads(e.e, s, i + 1);
      NotRead(s, i, Meaning(e.e), i + |Show(e)|, IsOpen(e.e));
    } else {
      UnaryIsPrimary(e);
      PrimaryReads(e, s, i);
      PlainUnary(s, i);
    }
  }

  lemma NotParts(e: Expr)
    requires e.Not? && Wf(e)
    ensures Wf(e.e) && e.e.IsPrimary() && Show(e) == "!" + Show(e.e)
    ensures IsOpen(e) == IsOpen(e.e) && TailOf(e) == TailOf(e.e)
    ensures Meaning(e) == match Meaning(e.e) case None => None case Some(t) => Some(Pattern("?not", [t], true))
  {
  }

  lemma UnaryIsPrimary(e: Expr)
    requires e.IsUnary() && !e.Not?
    ensures e.IsPrimary()
  {
  }

  lemma PlainUnary(s: string, i: nat)
    requires i <= |s| && At(s, i) != '!'
    ensures ParseUnary(s, i) == ParsePrimary(s, i)
  {
    hide ParsePrimary;
  }

  lemma NotRead(s: string, i: nat, m: Option<Tree>, p: nat, open: bool)
    requires i < |s| && At(s, i) == '!' && p <= |s| && Reads(s, ParsePrimary(s, i + 1), m, p, open)
    ensures var negated := match m case None => None case Some(t) => Some(Pattern("?not", [t], true));
      Reads(s, ParseUnary(s, i), negated, p, open)
  {
    hide ParsePrimary, SkipSpace;
  }

  lemma FirstIsBang(e: Expr, s: string, i: nat)
    requires Wf(e) && e.IsUnary() && Has(s, i, Show(e))
    ensures i < |s| && (At(s, i) == '!' <==> e.Not?)
  {
    FirstOfUnary(e);
    HasAt(s, i, Show(e), 0);
  }

  lemma PrimaryReads(e: Expr, s: string, i: nat)
    requires Wf(e) && e.IsPrimary() && Has(s, i, Show(e)) && Follows(s, i + |Show(e)|, TailOf(e))
    ensures Reads(s, ParsePrimary(s, i), Meaning(e), i + |Show(e)|, IsOpen(e))
    decreases e, 3, 0
  {
    match e
    case Short(_, _) => ShortReads(s, i, e);
    case Group(_) => GroupReads(e, s, i);
    case Long(term, parts, list, comma) =>
      if list {
        ListReads(e, s, i);
      } else {
        LongWithoutList(s, i, term);
        assert Meanings(e, 0) == Some([]);
        SkipIdem(s, SkipSpace(s, i + |term|), i + |term|);
      }
  }

  lemma GroupReads(e: Expr, s: string, i: nat)
    requires Wf(e) && e.Group? && Has(s, i, Show(e)) && Follows(s, i + |Show(e)|, ClosedTail)
    ensures Reads(s, ParsePrimary(s, i), Meaning(e), i + |Show(e)|, false)
    decreases e, 2, 0
  {
    hide *;
    var x, p := e.e, i + 1 + |Show(e.e)|;
    GroupPieces(e, s, i);
    BeginsAt(x, s, i + 1);
    OrReads(x, s, i + 1);
    var r := ParseOr(s, i + 1);
    ReadsMeans(s, i + 1, r, Meaning(x), p, IsOpen(x));
    GroupStep(s, i);
    if r.Node? {
      GroupRead(s, ParsePrimary(s, i), r, Meaning(x), p);
    } else {
      ErrorRead(s, ParsePrimary(s, i), Meaning(e), p + 1, false);
    }
  }

  lemma GroupPieces(e: Expr, s: string, i: nat)
    requires Wf(e) && e.Group? && Has(s, i, Show(e))
    ensures var p := i + 1 + |Show(e.e)|;
      && Wf(e.e) && !e.e.Bare? && |Show(e)| == |Show(e.e)| + 2 && Meaning(e) == Meaning(e.e)
      && At(s, i) == '(' && Has(s, i + 1, Show(e.e)) && p < |s| && At(s, p) == ')' && SkipSpace(s, p) == p
      && Follows(s, p, TailOf(e.e)) && IsStop(At(s, SkipSpace(s, p)))
  {
    var t, p := Show(e.e), i + 1 + |Show(e.e)|;
    assert Show(e) == "(" + t + ")";
    HasBoth(s, i, "(" + t, ")");
    HasBoth(s, i, "(", t);
    HasAt(s, i, "(", 0);
    HasAt(s, p, ")", 0);
    NoSkip(s, p);
  }

  lemma GroupStep(s: string, i: nat)
    requires i < |s| && At(s, i) == '('
    ensures var r := ParseOr(s, SkipSpace(s, i + 1));
      && (r.Error? ==> ParsePrimary(s, i) == Error)
      && (r.Node? && At(s, SkipSpace(s, r.next)) == ')' ==>
           var k := SkipSpace(s, r.next) + 1;
           ParsePrimary(s, i) == Node(r.tree, k, k))
  {
    hide ParseOr, SkipSpace;
    assert ParseShort(s, i) == Null(i) && ParsePattern(s, i) == Null(i);
  }

  lemma GroupRead(s: string, r: Parsed, inner: Parsed, m: Option<Tree>, p: nat)
    requires p < |s| && inner.Node? && m == Some(inner.tree) && r == Node(inner.tree, p + 1, p + 1)
    ensures Reads(s, r, m, p + 1, false)
  {
  }

  lemma AndReads(e: Expr, s: string, i: nat)
    requires Wf(e) && (e.And? || e.IsUnary()) && Has(s, i, Show(e))
    requires Follows(s, i + |Show(e)|, TailOf(e)) && IsStop(At(s, SkipSpace(s, i + |Show(e)|)))
    ensures Reads(s, ParseAnd(s, i), Meaning(e), i + |Show(e)|, IsOpen(e))
    decreases e, 6, 0
  {
    hide *;
    var p := i + |Show(e)|;
    FollowsInBounds(s, p, TailOf(e));
    AndBegins(e, s, i);
    if e.And? {
      WholeList(e);
      AndFrom(e, 0, s, i, i, [], i);
      ListIsAll(s, ParseAnd(s, i), "?and", Meanings(e, 0), p, IsOpen(e));
    } else {
      UnaryReads(e, s, i);
      var r := ParseUnary(s, i);
      ReadsMeans(s, i, r, Meaning(e), p, IsOpen(e));
      AndRestStep(s, i, [], i);
      if r.Node? {
        assert [] + [r.tree] == [r.tree];
        AndStops(s, r.next, [r.tree], r.end);
        SingleRead(s, r, ParseAnd(s, i), "?and", Meaning(e), p, IsOpen(e));
      } else {
        ErrorRead(s, ParseAnd(s, i), Meaning(e), p, IsOpen(e));
      }
    }
  }

  lemma AndBegins(e: Expr, s: string, i: nat)
    requires Wf(e) && (e.And? || e.IsUnary()) && Has(s, i, Show(e))
    ensures i < |s| && SkipSpace(s, i) == i && ParseAnd(s, i) == AndRest(s, i, [], i)
  {
    BeginsAt(e, s, i);
    hide AndRest, Wf, Show;
  }

  lemma WholeList(e: Expr)
    requires Wf(e) && (e.And? || e.Or?)
    ensures e.HasParts() && |e.parts| >= 2 && Show(e) == ShowFrom(e, 0)
    ensures Meaning(e) == match Meanings(e, 0) case None => None
      case Some(ts) => Some(Pattern(if e.And? then "?and" else "?or", ts, true))
  {
  }

  lemma ListIsAll(s: string, r: Parsed, term: string, m: Option<seq<Tree>>, p: nat, open: bool)
    requires p <= |s| && ReadsList(s, r, term, [], m, p, open)
    ensures Reads(s, r, match m case None => None case Some(ts) => Some(Pattern(term, ts, true)), p, open)
  {
    if m.Some? { assert [] + m.value == m.value; }
  }

  /** A list with one element is that element. */
  lemma SingleRead(s: string, r: Parsed, r': Parsed, term: string, m: Option<Tree>, p: nat, open: bool)
    requires p <= |s| && Reads(s, r, m, p, open) && r.Node?
    requires r' == Node(Wrap(term, [r.tree]), r.end, SkipSpace(s, r.next))
    ensures Reads(s, r', m, p, open)
  {
    SkipIdem(s, r.next, p);
  }

  lemma ErrorRead(s: string, r: Parsed, m: Option<Tree>, p: nat, open: bool)
    requires p <= |s| && r.Error? && m.None?
    ensures Reads(s, r, m, p, open)
  {
  }

  lemma AndFrom(e: Expr, k: nat, s: string, i: nat, q: nat, nodes: seq<Tree>, end: nat)
    requires e.And? && Wf(e) && k < |e.parts| && Has(s, q, ShowFrom(e, k)) && i <= |s| && end <= i && |nodes| == k
    requires SkipSpace(s, i) == q
    requires var p := q + |ShowFrom(e, k)|; Follows(s, p, TailOf(e)) && IsStop(At(s, SkipSpace(s, p)))
    ensures q + |ShowFrom(e, k)| <= |s|
    ensures ReadsList(s, AndRest(s, i, nodes, end), "?and", nodes, Meanings(e, k), q + |ShowFrom(e, k)|, IsOpen(e))
    decreases e, 5, |e.parts| - k
  {
    hide *;
    var part := e.parts[k];
    var p := q + |Show(part)|;
    AndPartFacts(e, k);
    PartAt(e, k, s, q);
    BeginsAt(part, s, q);
    if k + 1 < |e.parts| { BetweenParts(e, k, s, p); }
    FollowsInBounds(s, q + |ShowFrom(e, k)|, TailOf(e));
    FollowsInBounds(s, p, TailOf(part));
    UnaryReads(part, s, q);
    var r := ParseUnary(s, q);
    ReadsMeans(s, q, r, Meaning(part), p, IsOpen(part));
    AndRestStep(s, i, nodes, end);
    if r.Node? {
      if k + 1 < |e.parts| {
        AndFrom(e, k + 1, s, r.next, p + 1, nodes + [r.tree], r.end);
        ReadsListStep(s, AndRest(s, i, nodes, end), "?and", nodes, r.tree, Meanings(e, k + 1), q + |ShowFrom(e, k)|,
          IsOpen(e));
      } else {
        AndStops(s, r.next, nodes + [r.tree], r.end);
        ReadsListEnd(s, AndRest(s, i, nodes, end), "?and", nodes, r, Meaning(part), p, IsOpen(part));
      }
    } else {
      ReadsListNone(s, AndRest(s, i, nodes, end), "?and", nodes, q + |ShowFrom(e, k)|, IsOpen(e));
    }
  }

  /** What AndFrom and OrFrom rely on about part k of a list. */
  lemma AndPartFacts(e: Expr, k: nat)
    requires (e.And? || e.Or?) && Wf(e) && k < |e.parts|
    ensures e.HasParts() && |e.parts| >= 2 && Wf(e.parts[k]) && !e.parts[k].Bare?
    ensures e.And? ==> e.parts[k].IsUnary()
    ensures e.Or? ==> e.parts[k].And? || e.parts[k].IsUnary()
    ensures Meanings(e, k) == match Meaning(e.parts[k])
      case None => None
      case Some(t) => (match Meanings(e, k + 1) case None => None case Some(ts) => Some([t] + ts))
    ensures k + 1 < |e.parts| ==> Separator(e, k) == if e.And? then " " else "|"
    ensures k + 1 == |e.parts| ==> Meanings(e, k + 1) == Some([]) && Separator(e, k) == "" && ShowFrom(e, k + 1) == ""
    ensures k + 1 == |e.parts| ==> IsOpen(e.parts[k]) == IsOpen(e) && TailOf(e.parts[k]) == TailOf(e)
  {
    assert Wf(e.parts[k]);
  }

  lemma FollowsInBounds(s: string, p: nat, tail: Tail)
    ensures Follows(s, p, tail) ==> p <= |s|
    ensures Follows(s, p, WordTail) ==> Follows(s, p, ClosedTail)
  {
  }

  lemma ReadsMeans(s: string, i: nat, r: Parsed, m: Option<Tree>, p: nat, open: bool)
    requires p <= |s| && Reads(s, r, m, p, open) && Advances(s, i, r)
    ensures m.None? || m.Some?
    ensures m.None? ==> r.Error?
    ensures m.Some? ==> r.Node? && m == Some(r.tree) && p <= r.next <= |s| && r.end <= r.next
    ensures m.Some? ==> SkipSpace(s, r.next) == SkipSpace(s, p)
  {
    if m.Some? { SkipIdem(s, r.next, p); }
  }

  lemma SkipIdem(s: string, i: nat, p: nat)
    requires p <= i <= |s| && (SkipSpace(s, i) == SkipSpace(s, p) || i == SkipSpace(s, p))
    ensures SkipSpace(s, i) == SkipSpace(s, p)
    ensures i <= SkipSpace(s, p) && SkipSpace(s, SkipSpace(s, p)) == SkipSpace(s, p)
  {
  }

  /** The rest of a list was read into one node together with what had been read before. */
  predicate ReadsList(s: string, r: Parsed, term: string, nodes: seq<Tree>, m: Option<seq<Tree>>, p: nat, open: bool)
    requires p <= |s|
  {
    match m
    case None => r.Error?
    case Some(ts) => Reads(s, r, Some(Pattern(term, nodes + ts, true)), p, open)
  }

  lemma ReadsListNone(s: string, r: Parsed, term: string, nodes: seq<Tree>, p: nat, open: bool)
    requires p <= |s| && r.Error?
    ensures ReadsList(s, r, term, nodes, None, p, open)
  {
  }

  lemma ReadsListStep(s: string, r: Parsed, term: string, nodes: seq<Tree>, t: Tree, m: Option<seq<Tree>>, p: nat,
                      open: bool)
    requires p <= |s| && ReadsList(s, r, term, nodes + [t], m, p, open)
    ensures ReadsList(s, r, term, nodes, match m case None => None case Some(ts) => Some([t] + ts), p, open)
  {
    if m.Some? { assert (nodes + [t]) + m.value == nodes + ([t] + m.value); }
  }

  lemma ReadsListEnd(s: string, r: Parsed, term: string, nodes: seq<Tree>, last: Parsed, m: Option<Tree>, p: nat,
                     open: bool)
    requires p <= |s| && m.Some? && Reads(s, last, m, p, open) && nodes != []
    requires r == Node(Wrap(term, nodes + [last.tree]), last.end, SkipSpace(s, last.next))
    ensures ReadsList(s, r, term, nodes, Some([m.value] + []), p, open)
  {
    SkipIdem(s, last.next, p);
    assert [m.value] + [] == [m.value];
  }

  lemma AndRestStep(s: string, i: nat, nodes: seq<Tree>, end: nat)
    requires i <= |s| && end <= i && SkipSpace(s, i) < |s|
    ensures var r := ParseUnary(s, SkipSpace(s, i));
      && (r.Error? ==> AndRest(s, i, nodes, end) == Error)
      && (r.Node? ==> AndRest(s, i, nodes, end) == AndRest(s, r.next, nodes + [r.tree], r.end))
  {
    hide ParseUnary;
  }

  // ---------- Alternatives ----------

  lemma OrReads(e: Expr, s: string, i: nat)
    requires Wf(e) && !e.Bare? && Has(s, i, Show(e))
    requires Follows(s, i + |Show(e)|, TailOf(e)) && IsStop(At(s, SkipSpace(s, i + |Show(e)|)))
    requires At(s, SkipSpace(s, i + |Show(e)|)) != '|'
    ensures Reads(s, ParseOr(s, i), Meaning(e), i + |Show(e)|, IsOpen(e))
    decreases e, 8, 0
  {
    hide *;
    var p := i + |Show(e)|;
    FollowsInBounds(s, p, TailOf(e));
    if e.Or? {
      WholeList(e);
      AndPartFacts(e, 0);
      PartAt(e, 0, s, i);
      BetweenAlternatives(e, 0, s, i + |Show(e.parts[0])|);
      AndReads(e.parts[0], s, i);
      var r := ParseAnd(s, i);
      FollowsInBounds(s, i + |Show(e.parts[0])|, TailOf(e.parts[0]));
      ReadsMeans(s, i, r, Meaning(e.parts[0]), i + |Show(e.parts[0])|, IsOpen(e.parts[0]));
      OrStarts(s, i);
      if r.Node? {
        OrFrom(e, 1, s, r.next, i + |Show(e.parts[0])|, [r.tree], r.end);
        assert [] + [r.tree] == [r.tree];
        ReadsListStep(s, ParseOr(s, i), "?or", [], r.tree, Meanings(e, 1), p, IsOpen(e));
      } else {
        ReadsListNone(s, ParseOr(s, i), "?or", [], p, IsOpen(e));
      }
      ListIsAll(s, ParseOr(s, i), "?or", Meanings(e, 0), p, IsOpen(e));
    } else {
      NotAlternatives(e);
      AndReads(e, s, i);
      var r := ParseAnd(s, i);
      ReadsMeans(s, i, r, Meaning(e), p, IsOpen(e));
      OrStarts(s, i);
      if r.Node? {
        OrStops(s, r.next, [r.tree], r.end);
        SingleRead(s, r, ParseOr(s, i), "?or", Meaning(e), p, IsOpen(e));
      } else {
        ErrorRead(s, ParseOr(s, i), Meaning(e), p, IsOpen(e));
      }
    }
  }

  lemma NotAlternatives(e: Expr)
    requires !e.Or? && !e.Bare?
    ensures e.And? || e.IsUnary()
  {
  }

  lemma OrStarts(s: string, i: nat)
    requires i <= |s|
    ensures var r := ParseAnd(s, i);
      && (r.Error? ==> ParseOr(s, i) == Error)
      && (r.Node? ==> ParseOr(s, i) == OrRest(s, r.next, [r.tree], r.end))
  {
    hide ParseAnd, OrRest;
  }

  /** Behind one alternative, in front of the bar. */
  lemma BetweenAlternatives(e: Expr, k: nat, s: string, p: nat)
    requires e.Or? && Wf(e) && k + 1 < |e.parts| && Has(s, p, "|") && Has(s, p + 1, ShowFrom(e, k + 1))
    ensures Follows(s, p, TailOf(e.parts[k])) && SkipSpace(s, p) == p < |s| && At(s, p) == '|'
    ensures IsStop(At(s, SkipSpace(s, p)))
    ensures p + 1 <= |s| && SkipSpace(s, p + 1) == p + 1
  {
    PartAt(e, k + 1, s, p + 1);
    HasAt(s, p, "|", 0);
    BeginsAt(e.parts[k + 1], s, p + 1);
  }

  /** From the bar in front of alternative k on; q is where it stands. */
  lemma OrFrom(e: Expr, k: nat, s: string, i: nat, q: nat, nodes: seq<Tree>, end: nat)
    requires e.Or? && Wf(e) && 0 < k < |e.parts| && Has(s, q, "|") && Has(s, q + 1, ShowFrom(e, k))
    requires i <= |s| && end <= i && |nodes| == k && q <= |s| && SkipSpace(s, i) == SkipSpace(s, q)
    requires var p := q + 1 + |ShowFrom(e, k)|;
      Follows(s, p, TailOf(e)) && IsStop(At(s, SkipSpace(s, p))) && At(s, SkipSpace(s, p)) != '|'
    ensures q + 1 + |ShowFrom(e, k)| <= |s|
    ensures ReadsList(s, OrRest(s, i, nodes, end), "?or", nodes, Meanings(e, k), q + 1 + |ShowFrom(e, k)|, IsOpen(e))
    decreases e, 7, |e.parts| - k
  {
    hide *;
    var part := e.parts[k];
    var p := q + 1 + |Show(part)|;
    AndPartFacts(e, k);
    FollowsInBounds(s, q + 1 + |ShowFrom(e, k)|, TailOf(e));
    PartAt(e, k, s, q + 1);
    BetweenAlternatives(e, k - 1, s, q);
    if k + 1 < |e.parts| { BetweenAlternatives(e, k, s, p); }
    FollowsInBounds(s, p, TailOf(part));
    AndReads(part, s, q + 1);
    var r := ParseAnd(s, q + 1);
    ReadsMeans(s, q + 1, r, Meaning(part), p, IsOpen(part));
    OrRestStep(s, i, nodes, end);
    if r.Node? {
      if k + 1 < |e.parts| {
        OrFrom(e, k + 1, s, r.next, p, nodes + [r.tree], r.end);
        ReadsListStep(s, OrRest(s, i, nodes, end), "?or", nodes, r.tree, Meanings(e, k + 1), q + 1 + |ShowFrom(e, k)|,
          IsOpen(e));
      } else {
        OrStops(s, r.next, nodes + [r.tree], r.end);
        ReadsListEnd(s, OrRest(s, i, nodes, end), "?or", nodes, r, Meaning(part), p, IsOpen(part));
      }
    } else {
      ReadsListNone(s, OrRest(s, i, nodes, end), "?or", nodes, q + 1 + |ShowFrom(e, k)|, IsOpen(e));
    }
  }

  lemma OrRestStep(s: string, i: nat, nodes: seq<Tree>, end: nat)
    requires i <= |s| && end <= i && nodes != [] && At(s, SkipSpace(s, i)) == '|'
    ensures SkipSpace(s, i) < |s|
    ensures var r := ParseAnd(s, SkipSpace(s, SkipSpace(s, i) + 1));
      && (r.Error? ==> OrRest(s, i, nodes, end) == Error)
      && (r.Node? ==> OrRest(s, i, nodes, end) == OrRest(s, r.next, nodes + [r.tree], r.end))
  {
    hide ParseAnd;
  }

  // ---------- Argument lists ----------

  /** Where the pieces of a pattern with an argument list stand; c is the closing parenthesis. */
  ghost predicate ListAt(e: Expr, s: string, i: nat, c: nat) {
    && e.Long? && e.list && Wf(e)
    && IsTerm(e.term) && Has(s, i, e.term) && i + |e.term| < c < |s|
    && At(s, i + |e.term|) == '(' && Has(s, i + |e.term| + 1, ShowFrom(e, 0))
    && c == i + |e.term| + 1 + |ShowFrom(e, 0)| && At(s, c) == ')'
  }

  lemma ListPieces(e: Expr, s: string, i: nat)
    requires Wf(e) && e.Long? && e.list && Has(s, i, Show(e))
    ensures ListAt(e, s, i, i + |Show(e)| - 1) && e.HasParts()
  {
    hide *;
    ListShown(e);
    var a, b := e.term, ShowFrom(e, 0);
    HasBoth(s, i, a + "(" + b, ")");
    HasBoth(s, i, a + "(", b);
    HasBoth(s, i, a, "(");
    HasAt(s, i + |a|, "(", 0);
    HasAt(s, i + |a| + 1 + |b|, ")", 0);
    MakeListAt(e, s, i, i + |Show(e)| - 1);
  }

  lemma ListShown(e: Expr)
    requires Wf(e) && e.Long? && e.list
    ensures Show(e) == e.term + "(" + ShowFrom(e, 0) + ")" && e.HasParts() && IsTerm(e.term) && |Show(e)| > 0
  {
  }

  lemma MakeListAt(e: Expr, s: string, i: nat, c: nat)
    requires e.Long? && e.list && Wf(e) && IsTerm(e.term) && Has(s, i, e.term) && i + |e.term| < c < |s|
    requires At(s, i + |e.term|) == '(' && Has(s, i + |e.term| + 1, ShowFrom(e, 0))
    requires c == i + |e.term| + 1 + |ShowFrom(e, 0)| && At(s, c) == ')'
    ensures ListAt(e, s, i, c)
  {
    hide Has, Wf, IsTerm, ShowFrom, At;
  }

  /** The beginning of a pattern with an argument list. */
  lemma ListBegins(e: Expr, s: string, i: nat, c: nat)
    requires ListAt(e, s, i, c)
    ensures var k := SkipSpace(s, i + |e.term| + 1);
      if At(s, k) == ')' then ParsePrimary(s, i) == Node(Pattern(e.term, [], true), k + 1, k + 1)
      else
        var r := ParseArgument(s, k, false);
        && (r.Error? ==> ParsePrimary(s, i) == Error)
        && (r.Node? ==> ParsePrimary(s, i) == ArgsRest(s, r.next, e.term, [r.tree]))
  {
    TermAt(s, i, e.term);
    NoSkip(s, i + |e.term|);
    hide ParseArgument, ArgsRest, TermEnd, SkipSpace, Wf, IsTerm, ShowFrom, Has;
    assert ParseShort(s, i) == Null(i);
  }

  /** Behind argument k there is a comma or the end of the list. */
  lemma AfterPart(e: Expr, k: nat, s: string, q: nat)
    requires e.Long? && Wf(e) && k < |e.parts| && Has(s, q, ShowFrom(e, k)) && q + |ShowFrom(e, k)| < |s|
    requires At(s, q + |ShowFrom(e, k)|) == ')'
    ensures var p := q + |Show(e.parts[k])|;
      && Has(s, q, Show(e.parts[k])) && p < |s| && Wf(e.parts[k])
      && Has(s, p, Separator(e, k)) && Has(s, p + |Separator(e, k)|, ShowFrom(e, k + 1))
      && p + |Separator(e, k)| + |ShowFrom(e, k + 1)| == q + |ShowFrom(e, k)|
      && (At(s, p) == ',' || (At(s, p) == ')' && !IsBlank(e.parts[k])))
      && SkipSpace(s, p) == p
  {
    hide *;
    var p := q + |Show(e.parts[k])|;
    SeparatorFacts(e, k);
    PartAt(e, k, s, q);
    if Separator(e, k) == "," { HasAt(s, p, ",", 0); }
    ListGoesOn(s, p);
  }

  lemma SeparatorFacts(e: Expr, k: nat)
    requires e.Long? && Wf(e) && k < |e.parts|
    ensures e.HasParts() && Wf(e.parts[k])
    ensures Separator(e, k) == "," || (Separator(e, k) == "" && ShowFrom(e, k + 1) == "" && !IsBlank(e.parts[k]))
  {
  }

  lemma ListGoesOn(s: string, p: nat)
    ensures p < |s| && (At(s, p) == ',' || At(s, p) == ')') ==> SkipSpace(s, p) == p
  {
  }

  lemma BareReads(x: Expr, s: string, q: nat)
    requires x.Bare? && Wf(x) && Has(s, q, Show(x)) && q + |Show(x)| < |s|
    requires At(s, q + |Show(x)|) == ',' || (At(s, q + |Show(x)|) == ')' && !IsBlank(x))
    ensures At(s, SkipSpace(s, q)) != ')'
    ensures Reads(s, ParseArgument(s, SkipSpace(s, q), false), Meaning(x), q + |Show(x)|, false)
  {
    hide *;
    var w, p := x.word, q + |x.word|;
    var core := StripLeft(w);
    var k := q + (|w| - |core|);
    BareFacts(x);
    BreakFacts(At(s, p));
    WordChars(s, q, w);
    SkipSpaceAt(s, q, k);
    if core == "" {
      CoreMissing(s, q, w);
      NoArgument(s, p);
      ErrorRead(s, ParseArgument(s, k, false), Meaning(x), p, false);
    } else {
      CoreBegins(s, q, w);
      BreakFacts(At(s, k));
      WordEndAt(s, k, p, false);
      WordReads(s, k, p);
      ListGoesOn(s, p);
      NodeRead(s, core, p);
    }
  }

  lemma BareFacts(x: Expr)
    requires x.Bare? && Wf(x)
    ensures Show(x) == x.word && IsLongWord(x.word) && (IsBlank(x) <==> StripLeft(x.word) == "")
    ensures Meaning(x) == if StripLeft(x.word) == "" then None else Some(Word(StripLeft(x.word)))
    ensures |StripLeft(x.word)| <= |x.word|
  {
  }

  lemma BreakFacts(c: char)
    ensures c == ',' || c == ')' ==> EndsLong(c) && EndsShort(c) && EndsWord(c, false) && !IsSpace(c)
  {
  }

  lemma CoreMissing(s: string, q: nat, w: string)
    requires StripLeft(w) == ""
    ensures q + (|w| - |StripLeft(w)|) == q + |w|
  {
  }

  lemma CoreBegins(s: string, q: nat, w: string)
    requires StripLeft(w) != "" && q + |w| <= |s|
    ensures q + (|w| - |StripLeft(w)|) < q + |w|
    ensures forall j :: q <= j < |s| && !EndsLong(s[j]) ==> !EndsWord(s[j], false)
  {
  }

  lemma NodeRead(s: string, core: string, p: nat)
    requires p <= |s| && SkipSpace(s, p) == p
    ensures Reads(s, Node(Word(core), p, p), Some(Word(core)), p, false)
  {
  }

  /** What the parts of a word are. */
  lemma WordFacts(w: string)
    requires IsLongWord(w)
    ensures var core := StripLeft(w);
      && |core| <= |w| && w[|w| - |core|..] == core
      && (forall k :: 0 <= k < |w| - |core| ==> IsSpace(w[k]))
      && (forall k :: 0 <= k < |w| ==> !EndsLong(w[k]))
      && (core != "" ==> !IsSpace(core[0]) && !EndsShort(core[0]) && core[0] != '"')
  {
  }

  lemma EndIsNoSpace(c: char)
    requires EndsLong(c)
    ensures !IsSpace(c)
  {
  }

  lemma HasAll(s: string, q: nat, w: string)
    requires Has(s, q, w)
    ensures q + |w| <= |s| && s[q..q + |w|] == w
    ensures forall j :: q <= j < q + |w| ==> s[j] == w[j - q]
  {
    forall j | q <= j < q + |w| ensures s[j] == w[j - q] { HasAt(s, q, w, j - q); }
  }

  /** A word stands at q, spaces in front of its core. */
  lemma WordChars(s: string, q: nat, w: string)
    requires Has(s, q, w) && IsLongWord(w) && q + |w| < |s| && EndsLong(At(s, q + |w|))
    ensures var core := StripLeft(w);
      var k := q + (|w| - |core|);
      && k <= q + |w| && s[k..q + |w|] == core
      && (forall j :: q <= j < k ==> IsSpace(s[j])) && !IsSpace(At(s, k))
      && (forall j :: k <= j < q + |w| ==> !EndsLong(s[j]))
      && (core != "" ==> !EndsShort(At(s, k)) && At(s, k) != '"')
  {
    hide *;
    var n := |w| - |StripLeft(w)|;
    WordFacts(w);
    HasAll(s, q, w);
    EndIsNoSpace(At(s, q + |w|));
    SliceOfSlice(s, q, w, n);
    if n < |w| {
      HasAt(s, q, w, n);
      assert StripLeft(w)[0] == w[n..][0] == w[n];
    }
  }

  lemma SliceOfSlice(s: string, q: nat, w: string, n: nat)
    requires q + |w| <= |s| && s[q..q + |w|] == w && n <= |w|
    ensures s[q + n..q + |w|] == w[n..]
  {
    assert s[q..q + |w|][n..] == s[q + n..q + |w|];
  }

  lemma SkipSpaceAt(s: string, i: nat, k: nat)
    requires i <= k <= |s| && (forall j :: i <= j < k ==> IsSpace(s[j])) && !IsSpace(At(s, k))
    ensures SkipSpace(s, i) == k
    decreases k - i
  {
    if i < k { SkipSpaceAt(s, i + 1, k); }
  }

  lemma WordReads(s: string, k: nat, p: nat)
    requires k < p <= |s| && !EndsShort(At(s, k)) && At(s, k) != '"' && WordEnd(s, k, false) == p
    ensures ParseArgument(s, k, false) == Node(Word(s[k..p]), p, p)
  {
    hide ParseOr, WordEnd;
    assert ParseQuotedWord(s, k) == Null(k);
    assert ParseWord(s, k, false) == Node(Word(s[k..p]), p, p);
  }

  lemma PatternArgument(s: string, k: nat)
    requires k < |s| && Begins(At(s, k))
    ensures !ParseOr(s, k).Null? ==> ParseArgument(s, k, false) == ParseOr(s, k)
  {
    hide ParseOr;
    assert ParseQuotedWord(s, k) == Null(k) && ParseWord(s, k, false) == Null(k);
  }

  lemma ArgReads(x: Expr, s: string, q: nat)
    requires Wf(x) && Has(s, q, Show(x)) && q + |Show(x)| < |s|
    requires At(s, q + |Show(x)|) == ',' || (At(s, q + |Show(x)|) == ')' && !IsBlank(x))
    ensures q <= |s| && At(s, SkipSpace(s, q)) != ')'
    ensures Reads(s, ParseArgument(s, SkipSpace(s, q), false), Meaning(x), q + |Show(x)|, IsOpen(x))
    decreases x, 9, 0
  {
    if x.Bare? {
      BareReads(x, s, q);
    } else {
      var p := q + |Show(x)|;
      BeginsAt(x, s, q);
      NoSkip(s, p);
      OrReads(x, s, q);
      ReadsMeans(s, q, ParseOr(s, q), Meaning(x), p, IsOpen(x));
      PatternArgument(s, q);
    }
  }

  /** The list was read to its end, with what had been read before. */
  predicate ReadsArgs(r: Parsed, term: string, args: seq<Tree>, m: Option<seq<Tree>>, c: nat) {
    match m
    case None => r.Error?
    case Some(ts) => r == Node(Pattern(term, args + ts, true), c + 1, c + 1)
  }

  lemma ReadsArgsNone(r: Parsed, term: string, args: seq<Tree>, c: nat)
    requires r.Error?
    ensures ReadsArgs(r, term, args, None, c)
  {
  }

  lemma ReadsArgsStep(r: Parsed, term: string, args: seq<Tree>, t: Tree, m: Option<seq<Tree>>, c: nat)
    requires ReadsArgs(r, term, args + [t], m, c)
    ensures ReadsArgs(r, term, args, match m case None => None case Some(ts) => Some([t] + ts), c)
  {
    if m.Some? { assert (args + [t]) + m.value == args + ([t] + m.value); }
  }

  /** From behind argument k - 1 on, which ends at q. */
  lemma ArgsFrom(e: Expr, k: nat, s: string, i: nat, q: nat, args: seq<Tree>, c: nat)
    requires e.Long? && Wf(e) && 0 < k <= |e.parts| && Has(s, q, Separator(e, k - 1))
    requires Has(s, q + |Separator(e, k - 1)|, ShowFrom(e, k))
    requires c == q + |Separator(e, k - 1)| + |ShowFrom(e, k)| < |s|
    requires At(s, c) == ')' && i <= |s| && SkipSpace(s, i) == q
    ensures ReadsArgs(ArgsRest(s, i, e.term, args), e.term, args, Meanings(e, k), c)
    decreases e, 1, |e.parts| - k
  {
    hide *;
    if k == |e.parts| {
      LastArgument(e, s, i, q, args, c);
    } else {
      ArgPartFacts(e, k, s, q);
      AfterPart(e, k, s, q + 1);
      var p := q + 1 + |Show(e.parts[k])|;
      ArgReads(e.parts[k], s, q + 1);
      var r := ParseArgument(s, SkipSpace(s, q + 1), false);
      ReadsMeans(s, SkipSpace(s, q + 1), r, Meaning(e.parts[k]), p, IsOpen(e.parts[k]));
      ArgsRestStep(s, i, e.term, args);
      if r.Node? {
        ArgsFrom(e, k + 1, s, r.next, p, args + [r.tree], c);
        ReadsArgsStep(ArgsRest(s, i, e.term, args), e.term, args, r.tree, Meanings(e, k + 1), c);
      } else {
        ReadsArgsNone(ArgsRest(s, i, e.term, args), e.term, args, c);
      }
    }
  }

  lemma ArgPartFacts(e: Expr, k: nat, s: string, q: nat)
    requires e.Long? && Wf(e) && 0 < k < |e.parts| && Has(s, q, Separator(e, k - 1))
    ensures e.HasParts() && Separator(e, k - 1) == "," && q < |s| && At(s, q) == ','
    ensures Meanings(e, k) == match Meaning(e.parts[k])
      case None => None
      case Some(t) => (match Meanings(e, k + 1) case None => None case Some(ts) => Some([t] + ts))
  {
    HasAt(s, q, ",", 0);
  }

  lemma ArgsRestStep(s: string, i: nat, term: string, args: seq<Tree>)
    requires i <= |s| && At(s, SkipSpace(s, i)) == ','
    ensures SkipSpace(s, i) < |s|
    ensures var k := SkipSpace(s, SkipSpace(s, i) + 1);
      var r := ParseArgument(s, k, false);
      At(s, k) != ')' ==>
        && (r.Error? ==> ArgsRest(s, i, term, args) == Error)
        && (r.Node? ==> ArgsRest(s, i, term, args) == ArgsRest(s, r.next, term, args + [r.tree]))
  {
    hide ParseArgument;
  }

  lemma LastArgument(e: Expr, s: string, i: nat, q: nat, args: seq<Tree>, c: nat)
    requires e.Long? && Wf(e) && 0 < |e.parts| && Has(s, q, Separator(e, |e.parts| - 1))
    requires c == q + |Separator(e, |e.parts| - 1)| + |ShowFrom(e, |e.parts|)| < |s|
    requires At(s, c) == ')' && i <= |s| && SkipSpace(s, i) == q
    ensures ReadsArgs(ArgsRest(s, i, e.term, args), e.term, args, Meanings(e, |e.parts|), c)
  {
    assert ShowFrom(e, |e.parts|) == "" && Meanings(e, |e.parts|) == Some([]) && args + [] == args;
    if e.comma { HasAt(s, q, ",", 0); }
    NoSkip(s, c);
    hide Wf, Show, SkipSpace, ParseArgument;
  }

  lemma ListReads(e: Expr, s: string, i: nat)
    requires Wf(e) && e.Long? && e.list && Has(s, i, Show(e)) && Follows(s, i + |Show(e)|, ClosedTail)
    ensures Reads(s, ParsePrimary(s, i), Meaning(e), i + |Show(e)|, false)
    decreases e, 2, 0
  {
    hide *;
    ListShown(e);
    var c, q := i + |Show(e)| - 1, i + |e.term| + 1;
    ListPieces(e, s, i);
    ListBegins(e, s, i, c);
    ListFacts(e, s, i, c);
    if e.parts == [] {
      ReadsAll(e, s, ParsePrimary(s, i), c);
    } else {
      AfterPart(e, 0, s, q);
      ArgReads(e.parts[0], s, q);
      var p := q + |Show(e.parts[0])|;
      var r := ParseArgument(s, SkipSpace(s, q), false);
      ReadsMeans(s, SkipSpace(s, q), r, Meaning(e.parts[0]), p, IsOpen(e.parts[0]));
      if r.Node? {
        ArgsFrom(e, 1, s, r.next, p, [r.tree], c);
        assert [] + [r.tree] == [r.tree];
        ReadsArgsStep(ParsePrimary(s, i), e.term, [], r.tree, Meanings(e, 1), c);
      } else {
        ReadsArgsNone(ParsePrimary(s, i), e.term, [], c);
      }
      ReadsAll(e, s, ParsePrimary(s, i), c);
    }
  }

  lemma ListFacts(e: Expr, s: string, i: nat, c: nat)
    requires ListAt(e, s, i, c)
    ensures e.HasParts() && Has(s, i + |e.term| + 1, ShowFrom(e, 0)) && i + |e.term| + 1 <= c < |s| && At(s, c) == ')'
    ensures c == i + |e.term| + 1 + |ShowFrom(e, 0)|
    ensures e.parts == [] ==> Meanings(e, 0) == Some([]) && SkipSpace(s, i + |e.term| + 1) == c
    ensures e.parts == [] ==> ReadsArgs(Node(Pattern(e.term, [], true), c + 1, c + 1), e.term, [], Meanings(e, 0), c)
    ensures e.parts != [] ==> Meanings(e, 0) == match Meaning(e.parts[0])
      case None => None
      case Some(t) => (match Meanings(e, 1) case None => None case Some(ts) => Some([t] + ts))
  {
    NoSkip(s, c);
    var none: seq<Tree> := [];
    assert none + none == none;
  }

  lemma ReadsAll(e: Expr, s: string, r: Parsed, c: nat)
    requires e.Long? && e.list && c < |s| && ReadsArgs(r, e.term, [], Meanings(e, 0), c)
    ensures Reads(s, r, Meaning(e), c + 1, false)
  {
    var m := Meanings(e, 0);
    if m.Some? { assert [] + m.value == m.value; }
  }
}

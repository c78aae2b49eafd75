/**
  The parser itself: one offset that the parse methods move, loops that push nodes, and
  errors that end everything.
*/
module PatternParser {
  import opened PatternText
  import opened PatternSpec

  class PatternTreeParser {
    const sentence: string
    var offset: nat

    constructor (sentence: string)
      ensures this.sentence == sentence && offset == 0
    {
      this.sentence, offset := sentence, 0;
    }

    ghost predicate InBounds()
      reads this
    {
      offset <= |sentence|
    }

    /** A call that began at i returned r: nothing is read out of bounds, and r is what the specification says. */
    ghost predicate Returned(r: Parsed, spec: Parsed)
      reads this
    {
      InBounds() && r == spec && (!r.Error? ==> offset == r.next)
    }

    function Peek(): char
      requires InBounds()
      reads this
    {
      At(sentence, offset)
    }

    method SkipSpaces()
      requires InBounds()
      modifies this
      ensures InBounds() && offset == SkipSpace(sentence, old(offset))
    {
      while IsSpace(Peek())
        invariant InBounds() && SkipSpace(sentence, offset) == SkipSpace(sentence, old(offset))
        decreases |sentence| - offset
      {
        offset := offset + 1;
      }
    }

    method Top() returns (r: Outcome)
      requires offset == 0
      modifies this
      ensures r == ParseTop(sentence)
    {
      SkipSpaces();
      var node := Or();
      if !node.Node? { return Rejected; }
      SkipSpaces();
      if node.end != |sentence| { return Rejected; }
      return Outcome.Tree(node.tree);
    }

    method Or() returns (r: Parsed)
      requires InBounds()
      modifies this
      ensures Returned(r, ParseOr(sentence, old(offset)))
      decreases |sentence| - offset, 6
    {
      hide ParseAnd, AndRest, ParseUnary, SkipSpace, IsSpace, ParseOr, OrRest, Wrap, At;
      ParseOrUnfolds(sentence, offset);
      var first := And();
      if !first.Node? { return first; }
      var nodes := [first.tree];
      var end: nat := first.end;
      ghost var start := old(offset);
      SkipSpaces();
      OrRestSkips(sentence, first.next, nodes, end);
      SkipTwice(sentence, first.next);
      while Peek() == '|'
        invariant InBounds() && start < offset == SkipSpace(sentence, offset) && nodes != [] && end <= offset
        invariant ParseOr(sentence, start) == OrRest(sentence, offset, nodes, end)
        decreases |sentence| - offset
      {
        OrRestUnfolds(sentence, offset, nodes, end);
        offset := offset + 1;
        SkipSpaces();
        var node := And();
        if !node.Node? { return Error; }
        nodes, end := nodes + [node.tree], node.end;
        SkipSpaces();
        SkipTwice(sentence, node.next);
        OrRestSkips(sentence, node.next, nodes, end);
      }
      OrRestUnfolds(sentence, offset, nodes, end);
      return Node(Wrap("?or", nodes), end, offset);
    }

    method And() returns (r: Parsed)
      requires InBounds()
      modifies this
      ensures Returned(r, ParseAnd(sentence, old(offset)))
      decreases |sentence| - offset, 5
    {
      ghost var start := offset;
      var nodes: seq<Tree> := [];
      var end: nat := offset;
      SkipSpaces();
      SkipTwice(sentence, start);
      AndRestSkips(sentence, start, nodes, end);
      while offset < |sentence|
        invariant InBounds() && start <= offset == SkipSpace(sentence, offset) && end <= offset
        invariant ParseAnd(sentence, start) == AndRest(sentence, offset, nodes, end)
        decreases |sentence| - offset
      {
        var node := Unary();
        if node.Error? { return Error; }
        if node.Null? { break; }
        nodes, end := nodes + [node.tree], node.end;
        SkipSpaces();
        SkipTwice(sentence, node.next);
        AndRestSkips(sentence, node.next, nodes, end);
      }
      if nodes == [] { return Null(offset); }
      return Node(Wrap("?and", nodes), end, offset);
    }

    method Unary() returns (r: Parsed)
      requires InBounds()
      modifies this
      ensures Returned(r, ParseUnary(sentence, old(offset)))
      decreases |sentence| - offset, 3
    {
      if Peek() != '!' {
        r := Primary();
        return;
      }
      offset := offset + 1;
      var primary := Primary();
      if !primary.Node? { return Error; }
      return Node(Pattern("?not", [primary.tree], true), primary.end, offset);
    }

    method Primary() returns (r: Parsed)
      requires InBounds()
      modifies this
      ensures Returned(r, ParsePrimary(sentence, old(offset)))
      decreases |sentence| - offset, 2
    {
      r := Short();
      if !r.Null? { return; }
      r := LongPattern();
      if !r.Null? { return; }
      r := Group();
    }

    method Group() returns (r: Parsed)
      requires InBounds()
      modifies this
      ensures Returned(r, ParseGroup(sentence, old(offset)))
      decreases |sentence| - offset, 1
    {
      if Peek() != '(' { return Null(offset); }
      offset := offset + 1;
      SkipSpaces();
      var node := Or();
      if !node.Node? { return Error; }
      SkipSpaces();
      if Peek() != ')' { return Error; }
      offset := offset + 1;
      return Node(node.tree, offset, offset);
    }

    method Argument(shrt: bool) returns (r: Parsed)
      requires InBounds()
      modifies this
      ensures Returned(r, ParseArgument(sentence, old(offset), shrt))
      decreases |sentence| - offset, 8
    {
      r := QuotedWord();
      if !r.Null? { return; }
      r := BareWord(shrt);
      if !r.Null? { return; }
      r := Or();
      if r.Null? { r := Error; }
    }

    method Short() returns (r: Parsed)
      requires InBounds()
      modifies this
      ensures Returned(r, ParseShort(sentence, old(offset)))
      decreases |sentence| - offset, 1
    {
      hide ParseArgument, ShortFormAt, FindShort;
      if Peek() != '~' { return Null(offset); }
      var k := SearchTable();
      if k == SHORT_FORMS { return Error; }
      var sf := ShortFormAt(k);
      offset := offset + |sf.name| + 1;
      if sf.takesArgument {
        var argument := Argument(true);
        if !argument.Node? { return Error; }
        return Node(Pattern(sf.long, [argument.tree], true), offset, offset);
      }
      return Node(Pattern(sf.long, [], false), offset, offset);
    }

    /** The first short form whose name stands behind the tilde. */
    method SearchTable() returns (k: nat)
      requires offset < |sentence|
      ensures k == FindShort(sentence, offset + 1, 0)
    {
      hide ShortFormAt, Has;
      k := 0;
      while k < SHORT_FORMS
        invariant k <= SHORT_FORMS && FindShort(sentence, offset + 1, 0) == FindShort(sentence, offset + 1, k)
      {
        if Has(sentence, offset + 1, ShortFormAt(k).name) { return k; }
        k := k + 1;
      }
    }

    method LongPattern() returns (r: Parsed)
      requires InBounds()
      modifies this
      ensures Returned(r, ParsePattern(sentence, old(offset)))
      decreases |sentence| - offset, 1
    {
      hide ParseArgument, ArgsRest, SkipSpace, IsTermChar, IsSpace, TermEnd;
      if Peek() != '?' { return Null(offset); }
      var start := offset;
      offset := offset + 1;
      ScanTerm();
      var term := sentence[start..offset];
      if |term| <= 1 { return Error; }
      SkipSpaces();
      if Peek() != '(' { return Node(Pattern(term, [], false), offset, offset); }
      offset := offset + 1;
      SkipSpaces();
      if Peek() == ')' {
        offset := offset + 1;
        return Node(Pattern(term, [], true), offset, offset);
      }
      var argument := Argument(false);
      if !argument.Node? { return Error; }
      r := Arguments(term, argument.tree);
    }

    method ScanTerm()
      requires InBounds()
      modifies this
      ensures InBounds() && offset == TermEnd(sentence, old(offset))
    {
      while IsTermChar(Peek())
        invariant InBounds() && TermEnd(sentence, offset) == TermEnd(sentence, old(offset))
        decreases |sentence| - offset
      {
        offset := offset + 1;
      }
    }

    /** The arguments behind the first one. */
    method Arguments(term: string, first: Tree) returns (r: Parsed)
      requires InBounds()
      modifies this
      ensures Returned(r, ArgsRest(sentence, old(offset), term, [first]))
      decreases |sentence| - offset, 9
    {
      hide ParseArgument, SkipSpace, IsSpace, ArgsRest;
      ghost var spec := ArgsRest(sentence, offset, term, [first]);
      var args := [first];
      ArgsRestSkips(sentence, offset, term, args);
      SkipTwice(sentence, offset);
      SkipSpaces();
      while Peek() == ','
        invariant InBounds() && offset >= old(offset) && offset == SkipSpace(sentence, offset)
        invariant spec == ArgsRest(sentence, offset, term, args)
        decreases |sentence| - offset
      {
        ArgsRestUnfolds(sentence, offset, term, args);
        offset := offset + 1;
        SkipSpaces();
        if Peek() == ')' {
          offset := offset + 1;
          return Node(Pattern(term, args, true), offset, offset);
        }
        var argument := Argument(false);
        if !argument.Node? { return Error; }
        args := args + [argument.tree];
        ArgsRestSkips(sentence, offset, term, args);
        SkipTwice(sentence, offset);
        SkipSpaces();
      }
      ArgsRestUnfolds(sentence, offset, term, args);
      if Peek() != ')' { return Error; }
      offset := offset + 1;
      return Node(Pattern(term, args, true), offset, offset);
    }

    method QuotedWord() returns (r: Parsed)
      requires InBounds()
      modifies this
      ensures Returned(r, ParseQuotedWord(sentence, old(offset)))
    {
      if Peek() != '"' { return Null(offset); }
      var start := offset;
      offset := offset + 1;
      while Peek() != '"' && Peek() != '\0'
        invariant InBounds() && start < offset && QuoteEnd(sentence, offset) == QuoteEnd(sentence, start + 1)
        decreases |sentence| - offset
      {
        offset := offset + 1;
      }
      if Peek() != '"' { return Error; }
      offset := offset + 1;
      return Node(Word(sentence[start + 1..offset - 1]), offset, offset);
    }

    method BareWord(shrt: bool) returns (r: Parsed)
      requires InBounds()
      modifies this
      ensures Returned(r, ParseWord(sentence, old(offset), shrt))
    {
      if EndsShort(Peek()) { return Null(offset); }
      var start := offset;
      while !EndsWord(Peek(), shrt)
        invariant InBounds() && start <= offset && WordEnd(sentence, offset, shrt) == WordEnd(sentence, start, shrt)
        decreases |sentence| - offset
      {
        offset := offset + 1;
      }
      return Node(Word(sentence[start..offset]), offset, offset);
    }
  }

  // ---------- The loops skip spaces where the specification does ----------

  lemma SkipTwice(s: string, i: nat)
    requires i <= |s|
    ensures SkipSpace(s, SkipSpace(s, i)) == SkipSpace(s, i)
  {
  }

  lemma OrRestSkips(s: string, i: nat, nodes: seq<Tree>, end: nat)
    requires i <= |s| && nodes != [] && end <= i
    ensures OrRest(s, i, nodes, end) == OrRest(s, SkipSpace(s, i), nodes, end)
  {
    SkipTwice(s, i);
  }

  lemma ParseOrUnfolds(s: string, i: nat)
    requires i <= |s|
    ensures var r := ParseAnd(s, i);
      ParseOr(s, i) == if r.Node? then OrRest(s, r.next, [r.tree], r.end) else r
  {
    hide ParseAnd, OrRest;
  }

  lemma OrRestUnfolds(s: string, i: nat, nodes: seq<Tree>, end: nat)
    requires i <= |s| && nodes != [] && end <= i && SkipSpace(s, i) == i
    ensures At(s, i) == '|' ==> i < |s|
    ensures OrRest(s, i, nodes, end) ==
      if At(s, i) == '|' then
        var r := ParseAnd(s, SkipSpace(s, i + 1));
        if r.Node? then OrRest(s, r.next, nodes + [r.tree], r.end) else Error
      else Node(Wrap("?or", nodes), end, i)
  {
    hide ParseAnd, Wrap, SkipSpace;
  }

  lemma AndRestSkips(s: string, i: nat, nodes: seq<Tree>, end: nat)
    requires i <= |s| && end <= i
    ensures AndRest(s, i, nodes, end) == AndRest(s, SkipSpace(s, i), nodes, end)
  {
    SkipTwice(s, i);
  }

  lemma ArgsRestSkips(s: string, i: nat, term: string, args: seq<Tree>)
    requires i <= |s|
    ensures ArgsRest(s, i, term, args) == ArgsRest(s, SkipSpace(s, i), term, args)
  {
    SkipTwice(s, i);
  }

  lemma ArgsRestUnfolds(s: string, i: nat, term: string, args: seq<Tree>)
    requires i <= |s| && SkipSpace(s, i) == i
    ensures ArgsRest(s, i, term, args) ==
      if At(s, i) == ',' then
        var k := SkipSpace(s, i + 1);
        if At(s, k) == ')' then Node(Pattern(term, args, true), k + 1, k + 1)
        else
          match ParseArgument(s, k, false)
          case Node(tree, _, next) => ArgsRest(s, next, term, args + [tree])
          case _ => Error
      else if At(s, i) == ')' then Node(Pattern(term, args, true), i + 1, i + 1)
      else Error
  {
    hide ParseArgument;
  }
}

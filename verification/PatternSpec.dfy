/**
  What the recursive-descent parser computes, as functions of the sentence and the
  offset. A parse function returns a node, nothing, or an error; the next offset goes
  with the first two.
*/
module PatternSpec {
  import opened PatternText

  /** `end` is the end position of the node, which parseTop compares with the length of the sentence. */
  datatype Parsed = Node(tree: Tree, end: nat, next: nat) | Null(next: nat) | Error

  /** A node strictly advances, and nothing is read behind the terminating zero. */
  predicate Advances(s: string, i: nat, r: Parsed) {
    match r
    case Node(_, end, next) => i < next <= |s| && i < end <= next
    case Null(next) => i <= next <= |s|
    case Error => true
  }

  /** A single node stands for itself. */
  function Wrap(term: string, nodes: seq<Tree>): Tree
    requires nodes != []
  {
    if |nodes| == 1 then nodes[0] else Pattern(term, nodes, true)
  }

  function ParseOr(s: string, i: nat): (r: Parsed)
    requires i <= |s|
    ensures Advances(s, i, r)
    decreases |s| - i, 6
  {
    match ParseAnd(s, i)
    case Error => Error
    case Null(next) => Null(next)
    case Node(tree, end, next) => OrRest(s, next, [tree], end)
  }

  function OrRest(s: string, i: nat, nodes: seq<Tree>, end: nat): (r: Parsed)
    requires i <= |s| && nodes != [] && end <= i
    ensures r.Node? ==> i <= r.next <= |s| && end <= r.end <= r.next
    ensures !r.Null?
    decreases |s| - i, 7
  {
    var j := SkipSpace(s, i);
    if At(s, j) == '|' then
      match ParseAnd(s, SkipSpace(s, j + 1))
      case Error => Error
      case Null(_) => Error
      case Node(tree, e, next) => OrRest(s, next, nodes + [tree], e)
    else Node(Wrap("?or", nodes), end, j)
  }

  function ParseAnd(s: string, i: nat): (r: Parsed)
    requires i <= |s|
    ensures Advances(s, i, r)
    decreases |s| - i, 5
  {
    AndRest(s, i, [], i)
  }

  function AndRest(s: string, i: nat, nodes: seq<Tree>, end: nat): (r: Parsed)
    requires i <= |s| && end <= i
    ensures r.Node? ==> i <= r.next <= |s| && end <= r.end <= r.next
    ensures r.Node? && nodes == [] ==> i < r.next && i < r.end
    ensures r.Null? ==> i <= r.next <= |s| && nodes == []
    decreases |s| - i, 4
  {
    var j := SkipSpace(s, i);
    var r := if j < |s| then ParseUnary(s, j) else Null(j);
    match r
    case Error => Error
    case Node(tree, e, next) => AndRest(s, next, nodes + [tree], e)
    case Null(_) => if nodes == [] then Null(j) else Node(Wrap("?and", nodes), end, j)
  }

  function ParseUnary(s: string, i: nat): (r: Parsed)
    requires i <= |s|
    ensures Advances(s, i, r) && (r.Null? ==> r.next == i)
    decreases |s| - i, 3
  {
    if At(s, i) != '!' then ParsePrimary(s, i)
    else
      match ParsePrimary(s, i + 1)
      case Node(tree, end, next) => Node(Pattern("?not", [tree], true), end, next)
      case _ => Error
  }

  function ParsePrimary(s: string, i: nat): (r: Parsed)
    requires i <= |s|
    ensures Advances(s, i, r) && (r.Null? ==> r.next == i)
    decreases |s| - i, 2
  {
    match ParseShort(s, i)
    case Null(_) =>
      (match ParsePattern(s, i)
       case Null(_) => ParseGroup(s, i)
       case r => r)
    case r => r
  }

  function ParseGroup(s: string, i: nat): (r: Parsed)
    requires i <= |s|
    ensures Advances(s, i, r) && (r.Null? ==> r.next == i)
    decreases |s| - i, 1
  {
    if At(s, i) != '(' then Null(i)
    else
      match ParseOr(s, SkipSpace(s, i + 1))
      case Node(tree, _, next) =>
        var k := SkipSpace(s, next);
        if At(s, k) == ')' then Node(tree, k + 1, k + 1) else Error
      case _ => Error
  }

  function ParseArgument(s: string, i: nat, shrt: bool): (r: Parsed)
    requires i <= |s|
    ensures Advances(s, i, r) && !r.Null?
    decreases |s| - i, 8
  {
    match ParseQuotedWord(s, i)
    case Null(_) =>
      (match ParseWord(s, i, shrt)
       case Null(_) => (match ParseOr(s, i) case Null(_) => Error case r => r)
       case r => r)
    case r => r
  }

  function ParseShort(s: string, i: nat): (r: Parsed)
    requires i <= |s|
    ensures Advances(s, i, r) && (r.Null? ==> r.next == i)
    decreases |s| - i, 1
  {
    if At(s, i) != '~' then Null(i)
    else
      var k := FindShort(s, i + 1, 0);
      if k == SHORT_FORMS then Error
      else
        var sf := ShortFormAt(k);
        var j := i + 1 + |sf.name|;
        if !sf.takesArgument then Node(Pattern(sf.long, [], false), j, j)
        else
          match ParseArgument(s, j, true)
          case Node(tree, _, next) => Node(Pattern(sf.long, [tree], true), next, next)
          case _ => Error
  }

  function ParsePattern(s: string, i: nat): (r: Parsed)
    requires i <= |s|
    ensures Advances(s, i, r) && (r.Null? ==> r.next == i)
    decreases |s| - i, 1
  {
    if At(s, i) != '?' then Null(i)
    else
      var j := TermEnd(s, i + 1);
      if j == i + 1 then Error
      else
        var e := SkipSpace(s, j);
        if At(s, e) != '(' then Node(Pattern(s[i..j], [], false), e, e)
        else
          var k := SkipSpace(s, e + 1);
          if At(s, k) == ')' then Node(Pattern(s[i..j], [], true), k + 1, k + 1)
          else
            match ParseArgument(s, k, false)
            case Node(tree, _, next) => ArgsRest(s, next, s[i..j], [tree])
            case _ => Error
  }

  /** A comma in front of the closing parenthesis is fine. */
  function ArgsRest(s: string, i: nat, term: string, args: seq<Tree>): (r: Parsed)
    requires i <= |s|
    ensures r.Error? || (r.Node? && i < r.next <= |s| && r.end == r.next)
    decreases |s| - i, 9
  {
    var j := SkipSpace(s, i);
    if At(s, j) == ',' then
      var k := SkipSpace(s, j + 1);
      if At(s, k) == ')' then Node(Pattern(term, args, true), k + 1, k + 1)
      else
        match ParseArgument(s, k, false)
        case Node(tree, _, next) => ArgsRest(s, next, term, args + [tree])
        case _ => Error
    else if At(s, j) == ')' then Node(Pattern(term, args, true), j + 1, j + 1)
    else Error
  }

  function ParseQuotedWord(s: string, i: nat): (r: Parsed)
    requires i <= |s|
    ensures Advances(s, i, r) && (r.Null? ==> r.next == i)
  {
    if At(s, i) != '"' then Null(i)
    else
      var j := QuoteEnd(s, i + 1);
      if At(s, j) != '"' then Error else Node(Word(s[i + 1..j]), j + 1, j + 1)
  }

  function ParseWord(s: string, i: nat, shrt: bool): (r: Parsed)
    requires i <= |s|
    ensures Advances(s, i, r) && (r.Null? ==> r.next == i)
  {
    if EndsShort(At(s, i)) then Null(i)
    else
      var j := WordEnd(s, i, shrt);
      Node(Word(s[i..j]), j, j)
  }

  datatype Outcome = Tree(tree: PatternText.Tree) | Rejected

  /** There may be nothing behind the pattern. */
  function ParseTop(s: string): Outcome {
    match ParseOr(s, SkipSpace(s, 0))
    case Node(tree, end, _) => if end == |s| then Tree(tree) else Rejected
    case _ => Rejected
  }
}

/**
  The surface syntax of patterns: how alternatives, juxtaposition, negation, groups, short
  and long forms are written, and which tree each of them stands for.
*/
module PatternSyntax {
  import opened Wrappers
  import opened PatternText
  import opened PatternSpec

  datatype Expr =
    | Or(parts: seq<Expr>)
    | And(parts: seq<Expr>)
    | Not(e: Expr)
    | Group(e: Expr)
    | Short(k: nat, word: string)
    | Long(term: string, parts: seq<Expr>, list: bool, comma: bool)
    | Bare(word: string)
  {
    predicate HasParts() { Or? || And? || Long? }
    predicate IsPrimary() { Group? || Short? || Long? }
    predicate IsUnary() { Not? || IsPrimary() }
  }

  // ---------- Which expressions can be written ----------

  function StripLeft(w: string): (r: string)
    ensures |r| <= |w| && w[|w| - |r|..] == r && (r != "" ==> !IsSpace(r[0]))
    ensures forall k :: 0 <= k < |w| - |r| ==> IsSpace(w[k])
  {
    if w != "" && IsSpace(w[0]) then StripLeft(w[1..]) else w
  }

  predicate IsTerm(t: string) {
    |t| > 1 && t[0] == '?' && forall k :: 1 <= k < |t| ==> IsTermChar(t[k])
  }

  /** What a bare argument of a long form may be, spaces in front included. */
  predicate IsLongWord(w: string) {
    && (forall k :: 0 <= k < |w| ==> !EndsLong(w[k]))
    && (StripLeft(w) != "" ==> !EndsShort(StripLeft(w)[0]) && StripLeft(w)[0] != '"')
  }

  predicate IsShortWord(w: string) {
    w != "" && w[0] != '"' && forall k :: 0 <= k < |w| ==> !EndsShort(w[k])
  }

  /** No earlier entry of the table is what the text begins with. */
  predicate FoundFirst(k: nat, word: string)
    requires k < SHORT_FORMS
  {
    forall j :: 0 <= j < k ==> !Has(ShortFormAt(k).name + word, 0, ShortFormAt(j).name)
  }

  /** The text ends in a long form without argument list, which an opening parenthesis would extend. */
  predicate IsOpen(e: Expr) {
    match e
    case Or(parts) => parts != [] && IsOpen(parts[|parts| - 1])
    case And(parts) => parts != [] && IsOpen(parts[|parts| - 1])
    case Not(x) => IsOpen(x)
    case Long(_, _, list, _) => !list
    case _ => false
  }

  /** How the text of an expression ends: with a word, with a pattern that could go on, or for good. */
  datatype Tail = ClosedTail | OpenTail | WordTail

  function TailOf(e: Expr): (t: Tail)
    ensures t == OpenTail <==> IsOpen(e)
  {
    match e
    case Or(parts) => if parts != [] then TailOf(parts[|parts| - 1]) else ClosedTail
    case And(parts) => if parts != [] then TailOf(parts[|parts| - 1]) else ClosedTail
    case Not(x) => TailOf(x)
    case Short(k, _) => if k < SHORT_FORMS && ShortFormAt(k).takesArgument then WordTail else ClosedTail
    case Long(_, _, list, _) => if list then ClosedTail else OpenTail
    case _ => ClosedTail
  }

  predicate IsBlank(e: Expr) { e.Bare? && StripLeft(e.word) == "" }

  predicate Wf(e: Expr) {
    match e
    case Or(parts) =>
      && |parts| >= 2
      && (forall k :: 0 <= k < |parts| ==> Wf(parts[k]) && (parts[k].And? || parts[k].IsUnary()))
    case And(parts) =>
      && |parts| >= 2
      && (forall k :: 0 <= k < |parts| ==> Wf(parts[k]) && parts[k].IsUnary())
      && (forall k :: 0 < k < |parts| ==> !(IsOpen(parts[k - 1]) && parts[k].Group?))
    case Not(x) => Wf(x) && x.IsPrimary()
    case Group(x) => Wf(x) && !x.Bare?
    case Short(k, word) =>
      k < SHORT_FORMS && (if ShortFormAt(k).takesArgument then IsShortWord(word) else word == "") && FoundFirst(k, word)
    case Long(term, parts, list, comma) =>
      && IsTerm(term) && (!list ==> parts == []) && (parts == [] ==> !comma)
      && (forall k :: 0 <= k < |parts| ==> Wf(parts[k]) && (IsBlank(parts[k]) ==> comma))
    case Bare(word) => IsLongWord(word)
  }

  // ---------- How they are written ----------

  function Separator(e: Expr, k: nat): string
    requires e.HasParts() && k < |e.parts|
  {
    match e
    case Or(parts) => if k + 1 < |parts| then "|" else ""
    case And(parts) => if k + 1 < |parts| then " " else ""
    case Long(_, parts, _, comma) => if k + 1 < |parts| || comma then "," else ""
  }

  function Show(e: Expr): string
    decreases e, 1, 0
  {
    match e
    case Or(_) => ShowFrom(e, 0)
    case And(_) => ShowFrom(e, 0)
    case Not(x) => "!" + Show(x)
    case Group(x) => "(" + Show(x) + ")"
    case Short(k, word) => "~" + (if k < SHORT_FORMS then ShortFormAt(k).name else "") + word
    case Long(term, _, list, _) => if list then term + "(" + ShowFrom(e, 0) + ")" else term
    case Bare(word) => word
  }

  function ShowFrom(e: Expr, k: nat): string
    requires e.HasParts() && k <= |e.parts|
    decreases e, 0, |e.parts| - k
  {
    if k == |e.parts| then "" else Show(e.parts[k]) + Separator(e, k) + ShowFrom(e, k + 1)
  }

  // ---------- Which tree they stand for ----------

  /** None if an argument is missing where one is announced. */
  function Meaning(e: Expr): Option<PatternText.Tree>
    decreases e, 1, 0
  {
    match e
    case Or(parts) => (match Meanings(e, 0) case None => None case Some(ts) => Some(Pattern("?or", ts, true)))
    case And(parts) => (match Meanings(e, 0) case None => None case Some(ts) => Some(Pattern("?and", ts, true)))
    case Not(x) => (match Meaning(x) case None => None case Some(t) => Some(Pattern("?not", [t], true)))
    case Group(x) => Meaning(x)
    case Short(k, word) =>
      if k >= SHORT_FORMS then None
      else if ShortFormAt(k).takesArgument then Some(Pattern(ShortFormAt(k).long, [Word(word)], true))
      else Some(Pattern(ShortFormAt(k).long, [], false))
    case Long(term, parts, list, _) =>
      (match Meanings(e, 0) case None => None case Some(ts) => Some(Pattern(term, ts, list)))
    case Bare(word) => if StripLeft(word) == "" then None else Some(Word(StripLeft(word)))
  }

  function Meanings(e: Expr, k: nat): (r: Option<seq<PatternText.Tree>>)
    requires e.HasParts() && k <= |e.parts|
    ensures r.Some? ==> |r.value| == |e.parts| - k
    decreases e, 0, |e.parts| - k
  {
    if k == |e.parts| then Some([])
    else
      match Meaning(e.parts[k])
      case None => None
      case Some(t) => (match Meanings(e, k + 1) case None => None case Some(ts) => Some([t] + ts))
  }
}

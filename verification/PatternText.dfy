/**
  Pattern trees, the characters they are written with, and the table of short forms.
*/
module PatternText {

  /** Positions are left out; `list` says whether the pattern has an argument list. */
  datatype Tree = Pattern(term: string, args: seq<Tree>, list: bool) | Word(word: string)

  // ---------- Reading the sentence ----------

  /** The character at i; there is a zero behind the last one. */
  function At(s: string, i: nat): char
    requires i <= |s|
  {
    if i < |s| then s[i] else '\0'
  }

  predicate IsSpace(c: char) { c == ' ' || c == '\t' || c == '\r' || c == '\n' }

  predicate IsTermChar(c: char) { '0' <= c <= '9' || 'a' <= c <= 'z' || 'A' <= c <= 'Z' || c == '-' }

  /** What ends a word inside a long pattern. */
  predicate EndsLong(c: char) { c == '|' || c == ',' || c == '(' || c == ')' || c == '\0' }

  /** What cannot begin a word, and what ends one in a short form. */
  predicate EndsShort(c: char) { EndsLong(c) || c == '!' || c == '?' || c == '~' || c == ' ' }

  predicate EndsWord(c: char, shrt: bool) { if shrt then EndsShort(c) else EndsLong(c) }

  function SkipSpace(s: string, i: nat): (j: nat)
    requires i <= |s|
    ensures i <= j <= |s| && !IsSpace(At(s, j))
    ensures forall k :: i <= k < j ==> IsSpace(s[k])
    decreases |s| - i
  {
    if IsSpace(At(s, i)) then SkipSpace(s, i + 1) else i
  }

  function TermEnd(s: string, i: nat): (j: nat)
    requires i <= |s|
    ensures i <= j <= |s| && !IsTermChar(At(s, j))
    ensures forall k :: i <= k < j ==> IsTermChar(s[k])
    decreases |s| - i
  {
    if IsTermChar(At(s, i)) then TermEnd(s, i + 1) else i
  }

  function WordEnd(s: string, i: nat, shrt: bool): (j: nat)
    requires i <= |s|
    ensures i <= j <= |s| && EndsWord(At(s, j), shrt)
    ensures forall k :: i <= k < j ==> !EndsWord(s[k], shrt)
    decreases |s| - i
  {
    if EndsWord(At(s, i), shrt) then i else WordEnd(s, i + 1, shrt)
  }

  /** The closing quote, or the end of the text before it. */
  function QuoteEnd(s: string, i: nat): (j: nat)
    requires i <= |s|
    ensures i <= j <= |s| && (At(s, j) == '"' || At(s, j) == '\0')
    decreases |s| - i
  {
    if At(s, i) == '"' || At(s, i) == '\0' then i else QuoteEnd(s, i + 1)
  }

  // ---------- Short forms ----------

  datatype ShortForm = ShortForm(name: string, long: string, takesArgument: bool)

  const SHORT_FORMS: nat := 41

  /** The table is searched in this order. */
  function ShortFormAt(k: nat): ShortForm
    requires k < SHORT_FORMS
  {
    match k
    case 0 => ShortForm("r", "?architecture", true)
    case 1 => ShortForm("A", "?archive", true)
    case 2 => ShortForm("M", "?automatic", false)
    case 3 => ShortForm("b", "?broken", false)
    case 4 => ShortForm("c", "?config-files", false)
    case 5 => ShortForm("DDepends:", "?depends", true)
    case 6 => ShortForm("DPre-Depends:", "?pre-depends", true)
    case 7 => ShortForm("DPreDepends:", "?predepends", true)
    case 8 => ShortForm("DSuggests:", "?suggests", true)
    case 9 => ShortForm("DRecommends:", "?recommends", true)
    case 10 => ShortForm("DConflicts:", "?conflicts", true)
    case 11 => ShortForm("DReplaces:", "?replaces", true)
    case 12 => ShortForm("DObsoletes:", "?obsoletes", true)
    case 13 => ShortForm("DBreaks:", "?breaks", true)
    case 14 => ShortForm("DEnhances:", "?enhances", true)
    case 15 => ShortForm("D", "?depends", true)
    case 16 => ShortForm("RDepends:", "?reverse-depends", true)
    case 17 => ShortForm("RPre-Depends:", "?reverse-pre-depends", true)
    case 18 => ShortForm("RPreDepends:", "?reverse-predepends", true)
    case 19 => ShortForm("RSuggests:", "?reverse-suggests", true)
    case 20 => ShortForm("RRecommends:", "?reverse-recommends", true)
    case 21 => ShortForm("RConflicts:", "?reverse-conflicts", true)
    case 22 => ShortForm("RReplaces:", "?reverse-replaces", true)
    case 23 => ShortForm("RObsoletes:", "?reverse-obsoletes", true)
    case 24 => ShortForm("RBreaks:", "?reverse-breaks", true)
    case 25 => ShortForm("REnhances:", "?reverse-enhances", true)
    case 26 => ShortForm("R", "?reverse-depends", true)
    case 27 => ShortForm("E", "?essential", false)
    case 28 => ShortForm("F", "?false", false)
    case 29 => ShortForm("g", "?garbage", false)
    case 30 => ShortForm("i", "?installed", false)
    case 31 => ShortForm("n", "?name", true)
    case 32 => ShortForm("o", "?obsolete", false)
    case 33 => ShortForm("O", "?origin", true)
    case 34 => ShortForm("p", "?priority", true)
    case 35 => ShortForm("s", "?section", true)
    case 36 => ShortForm("e", "?source-package", true)
    case 37 => ShortForm("T", "?true", false)
    case 38 => ShortForm("U", "?upgradable", false)
    case 39 => ShortForm("V", "?version", true)
    case _ => ShortForm("v", "?virtual", false)
  }

  /** The text at i begins with t. */
  predicate Has(s: string, i: nat, t: string) {
    i + |t| <= |s| && s[i..i + |t|] == t
  }

  /** The first entry of the table from k on whose name stands at i. */
  function FindShort(s: string, i: nat, k: nat): (r: nat)
    requires i <= |s| && k <= SHORT_FORMS
    ensures k <= r <= SHORT_FORMS
    ensures r < SHORT_FORMS ==> Has(s, i, ShortFormAt(r).name)
    ensures forall j :: k <= j < r ==> !Has(s, i, ShortFormAt(j).name)
    decreases SHORT_FORMS - k
  {
    if k == SHORT_FORMS then k
    else if Has(s, i, ShortFormAt(k).name) then k
    else FindShort(s, i, k + 1)
  }

  // ---------- Rendering ----------

  /** Every argument is followed by a comma. */
  function Render(t: Tree): string
    decreases t, 1, 0
  {
    match t
    case Word(w) => w
    case Pattern(term, args, list) => if list then term + "(" + RenderArgs(t, 0) + ")" else term
  }

  function RenderArgs(t: Tree, k: nat): string
    requires t.Pattern? && k <= |t.args|
    decreases t, 0, |t.args| - k
  {
    if k == |t.args| then "" else Render(t.args[k]) + "," + RenderArgs(t, k + 1)
  }
}

/**
  The pattern language as a grammar, said of a piece of the sentence and the tree it is read as: where
  spaces may be, what a word may consist of, and which brackets and bars have to be there. The
  characters are those of the tables in the program; nothing here says in which order things are tried.
*/
module PatternGrammar {
  import opened PatternText

  // ---------- Characters ----------

  const SPACES := " \t\r\n"
  const NOT_FIRST := "!?~|,() \0"
  const NOT_IN_LONG := "|,()\0"
  const NOT_IN_SHORT := "!?~|,() \0"

  /** The piece from i to j consists of characters in the list, or of none of them. */
  predicate AllOf(s: string, i: nat, j: nat, chars: string) {
    i <= j <= |s| && forall k :: i <= k < j ==> s[k] in chars
  }

  predicate NoneOf(s: string, i: nat, j: nat, chars: string) {
    i <= j <= |s| && forall k :: i <= k < j ==> s[k] !in chars
  }

  /** Digits, letters and hyphens. */
  predicate NameChars(s: string, i: nat, j: nat) {
    i <= j <= |s| && forall k :: i <= k < j ==>
      ('0' <= s[k] <= '9') || ('a' <= s[k] <= 'z') || ('A' <= s[k] <= 'Z') || s[k] == '-'
  }

  predicate Spaces(s: string, i: nat, j: nat) { AllOf(s, i, j, SPACES) }

  /** One character c with spaces around it. */
  ghost predicate Between(s: string, i: nat, j: nat, c: char) {
    exists b: nat :: i <= b < j <= |s| && Spaces(s, i, b) && s[b] == c && Spaces(s, b + 1, j)
  }

  // ---------- Patterns ----------

  ghost predicate GOr(s: string, i: nat, j: nat, t: Tree)
    decreases j - i, 18, 0
  {
    i < j <= |s| &&
    (GAnd(s, i, j, t) || (t.Pattern? && t.term == "?or" && t.list && |t.args| >= 2 && GAlternatives(s, i, j, t.args)))
  }

  /** Alternatives with bars between them. */
  ghost predicate GAlternatives(s: string, i: nat, j: nat, args: seq<Tree>)
    decreases j - i, 16, |args|
  {
    && i < j <= |s| && args != []
    && if |args| == 1 then GAnd(s, i, j, args[0]) else exists m: nat, n: nat :: LastAlternative(s, i, m, n, j, args)
  }

  /** The last alternative is the piece from n to j, behind the bar between m and n. */
  ghost predicate LastAlternative(s: string, i: nat, m: nat, n: nat, j: nat, args: seq<Tree>)
    requires i < j <= |s| && |args| > 1
    decreases j - i, 15, |args|
  {
    && i < m < n < j && GAlternatives(s, i, m, args[..|args| - 1]) && Between(s, m, n, '|')
    && GAnd(s, n, j, args[|args| - 1])
  }

  ghost predicate GAnd(s: string, i: nat, j: nat, t: Tree)
    decreases j - i, 14, 0
  {
    i < j <= |s| &&
    (GSequence(s, i, j, [t]) ||
     (t.Pattern? && t.term == "?and" && t.list && |t.args| >= 2 && GSequence(s, i, j, t.args)))
  }

  /** Patterns behind each other, with or without spaces in front of each. */
  ghost predicate GSequence(s: string, i: nat, j: nat, args: seq<Tree>)
    decreases j - i, 12, |args|
  {
    i < j <= |s| && args != [] && exists m: nat, n: nat :: LastInSequence(s, i, m, n, j, args)
  }

  /** The last pattern is the piece from n to j, behind spaces from m to n. */
  ghost predicate LastInSequence(s: string, i: nat, m: nat, n: nat, j: nat, args: seq<Tree>)
    requires i < j <= |s| && args != []
    decreases j - i, 11, |args|
  {
    && i <= m <= n < j && Spaces(s, m, n) && GUnary(s, n, j, args[|args| - 1])
    && if |args| == 1 then m == i else i < m && GSequence(s, i, m, args[..|args| - 1])
  }

  ghost predicate GUnary(s: string, i: nat, j: nat, t: Tree)
    decreases j - i, 10, 0
  {
    i < j <= |s| &&
    (GPrimary(s, i, j, t) ||
     (s[i] == '!' && t.Pattern? && t.term == "?not" && t.list && |t.args| == 1 && GPrimary(s, i + 1, j, t.args[0])))
  }

  ghost predicate GPrimary(s: string, i: nat, j: nat, t: Tree)
    decreases j - i, 8, 0
  {
    i < j <= |s| && (GShort(s, i, j, t) || GLong(s, i, j, t) || GGroup(s, i, j, t))
  }

  ghost predicate GGroup(s: string, i: nat, j: nat, t: Tree)
    decreases j - i, 6, 0
  {
    && i + 2 < j <= |s| && s[i] == '(' && s[j - 1] == ')'
    && exists m: nat, n: nat :: i < m < n < j && GOr(s, m, n, t) && Spaces(s, i + 1, m) && Spaces(s, n, j - 1)
  }

  /** A tilde, a name of the table, and its argument if it takes one. */
  ghost predicate GShort(s: string, i: nat, j: nat, t: Tree)
    decreases j - i, 6, 0
  {
    i < j <= |s| && s[i] == '~' && t.Pattern? && exists k: nat :: k < SHORT_FORMS && GShortForm(s, i, j, t, k)
  }

  ghost predicate GShortForm(s: string, i: nat, j: nat, t: Tree, k: nat)
    requires i < j <= |s| && t.Pattern? && k < SHORT_FORMS
    decreases j - i, 5, 0
  {
    var b := i + 1 + |ShortFormAt(k).name|;
    && Has(s, i + 1, ShortFormAt(k).name) && t.term == ShortFormAt(k).long
    && if ShortFormAt(k).takesArgument then
         t.list && |t.args| == 1 && exists e: nat :: GShortArgument(s, b, e, j, t.args[0])
       else !t.list && t.args == [] && b == j
  }

  /** A pattern as the argument of a short form may have spaces behind it. */
  ghost predicate GShortArgument(s: string, b: nat, e: nat, j: nat, t: Tree)
    requires j <= |s|
    decreases j - b, 21, 0
  {
    b < e <= j && GArgument(s, b, e, t, NOT_IN_SHORT) && Spaces(s, e, j)
  }

  /** A question mark and a name, with or without an argument list. */
  ghost predicate GLong(s: string, i: nat, j: nat, t: Tree)
    decreases j - i, 6, 0
  {
    i < j <= |s| && s[i] == '?' && t.Pattern? && exists e: nat :: GName(s, i, e, j, t)
  }

  /** The name ends at e. */
  ghost predicate GName(s: string, i: nat, e: nat, j: nat, t: Tree)
    requires i < j <= |s| && t.Pattern?
    decreases j - i, 5, 0
  {
    && i + 1 < e <= j && NameChars(s, i + 1, e) && t.term == s[i..e]
    && if t.list then exists o: nat :: GList(s, e, o, j, t.args) else t.args == [] && Spaces(s, e, j)
  }

  /** Spaces and an argument list in parentheses, the first of which is at o; a comma at its end does no harm. */
  ghost predicate GList(s: string, i: nat, o: nat, j: nat, args: seq<Tree>)
    requires i <= j <= |s|
    decreases j - i, 4, 0
  {
    && i <= o && o + 1 < j && Spaces(s, i, o) && s[o] == '(' && s[j - 1] == ')'
    && if args == [] then Spaces(s, o + 1, j - 1) else exists m: nat :: GArgumentList(s, o, m, j, args)
  }

  ghost predicate GArgumentList(s: string, o: nat, m: nat, j: nat, args: seq<Tree>)
    requires o < j <= |s|
    decreases j - o, 3, |args|
  {
    o + 1 < m < j && GArguments(s, o + 1, m, args) && (Spaces(s, m, j - 1) || Between(s, m, j - 1, ','))
  }

  /** Arguments with commas between them, spaces in front included. */
  ghost predicate GArguments(s: string, i: nat, j: nat, args: seq<Tree>)
    decreases j - i, 23, |args|
  {
    i < j <= |s| && args != [] && exists m: nat, n: nat :: LastArgument(s, i, m, n, j, args)
  }

  /** The last argument is the piece from n to j, behind the comma between m and n if there are others. */
  ghost predicate LastArgument(s: string, i: nat, m: nat, n: nat, j: nat, args: seq<Tree>)
    requires i < j <= |s| && args != []
    decreases j - i, 22, |args|
  {
    && i <= m <= n < j && GArgument(s, n, j, args[|args| - 1], NOT_IN_LONG)
    && if |args| == 1 then m == i && Spaces(s, m, n)
       else i < m && GArguments(s, i, m, args[..|args| - 1]) && Between(s, m, n, ',')
  }

  /** A quoted word, a bare one without the forbidden characters, or a pattern. */
  ghost predicate GArgument(s: string, i: nat, j: nat, t: Tree, forbidden: string)
    decreases j - i, 20, 0
  {
    i < j <= |s| &&
    (GQuoted(s, i, j, t) || GWord(s, i, j, t, forbidden) || GOr(s, i, j, t))
  }

  predicate GQuoted(s: string, i: nat, j: nat, t: Tree) {
    i + 1 < j <= |s| && s[i] == '"' && s[j - 1] == '"' && NoneOf(s, i + 1, j - 1, "\"\0") && t == Word(s[i + 1..j - 1])
  }

  predicate GWord(s: string, i: nat, j: nat, t: Tree, forbidden: string) {
    i < j <= |s| && s[i] !in NOT_FIRST && NoneOf(s, i, j, forbidden) && t == Word(s[i..j])
  }
}

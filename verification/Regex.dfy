/**
 The fragment of ECMA-262 regular expressions the glob compiler can produce, and a little
 more: a reader for pattern text (the Pattern grammar of section 22.2.1) and the language
 a pattern accepts (section 22.2.2), without captures, backreferences or lookarounds.
 */
module Regex {
  import opened Text

  datatype Regex =
    | Empty
    | Bol
    | Eol
    | Literal(c: char)
    | Dot
    | Class(negated: bool, members: set<char>)
    | Concat(first: Regex, second: Regex)
    | Alt(left: Regex, right: Regex)
    | Star(body: Regex)

  /** SyntaxCharacter of section 22.2.1. */
  predicate IsSyntaxCharacter(c: char) {
    c in "^$\\.*+?()[]{}|"
  }

  // ---------- reading pattern text ----------

  type Reading = Option<(Regex, string)>

  /** A Pattern is a Disjunction that uses up the whole text. */
  function ReadPattern(text: string): (r: Option<Regex>)
  {
    match ReadDisjunction(text)
    case Some((re, rest)) => if rest == "" then Some(re) else None
    case None => None
  }

  function ReadDisjunction(text: string): (r: Reading)
    ensures r.Some? ==> |r.value.1| <= |text|
    decreases |text|, 3
  {
    match ReadAlternative(text)
    case None => None
    case Some((left, rest)) =>
      if rest != "" && rest[0] == '|' then
        match ReadDisjunction(rest[1..])
        case None => None
        case Some((right, rest')) => Some((Alt(left, right), rest'))
      else
        Some((left, rest))
  }

  function ReadAlternative(text: string): (r: Reading)
    ensures r.Some? ==> |r.value.1| <= |text|
    decreases |text|, 2
  {
    if text == "" || text[0] == ')' || text[0] == '|' then Some((Empty, text))
    else
      match ReadTerm(text)
      case None => None
      case Some((term, rest)) =>
        match ReadAlternative(rest)
        case None => None
        case Some((more, rest')) => Some((Concat(term, more), rest'))
  }

  function ReadTerm(text: string): (r: Reading)
    requires text != ""
    ensures r.Some? ==> |r.value.1| < |text|
    decreases |text|, 1
  {
    if text[0] == '^' then Some((Bol, text[1..]))
    else if text[0] == '$' then Some((Eol, text[1..]))
    else
      match ReadAtom(text)
      case None => None
      case Some((atom, rest)) => ReadQuantifier(atom, rest)
  }

  /** An optional Quantifier; a lazy `?` suffix changes the search order, not the language. */
  function ReadQuantifier(atom: Regex, text: string): (r: Reading)
    ensures r.Some? ==> |r.value.1| <= |text|
  {
    if text == "" then Some((atom, text))
    else if text[0] == '*' then Some((Star(atom), SkipLazy(text[1..])))
    else if text[0] == '+' then Some((Concat(atom, Star(atom)), SkipLazy(text[1..])))
    else if text[0] == '?' then Some((Alt(atom, Empty), SkipLazy(text[1..])))
    else if text[0] == '{' then None
    else Some((atom, text))
  }

  function SkipLazy(text: string): (rest: string)
    ensures |rest| <= |text|
  {
    if text != "" && text[0] == '?' then text[1..] else text
  }

  function ReadAtom(text: string): (r: Reading)
    requires text != ""
    ensures r.Some? ==> |r.value.1| < |text|
    decreases |text|, 0
  {
    if text[0] == '.' then Some((Dot, text[1..]))
    else if text[0] == '\\' then
      if |text| >= 2 && (IsSyntaxCharacter(text[1]) || text[1] == '/')
      then Some((Literal(text[1]), text[2..]))
      else None
    else if text[0] == '[' then
      if |text| >= 2 && text[1] == '^' then ReadClass(text[2..], true, {})
      else ReadClass(text[1..], false, {})
    else if text[0] == '(' then
      if |text| >= 3 && text[1] == '?' && text[2] == ':' then
        match ReadDisjunction(text[3..])
        case Some((re, rest)) => if rest != "" && rest[0] == ')' then Some((re, rest[1..])) else None
        case None => None
      else None
    else if IsSyntaxCharacter(text[0]) then None
    else Some((Literal(text[0]), text[1..]))
  }

  /** The members of a class up to `]`; ranges, escapes and a bare `[` are outside the fragment. */
  function ReadClass(text: string, negated: bool, members: set<char>): (r: Reading)
    ensures r.Some? ==> |r.value.1| <= |text|
  {
    if text == "" || text[0] == '\\' || text[0] == '-' || text[0] == '[' then None
    else if text[0] == ']' then Some((Class(negated, members), text[1..]))
    else ReadClass(text[1..], negated, members + {text[0]})
  }

  // ---------- the language of a pattern ----------

  /** `re` can consume exactly `s[i..j]`. */
  ghost predicate Matches(re: Regex, s: string, i: nat, j: nat)
    requires i <= j <= |s|
    decreases re, j - i
  {
    match re
    case Empty => i == j
    case Bol => i == j == 0
    case Eol => i == j == |s|
    case Literal(c) => j == i + 1 && s[i] == c
    case Dot => j == i + 1 && !IsLineTerminator(s[i])
    case Class(negated, members) => j == i + 1 && ((s[i] in members) != negated)
    case Concat(first, second) =>
      exists k :: i <= k <= j && Matches(first, s, i, k) && Matches(second, s, k, j)
    case Alt(left, right) => Matches(left, s, i, j) || Matches(right, s, i, j)
    case Star(body) =>
      i == j || exists k :: i < k <= j && Matches(body, s, i, k) && Matches(re, s, k, j)
  }

  /** `RegExp.prototype.test`: the pattern matches somewhere in the string. */
  ghost predicate Test(re: Regex, s: string) {
    exists i, j :: 0 <= i <= j <= |s| && Matches(re, s, i, j)
  }

  lemma ConcatSplit(first: Regex, second: Regex, s: string, i: nat, j: nat) returns (k: nat)
    requires i <= j <= |s| && Matches(Concat(first, second), s, i, j)
    ensures i <= k <= j && Matches(first, s, i, k) && Matches(second, s, k, j)
  {
    k :| i <= k <= j && Matches(first, s, i, k) && Matches(second, s, k, j);
  }

  /** A starred single-character pattern consumes exactly the stretches of characters it admits. */
  lemma {:induction false} StarOfOne(body: Regex, admits: char -> bool, s: string, i: nat, j: nat)
    requires i <= j <= |s|
    requires forall a, b :: 0 <= a <= b <= |s| ==> (Matches(body, s, a, b) <==> b == a + 1 && admits(s[a]))
    ensures Matches(Star(body), s, i, j) <==> forall k :: i <= k < j ==> admits(s[k])
    decreases j - i
  {
    if i < j {
      StarOfOne(body, admits, s, i + 1, j);
      assert Matches(body, s, i, i + 1) <==> admits(s[i]);
    }
  }
}

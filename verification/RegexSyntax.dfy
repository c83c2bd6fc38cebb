/** A small syntax of ECMAScript patterns, its printer, and what a pattern matches.

    The regex-text scanners of the compiler (`pac-safety.ts`, `source-match.ts`) never parse a pattern;
    they walk its characters. The theorems about them say what they decide about the tree a pattern
    is the printed form of. */
module RegexSyntax {
  import opened Decimal
  import opened Options

  /** A pattern is a flat list of quantified terms and `|` separators. */
  datatype Pattern =
    | Empty
    | Bar(rest: Pattern)
    | Term(atom: Atom, quant: Quantifier, rest: Pattern)

  datatype Atom =
    | Plain(c: char)
    | Brace
    | Escape(c: char)
    | Class(items: seq<ClassItem>)
    | Group(open: Opener, body: Pattern)

  datatype ClassItem = Raw(c: char) | Quoted(c: char)

  /** How a group starts; everything but `Capture` prints as `(?...`. */
  datatype Opener =
    | Capture
    | NonCapture
    | Named(name: string)
    | Look(behind: bool, negated: bool)

  datatype Quantifier = Once | Repeat(op: RepeatOp, greedy: bool)

  datatype RepeatOp =
    | Star
    | Plus
    | Optional
    | Exactly(lo: string)
    | AtLeast(lo: string)
    | Between(lo: string, hi: string)

  predicate Unbounded(q: Quantifier) {
    q.Repeat? && (q.op.Star? || q.op.Plus? || q.op.AtLeast?)
  }

  predicate IsDigits(s: string) {
    s != "" && AllDigits(s)
  }

  /** Characters that stand for themselves in the printed form. `.`, `^`, `$`, `]` and `}` are among
      them: no scanner gives them a structural meaning outside a class or a quantifier. A `{` stands for
      itself only where no count follows, so it is an atom of its own. */
  predicate IsPlain(c: char) {
    && c != '\\' && c != '[' && c != '(' && c != ')' && c != '|'
    && c != '*' && c != '+' && c != '?' && c != '{'
  }

  predicate IsNameChar(c: char) {
    'a' <= c <= 'z' || 'A' <= c <= 'Z' || IsDigit(c) || c == '_' || c == '$'
  }

  predicate WellFormedOp(op: RepeatOp) {
    match op
    case Exactly(lo) => IsDigits(lo)
    case AtLeast(lo) => IsDigits(lo)
    case Between(lo, hi) => IsDigits(lo) && IsDigits(hi)
    case _ => true
  }

  /** `2`, `2,` or `2,3`. */
  predicate IsCount(s: string) {
    || IsDigits(s)
    || exists k :: 0 <= k < |s| && s[k] == ',' && IsDigits(s[..k]) && (s[k + 1..] == "" || IsDigits(s[k + 1..]))
  }

  /** Behind a `{` this text would make a counted quantifier. */
  predicate OpensCount(text: string) {
    exists k :: 0 <= k < |text| && text[k] == '}' && IsCount(text[..k])
  }

  predicate WellFormedAtom(a: Atom) {
    match a
    case Plain(c) => IsPlain(c)
    case Brace => true
    case Escape(_) => true
    case Class(items) => forall i :: 0 <= i < |items| ==> items[i].Raw? ==> items[i].c != '\\' && items[i].c != ']'
    case Group(open, body) =>
      && (open.Named? ==> open.name != "" && forall i :: 0 <= i < |open.name| ==> IsNameChar(open.name[i]))
      && WellFormed(body)
  }

  predicate WellFormed(p: Pattern) {
    match p
    case Empty => true
    case Bar(rest) => WellFormed(rest)
    case Term(atom, quant, rest) =>
      && WellFormedAtom(atom)
      && (quant.Repeat? ==> WellFormedOp(quant.op))
      && (atom.Brace? ==> !OpensCount(PrintQuantifier(quant) + Print(rest)))
      && WellFormed(rest)
  }

  // ----- printing

  function PrintItems(items: seq<ClassItem>): string {
    if items == [] then ""
    else (if items[0].Raw? then [items[0].c] else ['\\', items[0].c]) + PrintItems(items[1..])
  }

  function PrintOpener(open: Opener): string {
    match open
    case Capture => "("
    case NonCapture => "(?:"
    case Named(name) => "(?<" + name + ">"
    case Look(behind, negated) => "(?" + (if behind then "<" else "") + (if negated then "!" else "=")
  }

  function PrintAtom(a: Atom): string {
    match a
    case Plain(c) => [c]
    case Brace => "{"
    case Escape(c) => ['\\', c]
    case Class(items) => "[" + PrintItems(items) + "]"
    case Group(open, body) => PrintOpener(open) + Print(body) + ")"
  }

  function PrintOp(op: RepeatOp): string {
    match op
    case Star => "*"
    case Plus => "+"
    case Optional => "?"
    case Exactly(lo) => "{" + lo + "}"
    case AtLeast(lo) => "{" + lo + ",}"
    case Between(lo, hi) => "{" + lo + "," + hi + "}"
  }

  function PrintQuantifier(q: Quantifier): string {
    match q
    case Once => ""
    case Repeat(op, greedy) => PrintOp(op) + if greedy then "" else "?"
  }

  function Print(p: Pattern): string {
    match p
    case Empty => ""
    case Bar(rest) => "|" + Print(rest)
    case Term(atom, quant, rest) => PrintAtom(atom) + PrintQuantifier(quant) + Print(rest)
  }

  // ----- meaning

  /** What the tree leaves open: the meaning of an escaped letter or digit between two positions of the
      subject (class escapes, assertions, back references) and the members of a character class. The
      theorems hold for every choice. */
  datatype Meaning = Meaning(
    special: (char, string, int, int) -> bool,
    member: (seq<ClassItem>, char) -> bool)

  predicate IsAlphanumeric(c: char) { IsNameChar(c) && c != '$' }

  predicate CountAllowed(q: Quantifier, n: nat)
    requires q.Repeat? ==> WellFormedOp(q.op)
  {
    match q
    case Once => n == 1
    case Repeat(Star, _) => true
    case Repeat(Plus, _) => n >= 1
    case Repeat(Optional, _) => n <= 1
    case Repeat(Exactly(lo), _) => n == ValueOf(lo)
    case Repeat(AtLeast(lo), _) => n >= ValueOf(lo)
    case Repeat(Between(lo, hi), _) => ValueOf(lo) <= n <= ValueOf(hi)
  }

  predicate Cut(i: nat, k: nat, j: nat) { i <= k <= j }

  /** The atom consumes exactly `s[i..j]`. */
  ghost predicate AtomMatches(m: Meaning, a: Atom, s: string, i: nat, j: nat)
    requires WellFormedAtom(a) && i <= j <= |s|
    decreases a, 0
  {
    match a
    case Plain(c) =>
      if c == '.' then j == i + 1 && s[i] != '\n' && s[i] != '\r' && s[i] != '\U{2028}' && s[i] != '\U{2029}'
      else if c == '^' then i == j == 0
      else if c == '$' then i == j == |s|
      else j == i + 1 && s[i] == c
    case Brace => j == i + 1 && s[i] == '{'
    case Escape(c) => if IsAlphanumeric(c) then m.special(c, s, i, j) else j == i + 1 && s[i] == c
    case Class(items) => j == i + 1 && m.member(items, s[i])
    case Group(open, body) =>
      if !open.Look? then Matches(m, body, s, i, j)
      else if open.behind then
        i == j && (open.negated != exists k: nat {:trigger Cut(0, k, i)} :: Cut(0, k, i) && Matches(m, body, s, k, i))
      else
        i == j && (open.negated != exists k: nat {:trigger Cut(i, k, |s|)} :: Cut(i, k, |s|) && Matches(m, body, s, i, k))
  }

  /** `n` copies of the atom in a row consume exactly `s[i..j]`. */
  ghost predicate RepeatMatches(m: Meaning, a: Atom, n: nat, s: string, i: nat, j: nat)
    requires WellFormedAtom(a) && i <= j <= |s|
    decreases a, 1, n
  {
    if n == 0 then i == j
    else exists k: nat {:trigger Cut(i, k, j)} ::
      Cut(i, k, j) && AtomMatches(m, a, s, i, k) && RepeatMatches(m, a, n - 1, s, k, j)
  }

  /** The terms up to the first `|` of this level consume exactly `s[i..j]`. */
  ghost predicate BranchMatches(m: Meaning, p: Pattern, s: string, i: nat, j: nat)
    requires WellFormed(p) && i <= j <= |s|
    decreases p, 2
  {
    match p
    case Empty => i == j
    case Bar(_) => i == j
    case Term(atom, quant, rest) =>
      exists k: nat, n: nat {:trigger Cut(i, k, j), CountAllowed(quant, n)} ::
        Cut(i, k, j) && CountAllowed(quant, n)
        && RepeatMatches(m, atom, n, s, i, k) && BranchMatches(m, rest, s, k, j)
  }

  /** What follows the first `|` of this level, if there is one. */
  function NextBranch(p: Pattern): (r: Option<Pattern>)
    ensures r.Some? ==> r.value < p
    ensures WellFormed(p) && r.Some? ==> WellFormed(r.value)
  {
    match p
    case Empty => None
    case Bar(rest) => Some(rest)
    case Term(_, _, rest) => NextBranch(rest)
  }

  /** Some branch of the pattern consumes exactly `s[i..j]`. */
  ghost predicate Matches(m: Meaning, p: Pattern, s: string, i: nat, j: nat)
    requires WellFormed(p) && i <= j <= |s|
    decreases p, 3
  {
    || BranchMatches(m, p, s, i, j)
    || (NextBranch(p).Some? && Matches(m, NextBranch(p).value, s, i, j))
  }

  /** `new RegExp(...).test(s)`: some stretch of the subject matches. */
  ghost predicate Tests(m: Meaning, p: Pattern, s: string)
    requires WellFormed(p)
  {
    exists i: nat, j: nat :: i <= j <= |s| && Matches(m, p, s, i, j)
  }
}

/** How a scanner that moves through printed text meets the parts of the pattern tree. */
module PatternReading {
  import opened Decimal
  import opened RegexSyntax
  import opened PacSafety

  // ----- reading printed text at a position

  /** `u` is what `p` reads from position `i` on. */
  predicate At(p: string, i: nat, u: string)
    decreases |u|
  {
    i + |u| <= |p| && (u == "" || (p[i] == u[0] && At(p, i + 1, u[1..])))
  }

  lemma {:induction false} AtConcat(p: string, i: nat, u: string, v: string)
    requires At(p, i, u + v)
    ensures At(p, i, u) && At(p, i + |u|, v)
    decreases |u|
  {
    if u == "" {
      assert u + v == v;
    } else {
      assert (u + v)[1..] == u[1..] + v;
      AtConcat(p, i + 1, u[1..], v);
    }
  }

  lemma AtConcat3(p: string, i: nat, u: string, v: string, w: string)
    requires At(p, i, u + v + w)
    ensures At(p, i, u) && At(p, i + |u|, v) && At(p, i + |u| + |v|, w)
  {
    AtConcat(p, i, u + v, w);
    AtConcat(p, i, u, v);
  }

  lemma {:induction false} AtSlice(p: string, i: nat, u: string)
    requires At(p, i, u)
    ensures p[i..i + |u|] == u
    decreases |u|
  {
    if u != "" {
      AtSlice(p, i + 1, u[1..]);
    }
  }

  lemma {:induction false} SliceAt(p: string, i: nat, j: nat)
    requires i <= j <= |p|
    ensures At(p, i, p[i..j])
    decreases j - i
  {
    if i < j {
      SliceAt(p, i + 1, j);
    }
  }

  /** A character outside a class that neither escapes, groups nor alternates. */
  predicate Inert(c: char) {
    c != '\\' && c != '[' && c != '(' && c != ')' && c != '|'
  }

  /** Inert, and not the start of an unbounded quantifier either. */
  predicate Soft(c: char) {
    Inert(c) && c != '*' && c != '+' && c != '{'
  }

  predicate StartsQuantifier(c: char) { c == '*' || c == '+' || c == '?' || c == '{' }

  function Width(t: Pattern): nat {
    match t
    case Empty => 0
    case Bar(rest) => 1 + Width(rest)
    case Term(atom, quant, rest) => WidthAtom(atom) + |PrintQuantifier(quant)| + Width(rest)
  }

  function WidthAtom(a: Atom): (n: nat)
    ensures n > 0
  {
    match a
    case Plain(_) => 1
    case Brace => 1
    case Escape(_) => 2
    case Class(items) => |PrintItems(items)| + 2
    case Group(open, body) => |PrintOpener(open)| + Width(body) + 1
  }

  /** The parts of the printed pattern, where the scanners meet them in `p` from `i` on. */
  predicate Reads(t: Pattern, p: string, i: nat)
    decreases t
  {
    && i + Width(t) <= |p|
    && match t
       case Empty => true
       case Bar(rest) => p[i] == '|' && Reads(rest, p, i + 1)
       case Term(atom, quant, rest) =>
         && ReadsAtom(atom, p, i)
         && ReadsQuantifier(quant, p, i + WidthAtom(atom))
         && Reads(rest, p, i + WidthAtom(atom) + |PrintQuantifier(quant)|)
  }

  predicate ReadsAtom(a: Atom, p: string, i: nat)
    decreases a
  {
    var end := i + WidthAtom(a);
    && end <= |p|
    && match a
       case Plain(c) => p[i] == c
       case Brace => p[i] == '{'
       case Escape(c) => p[i] == '\\' && p[i + 1] == c
       case Class(_) => p[i] == '[' && ClassEnd(p, i + 1) == end
       case Group(open, body) =>
         var start := i + |PrintOpener(open)|;
         && i < start && p[i] == '('
         && (forall k :: i < k < start ==> Soft(p[k]))
         && (if open.Capture? then start == i + 1 else i + 2 < start && p[i + 1] == '?')
         && (!open.Capture? ==> (p[i + 2] == ':' <==> open.NonCapture?))
         && (open.NonCapture? ==> start == i + 3)
         && Reads(body, p, start)
         && p[end - 1] == ')'
  }

  predicate ReadsQuantifier(q: Quantifier, p: string, i: nat) {
    var end := i + |PrintQuantifier(q)|;
    && end <= |p|
    && (forall k :: i <= k < end ==> Inert(p[k]))
    && (q.Repeat? ==> Measured(q, p, i))
  }

  /** What the scanners make of a printed quantifier. */
  predicate Measured(q: Quantifier, p: string, i: nat)
    requires q.Repeat? && i + |PrintQuantifier(q)| <= |p|
  {
    var end := i + |PrintOp(q.op)|;
    && i < end
    && StartsQuantifier(p[i])
    && (p[i] == '*' || p[i] == '+' <==> q.op.Star? || q.op.Plus?)
    && (p[i] == '?' <==> q.op.Optional?)
    && KindAt(p, i) == KindOf(q)
    && QuantifierEnd(p, i) == end
    && |PrintQuantifier(q)| == |PrintOp(q.op)| + (if q.greedy then 0 else 1)
    && (!q.greedy ==> p[end] == '?')
  }

  function KindOf(q: Quantifier): Kind {
    if q.Once? then NoQuantifier else if Unbounded(q) then Unlimited else Bounded
  }

  lemma {:induction false} AtChars(p: string, i: nat, u: string)
    requires At(p, i, u)
    ensures forall k :: i <= k < i + |u| ==> p[k] == u[k - i]
    decreases |u|
  {
    AtSlice(p, i, u);
    forall k | i <= k < i + |u| ensures p[k] == u[k - i] {
      assert p[i..i + |u|][k - i] == u[k - i];
    }
  }

  lemma {:induction false} ClassAt(p: string, i: nat, items: seq<ClassItem>)
    requires WellFormedAtom(Class(items)) && At(p, i, PrintItems(items) + "]")
    ensures ClassEnd(p, i) == i + |PrintItems(items)| + 1
    decreases |items|
  {
    AtConcat(p, i, PrintItems(items), "]");
    if items != [] {
      var head := if items[0].Raw? then [items[0].c] else ['\\', items[0].c];
      assert PrintItems(items) + "]" == head + (PrintItems(items[1..]) + "]");
      AtConcat(p, i, head, PrintItems(items[1..]) + "]");
      ClassAt(p, i + |head|, items[1..]);
    }
  }

  lemma {:induction false} CloseBraceRun(p: string, i: nat, inner: string)
    requires At(p, i, inner) && '}' !in inner
    ensures CloseBrace(p, i) == CloseBrace(p, i + |inner|)
    decreases |inner|
  {
    if inner != "" {
      CloseBraceRun(p, i + 1, inner[1..]);
    }
  }

  lemma CloseBraceAt(p: string, i: nat, inner: string)
    requires At(p, i, "{" + inner + "}") && '}' !in inner
    ensures CloseBrace(p, i) == i + 1 + |inner|
    ensures p[i + 1..i + 1 + |inner|] == inner
  {
    AtConcat3(p, i, "{", inner, "}");
    AtSlice(p, i + 1, inner);
    CloseBraceRun(p, i + 1, inner);
  }

  /** The text between the braces of a counted quantifier. */
  function CountText(op: RepeatOp): string
    requires op.Exactly? || op.AtLeast? || op.Between?
  {
    match op
    case Exactly(lo) => lo
    case AtLeast(lo) => lo + ","
    case Between(lo, hi) => lo + ("," + hi)
  }

  lemma OpenCount(lo: string)
    requires IsDigits(lo)
    ensures !IsBoundedCount(lo + ",")
  {
    var inner := lo + ",";
    assert !IsDigit(inner[|lo|]);
    assert forall k :: 0 <= k < |lo| ==> IsDigit(inner[k]);
    forall k | 0 <= k < |inner| && inner[k] == ',' ensures !IsDigits(inner[k + 1..]) {
      assert |inner[k + 1..]| == 0;
    }
  }

  lemma ClosedCount(lo: string, hi: string)
    requires IsDigits(lo) && IsDigits(hi)
    ensures IsBoundedCount(lo + ("," + hi))
  {
    var inner := lo + ("," + hi);
    assert inner[|lo|] == ',';
    assert inner[..|lo|] == lo;
    assert inner[|lo| + 1..] == hi;
  }

  lemma NoBrace(op: RepeatOp)
    requires WellFormedOp(op) && (op.Exactly? || op.AtLeast? || op.Between?)
    ensures '}' !in CountText(op)
  {
  }

  lemma BoundedCount(op: RepeatOp)
    requires WellFormedOp(op) && (op.Exactly? || op.AtLeast? || op.Between?)
    ensures PrintOp(op) == "{" + CountText(op) + "}"
    ensures '}' !in CountText(op)
    ensures IsBoundedCount(CountText(op)) <==> !op.AtLeast?
  {
    hide IsDigits;
    NoBrace(op);
    match op
    case Exactly(_) =>
    case AtLeast(lo) => OpenCount(lo);
    case Between(lo, hi) =>
      ClosedCount(lo, hi);
      assert PrintOp(op) == "{" + (lo + ("," + hi)) + "}";
  }

  lemma QuantifierReads(q: Quantifier, p: string, i: nat)
    requires q.Repeat? ==> WellFormedOp(q.op)
    requires At(p, i, PrintQuantifier(q))
    ensures ReadsQuantifier(q, p, i)
  {
    var u := PrintQuantifier(q);
    AtChars(p, i, u);
    assert forall k :: 0 <= k < |u| ==> Inert(u[k]);
    if q.Repeat? {
      QuantifierMeasured(q, p, i);
    }
  }

  lemma QuantifierMeasured(q: Quantifier, p: string, i: nat)
    requires q.Repeat? && WellFormedOp(q.op) && At(p, i, PrintQuantifier(q))
    ensures Measured(q, p, i)
  {
    var op := q.op;
    AtConcat(p, i, PrintOp(op), if q.greedy then "" else "?");
    if op.Exactly? || op.AtLeast? || op.Between? {
      BoundedCount(op);
      CloseBraceAt(p, i, CountText(op));
    }
  }

  lemma OpenerReads(open: Opener, p: string, i: nat)
    requires open.Named? ==> forall k :: 0 <= k < |open.name| ==> IsNameChar(open.name[k])
    requires At(p, i, PrintOpener(open))
    ensures p[i] == '(' && |PrintOpener(open)| > 0
    ensures forall k :: i < k < i + |PrintOpener(open)| ==> Soft(p[k])
    ensures if open.Capture? then |PrintOpener(open)| == 1 else |PrintOpener(open)| > 2 && p[i + 1] == '?'
    ensures !open.Capture? ==> (p[i + 2] == ':' <==> open.NonCapture?)
    ensures open.NonCapture? ==> |PrintOpener(open)| == 3
  {
    AtChars(p, i, PrintOpener(open));
    var u := PrintOpener(open);
    assert forall k :: 0 < k < |u| ==> Soft(u[k]);
  }

  lemma {:induction false} PrintReads(t: Pattern, p: string, i: nat)
    requires WellFormed(t) && At(p, i, Print(t))
    ensures Width(t) == |Print(t)| && Reads(t, p, i)
    decreases t
  {
    hide ReadsAtom, ReadsQuantifier, PrintAtom, PrintQuantifier, WidthAtom, WellFormedAtom;
    match t
    case Empty =>
    case Bar(rest) =>
      AtConcat(p, i, "|", Print(rest));
      PrintReads(rest, p, i + 1);
    case Term(atom, quant, rest) =>
      AtConcat3(p, i, PrintAtom(atom), PrintQuantifier(quant), Print(rest));
      AtomReads(atom, p, i);
      QuantifierReads(quant, p, i + WidthAtom(atom));
      PrintReads(rest, p, i + WidthAtom(atom) + |PrintQuantifier(quant)|);
  }

  lemma {:induction false} AtomReads(a: Atom, p: string, i: nat)
    requires WellFormedAtom(a) && At(p, i, PrintAtom(a))
    ensures WidthAtom(a) == |PrintAtom(a)| && ReadsAtom(a, p, i)
    decreases a, 1
  {
    hide ClassEnd;
    match a
    case Plain(_) =>
    case Brace =>
    case Escape(_) =>
    case Class(items) =>
      assert PrintAtom(a) == "[" + (PrintItems(items) + "]");
      AtConcat(p, i, "[", PrintItems(items) + "]");
      ClassAt(p, i + 1, items);
    case Group(open, body) =>
      GroupReads(a, p, i);
  }

  lemma {:induction false} GroupReads(a: Atom, p: string, i: nat)
    requires a.Group? && WellFormedAtom(a) && At(p, i, PrintAtom(a))
    ensures WidthAtom(a) == |PrintAtom(a)| && ReadsAtom(a, p, i)
    decreases a, 0
  {
    hide PrintOpener, Print, Reads, At, Width, Soft, WellFormed;
    AtConcat3(p, i, PrintOpener(a.open), Print(a.body), ")");
    OpenerReads(a.open, p, i);
    PrintReads(a.body, p, i + |PrintOpener(a.open)|);
  }

  lemma PrintedReads(t: Pattern)
    requires WellFormed(t)
    ensures Reads(t, Print(t), 0) && Width(t) == |Print(t)| && At(Print(t), 0, Print(t))
  {
    SliceAt(Print(t), 0, |Print(t)|);
    assert Print(t)[0..|Print(t)|] == Print(t);
    PrintReads(t, Print(t), 0);
  }

  predicate StartsBrace(t: Pattern) { t.Term? && t.atom.Brace? }

  /** What follows a term starts like a quantifier only by a literal `{`. */
  lemma NextChar(t: Pattern, p: string, i: nat)
    requires WellFormed(t) && Reads(t, p, i)
    ensures t.Empty? || (p[i] != '*' && p[i] != '+' && p[i] != '?' && p[i] != ')' && (p[i] == '{' <==> StartsBrace(t)))
  {
    hide OpensCount;
  }

  /** The scanner takes a literal `{` for an unbounded quantifier. */
  lemma LiteralBraceKind(p: string, i: nat, text: string)
    requires At(p, i, "{" + text) && i + 1 + |text| == |p| && !OpensCount(text)
    ensures KindAt(p, i) == Unlimited
  {
    hide IsDigits;
    AtConcat(p, i, "{", text);
    AtSlice(p, i + 1, text);
    var close := CloseBrace(p, i);
    if close < |p| {
      var k := close - i - 1;
      assert p[i + 1..close] == text[..k] && text[k] == '}';
      if IsBoundedCount(text[..k]) {
        BoundedIsCount(text[..k]);
      }
    }
  }

  lemma BoundedIsCount(s: string)
    requires IsBoundedCount(s)
    ensures IsCount(s)
  {
    hide IsDigits;
  }
}

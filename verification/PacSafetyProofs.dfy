/** What `PacSafety.ScanPacSafety` decides, in terms of the pattern tree. */
module PacSafetyProofs {
  import opened Decimal
  import opened RegexSyntax
  import opened PacSafety
  import opened PatternReading

  // ----- the structural reading

  /** Some alternation at any depth. */
  predicate BarInside(t: Pattern) {
    match t
    case Empty => false
    case Bar(_) => true
    case Term(atom, _, rest) => (atom.Group? && BarInside(atom.body)) || BarInside(rest)
  }

  /** Some term of this level, not of a nested group, carries an unbounded quantifier, or is a literal `{`,
      which the scanner takes for one. */
  predicate OwnUnbounded(t: Pattern) {
    match t
    case Empty => false
    case Bar(rest) => OwnUnbounded(rest)
    case Term(atom, quant, rest) => atom.Brace? || Unbounded(quant) || OwnUnbounded(rest)
  }

  /** No group opens with `(?`; no quantified group has an alternation at any depth inside it; no
      unboundedly quantified group has an unbounded quantifier at its own depth. */
  predicate Structural(t: Pattern) {
    match t
    case Empty => true
    case Bar(rest) => Structural(rest)
    case Term(atom, quant, rest) =>
      && (atom.Group? ==>
            && atom.open.Capture?
            && Structural(atom.body)
            && (quant.Repeat? ==> !BarInside(atom.body))
            && (Unbounded(quant) ==> !OwnUnbounded(atom.body)))
      && Structural(rest)
  }

  /** A group without a quantifier has a literal `{` right behind it, here or further in. */
  predicate BraceBehindGroup(t: Pattern) {
    match t
    case Empty => false
    case Bar(rest) => BraceBehindGroup(rest)
    case Term(atom, quant, rest) =>
      || (atom.Group? && (BraceBehindGroup(atom.body) || (quant.Once? && StartsBrace(rest))))
      || BraceBehindGroup(rest)
  }

  /** What the scan makes of any pattern at a position of its text: as `Structural`, except that a literal
      `{` right behind a group counts as its unbounded quantifier, and everything up to the next `}` is
      passed over unread. */
  predicate Judged(t: Pattern, p: string, i: nat)
    decreases t, 1
  {
    match t
    case Empty => true
    case Bar(rest) => Judged(rest, p, i + 1)
    case Term(atom, quant, rest) =>
      if atom.Group? && quant.Once? && StartsBrace(rest) then
        GroupAllowed(atom, Unlimited) && Scan(p, QuantifierEnd(p, i + WidthAtom(atom)))
      else
        && (atom.Group? ==> GroupAllowed(atom, KindOf(quant)))
        && Judged(rest, p, i + WidthAtom(atom) + |PrintQuantifier(quant)|)
  }

  predicate GroupAllowed(a: Atom, kind: Kind)
    requires a.Group?
    decreases a, 0
  {
    && a.open.Capture? && Judged(a.body, Print(a.body), 0)
    && (kind != NoQuantifier ==> !BarInside(a.body))
    && (kind == Unlimited ==> !OwnUnbounded(a.body))
  }

  lemma {:induction false} JudgedIsStructural(t: Pattern, p: string, i: nat)
    requires !BraceBehindGroup(t)
    ensures Judged(t, p, i) == Structural(t)
    decreases t
  {
    hide BarInside, OwnUnbounded, Scan, QuantifierEnd, PrintQuantifier, WidthAtom, Print;
    match t
    case Empty =>
    case Bar(rest) => JudgedIsStructural(rest, p, i + 1);
    case Term(atom, quant, rest) =>
      JudgedIsStructural(rest, p, i + WidthAtom(atom) + |PrintQuantifier(quant)|);
      if atom.Group? {
        JudgedIsStructural(atom.body, Print(atom.body), 0);
      }
  }

  // ----- the parts of a printed pattern

  lemma AtTail(t: Pattern, p: string, i: nat)
    requires t.Term? && WellFormed(t) && At(p, i, Print(t))
    ensures At(p, i + WidthAtom(t.atom) + |PrintQuantifier(t.quant)|, Print(t.rest))
    ensures At(p, i, PrintAtom(t.atom))
  {
    hide Reads, ReadsAtom, PrintAtom, PrintQuantifier;
    AtConcat3(p, i, PrintAtom(t.atom), PrintQuantifier(t.quant), Print(t.rest));
    AtomReads(t.atom, p, i);
  }

  /** What the printed form of a term says about its parts. */
  lemma TermParts(t: Pattern, p: string, i: nat)
    requires t.Term? && WellFormed(t) && Reads(t, p, i) && i + Width(t) == |p| && At(p, i, Print(t))
    ensures WellFormedAtom(t.atom) && (t.quant.Repeat? ==> WellFormedOp(t.quant.op)) && WellFormed(t.rest)
    ensures ReadsAtom(t.atom, p, i) && ReadsQuantifier(t.quant, p, i + WidthAtom(t.atom))
    ensures var next := i + WidthAtom(t.atom) + |PrintQuantifier(t.quant)|;
            Reads(t.rest, p, next) && next + Width(t.rest) == |p| && At(p, next, Print(t.rest))
    ensures At(p, i, PrintAtom(t.atom))
  {
    hide ReadsAtom, ReadsQuantifier, PrintQuantifier, PrintAtom, Print, WellFormedAtom, WellFormedOp, WidthAtom, OpensCount;
    AtTail(t, p, i);
  }

  lemma BarParts(t: Pattern, p: string, i: nat)
    requires t.Bar? && WellFormed(t) && Reads(t, p, i) && i + Width(t) == |p| && At(p, i, Print(t))
    ensures i < |p| && p[i] == '|' && WellFormed(t.rest)
    ensures Reads(t.rest, p, i + 1) && i + 1 + Width(t.rest) == |p| && At(p, i + 1, Print(t.rest))
  {
    AtConcat(p, i, "|", Print(t.rest));
  }

  // ----- skipping over a group

  lemma {:induction false} GroupRun(p: string, i: nat, j: nat, depth: int)
    requires i <= j <= |p| && forall k :: i <= k < j ==> Inert(p[k])
    ensures GroupEnd(p, i, depth) == GroupEnd(p, j, depth)
    decreases j - i
  {
    if i < j {
      GroupRun(p, i + 1, j, depth);
    }
  }

  lemma GroupBar(p: string, i: nat, depth: int)
    requires i < |p| && p[i] == '|'
    ensures GroupEnd(p, i, depth) == GroupEnd(p, i + 1, depth)
  {
  }

  lemma GroupPlain(a: Atom, p: string, i: nat, depth: int)
    requires !a.Group? && WellFormedAtom(a) && ReadsAtom(a, p, i)
    ensures GroupEnd(p, i, depth) == GroupEnd(p, i + WidthAtom(a), depth)
  {
  }

  lemma {:induction false} GroupAt(t: Pattern, p: string, i: nat, depth: int)
    requires WellFormed(t) && Reads(t, p, i) && depth >= 1
    ensures GroupEnd(p, i, depth) == GroupEnd(p, i + Width(t), depth)
    decreases t, 0
  {
    hide GroupEnd, KindAt, QuantifierEnd, Measured, PrintQuantifier, PrintOpener;
    match t
    case Empty =>
    case Bar(rest) =>
      GroupBar(p, i, depth);
      GroupAt(rest, p, i + 1, depth);
    case Term(atom, quant, rest) =>
      var j := i + WidthAtom(atom);
      GroupAtomAt(atom, p, i, depth);
      GroupRun(p, j, j + |PrintQuantifier(quant)|, depth);
      GroupAt(rest, p, j + |PrintQuantifier(quant)|, depth);
  }

  lemma {:induction false} GroupAtomAt(a: Atom, p: string, i: nat, depth: int)
    requires WellFormedAtom(a) && ReadsAtom(a, p, i) && depth >= 1
    ensures GroupEnd(p, i, depth) == GroupEnd(p, i + WidthAtom(a), depth)
    decreases a, 1
  {
    hide GroupEnd, KindAt, QuantifierEnd, Measured, PrintQuantifier, PrintOpener;
    if a.Group? {
      GroupCloses(a, p, i, depth);
      GroupClose(p, i + WidthAtom(a) - 1, depth + 1);
    } else {
      GroupPlain(a, p, i, depth);
    }
  }

  lemma GroupClose(p: string, i: nat, depth: int)
    requires i < |p| && p[i] == ')'
    ensures GroupEnd(p, i, depth) == if depth == 1 then i else GroupEnd(p, i + 1, depth - 1)
  {
  }

  lemma GroupOpen(p: string, i: nat, depth: int)
    requires i < |p| && p[i] == '('
    ensures GroupEnd(p, i, depth) == GroupEnd(p, i + 1, depth + 1)
  {
  }

  /** From the `(` of a printed group the loop arrives at its own `)`, one level deeper. */
  lemma {:induction false} GroupCloses(a: Atom, p: string, i: nat, depth: int)
    requires a.Group? && WellFormedAtom(a) && ReadsAtom(a, p, i) && depth >= 0
    ensures GroupEnd(p, i, depth) == GroupEnd(p, i + WidthAtom(a) - 1, depth + 1)
    decreases a, 0
  {
    hide GroupEnd, KindAt, QuantifierEnd, Measured, PrintQuantifier, PrintOpener;
    var start := i + |PrintOpener(a.open)|;
    GroupOpen(p, i, depth);
    GroupRun(p, i + 1, start, depth + 1);
    GroupAt(a.body, p, start, depth + 1);
  }

  // ----- alternations inside a body

  lemma {:induction false} BarRun(p: string, i: nat, j: nat)
    requires i <= j <= |p| && forall k :: i <= k < j ==> Inert(p[k])
    ensures HasBar(p, i) == HasBar(p, j)
    decreases j - i
  {
    if i < j {
      BarRun(p, i + 1, j);
    }
  }

  lemma BarHere(p: string, i: nat)
    requires i < |p| && (p[i] == '|' || p[i] == '(' || p[i] == ')')
    ensures HasBar(p, i) == (p[i] == '|' || HasBar(p, i + 1))
  {
  }

  lemma BarPlain(a: Atom, p: string, i: nat)
    requires !a.Group? && WellFormedAtom(a) && ReadsAtom(a, p, i)
    ensures HasBar(p, i) == HasBar(p, i + WidthAtom(a))
  {
  }

  lemma {:induction false} BarAt(t: Pattern, p: string, i: nat)
    requires WellFormed(t) && Reads(t, p, i)
    ensures HasBar(p, i) == (BarInside(t) || HasBar(p, i + Width(t)))
    decreases t
  {
    hide HasBar, KindAt, QuantifierEnd, Measured, PrintQuantifier, PrintOpener;
    match t
    case Empty =>
    case Bar(rest) =>
      BarHere(p, i);
    case Term(atom, quant, rest) =>
      var j := i + WidthAtom(atom);
      BarAtomAt(atom, p, i);
      BarRun(p, j, j + |PrintQuantifier(quant)|);
      BarAt(rest, p, j + |PrintQuantifier(quant)|);
  }

  lemma {:induction false} BarAtomAt(a: Atom, p: string, i: nat)
    requires WellFormedAtom(a) && ReadsAtom(a, p, i)
    ensures HasBar(p, i) == ((a.Group? && BarInside(a.body)) || HasBar(p, i + WidthAtom(a)))
    decreases a
  {
    hide HasBar, KindAt, QuantifierEnd, Measured, PrintQuantifier, PrintOpener;
    if a.Group? {
      var start := i + |PrintOpener(a.open)|;
      BarHere(p, i);
      BarRun(p, i + 1, start);
      BarAt(a.body, p, start);
      BarHere(p, i + WidthAtom(a) - 1);
    } else {
      BarPlain(a, p, i);
    }
  }

  // ----- unbounded quantifiers of a body

  lemma {:induction false} UnlimitedRun(p: string, i: nat, j: nat)
    requires i <= j <= |p| && forall k :: i <= k < j ==> Soft(p[k])
    ensures HasUnlimited(p, i) == HasUnlimited(p, j)
    decreases j - i
  {
    if i < j {
      UnlimitedRun(p, i + 1, j);
    }
  }

  lemma UnlimitedHere(p: string, i: nat)
    requires i < |p|
    ensures p[i] == '|' ==> HasUnlimited(p, i) == HasUnlimited(p, i + 1)
    ensures p[i] == '(' ==> HasUnlimited(p, i) == HasUnlimited(p, GroupEnd(p, i, 0) + 1)
    ensures p[i] == '*' || p[i] == '+' ==> HasUnlimited(p, i)
    ensures p[i] == '?' ==> HasUnlimited(p, i) == HasUnlimited(p, i + 1)
    ensures p[i] == '{' ==> HasUnlimited(p, i) == (KindAt(p, i) == Unlimited || HasUnlimited(p, QuantifierEnd(p, i)))
  {
    hide KindAt;
    hide QuantifierEnd;
  }

  lemma UnlimitedQuantifierAt(q: Quantifier, p: string, i: nat)
    requires (q.Repeat? ==> WellFormedOp(q.op)) && ReadsQuantifier(q, p, i)
    ensures HasUnlimited(p, i) == (Unbounded(q) || HasUnlimited(p, i + |PrintQuantifier(q)|))
  {
    hide HasUnlimited;
    hide KindAt;
    hide QuantifierEnd;
    if q.Repeat? {
      var end := i + |PrintOp(q.op)|;
      UnlimitedHere(p, i);
      UnlimitedRun(p, end, i + |PrintQuantifier(q)|);
    }
  }

  lemma UnlimitedPlain(a: Atom, p: string, i: nat)
    requires !a.Group? && !a.Brace? && WellFormedAtom(a) && ReadsAtom(a, p, i)
    ensures HasUnlimited(p, i) == HasUnlimited(p, i + WidthAtom(a))
  {
  }

  lemma UnlimitedAtomAt(a: Atom, p: string, i: nat)
    requires !a.Brace? && WellFormedAtom(a) && ReadsAtom(a, p, i)
    ensures HasUnlimited(p, i) == HasUnlimited(p, i + WidthAtom(a))
  {
    hide HasUnlimited, GroupEnd, KindAt, QuantifierEnd, Measured, PrintQuantifier, PrintOpener;
    if a.Group? {
      UnlimitedHere(p, i);
      GroupCloses(a, p, i, 0);
      GroupClose(p, i + WidthAtom(a) - 1, 1);
    } else {
      UnlimitedPlain(a, p, i);
    }
  }

  lemma {:induction false} UnlimitedAt(t: Pattern, p: string, i: nat)
    requires WellFormed(t) && Reads(t, p, i) && i + Width(t) == |p|
    requires At(p, i, Print(t))
    ensures HasUnlimited(p, i) == (OwnUnbounded(t) || HasUnlimited(p, |p|))
    decreases t
  {
    hide HasUnlimited, KindAt, QuantifierEnd, Print, PrintQuantifier, PrintAtom, OpensCount, At, Reads, ReadsAtom,
         ReadsQuantifier, WellFormed, WellFormedAtom, WellFormedOp, WidthAtom;
    match t
    case Empty =>
    case Bar(rest) =>
      BarParts(t, p, i);
      UnlimitedHere(p, i);
      UnlimitedAt(rest, p, i + 1);
    case Term(atom, quant, rest) =>
      if atom.Brace? {
        BraceTermKind(t, p, i);
        UnlimitedHere(p, i);
      } else {
        TermParts(t, p, i);
        UnlimitedAtomAt(atom, p, i);
        UnlimitedQuantifierAt(quant, p, i + WidthAtom(atom));
        UnlimitedAt(rest, p, i + WidthAtom(atom) + |PrintQuantifier(quant)|);
      }
  }

  lemma BraceTermKind(t: Pattern, p: string, i: nat)
    requires StartsBrace(t) && WellFormed(t) && i + Width(t) == |p| && Reads(t, p, i) && At(p, i, Print(t))
    ensures i < |p| && p[i] == '{' && KindAt(p, i) == Unlimited
  {
    hide OpensCount, KindAt, PrintQuantifier, ReadsQuantifier;
    var text := PrintQuantifier(t.quant) + Print(t.rest);
    assert Print(t) == "{" + text;
    PrintReads(t, p, i);
    LiteralBraceKind(p, i, text);
  }

  // ----- the whole scan

  lemma {:induction false} ScanRun(p: string, i: nat, j: nat)
    requires i <= j <= |p| && forall k :: i <= k < j ==> Inert(p[k])
    ensures Scan(p, i) == Scan(p, j)
    decreases j - i
  {
    if i < j {
      ScanRun(p, i + 1, j);
    }
  }

  lemma ScanPlain(a: Atom, p: string, i: nat)
    requires !a.Group? && WellFormedAtom(a) && ReadsAtom(a, p, i)
    ensures Scan(p, i) == Scan(p, i + WidthAtom(a))
  {
  }

  lemma ScanBar(p: string, i: nat)
    requires i < |p| && p[i] == '|'
    ensures Scan(p, i) == Scan(p, i + 1)
  {
  }

  lemma BodySlice(a: Atom, p: string, i: nat)
    requires a.Group? && WellFormedAtom(a) && At(p, i, PrintAtom(a))
    requires ReadsAtom(a, p, i)
    ensures p[i + |PrintOpener(a.open)|..i + WidthAtom(a) - 1] == Print(a.body)
  {
    hide Reads, PrintOpener, Print;
    AtConcat3(p, i, PrintOpener(a.open), Print(a.body), ")");
    AtSlice(p, i + |PrintOpener(a.open)|, Print(a.body));
    AtomReads(a, p, i);
  }

  lemma {:induction false} ScanAt(t: Pattern, p: string, i: nat)
    requires WellFormed(t) && Reads(t, p, i) && i + Width(t) == |p|
    requires At(p, i, Print(t))
    ensures Scan(p, i) == Judged(t, p, i)
    decreases t, 1
  {
    hide Scan, QuantifierEnd, GroupAllowed, Reads, ReadsAtom, ReadsQuantifier, WellFormed, WellFormedAtom, WidthAtom, Print,
         PrintAtom, PrintQuantifier, At;
    match t
    case Empty =>
      ScanEnd(p);
    case Bar(rest) =>
      BarParts(t, p, i);
      ScanBar(p, i);
      ScanAt(rest, p, i + 1);
    case Term(atom, quant, rest) =>
      ScanTermAt(t, p, i);
      TermParts(t, p, i);
      if !(atom.Group? && quant.Once? && StartsBrace(rest)) {
        ScanAt(rest, p, i + WidthAtom(atom) + |PrintQuantifier(quant)|);
      }
  }

  lemma ScanEnd(p: string)
    ensures Scan(p, |p|)
  {
  }

  lemma {:induction false} ScanTermAt(t: Pattern, p: string, i: nat)
    requires t.Term? && WellFormed(t) && Reads(t, p, i) && i + Width(t) == |p|
    requires At(p, i, Print(t))
    ensures Scan(p, i) ==
            if t.atom.Group? && t.quant.Once? && StartsBrace(t.rest)
            then GroupAllowed(t.atom, Unlimited) && Scan(p, QuantifierEnd(p, i + WidthAtom(t.atom)))
            else (t.atom.Group? ==> GroupAllowed(t.atom, KindOf(t.quant)))
                 && Scan(p, i + WidthAtom(t.atom) + |PrintQuantifier(t.quant)|)
    decreases t, 0
  {
    hide Scan, ClassEnd, KindAt, QuantifierEnd, GroupEnd, BarInside, OwnUnbounded, Judged, GroupAllowed, PrintQuantifier, Print;
    var j := i + WidthAtom(t.atom);
    if t.atom.Group? {
      ScanGroupAt(t, p, i);
    } else {
      ScanPlain(t.atom, p, i);
      ScanRun(p, j, j + |PrintQuantifier(t.quant)|);
    }
  }

  lemma BodyVerdict(body: string, kind: Kind)
    ensures BodyAllowed(body, kind) ==
            ((kind != NoQuantifier ==> !HasBar(body, 0)) && (kind == Unlimited ==> !HasUnlimited(body, 0)))
    ensures !HasBar(body, |body|) && !HasUnlimited(body, |body|)
  {
  }

  /** The body of a printed capture group, cut out by the scan and judged on its own. */
  lemma {:induction false} ScanBody(body: Pattern, kind: Kind)
    requires WellFormed(body)
    ensures Scan(Print(body), 0) == Judged(body, Print(body), 0)
    ensures BodyAllowed(Print(body), kind) ==
            ((kind != NoQuantifier ==> !BarInside(body)) && (kind == Unlimited ==> !OwnUnbounded(body)))
    decreases body, 2
  {
    hide Print, WellFormed, Reads, Judged, Scan, HasBar, HasUnlimited, BarInside, OwnUnbounded;
    PrintedReads(body);
    BodyVerdict(Print(body), kind);
    ScanAt(body, Print(body), 0);
    BarAt(body, Print(body), 0);
    UnlimitedAt(body, Print(body), 0);
  }

  lemma ScanGroup(p: string, i: nat, end: nat)
    requires i < end < |p| && p[i] == '(' && p[end] == ')' && GroupEnd(p, i, 0) == end
    ensures Scan(p, i) == (p[i + 1] != '?' && Scan(p[i + 1..end], 0)
                           && BodyAllowed(p[i + 1..end], KindAt(p, end + 1)) && Scan(p, QuantifierEnd(p, end + 1)))
  {
    hide GroupEnd;
    hide BodyAllowed;
    hide KindAt;
    hide QuantifierEnd;
  }

  /** The quantifier the scan finds behind a printed group. */
  lemma QuantifierBehind(q: Quantifier, rest: Pattern, p: string, i: nat)
    requires (q.Repeat? ==> WellFormedOp(q.op)) && WellFormed(rest)
    requires ReadsQuantifier(q, p, i) && Reads(rest, p, i + |PrintQuantifier(q)|)
    requires i + |PrintQuantifier(q)| + Width(rest) == |p| && !(q.Once? && StartsBrace(rest))
    ensures KindAt(p, i) == KindOf(q)
    ensures Scan(p, QuantifierEnd(p, i)) == Scan(p, i + |PrintQuantifier(q)|)
  {
    hide Scan, CloseBrace, PrintOp, Reads, WellFormed, WellFormedOp, IsBoundedCount;
    NextChar(rest, p, i + |PrintQuantifier(q)|);
    if q.Repeat? {
      ScanRun(p, QuantifierEnd(p, i), i + |PrintQuantifier(q)|);
    }
  }

  /** Where the scan finds the end of a printed group, and what its first body character can be. */
  lemma GroupSpan(a: Atom, p: string, i: nat)
    requires a.Group? && WellFormedAtom(a) && ReadsAtom(a, p, i)
    ensures i + 1 < i + WidthAtom(a) <= |p| && p[i] == '(' && p[i + WidthAtom(a) - 1] == ')'
    ensures GroupEnd(p, i, 0) == i + WidthAtom(a) - 1
    ensures p[i + 1] == '?' <==> !a.open.Capture?
  {
    hide GroupEnd, Scan, Soft;
    GroupCloses(a, p, i, 0);
    GroupClose(p, i + WidthAtom(a) - 1, 1);
    if a.open.Capture? {
      NextChar(a.body, p, i + 1);
    }
  }

  /** The scan at a printed group, by the quantifier it finds there. */
  lemma {:induction false} ScanGroupAs(a: Atom, p: string, i: nat, kind: Kind)
    requires a.Group? && WellFormedAtom(a) && ReadsAtom(a, p, i) && At(p, i, PrintAtom(a))
    requires KindAt(p, i + WidthAtom(a)) == kind
    ensures Scan(p, i) == (GroupAllowed(a, kind) && Scan(p, QuantifierEnd(p, i + WidthAtom(a))))
    decreases a, 0
  {
    hide Scan, GroupEnd, KindAt, QuantifierEnd, BodyAllowed, Judged, BarInside, OwnUnbounded, Print, PrintAtom, Reads;
    GroupSpan(a, p, i);
    ScanGroup(p, i, i + WidthAtom(a) - 1);
    if a.open.Capture? {
      BodySlice(a, p, i);
      ScanBody(a.body, kind);
    }
  }

  lemma {:induction false} ScanGroupAt(t: Pattern, p: string, i: nat)
    requires t.Term? && t.atom.Group? && WellFormed(t)
    requires Reads(t, p, i) && i + Width(t) == |p|
    requires At(p, i, Print(t))
    ensures Scan(p, i) ==
            if t.quant.Once? && StartsBrace(t.rest)
            then GroupAllowed(t.atom, Unlimited) && Scan(p, QuantifierEnd(p, i + WidthAtom(t.atom)))
            else GroupAllowed(t.atom, KindOf(t.quant)) && Scan(p, i + WidthAtom(t.atom) + |PrintQuantifier(t.quant)|)
    decreases t.atom, 1
  {
    hide Scan, KindAt, QuantifierEnd, GroupAllowed, Reads, ReadsAtom, ReadsQuantifier, WellFormed, WellFormedAtom, WidthAtom,
         Print, PrintAtom, PrintQuantifier, Width;
    TermParts(t, p, i);
    var j := i + WidthAtom(t.atom);
    if t.quant.Once? && StartsBrace(t.rest) {
      OnceIsNothing();
      BraceTermKind(t.rest, p, j);
      ScanGroupAs(t.atom, p, i, Unlimited);
    } else {
      QuantifierBehind(t.quant, t.rest, p, j);
      ScanGroupAs(t.atom, p, i, KindOf(t.quant));
    }
  }

  lemma OnceIsNothing()
    ensures |PrintQuantifier(Once)| == 0
  {
  }

  /** What the scan decides on the printed form of any pattern, with nothing left out. */
  lemma ScannerDecides(t: Pattern)
    requires WellFormed(t)
    ensures Scan(Print(t), 0) <==> Judged(t, Print(t), 0)
  {
    hide Scan, Judged, Reads, Print, WellFormed;
    PrintedReads(t);
    ScanAt(t, Print(t), 0);
  }

  /** Unless a literal `{` stands right behind a group, that is the three structural properties. */
  lemma ScannerDecidesStructure(t: Pattern)
    requires WellFormed(t) && !BraceBehindGroup(t)
    ensures |Print(t)| <= 4096 ==> (Scan(Print(t), 0) <==> Structural(t))
  {
    ScannerDecides(t);
    JudgedIsStructural(t, Print(t), 0);
  }

  method IsPacSafePrinted(t: Pattern) returns (safe: bool)
    requires WellFormed(t)
    ensures safe <==> |Print(t)| <= 4096 && Judged(t, Print(t), 0)
    ensures !BraceBehindGroup(t) ==> (safe <==> |Print(t)| <= 4096 && Structural(t))
  {
    safe := ScanPacSafety(Print(t));
    ScannerDecides(t);
    if !BraceBehindGroup(t) {
      JudgedIsStructural(t, Print(t), 0);
    }
  }

  function Letter(c: char): Pattern { Term(Plain(c), Once, Empty) }

  function Choice(a: char, b: char): Pattern { Term(Plain(a), Once, Bar(Letter(b))) }

  lemma PrintChoice(a: char, b: char)
    ensures Print(Choice(a, b)) == [a, '|', b] && Print(Letter(a)) == [a]
  {
    assert Print(Letter(b)) == [b];
    assert Print(Bar(Letter(b))) == "|" + [b];
  }

  /** A literal `{` right behind a group can be judged too harshly: in `(a|b){` nothing is quantified. */
  lemma LiteralBraceRefused()
    ensures var t := Term(Group(Capture, Choice('a', 'b')), Once, Term(Brace, Once, Empty));
            && WellFormed(t) && Print(t) == "(a|b){" && Structural(t) && !Scan(Print(t), 0)
  {
    var behind := Term(Brace, Once, Empty);
    var t := Term(Group(Capture, Choice('a', 'b')), Once, behind);
    PrintChoice('a', 'b');
    assert Print(behind) == "{";
    assert Print(t) == "(" + "a|b" + ")" + "" + "{";
    assert !OpensCount(PrintQuantifier(Once) + Print(Empty));
    ScannerDecides(t);
  }

  /** Text that does not start with a digit makes no count. */
  lemma NoCount(text: string)
    requires text != "" && !IsDigit(text[0]) && text[0] != '}'
    ensures !OpensCount(text)
  {
    forall k | 0 <= k < |text| && text[k] == '}' ensures !IsCount(text[..k]) {
      assert text[..k][0] == text[0];
    }
  }

  function RepeatedChoice(): Pattern {
    Term(Group(Capture, Choice('b', 'c')), Repeat(Plus, true), Letter('}'))
  }

  function HiddenChoice(): Pattern {
    Term(Group(Capture, Letter('a')), Once, Term(Brace, Once, RepeatedChoice()))
  }

  lemma PrintRepeated()
    ensures WellFormed(RepeatedChoice()) && Print(RepeatedChoice()) == "(b|c)+}"
  {
    PrintChoice('b', 'c');
    PrintChoice('}', '}');
    assert Print(RepeatedChoice()) == "(" + "b|c" + ")" + "+" + "}" == "(b|c)+}";
  }

  lemma PrintHidden()
    ensures WellFormed(HiddenChoice()) && Print(HiddenChoice()) == "(a){(b|c)+}"
  {
    hide OpensCount;
    PrintRepeated();
    PrintChoice('a', 'a');
    assert Print(Term(Brace, Once, RepeatedChoice())) == "{" + "" + "(b|c)+}";
    assert Print(HiddenChoice()) == "(" + "a" + ")" + "" + "{(b|c)+}" == "(a){(b|c)+}";
    NoCount("(b|c)+}");
    assert PrintQuantifier(Once) + Print(RepeatedChoice()) == "(b|c)+}";
  }

  /** And too leniently: in `(a){(b|c)+}` the repeated choice is passed over as if it were a count. */
  lemma LiteralBraceHides()
    ensures WellFormed(HiddenChoice()) && Print(HiddenChoice()) == "(a){(b|c)+}"
    ensures !Structural(HiddenChoice()) && Scan(Print(HiddenChoice()), 0)
  {
    hide Scan, Print, WellFormed;
    var p := "(a){(b|c)+}";
    PrintHidden();
    assert CloseBrace(p, 3) == 10 by {
      CloseBraceRun(p, 3, "{(b|c)+");
    }
    ScanEnd(p);
    ScannerDecides(HiddenChoice());
  }

  /** The scan looks at the body's own depth only: `((a+))+` is accepted, although the header comment
      of the file reads as if every unbounded quantifier inside were refused. */
  lemma NestedRepeatAccepted()
    ensures var plus := Repeat(Plus, true);
            var inner := Group(Capture, Term(Plain('a'), plus, Empty));
            var t := Term(Group(Capture, Term(inner, Once, Empty)), plus, Empty);
            && WellFormed(t) && Print(t) == "((a+))+" && Structural(t) && Scan(Print(t), 0)
  {
    var plus := Repeat(Plus, true);
    var inner := Group(Capture, Term(Plain('a'), plus, Empty));
    var t := Term(Group(Capture, Term(inner, Once, Empty)), plus, Empty);
    calc {
      Print(t);
      { assert Print(Term(Plain('a'), plus, Empty)) == "a+"; }
      "(" + ("(" + "a+" + ")" + "") + ")" + "+" + "";
      "((a+))+";
    }
    ScannerDecidesStructure(t);
  }
}

/** What an accepted literal pattern matches, and the round trips between URLs and their patterns. */
module LiteralLanguage {
  import opened Options
  import opened RegexSyntax
  import opened PacSafety
  import opened PatternReading
  import opened SourceMatch
  import opened SourceMatchProofs

  // ----- the language of a literal pattern

  predicate Spells(s: string, i: nat, j: nat, text: string) {
    i <= j <= |s| && s[i..j] == text
  }

  lemma SpellsConcat(s: string, i: nat, j: nat, u: string, v: string)
    requires i <= j <= |s|
    ensures Spells(s, i, j, u + v) <==> (i + |u| <= j && Spells(s, i, i + |u|, u) && Spells(s, i + |u|, j, v))
  {
    if i + |u| <= j {
      assert s[i..j] == s[i..i + |u|] + s[i + |u|..j];
      if s[i..j] == u + v {
        assert s[i..i + |u|] == s[i..j][..|u|] == u;
        assert s[i + |u|..j] == s[i..j][|u|..] == v;
      }
    }
  }

  lemma NoNextBranch(t: Pattern)
    requires LiteralPattern(t)
    ensures NextBranch(t).None?
  {
  }

  /** A term that is not repeated: the atom, then the rest. */
  lemma OnceThen(m: Meaning, t: Pattern, s: string, i: nat, j: nat)
    requires t.Term? && t.quant.Once? && WellFormed(t) && i <= j <= |s|
    ensures BranchMatches(m, t, s, i, j) <==>
            exists k: nat {:trigger Cut(i, k, j)} ::
              Cut(i, k, j) && AtomMatches(m, t.atom, s, i, k) && BranchMatches(m, t.rest, s, k, j)
  {
    if BranchMatches(m, t, s, i, j) {
      var k: nat, n: nat :| Cut(i, k, j) && CountAllowed(t.quant, n)
        && RepeatMatches(m, t.atom, n, s, i, k) && BranchMatches(m, t.rest, s, k, j);
      assert n == 1;
      RepeatOnce(m, t.atom, s, i, k);
    }
    if k: nat :| Cut(i, k, j) && AtomMatches(m, t.atom, s, i, k) && BranchMatches(m, t.rest, s, k, j) {
      RepeatOnce(m, t.atom, s, i, k);
      assert CountAllowed(t.quant, 1);
    }
  }

  lemma RepeatOnce(m: Meaning, a: Atom, s: string, i: nat, j: nat)
    requires WellFormedAtom(a) && i <= j <= |s|
    ensures RepeatMatches(m, a, 1, s, i, j) <==> AtomMatches(m, a, s, i, j)
  {
    if AtomMatches(m, a, s, i, j) {
      assert Cut(i, j, j) && RepeatMatches(m, a, 0, s, j, j);
    }
  }

  lemma {:induction false} LiteralBranch(m: Meaning, t: Pattern, s: string, i: nat, j: nat)
    requires LiteralPattern(t) && WellFormed(t) && i <= j <= |s|
    ensures BranchMatches(m, t, s, i, j) <==> Spells(s, i, j, Text(t))
    decreases t
  {
    if t.Empty? {
      assert Spells(s, i, j, "") <==> i == j;
    } else {
      var u, v := TextOf(t.atom), Text(t.rest);
      OnceThen(m, t, s, i, j);
      SpellsConcat(s, i, j, u, v);
      forall k: nat | Cut(i, k, j)
        ensures AtomMatches(m, t.atom, s, i, k) <==> Spells(s, i, k, u)
        ensures BranchMatches(m, t.rest, s, k, j) <==> Spells(s, k, j, v)
      {
        LiteralAtomMatches(m, t.atom, s, i, k);
        LiteralBranch(m, t.rest, s, k, j);
      }
      if Spells(s, i, j, u + v) {
        assert Cut(i, i + |u|, j);
      }
    }
  }

  lemma {:induction false} LiteralAtomMatches(m: Meaning, a: Atom, s: string, i: nat, j: nat)
    requires LiteralAtom(a) && WellFormedAtom(a) && i <= j <= |s|
    ensures AtomMatches(m, a, s, i, j) <==> Spells(s, i, j, TextOf(a))
    decreases a
  {
    if a.Group? {
      LiteralBranch(m, a.body, s, i, j);
      NoNextBranch(a.body);
    } else {
      if j == i + 1 {
        assert s[i..j] == [s[i]];
      }
    }
  }

  // ----- anchored patterns

  function Append(t: Pattern, u: Pattern): Pattern {
    match t
    case Empty => u
    case Bar(rest) => Bar(Append(rest, u))
    case Term(atom, quant, rest) => Term(atom, quant, Append(rest, u))
  }

  /** The tree of `^` + body + `$`. */
  function Anchor(t: Pattern): Pattern {
    Term(Plain('^'), Once, Append(t, Term(Plain('$'), Once, Empty)))
  }

  lemma {:induction false} PrintAppend(t: Pattern, u: Pattern)
    requires WellFormed(t) && WellFormed(u) && '}' !in Print(u)
    ensures Print(Append(t, u)) == Print(t) + Print(u) && WellFormed(Append(t, u))
  {
    hide PrintAtom, PrintQuantifier, WellFormedAtom, WellFormedOp, OpensCount;
    match t
    case Empty =>
    case Bar(rest) =>
      PrintAppend(rest, u);
    case Term(atom, quant, rest) =>
      PrintAppend(rest, u);
      if atom.Brace? {
        StillLoose(PrintQuantifier(quant) + Print(rest), Print(u));
      }
      Regroup(PrintAtom(atom), PrintQuantifier(quant), Print(rest), Print(u));
  }

  lemma Regroup(a: string, b: string, c: string, d: string)
    ensures a + b + (c + d) == a + b + c + d && b + c + d == b + (c + d)
  {
  }

  /** Text without a closing brace does not complete a count. */
  lemma StillLoose(text: string, more: string)
    requires !OpensCount(text) && '}' !in more
    ensures !OpensCount(text + more)
  {
    hide IsCount;
    forall k | 0 <= k < |text + more| && (text + more)[k] == '}' ensures !IsCount((text + more)[..k]) {
      assert k < |text| && (text + more)[..k] == text[..k];
    }
  }

  lemma PrintOnce(c: char, rest: Pattern)
    requires IsPlain(c) && WellFormed(rest)
    ensures WellFormed(Term(Plain(c), Once, rest)) && Print(Term(Plain(c), Once, rest)) == [c] + Print(rest)
  {
    hide OpensCount;
  }

  lemma PrintAnchor(t: Pattern)
    requires WellFormed(t)
    ensures WellFormed(Anchor(t)) && Print(Anchor(t)) == "^" + Print(t) + "$"
  {
    hide OpensCount;
    var end := Term(Plain('$'), Once, Empty);
    PrintOnce('$', Empty);
    PrintAppend(t, end);
    PrintOnce('^', Append(t, end));
    assert "^" + (Print(t) + "$") == "^" + Print(t) + "$";
  }

  lemma EndMatches(m: Meaning, s: string, i: nat, j: nat)
    requires i <= j <= |s|
    ensures BranchMatches(m, Term(Plain('$'), Once, Empty), s, i, j) <==> i == j == |s|
  {
    OnceThen(m, Term(Plain('$'), Once, Empty), s, i, j);
    if i == j == |s| {
      assert Cut(i, j, j);
      assert AtomMatches(m, Plain('$'), s, i, j) && BranchMatches(m, Empty, s, j, j);
    }
  }

  lemma {:induction false} LiteralThenEnd(m: Meaning, t: Pattern, s: string, i: nat, j: nat)
    requires LiteralPattern(t) && WellFormed(t) && i <= j <= |s|
    requires WellFormed(Append(t, Term(Plain('$'), Once, Empty)))
    ensures BranchMatches(m, Append(t, Term(Plain('$'), Once, Empty)), s, i, j) <==>
            j == |s| && Spells(s, i, j, Text(t))
    decreases t
  {
    var end := Term(Plain('$'), Once, Empty);
    if t.Empty? {
      EndMatches(m, s, i, j);
    } else {
      var u, v := TextOf(t.atom), Text(t.rest);
      OnceThen(m, Append(t, end), s, i, j);
      SpellsConcat(s, i, j, u, v);
      forall k: nat | Cut(i, k, j)
        ensures AtomMatches(m, t.atom, s, i, k) <==> Spells(s, i, k, u)
        ensures BranchMatches(m, Append(t.rest, end), s, k, j) <==> j == |s| && Spells(s, k, j, v)
      {
        LiteralAtomMatches(m, t.atom, s, i, k);
        LiteralThenEnd(m, t.rest, s, k, j);
      }
      if j == |s| && Spells(s, i, j, u + v) {
        assert Cut(i, i + |u|, j);
      }
    }
  }

  lemma NoBranchAfterAppend(t: Pattern)
    requires LiteralPattern(t)
    ensures NextBranch(Append(t, Term(Plain('$'), Once, Empty))).None?
  {
  }

  lemma AnchoredLiteral(m: Meaning, t: Pattern, s: string)
    requires LiteralPattern(t) && WellFormed(t)
    ensures WellFormed(Anchor(t))
    ensures Tests(m, Anchor(t), s) <==> s == Text(t)
  {
    PrintAnchor(t);
    var a, end := Anchor(t), Term(Plain('$'), Once, Empty);
    NoBranchAfterAppend(t);
    forall i: nat, j: nat | i <= j <= |s|
      ensures Matches(m, a, s, i, j) <==> i == 0 && j == |s| && s == Text(t)
    {
      AnchorMatches(m, t, s, i, j);
    }
    if s == Text(t) {
      assert Matches(m, a, s, 0, |s|);
    }
  }

  lemma AnchorMatches(m: Meaning, t: Pattern, s: string, i: nat, j: nat)
    requires LiteralPattern(t) && WellFormed(t) && i <= j <= |s| && WellFormed(Anchor(t))
    ensures Matches(m, Anchor(t), s, i, j) <==> i == 0 && j == |s| && s == Text(t)
  {
    var a, end := Anchor(t), Term(Plain('$'), Once, Empty);
    NoBranchAfterAppend(t);
    assert Matches(m, a, s, i, j) <==> BranchMatches(m, a, s, i, j);
    OnceThen(m, a, s, i, j);
    LiteralThenEnd(m, t, s, i, j);
    assert s[0..|s|] == s;
    if i == 0 && j == |s| && s == Text(t) {
      assert Cut(0, 0, j) && AtomMatches(m, Plain('^'), s, 0, 0);
    }
  }

  /** Whichever pattern an accepted body is the printed form of: anchored, it matches the decoded
      string and nothing else, in every interpretation of the escapes and classes. */
  lemma AcceptedMatchesOneString(body: string, text: string, t: Pattern, m: Meaning, s: string)
    requires Nonempty(Decode(body, 0, 0)) == Some(text)
    requires WellFormed(t) && Print(t) == body
    ensures WellFormed(Anchor(t)) && Print(Anchor(t)) == "^" + body + "$"
    ensures Tests(m, Anchor(t), s) <==> s == text
  {
    hide Tests, Print, Anchor;
    DecoderReadsLiteral(t);
    PrintAnchor(t);
    AnchoredLiteral(m, t, s);
  }

  /** The decoder accepts a body exactly when it is the printed form of a literal pattern with some text. */
  lemma AcceptedExactlyLiteral(body: string)
    ensures Nonempty(Decode(body, 0, 0)).Some? <==>
            exists t: Pattern :: WellFormed(t) && Print(t) == body && LiteralPattern(t) && Text(t) != ""
  {
    if Nonempty(Decode(body, 0, 0)).Some? {
      var t := AcceptedIsPrinted(body);
      DecoderReadsLiteral(t);
      assert LiteralPattern(t) && Text(t) != "";
    }
    if t: Pattern :| WellFormed(t) && Print(t) == body && LiteralPattern(t) && Text(t) != "" {
      DecoderReadsLiteral(t);
    }
  }

  // ----- alternation outside every group

  predicate OwnBar(t: Pattern) {
    match t
    case Empty => false
    case Bar(_) => true
    case Term(_, _, rest) => OwnBar(rest)
  }

  lemma {:induction false} TopBarClass(p: string, i: nat, depth: nat)
    ensures TopBar(p, i, depth, true) == TopBar(p, ClassEnd(p, i), depth, false)
    decreases |p| - i
  {
    if i < |p| {
      if p[i] == '\\' {
        TopBarClass(p, i + 2, depth);
      } else if p[i] != ']' {
        TopBarClass(p, i + 1, depth);
      }
    }
  }

  lemma TopBarStep(p: string, i: nat, depth: nat)
    requires i < |p|
    ensures p[i] == '(' ==> TopBar(p, i, depth, false) == TopBar(p, i + 1, depth + 1, false)
    ensures p[i] == ')' && depth > 0 ==> TopBar(p, i, depth, false) == TopBar(p, i + 1, depth - 1, false)
    ensures p[i] == '|' ==> TopBar(p, i, depth, false) == (depth == 0 || TopBar(p, i + 1, depth, false))
  {
  }

  lemma {:induction false} TopBarRun(p: string, i: nat, j: nat, depth: nat)
    requires i <= j <= |p| && forall k :: i <= k < j ==> Inert(p[k])
    ensures TopBar(p, i, depth, false) == TopBar(p, j, depth, false)
    decreases j - i
  {
    if i < j {
      TopBarRun(p, i + 1, j, depth);
    }
  }

  lemma TopBarPlain(a: Atom, p: string, i: nat, depth: nat)
    requires !a.Group? && WellFormedAtom(a) && ReadsAtom(a, p, i)
    ensures TopBar(p, i, depth, false) == TopBar(p, i + WidthAtom(a), depth, false)
  {
    hide ClassEnd;
    if a.Class? {
      TopBarClass(p, i + 1, depth);
    }
  }

  lemma {:induction false} TopBarAt(t: Pattern, p: string, i: nat, depth: nat)
    requires WellFormed(t) && Reads(t, p, i)
    ensures TopBar(p, i, depth, false) == ((depth == 0 && OwnBar(t)) || TopBar(p, i + Width(t), depth, false))
    decreases t
  {
    hide TopBar, ReadsAtom, WellFormedAtom, Measured, PrintQuantifier, WidthAtom;
    match t
    case Empty =>
    case Bar(rest) =>
      TopBarStep(p, i, depth);
      TopBarAt(rest, p, i + 1, depth);
    case Term(atom, quant, rest) =>
      var j := i + WidthAtom(atom);
      TopBarAtomAt(atom, p, i, depth);
      TopBarRun(p, j, j + |PrintQuantifier(quant)|, depth);
      TopBarAt(rest, p, j + |PrintQuantifier(quant)|, depth);
  }

  lemma {:induction false} TopBarAtomAt(a: Atom, p: string, i: nat, depth: nat)
    requires WellFormedAtom(a) && ReadsAtom(a, p, i)
    ensures TopBar(p, i, depth, false) == TopBar(p, i + WidthAtom(a), depth, false)
    decreases a
  {
    hide TopBar, Reads, WellFormed, Width, ClassEnd, PrintOpener;
    if a.Group? {
      var start, end := i + |PrintOpener(a.open)|, i + WidthAtom(a) - 1;
      TopBarStep(p, i, depth);
      TopBarRun(p, i + 1, start, depth + 1);
      TopBarAt(a.body, p, start, depth + 1);
      TopBarStep(p, end, depth + 1);
    } else {
      TopBarPlain(a, p, i, depth);
    }
  }

  lemma {:induction false} OwnBarBranches(t: Pattern)
    ensures OwnBar(t) <==> NextBranch(t).Some?
  {
    if t.Term? {
      OwnBarBranches(t.rest);
    }
  }

  /** On the printed form of any pattern `hasTopLevelAlternation` says whether the pattern has more
      than one branch. */
  lemma TopLevelAlternationIsBranching(t: Pattern)
    requires WellFormed(t)
    ensures TopBar(Print(t), 0, 0, false) <==> NextBranch(t).Some?
  {
    hide Print, Reads;
    PrintedReads(t);
    TopBarAt(t, Print(t), 0, 0);
    OwnBarBranches(t);
  }

  // ----- writing and reading exact URLs

  lemma {:induction false} DecodeUndoesEscape(s: string, p: string, i: nat)
    requires i <= |p| && p[i..] == EscapeText(s)
    ensures Decode(p, i, 0) == Some(s)
    decreases |s|
  {
    if s != "" {
      var head := if IsMeta(s[0]) then ['\\', s[0]] else [s[0]];
      assert p[i..] == head + EscapeText(s[1..]);
      assert p[i] == head[0] && p[i + |head|..] == EscapeText(s[1..]);
      if |head| == 2 {
        assert p[i + 1] == head[1];
      }
      DecodeUndoesEscape(s[1..], p, i + |head|);
      assert [s[0]] + s[1..] == s;
    }
  }

  lemma {:induction false} DecodeExactUndoesEscape(s: string, v: string, i: nat)
    requires i < |v| && v[i..] == EscapeText(s) + "$"
    ensures DecodeExact(v, i) == Some(s)
    decreases |s|
  {
    if s == "" {
      assert |v[i..]| == 1;
    } else {
      var head := if IsMeta(s[0]) then ['\\', s[0]] else [s[0]];
      assert v[i..] == head + (EscapeText(s[1..]) + "$");
      assert v[i] == head[0] && v[i + |head|..] == EscapeText(s[1..]) + "$";
      if |head| == 2 {
        assert v[i + 1] == head[1];
      }
      DecodeExactUndoesEscape(s[1..], v, i + |head|);
      assert [s[0]] + s[1..] == s;
    }
  }

  lemma EscapedSource(s: string, v: string)
    requires v == "^" + EscapeText(s) + "$"
    ensures Anchored(v) && v[1..|v| - 1] == EscapeText(s)
    ensures Decode(v[1..|v| - 1], 0, 0) == Some(s)
    ensures DecodeExact(v, 1) == Some(s)
  {
    assert v[1..|v| - 1] == EscapeText(s);
    assert v[1..|v| - 1][0..] == EscapeText(s);
    DecodeUndoesEscape(s, v[1..|v| - 1], 0);
    assert v[1..] == EscapeText(s) + "$";
    DecodeExactUndoesEscape(s, v, 1);
  }

  /** Escaping any non-empty string gives a literal body that decodes to it. */
  lemma EscapeRoundTrip(s: string)
    requires s != ""
    ensures Nonempty(Decode(EscapeText(s), 0, 0)) == Some(s)
  {
    assert EscapeText(s)[0..] == EscapeText(s);
    DecodeUndoesEscape(s, EscapeText(s), 0);
  }

  /** Both readers recover the serialized URL from the pattern written for it. */
  lemma ExactUrlRoundTrip(e: UrlEngine, value: string)
    requires Lawful(e) && UrlToExactRegex(e, value).Ok?
    ensures e.parse(value).Some?
    ensures var source := Source("url", "regex", UrlToExactRegex(e, value).source);
            && LiteralUrl(e, source) == Some(e.parse(value).value.href)
            && ExactUrl(e, source) == Some(e.parse(value).value.href)
  {
    var u := e.parse(value).value;
    EscapedSource(u.href, UrlToExactRegex(e, value).source);
    assert e.parse(u.href) == Some(u);
  }

  /** `exactUrlFromSource` offers a URL exactly for the patterns written for that URL. */
  lemma ExactUrlIffWritten(e: UrlEngine, source: Source, url: string)
    requires source.key == "url" && source.operator == "regex"
    ensures ExactUrl(e, source) == Some(url) <==>
            UrlToExactRegex(e, url) == Ok(source.value) && e.parse(url).value.href == url
  {
    if UrlToExactRegex(e, url) == Ok(source.value) {
      EscapedSource(e.parse(url).value.href, source.value);
    }
  }

  /** An exact URL read out of a source is the one text its pattern matches. */
  lemma LiteralUrlMatchesOnlyItself(e: UrlEngine, source: Source, url: string) returns (t: Pattern)
    requires LiteralUrl(e, source) == Some(url)
    ensures WellFormed(t) && Print(t) == source.value
    ensures forall m: Meaning, s: string :: Tests(m, t, s) <==> s == url
  {
    hide Tests, Print, Anchor, Decode;
    var v := source.value;
    var body := v[1..|v| - 1];
    var inner := AcceptedIsPrinted(body);
    PrintAnchor(inner);
    assert "^" + body + "$" == v;
    t := Anchor(inner);
    forall m: Meaning, s: string ensures Tests(m, t, s) <==> s == url {
      AcceptedMatchesOneString(body, url, inner, m, s);
    }
  }
}

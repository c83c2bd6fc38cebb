/** What the literal decoders and the alternation test decide about the pattern tree. */
module SourceMatchProofs {
  import opened Options
  import opened RegexSyntax
  import opened PacSafety
  import opened PatternReading
  import opened SourceMatch

  // ----- the structural reading

  /** Single characters and plain groups only. */
  predicate LiteralPattern(t: Pattern) {
    match t
    case Empty => true
    case Bar(_) => false
    case Term(atom, quant, rest) => LiteralAtom(atom) && quant.Once? && LiteralPattern(rest)
  }

  predicate LiteralAtom(a: Atom) {
    match a
    case Plain(c) => !IsRawMeta(c)
    case Brace => false
    case Escape(c) => IsLiteralEscape(c)
    case Class(_) => false
    case Group(open, body) => (open.Capture? || open.NonCapture?) && LiteralPattern(body)
  }

  /** The characters, with the groups taken away. */
  function Text(t: Pattern): string {
    match t
    case Empty => ""
    case Bar(_) => ""
    case Term(atom, _, rest) => TextOf(atom) + Text(rest)
  }

  function TextOf(a: Atom): string {
    match a
    case Plain(c) => [c]
    case Brace => ""
    case Escape(c) => [c]
    case Class(_) => ""
    case Group(_, body) => Text(body)
  }

  // ----- the decoder on printed patterns

  lemma PrependConcat(s: string, t: string, r: Option<string>)
    ensures Prepend(s, Prepend(t, r)) == Prepend(s + t, r)
    ensures Prepend("", r) == r
  {
    if r.Some? {
      assert s + (t + r.value) == s + t + r.value;
      assert "" + r.value == r.value;
    }
  }

  lemma DecodeStep(body: string, i: nat, depth: nat)
    requires i < |body|
    ensures body[i] == ')' && depth > 0 ==> Decode(body, i, depth) == Decode(body, i + 1, depth - 1)
    ensures IsRawMeta(body[i]) ==> Decode(body, i, depth) == None
    ensures body[i] == '(' && i + 2 < |body| && body[i + 1] == '?' ==>
              Decode(body, i, depth) == if body[i + 2] == ':' then Decode(body, i + 3, depth + 1) else None
    ensures body[i] == '(' && i + 1 < |body| && body[i + 1] != '?' ==>
              Decode(body, i, depth) == Decode(body, i + 1, depth + 1)
  {
  }

  lemma DecodePlain(a: Atom, p: string, i: nat, depth: nat)
    requires !a.Group? && WellFormedAtom(a) && ReadsAtom(a, p, i)
    ensures Decode(p, i, depth) ==
            if LiteralAtom(a) then Prepend(TextOf(a), Decode(p, i + WidthAtom(a), depth)) else None
  {
  }

  lemma {:induction false} DecodeAt(t: Pattern, p: string, i: nat, depth: nat)
    requires WellFormed(t) && Reads(t, p, i)
    ensures Decode(p, i, depth) ==
            if LiteralPattern(t) then Prepend(Text(t), Decode(p, i + Width(t), depth)) else None
    decreases t
  {
    hide Decode, KindAt, QuantifierEnd, KindOf, PrintQuantifier, PrintOp, ReadsAtom, WellFormedAtom, LiteralAtom, TextOf, WidthAtom;
    match t
    case Empty =>
      PrependConcat("", "", Decode(p, i, depth));
    case Bar(_) =>
      DecodeStep(p, i, depth);
    case Term(atom, quant, rest) =>
      var j := i + WidthAtom(atom);
      DecodeAtomAt(atom, p, i, depth);
      if quant.Once? {
        OncePrintsNothing();
        DecodeAt(rest, p, j, depth);
        PrependConcat(TextOf(atom), Text(rest), Decode(p, i + Width(t), depth));
      } else {
        DecodeStep(p, j, depth);
      }
  }

  lemma OncePrintsNothing()
    ensures |PrintQuantifier(Once)| == 0
  {
  }

  lemma {:induction false} DecodeAtomAt(a: Atom, p: string, i: nat, depth: nat)
    requires WellFormedAtom(a) && ReadsAtom(a, p, i)
    ensures Decode(p, i, depth) ==
            if LiteralAtom(a) then Prepend(TextOf(a), Decode(p, i + WidthAtom(a), depth)) else None
    decreases a
  {
    hide Decode, ClassEnd, PrintOpener, Reads, Width, WellFormed, LiteralPattern, Text;
    if a.Group? {
      var start, end := i + |PrintOpener(a.open)|, i + WidthAtom(a) - 1;
      DecodeStep(p, i, depth);
      if a.open.Capture? {
        GroupFirst(a, p, i);
      }
      if a.open.Capture? || a.open.NonCapture? {
        DecodeAt(a.body, p, start, depth + 1);
        DecodeStep(p, end, depth + 1);
      }
    } else {
      DecodePlain(a, p, i, depth);
    }
  }

  lemma GroupFirst(a: Atom, p: string, i: nat)
    requires a.Group? && a.open.Capture? && WellFormedAtom(a) && ReadsAtom(a, p, i)
    ensures i + 1 < |p| && p[i + 1] != '?'
  {
    hide KindAt, QuantifierEnd, ClassEnd, PrintQuantifier;
    NextChar(a.body, p, i + 1);
  }

  lemma DecodeEnd(p: string)
    ensures Decode(p, |p|, 0) == Some("")
  {
  }

  /** On the printed form of any pattern, `decodeLiteralRegexBody` accepts exactly the literal
      patterns with some text, and returns their text. */
  lemma DecoderReadsLiteral(t: Pattern)
    requires WellFormed(t)
    ensures Nonempty(Decode(Print(t), 0, 0)) ==
            if LiteralPattern(t) && Text(t) != "" then Some(Text(t)) else None
  {
    hide Print, Reads, Decode, LiteralPattern, Text, WellFormed;
    PrintedReads(t);
    DecodeAt(t, Print(t), 0, 0);
    DecodeEnd(Print(t));
    assert Text(t) + "" == Text(t);
  }

  // ----- every accepted body is the printed form of a pattern

  /** Text left to print when `levels[0]` is the rest of the innermost open group, and so on. */
  function PrintLevels(levels: seq<Pattern>): string {
    if levels == [] then ""
    else if |levels| == 1 then Print(levels[0])
    else Print(levels[0]) + ")" + PrintLevels(levels[1..])
  }

  ghost predicate AllWellFormed(levels: seq<Pattern>) {
    forall k :: 0 <= k < |levels| ==> WellFormed(levels[k])
  }

  lemma LevelsStep(t: Pattern, outer: seq<Pattern>)
    ensures PrintLevels([t] + outer) == if outer == [] then Print(t) else Print(t) + ")" + PrintLevels(outer)
  {
    hide Print;
    assert ([t] + outer)[1..] == outer;
  }

  lemma PrintTerm(atom: Atom, rest: Pattern)
    ensures Print(Term(atom, Once, rest)) == PrintAtom(atom) + Print(rest)
  {
    hide PrintAtom;
    assert PrintAtom(atom) + "" == PrintAtom(atom);
  }

  lemma Reassociate(a: string, b: string, c: string, d: string)
    ensures a + (b + c + d) == (a + b + c) + d
    ensures a + (b + c + d) == (a + b) + c + d
  {
  }

  lemma PrintHead(atom: Atom, levels: seq<Pattern>)
    requires levels != []
    ensures PrintAtom(atom) + PrintLevels(levels) == PrintLevels([Term(atom, Once, levels[0])] + levels[1..])
  {
    hide Print, PrintAtom, PrintLevels;
    assert [levels[0]] + levels[1..] == levels;
    LevelsStep(levels[0], levels[1..]);
    LevelsStep(Term(atom, Once, levels[0]), levels[1..]);
    PrintTerm(atom, levels[0]);
    Reassociate(PrintAtom(atom), Print(levels[0]), ")", PrintLevels(levels[1..]));
  }

  lemma PrintOpen(open: Opener, levels: seq<Pattern>)
    requires |levels| > 1
    ensures PrintOpener(open) + PrintLevels(levels)
         == PrintLevels([Term(Group(open, levels[0]), Once, levels[1])] + levels[2..])
  {
    hide Print, PrintOpener, PrintLevels;
    var group := Group(open, levels[0]);
    assert [levels[0]] + levels[1..] == levels;
    LevelsStep(levels[0], levels[1..]);
    Reassociate(PrintOpener(open), Print(levels[0]), ")", PrintLevels(levels[1..]));
    PrintHead(group, levels[1..]);
    assert levels[1..][1..] == levels[2..];
  }

  lemma WellFormedLevels(t: Pattern, levels: seq<Pattern>, n: nat)
    requires WellFormed(t) && AllWellFormed(levels) && n <= |levels|
    ensures AllWellFormed([t] + levels[n..])
  {
  }

  lemma {:induction false} DecodeBuilds(body: string, i: nat, depth: nat) returns (levels: seq<Pattern>)
    requires i <= |body| && Decode(body, i, depth).Some?
    ensures |levels| == depth + 1 && AllWellFormed(levels)
    ensures body[i..] == PrintLevels(levels)
    decreases |body| - i
  {
    hide Print, PrintLevels, PrintAtom, PrintOpener, AllWellFormed;
    if i == |body| {
      levels := [Empty];
      PrintNothing();
    } else if body[i] == '(' {
      var open := if i + 1 < |body| && body[i + 1] == '?' then NonCapture else Capture;
      var next := if open.NonCapture? then i + 3 else i + 1;
      var rest := DecodeBuilds(body, next, depth + 1);
      GroupWellFormed(open, rest);
      levels := [Term(Group(open, rest[0]), Once, rest[1])] + rest[2..];
      PrintPlain('x');
      assert body[i..] == PrintOpener(open) + body[next..];
      PrintOpen(open, rest);
    } else if body[i] == ')' {
      var rest := DecodeBuilds(body, i + 1, depth - 1);
      WellFormedLevels(Empty, rest, 0);
      assert rest[0..] == rest;
      levels := [Empty] + rest;
      PrintClose(rest);
      assert body[i..] == ")" + body[i + 1..];
    } else {
      var escaped := body[i] == '\\';
      var atom := if escaped then Escape(body[i + 1]) else Plain(body[i]);
      var next := if escaped then i + 2 else i + 1;
      var rest := DecodeBuilds(body, next, depth);
      AtomWellFormed(atom, rest);
      levels := [Term(atom, Once, rest[0])] + rest[1..];
      PrintPlain(if escaped then body[i + 1] else body[i]);
      assert body[i..] == PrintAtom(atom) + body[next..];
      PrintHead(atom, rest);
    }
  }

  lemma GroupWellFormed(open: Opener, levels: seq<Pattern>)
    requires !open.Named? && |levels| > 1 && AllWellFormed(levels)
    ensures AllWellFormed([Term(Group(open, levels[0]), Once, levels[1])] + levels[2..])
  {
    WellFormedLevels(Term(Group(open, levels[0]), Once, levels[1]), levels, 2);
  }

  lemma AtomWellFormed(atom: Atom, levels: seq<Pattern>)
    requires WellFormedAtom(atom) && !atom.Brace? && levels != [] && AllWellFormed(levels)
    ensures AllWellFormed([Term(atom, Once, levels[0])] + levels[1..])
  {
    WellFormedLevels(Term(atom, Once, levels[0]), levels, 1);
  }

  lemma PrintNothing()
    ensures PrintLevels([Empty]) == "" && AllWellFormed([Empty])
  {
  }

  lemma PrintPlain(c: char)
    ensures PrintAtom(Plain(c)) == [c] && PrintAtom(Escape(c)) == ['\\', c]
    ensures PrintOpener(NonCapture) == "(?:" && PrintOpener(Capture) == "("
  {
  }

  lemma PrintClose(levels: seq<Pattern>)
    requires levels != []
    ensures PrintLevels([Empty] + levels) == ")" + PrintLevels(levels)
  {
    assert ([Empty] + levels)[1..] == levels;
    assert Print(Empty) == "" && "" + ")" == ")";
  }

  lemma AcceptedIsPrinted(body: string) returns (t: Pattern)
    requires Decode(body, 0, 0).Some?
    ensures WellFormed(t) && Print(t) == body
  {
    var levels := DecodeBuilds(body, 0, 0);
    t := levels[0];
    assert levels == [t];
    assert body[0..] == body;
  }
}

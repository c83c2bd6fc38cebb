/** Which bodies the literal decoder takes and which URLs get a pattern, said of the text itself
    (`packages/compiler/src/source-match.ts`, `packages/editor/src/url.ts`). */
module SourceMeaning {
  import opened Options
  import opened SourceMatch

  // ----- the characters

  lemma CharactersMean(c: char)
    ensures IsRawMeta(c) <==> c in ".*+?|[]{}^$"
    ensures IsMeta(c) <==> c in ".*+?^${}()|[]\\"
    ensures IsLiteralEscape(c) <==> c in "\\.^$*+?()[]{}|/"
  {
  }

  // ----- literal bodies

  /** The body is taken, and stands for the text. */
  predicate Literal(body: string, text: string) { Decode(body, 0, 0) == Some(text) }

  /** What a body gives where it stands inside another, with more groups open around it. */
  lemma {:induction false} DecodeInside(a: string, i: nat, depth: nat, p: string, at: nat, more: nat)
    requires i <= |a| && at + |a| <= |p| && p[at..at + |a|] == a && Decode(a, i, depth).Some?
    ensures Decode(p, at + i, depth + more) == Prepend(Decode(a, i, depth).value, Decode(p, at + |a|, more))
    decreases |a| - i
  {
    assert forall k :: 0 <= k < |a| ==> p[at + k] == a[k];
    if i == |a| {
      PrependTwice("", 'x', Decode(p, at + |a|, more));
    } else if a[i] == '\\' {
      DecodeInside(a, i + 2, depth, p, at, more);
      PrependAgain([a[i + 1]], Decode(a, i + 2, depth).value, Decode(p, at + |a|, more));
    } else if a[i] == '(' {
      if i + 1 < |a| && a[i + 1] == '?' {
        DecodeInside(a, i + 3, depth + 1, p, at, more);
      } else {
        NotAQuestion(a, i, depth);
        DecodeInside(a, i + 1, depth + 1, p, at, more);
      }
    } else if a[i] == ')' {
      DecodeInside(a, i + 1, depth - 1, p, at, more);
    } else {
      DecodeInside(a, i + 1, depth, p, at, more);
      PrependAgain([a[i]], Decode(a, i + 1, depth).value, Decode(p, at + |a|, more));
    }
  }

  /** A body that ends in an open parenthesis is not taken. */
  lemma NotAQuestion(a: string, i: nat, depth: nat)
    requires i < |a| && a[i] == '(' && Decode(a, i, depth).Some?
    ensures i + 1 < |a|
  {
    if i + 1 == |a| {
      OpenAtEnd(a, i, depth);
    }
  }

  lemma OpenAtEnd(a: string, i: nat, depth: nat)
    requires i + 1 == |a| && a[i] == '('
    ensures Decode(a, i, depth) == None
  {
    assert Decode(a, i + 1, depth + 1) == None;
  }

  lemma PrependAgain(s: string, t: string, r: Option<string>)
    ensures Prepend(s + t, r) == Prepend(s, Prepend(t, r))
  {
    if r.Some? {
      assert s + t + r.value == s + (t + r.value);
    }
  }

  /** The decoder takes nothing as nothing, a character outside the special ones as itself, an escaped special
      character as that character, a group as what it holds, and one body after the other as both. */
  lemma LiteralsMean(a: string, s: string, b: string, t: string, c: char)
    ensures Literal("", "")
    ensures Literal([c], [c]) <==> c !in ".*+?|[]{}^$()\\"
    ensures Literal(['\\', c], [c]) <==> c in "\\.^$*+?()[]{}|/"
    ensures Literal(a, s) && Literal(b, t) ==> Literal(a + b, s + t)
    ensures Literal(a, s) && (a == "" || a[0] != '?') ==> Literal("(" + a + ")", s)
    ensures Literal(a, s) ==> Literal("(?:" + a + ")", s)
  {
    CharactersMean(c);
    OneChar(c);
    if Literal(a, s) && Literal(b, t) {
      Concatenated(a, s, b, t);
    }
    if Literal(a, s) && (a == "" || a[0] != '?') {
      Grouped("(", a, s);
    }
    if Literal(a, s) {
      Grouped("(?:", a, s);
    }
  }

  lemma OneChar(c: char)
    ensures Literal("", "")
    ensures Literal([c], [c]) <==> !IsRawMeta(c) && c != '(' && c != ')' && c != '\\'
    ensures Literal(['\\', c], [c]) <==> IsLiteralEscape(c)
  {
    assert Decode([c], 1, 0) == Some("") && Decode([c], 1, 1) == None;
    assert Decode(['\\', c], 2, 0) == Some("");
    assert [c] + "" == [c];
  }

  lemma Concatenated(a: string, s: string, b: string, t: string)
    requires Literal(a, s) && Literal(b, t)
    ensures Literal(a + b, s + t)
  {
    hide Decode;
    var p := a + b;
    assert p[0..|a|] == a && p[|a|..|a| + |b|] == b;
    DecodeInside(a, 0, 0, p, 0, 0);
    DecodeInside(b, 0, 0, p, |a|, 0);
    DecodeEnd(p);
    assert t + "" == t;
  }

  lemma DecodeEnd(p: string)
    ensures Decode(p, |p|, 0) == Some("")
  {
  }

  lemma Grouped(open: string, a: string, s: string)
    requires (open == "(" && (a == "" || a[0] != '?')) || open == "(?:"
    requires Literal(a, s)
    ensures Literal(open + a + ")", s)
  {
    hide Decode;
    var p := open + a + ")";
    assert p[|open|..|open| + |a|] == a && p[|open| + |a|] == ')';
    DecodeInside(a, 0, 0, p, |open|, 1);
    GroupEnds(p, |open| + |a|);
    GroupStarts(p, |open|);
    assert s + "" == s;
  }

  lemma GroupEnds(p: string, i: nat)
    requires i + 1 == |p| && p[i] == ')'
    ensures Decode(p, i, 1) == Some("")
  {
  }

  lemma GroupStarts(p: string, n: nat)
    requires (n == 1 && |p| > 1 && p[0] == '(' && p[1] != '?') || (n == 3 && |p| > 3 && p[..3] == "(?:")
    ensures Decode(p, 0, 0) == Decode(p, n, 1)
  {
    if n == 3 {
      assert p[0] == p[..3][0] && p[1] == p[..3][1] && p[2] == p[..3][2];
    }
  }

  // ----- patterns for URLs

  /** Every special character gets a backslash, no other does. */
  lemma EscapeMeans(a: string, b: string, c: char)
    ensures EscapeText("") == "" && EscapeText(a + b) == EscapeText(a) + EscapeText(b)
    ensures EscapeText([c]) == if c in ".*+?^${}()|[]\\" then ['\\', c] else [c]
  {
    EscapeJoins(a, b);
    CharactersMean(c);
    assert [c][1..] == "";
  }

  lemma {:induction false} EscapeJoins(a: string, b: string)
    ensures EscapeText(a + b) == EscapeText(a) + EscapeText(b)
    decreases |a|
  {
    if a == "" {
      assert a + b == b;
    } else {
      assert (a + b)[1..] == a[1..] + b;
      EscapeJoins(a[1..], b);
    }
  }

  /** An http or https URL without credentials. */
  predicate Plain(u: Url) {
    (u.protocol == "http:" || u.protocol == "https:") && u.username == "" && u.password == ""
  }

  /** A text gets a pattern exactly when it is not empty, has no white space around it and no control character in
      it, and is such a URL with an origin and without a fragment, short enough: the anchored, escaped serialized URL. */
  lemma WrittenMeans(e: UrlEngine, value: string)
    ensures forall source :: UrlToExactRegex(e, value) == Ok(source) <==>
              && value != "" && !e.space(value[0]) && !e.space(value[|value| - 1])
              && (forall k :: 0 <= k < |value| ==> !e.control(value[k]))
              && e.parse(value).Some? && Plain(e.parse(value).value)
              && e.parse(value).value.origin != "null" && e.parse(value).value.hash == ""
              && source == "^" + EscapeText(e.parse(value).value.href) + "$" && |source| <= 2048
    ensures UrlToExactRegex(e, value) == UrlTooLong ==> |EscapeText(e.parse(value).value.href)| > 2046
  {
    hide EscapeText;
  }

  /** A URL is read out of a source exactly when the source is an anchored pattern on the URL whose body the decoder
      takes as the text of that URL, as it would be serialized again. */
  lemma ReadMeans(e: UrlEngine, source: Source, url: string)
    ensures LiteralUrl(e, source) == Some(url) <==>
            && source.key == "url" && source.operator == "regex" && url != ""
            && (exists body :: source.value == "^" + body + "$" && Literal(body, url))
            && e.parse(url).Some? && Plain(e.parse(url).value) && e.parse(url).value.href == url
  {
    hide Decode;
    var v := source.value;
    if Anchored(v) {
      assert v == "^" + v[1..|v| - 1] + "$";
    }
    forall body | v == "^" + body + "$" ensures Anchored(v) && v[1..|v| - 1] == body {
    }
  }
}

/** `packages/editor/src/editor.ts:351-374`: JSON Pointer text (RFC 6901, sections 3 and 4). */
module JsonPointer {
  import opened Options

  // ----- the two directions as the source writes them

  /** `replaceAll` of one character by a text. */
  function ReplaceChar(s: string, c: char, text: string): string {
    if s == "" then "" else (if s[0] == c then text else [s[0]]) + ReplaceChar(s[1..], c, text)
  }

  /** `replaceAll` of a two-character text by one character, left to right. */
  function ReplacePair(s: string, a: char, b: char, text: char): string {
    if |s| < 2 then s
    else if s[0] == a && s[1] == b then [text] + ReplacePair(s[2..], a, b, text)
    else [s[0]] + ReplacePair(s[1..], a, b, text)
  }

  function EncodeSegment(segment: string): string {
    ReplaceChar(ReplaceChar(segment, '~', "~0"), '/', "~1")
  }

  function DecodeSegment(text: string): string {
    ReplacePair(ReplacePair(text, '~', '1', '/'), '~', '0', '~')
  }

  function Split(s: string): (parts: seq<string>)
    ensures parts != []
  {
    if s == "" then [""]
    else
      var rest := Split(s[1..]);
      if s[0] == '/' then [""] + rest else [[s[0]] + rest[0]] + rest[1..]
  }

  function Join(parts: seq<string>): string
    requires parts != []
  {
    if |parts| == 1 then parts[0] else parts[0] + "/" + Join(parts[1..])
  }

  function Encoded(segments: seq<string>): (r: seq<string>)
    ensures |r| == |segments|
  {
    seq(|segments|, i requires 0 <= i < |segments| => EncodeSegment(segments[i]))
  }

  function Decoded(parts: seq<string>): (r: seq<string>)
    ensures |r| == |parts|
  {
    seq(|parts|, i requires 0 <= i < |parts| => DecodeSegment(parts[i]))
  }

  function Pointer(segments: seq<string>): string {
    if segments == [] then "" else "/" + Join(Encoded(segments))
  }

  function DecodePointer(path: string): Option<seq<string>> {
    if path == "" then Some([])
    else if path[0] != '/' then None
    else Some(Decoded(Split(path[1..])))
  }

  // ----- one segment

  function Escape(c: char): string {
    if c == '~' then "~0" else if c == '/' then "~1" else [c]
  }

  /** The escaping of RFC 6901, character by character. */
  function Escaped(s: string): string {
    if s == "" then "" else Escape(s[0]) + Escaped(s[1..])
  }

  /** Every `~` starts one of the two escapes, and there is no bare `/`. */
  predicate IsEscaped(s: string) {
    s == ""
    || (s[0] == '~' && |s| >= 2 && (s[1] == '0' || s[1] == '1') && IsEscaped(s[2..]))
    || (s[0] != '~' && s[0] != '/' && IsEscaped(s[1..]))
  }

  lemma {:induction false} ReplaceJoins(a: string, b: string, c: char, text: string)
    ensures ReplaceChar(a + b, c, text) == ReplaceChar(a, c, text) + ReplaceChar(b, c, text)
    decreases |a|
  {
    if a == "" {
      assert a + b == b;
    } else {
      assert (a + b)[1..] == a[1..] + b;
      ReplaceJoins(a[1..], b, c, text);
    }
  }

  lemma {:induction false} EncodeIsEscaping(s: string)
    ensures EncodeSegment(s) == Escaped(s)
    decreases |s|
  {
    if s != "" {
      EncodeIsEscaping(s[1..]);
      var head := if s[0] == '~' then "~0" else [s[0]];
      ReplaceJoins(head, ReplaceChar(s[1..], '~', "~0"), '/', "~1");
      assert head[1..] == if s[0] == '~' then "0" else "";
      assert "0"[1..] == "";
    }
  }

  /** Between the two replacements only the tildes are still escaped. */
  function TildesEscaped(s: string): string {
    if s == "" then "" else (if s[0] == '~' then "~0" else [s[0]]) + TildesEscaped(s[1..])
  }

  lemma {:induction false} SlashesBack(s: string)
    ensures ReplacePair(Escaped(s), '~', '1', '/') == TildesEscaped(s)
    decreases |s|
  {
    if s != "" {
      var t := Escaped(s[1..]);
      SlashesBack(s[1..]);
      if s[0] == '~' {
        SkipPair('~', '0', t, '~', '1', '/');
      } else if s[0] == '/' {
        assert ("~1" + t)[2..] == t;
      } else {
        SkipChar(s[0], t, '~', '1', '/');
      }
    }
  }

  lemma {:induction false} TildesBack(s: string)
    ensures ReplacePair(TildesEscaped(s), '~', '0', '~') == s
    decreases |s|
  {
    if s != "" {
      var t := TildesEscaped(s[1..]);
      TildesBack(s[1..]);
      if s[0] == '~' {
        assert ("~0" + t)[2..] == t;
      } else {
        SkipChar(s[0], t, '~', '0', '~');
      }
    }
  }

  lemma SkipChar(c: char, t: string, a: char, b: char, text: char)
    requires c != a
    ensures ReplacePair([c] + t, a, b, text) == [c] + ReplacePair(t, a, b, text)
  {
    assert ([c] + t)[1..] == t;
  }

  lemma SkipPair(c: char, d: char, t: string, a: char, b: char, text: char)
    requires d != b && d != a
    ensures ReplacePair([c, d] + t, a, b, text) == [c, d] + ReplacePair(t, a, b, text)
  {
    assert ([c, d] + t)[1..] == [d] + t;
    SkipChar(d, t, a, b, text);
  }

  lemma SegmentRoundTrip(s: string)
    ensures DecodeSegment(EncodeSegment(s)) == s
  {
    EncodeIsEscaping(s);
    SlashesBack(s);
    TildesBack(s);
  }

  lemma {:induction false} EscapedIsEscaped(s: string)
    ensures IsEscaped(Escaped(s))
    decreases |s|
  {
    if s != "" {
      EscapedIsEscaped(s[1..]);
      assert Escaped(s)[|Escape(s[0])|..] == Escaped(s[1..]);
    }
  }

  lemma {:induction false} Unescape(t: string) returns (s: string)
    requires IsEscaped(t)
    ensures Escaped(s) == t
    decreases |t|
  {
    if t == "" {
      s := "";
    } else if t[0] == '~' {
      s := Unescape(t[2..]);
      s := [if t[1] == '0' then '~' else '/'] + s;
      assert t == t[..2] + t[2..];
    } else {
      s := Unescape(t[1..]);
      s := [t[0]] + s;
    }
  }

  /** A part comes back from decoding and encoding exactly when it is escaped as RFC 6901 asks. */
  lemma SegmentTextKept(t: string)
    ensures EncodeSegment(DecodeSegment(t)) == t <==> IsEscaped(t)
  {
    EncodeIsEscaping(DecodeSegment(t));
    EscapedIsEscaped(DecodeSegment(t));
    if IsEscaped(t) {
      var s := Unescape(t);
      EncodeIsEscaping(s);
      SegmentRoundTrip(s);
    }
  }

  // ----- whole pointers

  predicate NoSlash(s: string) { forall i :: 0 <= i < |s| ==> s[i] != '/' }

  lemma {:induction false} EscapedHasNoSlash(s: string)
    ensures NoSlash(Escaped(s))
    decreases |s|
  {
    if s != "" {
      EscapedHasNoSlash(s[1..]);
    }
  }

  lemma {:induction false} SplitPart(part: string, rest: string)
    requires NoSlash(part)
    ensures Split(part + "/" + rest) == [part] + Split(rest)
    decreases |part|
  {
    if part == "" {
      assert part + "/" + rest == "/" + rest;
      assert ("/" + rest)[1..] == rest;
    } else {
      SplitPart(part[1..], rest);
      assert (part + "/" + rest)[1..] == part[1..] + "/" + rest;
      assert part == [part[0]] + part[1..];
      assert ([part[1..]] + Split(rest))[1..] == Split(rest);
    }
  }

  lemma {:induction false} SplitOne(part: string)
    requires NoSlash(part)
    ensures Split(part) == [part]
    decreases |part|
  {
    if part != "" {
      SplitOne(part[1..]);
      assert part == [part[0]] + part[1..];
      assert [part[1..]][1..] == [];
    }
  }

  lemma {:induction false} SplitJoin(parts: seq<string>)
    requires parts != [] && forall i :: 0 <= i < |parts| ==> NoSlash(parts[i])
    ensures Split(Join(parts)) == parts
    decreases |parts|
  {
    if |parts| == 1 {
      SplitOne(parts[0]);
    } else {
      SplitJoin(parts[1..]);
      SplitPart(parts[0], Join(parts[1..]));
    }
  }

  lemma {:induction false} JoinSplit(s: string)
    ensures Join(Split(s)) == s && forall i :: 0 <= i < |Split(s)| ==> NoSlash(Split(s)[i])
    decreases |s|
  {
    if s != "" {
      JoinSplit(s[1..]);
      var rest := Split(s[1..]);
      if s[0] == '/' {
        assert ([""] + rest)[1..] == rest;
        assert s == "" + "/" + s[1..];
      } else {
        var all := [[s[0]] + rest[0]] + rest[1..];
        assert all[1..] == rest[1..];
        assert s == [s[0]] + s[1..];
        assert |rest| > 1 ==> Join(all) == [s[0]] + (rest[0] + "/" + Join(rest[1..]));
      }
    }
  }

  /** Section 4 of RFC 6901 undoes section 3: every list of strings comes back. */
  lemma PointerRoundTrip(segments: seq<string>)
    ensures DecodePointer(Pointer(segments)) == Some(segments)
  {
    if segments != [] {
      var parts := Encoded(segments);
      forall i | 0 <= i < |segments| ensures NoSlash(parts[i]) && DecodeSegment(parts[i]) == segments[i] {
        EncodeIsEscaping(segments[i]);
        EscapedHasNoSlash(segments[i]);
        SegmentRoundTrip(segments[i]);
      }
      SplitJoin(parts);
      assert Pointer(segments)[1..] == Join(parts);
      assert Decoded(parts) == segments;
    }
  }

  /** The decoder is lenient about other uses of `~`, so a path it accepts is printed back as it was exactly
      when each of its parts is escaped. */
  lemma PathTextKept(path: string)
    requires DecodePointer(path).Some?
    ensures Pointer(DecodePointer(path).value) == path <==>
            path == "" || forall i :: 0 <= i < |Split(path[1..])| ==> IsEscaped(Split(path[1..])[i])
  {
    if path != "" {
      var parts := Split(path[1..]);
      var again := Encoded(Decoded(parts));
      JoinSplit(path[1..]);
      forall i | 0 <= i < |parts| ensures again[i] == parts[i] <==> IsEscaped(parts[i]) {
        SegmentTextKept(parts[i]);
      }
      forall i | 0 <= i < |again| ensures NoSlash(again[i]) {
        EncodeIsEscaping(Decoded(parts)[i]);
        EscapedHasNoSlash(Decoded(parts)[i]);
      }
      SplitJoin(again);
      assert path == "/" + path[1..];
      assert Pointer(Decoded(parts))[1..] == Join(again);
      if Join(again) == path[1..] {
        assert again == parts;
      }
      if forall i :: 0 <= i < |parts| ==> IsEscaped(parts[i]) {
        assert again == parts;
      }
    }
  }

  // ----- the text, character by character

  /** Character by character: a tilde is written `~0`, a slash `~1`, everything else as it is. */
  lemma EncodeMeans(a: string, b: string, c: char)
    ensures EncodeSegment("") == "" && EncodeSegment(a + b) == EncodeSegment(a) + EncodeSegment(b)
    ensures EncodeSegment([c]) == if c == '~' then ['~', '0'] else if c == '/' then ['~', '1'] else [c]
  {
    EncodeIsEscaping("");
    EncodeIsEscaping(a);
    EncodeIsEscaping(b);
    EncodeIsEscaping(a + b);
    EncodeIsEscaping([c]);
    EscapedJoins(a, b);
  }

  lemma {:induction false} EscapedJoins(a: string, b: string)
    ensures Escaped(a + b) == Escaped(a) + Escaped(b)
    decreases |a|
  {
    if a == "" {
      assert a + b == b;
    } else {
      assert (a + b)[1..] == a[1..] + b;
      EscapedJoins(a[1..], b);
    }
  }

  /** A pointer is one slash and one encoded segment after the other. */
  lemma {:induction false} PointerMeans(segments: seq<string>, last: string)
    ensures Pointer([]) == "" && Pointer(segments + [last]) == Pointer(segments) + "/" + EncodeSegment(last)
  {
    hide Join, EncodeSegment;
    if segments == [] {
      assert Encoded([last]) == [EncodeSegment(last)];
      JoinOne(EncodeSegment(last));
      assert [] + [last] == [last] && "" + "/" == "/";
    } else {
      assert Encoded(segments + [last]) == Encoded(segments) + [EncodeSegment(last)];
      JoinMore(Encoded(segments), EncodeSegment(last));
      assert "/" + (Join(Encoded(segments)) + "/" + EncodeSegment(last))
          == "/" + Join(Encoded(segments)) + "/" + EncodeSegment(last);
    }
  }

  lemma JoinOne(part: string)
    ensures Join([part]) == part
  {
  }

  lemma {:induction false} JoinMore(parts: seq<string>, last: string)
    requires parts != []
    ensures Join(parts + [last]) == Join(parts) + "/" + last
    decreases |parts|
  {
    if |parts| == 1 {
      assert (parts + [last])[1..] == [last];
    } else {
      assert (parts + [last])[1..] == parts[1..] + [last];
      JoinMore(parts[1..], last);
      assert parts[0] + "/" + (Join(parts[1..]) + "/" + last) == parts[0] + "/" + Join(parts[1..]) + "/" + last;
    }
  }

  /** Reading on from the front, `~0` is a tilde and `~1` a slash; any other character, another tilde included,
      stands for itself. */
  function Unescaped(s: string): string {
    if s == "" then ""
    else if s[0] == '~' && |s| > 1 && s[1] == '0' then ['~'] + Unescaped(s[2..])
    else if s[0] == '~' && |s| > 1 && s[1] == '1' then ['/'] + Unescaped(s[2..])
    else [s[0]] + Unescaped(s[1..])
  }

  /** The two replacements one after the other decode each escape once, on any text. */
  lemma {:induction false} DecodeIsUnescaping(s: string)
    ensures DecodeSegment(s) == Unescaped(s)
    decreases |s|
  {
    if |s| < 2 {
      assert s != "" ==> Unescaped(s[1..]) == "";
    } else {
      var rest := s[1..];
      DecodeIsUnescaping(rest);
      DecodeIsUnescaping(s[2..]);
      if s[0] == '~' && s[1] == '1' {
        SkipChar('/', ReplacePair(s[2..], '~', '1', '/'), '~', '0', '~');
      } else if s[0] == '~' && s[1] == '0' {
        assert rest == ['0'] + s[2..];
        SkipChar('0', s[2..], '~', '1', '/');
        var t := ReplacePair(s[2..], '~', '1', '/');
        assert (['~', '0'] + t)[2..] == t;
        assert ['~'] + (['0'] + t) == ['~', '0'] + t;
      } else {
        LeadingChar(s[0], ReplacePair(rest, '~', '1', '/'), rest);
      }
    }
  }

  lemma LeadingChar(c: char, t: string, rest: string)
    requires t == ReplacePair(rest, '~', '1', '/') && rest != ""
    requires c == '~' ==> rest[0] != '0' && rest[0] != '1'
    ensures ReplacePair([c] + t, '~', '0', '~') == [c] + ReplacePair(t, '~', '0', '~')
  {
    assert ([c] + t)[1..] == t;
    assert t != "" ==> t[0] == '/' || t[0] == rest[0];
  }

  /** A path is refused exactly when it is neither empty nor starts with a slash; its parts lie between slashes. */
  lemma DecodeMeans(path: string)
    ensures DecodePointer(path).None? <==> path != "" && path[0] != '/'
    ensures DecodePointer("") == Some([])
    ensures path != "" && path[0] == '/' ==>
              var parts := Split(path[1..]);
              && path == "/" + Join(parts) && (forall i :: 0 <= i < |parts| ==> NoSlash(parts[i]))
              && |DecodePointer(path).value| == |parts|
              && forall i :: 0 <= i < |parts| ==> DecodePointer(path).value[i] == Unescaped(parts[i])
  {
    hide Split, Join, Unescaped, DecodeSegment, NoSlash;
    if path != "" && path[0] == '/' {
      var parts := Split(path[1..]);
      JoinSplit(path[1..]);
      assert path == "/" + path[1..];
      forall i | 0 <= i < |parts| ensures Decoded(parts)[i] == Unescaped(parts[i]) {
        DecodeIsUnescaping(parts[i]);
      }
    }
  }
}

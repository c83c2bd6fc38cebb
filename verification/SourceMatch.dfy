/** `packages/compiler/src/source-match.ts`, `packages/editor/src/url.ts` and `exactUrlFromSource` of
    `packages/editor/src/editor.ts`: reading one string out of an anchored literal pattern, and
    writing the pattern for one URL.

    The browser's URL parser is a parameter; `Lawful` names the facts about it that are used. */
module SourceMatch {
  import opened Options

  const MAX_URL_REGEX_LENGTH: nat := 2048

  datatype Source = Source(key: string, operator: string, value: string)

  datatype Url = Url(href: string, protocol: string, origin: string, username: string, password: string, hash: string)

  datatype UrlEngine = UrlEngine(
    parse: string -> Option<Url>,
    space: char -> bool,
    control: char -> bool)

  // ----- character sets

  /** `.*+?^${}()|[]\`, what `urlToExactRegex` escapes. */
  predicate IsMeta(c: char) {
    IsRawMeta(c) || c == '(' || c == ')' || c == '\\'
  }

  /** `.*+?|[]{}^$`, what `decodeLiteralRegexBody` refuses unescaped. */
  predicate IsRawMeta(c: char) {
    || c == '.' || c == '*' || c == '+' || c == '?' || c == '|' || c == '[' || c == ']'
    || c == '{' || c == '}' || c == '^' || c == '$'
  }

  /** `\.^$*+?()[]{}|/`, what `decodeLiteralRegexBody` takes after a backslash. */
  predicate IsLiteralEscape(c: char) {
    IsMeta(c) || c == '/'
  }

  // ----- literal bodies

  function Prepend(s: string, r: Option<string>): Option<string> {
    if r.Some? then Some(s + r.value) else None
  }

  lemma PrependTwice(s: string, c: char, r: Option<string>)
    ensures Prepend(s, Prepend([c], r)) == Prepend(s + [c], r)
    ensures Prepend("", r) == r
  {
    if r.Some? {
      assert s + ([c] + r.value) == s + [c] + r.value;
      assert "" + r.value == r.value;
    }
  }

  /** What the loop of `decodeLiteralRegexBody` adds from position `i` on, `depth` groups being open. */
  function Decode(body: string, i: nat, depth: nat): Option<string>
    decreases |body| - i
  {
    if i >= |body| then (if depth == 0 then Some("") else None)
    else if body[i] == '\\' then
      if i + 1 < |body| && IsLiteralEscape(body[i + 1]) then Prepend([body[i + 1]], Decode(body, i + 2, depth))
      else None
    else if body[i] == '(' then
      if i + 1 < |body| && body[i + 1] == '?' then
        if i + 2 < |body| && body[i + 2] == ':' then Decode(body, i + 3, depth + 1) else None
      else Decode(body, i + 1, depth + 1)
    else if body[i] == ')' then (if depth == 0 then None else Decode(body, i + 1, depth - 1))
    else if IsRawMeta(body[i]) then None
    else Prepend([body[i]], Decode(body, i + 1, depth))
  }

  function Nonempty(r: Option<string>): Option<string> {
    if r == Some("") then None else r
  }

  method DecodeLiteralRegexBody(body: string) returns (r: Option<string>)
    ensures r == Nonempty(Decode(body, 0, 0))
  {
    var out := "";
    var depth: nat := 0;
    var index := 0;
    PrependTwice("", 'x', Decode(body, 0, 0));
    while index < |body|
      invariant Decode(body, 0, 0) == Prepend(out, Decode(body, index, depth))
    {
      var c := body[index];
      if c == '\\' {
        if index + 1 >= |body| || !IsLiteralEscape(body[index + 1]) {
          return None;
        }
        PrependTwice(out, body[index + 1], Decode(body, index + 2, depth));
        out := out + [body[index + 1]];
        index := index + 2;
        continue;
      }
      if c == '(' {
        if index + 1 < |body| && body[index + 1] == '?' {
          if index + 2 >= |body| || body[index + 2] != ':' {
            return None;
          }
          depth := depth + 1;
          index := index + 3;
          continue;
        }
        depth := depth + 1;
        index := index + 1;
        continue;
      }
      if c == ')' {
        if depth == 0 {
          return None;
        }
        depth := depth - 1;
        index := index + 1;
        continue;
      }
      if IsRawMeta(c) {
        return None;
      }
      PrependTwice(out, c, Decode(body, index + 1, depth));
      out := out + [c];
      index := index + 1;
    }
    assert out + "" == out;
    if depth != 0 || |out| == 0 {
      return None;
    }
    return Some(out);
  }

  // ----- alternation outside every group

  predicate TopBar(p: string, i: nat, depth: nat, inClass: bool)
    decreases |p| - i
  {
    if i >= |p| then false
    else if p[i] == '\\' then TopBar(p, i + 2, depth, inClass)
    else if inClass then TopBar(p, i + 1, depth, p[i] != ']')
    else if p[i] == '[' then TopBar(p, i + 1, depth, true)
    else if p[i] == '(' then TopBar(p, i + 1, depth + 1, false)
    else if p[i] == ')' then TopBar(p, i + 1, if depth > 0 then depth - 1 else 0, false)
    else (p[i] == '|' && depth == 0) || TopBar(p, i + 1, depth, false)
  }

  method HasTopLevelAlternation(pattern: string) returns (found: bool)
    ensures found == TopBar(pattern, 0, 0, false)
  {
    var depth: nat := 0;
    var inClass := false;
    var index := 0;
    while index < |pattern|
      invariant TopBar(pattern, 0, 0, false) == TopBar(pattern, index, depth, inClass)
    {
      var c := pattern[index];
      if c == '\\' {
        index := index + 2;
        continue;
      }
      if inClass {
        if c == ']' {
          inClass := false;
        }
      } else if c == '[' {
        inClass := true;
      } else if c == '(' {
        depth := depth + 1;
      } else if c == ')' {
        if depth > 0 {
          depth := depth - 1;
        }
      } else if c == '|' && depth == 0 {
        return true;
      }
      index := index + 1;
    }
    return false;
  }

  // ----- URLs

  predicate IsHttp(u: Url) {
    (u.protocol == "http:" || u.protocol == "https:") && u.username == "" && u.password == ""
  }

  function ExactHttpUrl(e: UrlEngine, value: string): Option<string> {
    var url := e.parse(value);
    if url.Some? && IsHttp(url.value) && url.value.href == value then Some(value) else None
  }

  predicate Anchored(value: string) {
    |value| >= 2 && value[0] == '^' && value[|value| - 1] == '$'
  }

  function LiteralUrl(e: UrlEngine, source: Source): Option<string> {
    if source.key != "url" || source.operator != "regex" || !Anchored(source.value) then None
    else
      var decoded := Nonempty(Decode(source.value[1..|source.value| - 1], 0, 0));
      if decoded.None? then None else ExactHttpUrl(e, decoded.value)
  }

  function EscapeText(s: string): string {
    if s == "" then "" else (if IsMeta(s[0]) then ['\\', s[0]] else [s[0]]) + EscapeText(s[1..])
  }

  predicate Trimmed(e: UrlEngine, s: string) {
    s != "" ==> !e.space(s[0]) && !e.space(s[|s| - 1])
  }

  predicate HasControl(e: UrlEngine, s: string) {
    exists k :: 0 <= k < |s| && e.control(s[k])
  }

  datatype Conversion = Ok(source: string) | InvalidUrl | UrlTooLong

  function UrlToExactRegex(e: UrlEngine, value: string): Conversion {
    if value == "" || !Trimmed(e, value) || HasControl(e, value) then InvalidUrl
    else
      var url := e.parse(value);
      if url.None? then InvalidUrl
      else if !IsHttp(url.value) || url.value.origin == "null" || url.value.hash != "" then InvalidUrl
      else
        var source := "^" + EscapeText(url.value.href) + "$";
        if |source| > MAX_URL_REGEX_LENGTH then UrlTooLong else Ok(source)
  }

  /** What the loop of `exactUrlFromSource` adds from position `i` on. */
  function DecodeExact(v: string, i: nat): Option<string>
    decreases |v| - i
  {
    if i + 1 >= |v| then Some("")
    else if v[i] == '\\' then
      if i + 2 >= |v| then None else Prepend([v[i + 1]], DecodeExact(v, i + 2))
    else if IsMeta(v[i]) then None
    else Prepend([v[i]], DecodeExact(v, i + 1))
  }

  method ExactUrlFromSource(e: UrlEngine, source: Source) returns (r: Option<string>)
    ensures r == ExactUrl(e, source)
  {
    if source.key != "url" || source.operator != "regex" {
      return None;
    }
    var value := source.value;
    if !Anchored(value) {
      return None;
    }
    var decoded := "";
    var index := 1;
    PrependTwice("", 'x', DecodeExact(value, 1));
    while index < |value| - 1
      invariant 1 <= index
      invariant DecodeExact(value, 1) == Prepend(decoded, DecodeExact(value, index))
    {
      var c := value[index];
      if c == '\\' {
        index := index + 1;
        if index >= |value| - 1 {
          return None;
        }
        PrependTwice(decoded, value[index], DecodeExact(value, index + 1));
        decoded := decoded + [value[index]];
        index := index + 1;
        continue;
      }
      if IsMeta(c) {
        return None;
      }
      PrependTwice(decoded, c, DecodeExact(value, index + 1));
      decoded := decoded + [c];
      index := index + 1;
    }
    assert decoded + "" == decoded;
    var converted := UrlToExactRegex(e, decoded);
    if converted != Ok(value) {
      return None;
    }
    return Some(decoded);
  }

  function ExactUrl(e: UrlEngine, source: Source): Option<string> {
    if source.key != "url" || source.operator != "regex" || !Anchored(source.value) then None
    else
      var decoded := DecodeExact(source.value, 1);
      if decoded.Some? && UrlToExactRegex(e, decoded.value) == Ok(source.value) then decoded else None
  }

  /** Serializing a parsed URL gives text that needs no trimming and parses to the same URL. */
  ghost predicate Lawful(e: UrlEngine) {
    forall v: string :: e.parse(v).Some? ==>
      var u := e.parse(v).value;
      e.parse(u.href) == Some(u) && u.href != "" && Trimmed(e, u.href) && !HasControl(e, u.href)
  }
}

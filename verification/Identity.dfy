/** `packages/schema/src/identity.ts:63-122`: the searches behind ids and names. Both try a stem with growing
    decimal suffixes, cut to a maximal length; neither has a bound of its own on the suffix. */
module Identity {
  import opened Decimal
  import opened Listing
  import opened ProjectModel

  const MAX_LABEL_LENGTH: nat := 100

  /** Far more than a project can hold; below it suffixes stay short. */
  const MANY: nat := 9_000_000

  /** The suffix of the k-th attempt; the first is bare. */
  function Suffix(separator: string, k: nat): string { if k == 1 then "" else separator + Text(k) }

  function Room(maxLength: nat, suffix: string): nat {
    if |suffix| + 1 <= maxLength then maxLength - |suffix| else 1
  }

  function Cut(stem: string, room: nat): string { if |stem| <= room then stem else stem[..room] }

  function Candidate(stem: string, separator: string, maxLength: nat, k: nat): string {
    Cut(stem, Room(maxLength, Suffix(separator, k))) + Suffix(separator, k)
  }

  // ----- enough candidates

  function Pow10(m: nat): (p: nat)
    ensures p > m
  {
    if m == 0 then 1 else 10 * Pow10(m - 1)
  }

  lemma {:induction false} TextLength(m: nat, k: nat)
    requires Pow10(m) <= k < Pow10(m + 1)
    ensures |Text(k)| == m + 1
  {
    if m > 0 {
      TextLength(m - 1, k / 10);
    }
  }

  lemma {:induction false} TextShort(m: nat, k: nat)
    requires k < Pow10(m + 1)
    ensures |Text(k)| <= m + 1
  {
    if k >= 10 {
      TextShort(m - 1, k / 10);
    }
  }

  lemma TextDiffers(a: nat, b: nat)
    requires a != b
    ensures Text(a) != Text(b)
  {
    TextIsCanonical(a);
    TextIsCanonical(b);
  }

  /** Attempts whose suffixes have the same length are told apart. */
  ghost predicate TellsApart(key: nat -> string) {
    forall a, b :: a > 1 && b > 1 && a != b && |Text(a)| == |Text(b)| ==> key(a) != key(b)
  }

  lemma {:induction false} AttemptsCounted(key: nat -> string, m: nat, count: nat, reserved: set<string>)
    requires TellsApart(key) && m > 0 && count <= 9 * Pow10(m)
    requires forall k :: Pow10(m) <= k < Pow10(m) + count ==> key(k) in reserved
    ensures |reserved| >= count
  {
    hide Text;
    if count > 0 {
      var last := Pow10(m) + count - 1;
      TextLength(m, last);
      forall k | Pow10(m) <= k < last ensures key(k) in reserved - {key(last)} {
        TextLength(m, k);
      }
      AttemptsCounted(key, m, count - 1, reserved - {key(last)});
    }
  }

  lemma MillionIsPower()
    ensures Pow10(6) == 1_000_000 && Pow10(7) == 10_000_000
  {
    assert Pow10(1) == 10 && Pow10(2) == 100 && Pow10(3) == 1000;
    assert Pow10(4) == 10_000 && Pow10(5) == 100_000;
  }

  /** Some attempt is free, whatever is reserved. */
  lemma SomeAttemptIsFree(key: nat -> string, reserved: set<string>) returns (k: nat)
    requires TellsApart(key)
    ensures k >= 1 && key(k) !in reserved
    ensures |reserved| < MANY ==> k < 10_000_000
  {
    MillionIsPower();
    var m := if |reserved| < MANY then 6 else |reserved| + 1;
    if forall j :: Pow10(m) <= j < 10 * Pow10(m) ==> key(j) in reserved {
      AttemptsCounted(key, m, 9 * Pow10(m), reserved);
    }
    k :| Pow10(m) <= k < 10 * Pow10(m) && key(k) !in reserved;
  }

  lemma CandidatesApart(stem: string, separator: string, maxLength: nat, a: nat, b: nat)
    requires a > 1 && b > 1 && a != b && |Text(a)| == |Text(b)|
    ensures Candidate(stem, separator, maxLength, a) != Candidate(stem, separator, maxLength, b)
  {
    hide Text;
    TextDiffers(a, b);
    var p := Cut(stem, Room(maxLength, Suffix(separator, a))) + separator;
    assert Candidate(stem, separator, maxLength, a) == p + Text(a);
    assert Candidate(stem, separator, maxLength, b) == p + Text(b);
    assert (p + Text(a))[|p|..] == Text(a) && (p + Text(b))[|p|..] == Text(b);
  }

  lemma CandidateLength(stem: string, separator: string, maxLength: nat, k: nat)
    requires k < 10_000_000 && |separator| <= 1 && maxLength >= 9
    ensures |Candidate(stem, separator, maxLength, k)| <= maxLength
  {
    MillionIsPower();
    TextShort(6, k);
  }

  // ----- ids

  predicate IsLowAlnum(c: char) { 'a' <= c <= 'z' || '0' <= c <= '9' }

  function UpperFirst(c: char): char { if 'a' <= c <= 'z' then c - 'a' + 'A' else c }

  /** The lower-cased text without its separators, each run of letters and digits capitalised. */
  function Pascal(text: string, atStart: bool): string {
    if text == "" then ""
    else if IsLowAlnum(text[0]) then [if atStart then UpperFirst(text[0]) else text[0]] + Pascal(text[1..], false)
    else Pascal(text[1..], true)
  }

  /** Splitting at every run of separators; the first and last tokens may be empty. */
  function Tokens(text: string): (tokens: seq<string>)
    ensures tokens != []
  {
    if text == "" then [""]
    else if IsLowAlnum(text[0]) then
      var rest := Tokens(text[1..]);
      [[text[0]] + rest[0]] + rest[1..]
    else [""] + Tokens(text[RunEnd(text)..])
  }

  function RunEnd(text: string): (n: nat)
    ensures n <= |text| && (text != "" && !IsLowAlnum(text[0]) ==> n > 0)
  {
    if text == "" || IsLowAlnum(text[0]) then 0 else 1 + RunEnd(text[1..])
  }

  function CapitalisedTokens(tokens: seq<string>): string {
    if tokens == [] then ""
    else
      var last := tokens[|tokens| - 1];
      CapitalisedTokens(tokens[..|tokens| - 1]) + if last == "" then "" else [UpperFirst(last[0])] + last[1..]
  }

  /** `pascalCase` on the lower-cased name. */
  method PascalCase(lowered: string) returns (result: string)
    ensures result == Pascal(lowered, true)
  {
    var tokens := Tokens(lowered);
    result := "";
    for i := 0 to |tokens|
      invariant result == CapitalisedTokens(tokens[..i])
    {
      assert tokens[..i + 1][..i] == tokens[..i];
      if tokens[i] != "" {
        result := result + [UpperFirst(tokens[i][0])] + tokens[i][1..];
      }
    }
    assert tokens[..|tokens|] == tokens;
    TokensArePascal(lowered);
  }

  lemma {:induction false} TokensArePascal(text: string)
    ensures CapitalisedTokens(Tokens(text)) == Pascal(text, true)
    ensures text != "" && IsLowAlnum(text[0]) ==>
              Tokens(text)[0] != "" && Tokens(text)[0] + CapitalisedTokens(Tokens(text)[1..]) == Pascal(text, false)
    ensures text == "" || !IsLowAlnum(text[0]) ==>
              Tokens(text)[0] == "" && CapitalisedTokens(Tokens(text)[1..]) == Pascal(text, true) == Pascal(text, false)
    decreases |text|
  {
    hide CapitalisedTokens, RunEnd;
    var tokens := Tokens(text);
    FirstCapitalised(tokens);
    NoTokens();
    if text == "" {
      assert tokens[1..] == [];
    } else if IsLowAlnum(text[0]) {
      var rest := Tokens(text[1..]);
      TokensArePascal(text[1..]);
      assert tokens[1..] == rest[1..];
      assert tokens[0] == [text[0]] + rest[0] && tokens[0][1..] == rest[0];
    } else {
      RunSkipped(text, RunEnd(text));
      TokensArePascal(text[RunEnd(text)..]);
      assert tokens[1..] == Tokens(text[RunEnd(text)..]);
    }
  }

  lemma NoTokens()
    ensures CapitalisedTokens([]) == ""
  {
  }

  lemma {:induction false} FirstCapitalised(tokens: seq<string>)
    requires tokens != []
    ensures CapitalisedTokens(tokens)
         == (if tokens[0] == "" then "" else [UpperFirst(tokens[0][0])] + tokens[0][1..]) + CapitalisedTokens(tokens[1..])
    decreases |tokens|
  {
    if |tokens| > 1 {
      FirstCapitalised(tokens[..|tokens| - 1]);
      assert tokens[..|tokens| - 1][1..] == tokens[1..][..|tokens| - 2];
    } else {
      assert tokens[..0] == [] && tokens[1..] == [];
    }
  }

  lemma {:induction false} RunSkipped(text: string, n: nat)
    requires n == RunEnd(text)
    ensures n > 0 ==> Pascal(text, true) == Pascal(text, false) == Pascal(text[n..], true)
    decreases |text|
  {
    if n > 0 {
      RunSkipped(text[1..], n - 1);
      assert text[1..][n - 1..] == text[n..];
    }
  }

  lemma {:induction false} PascalChars(text: string, atStart: bool)
    ensures forall i :: 0 <= i < |Pascal(text, atStart)| ==> IsIdStart(Pascal(text, atStart)[i])
    decreases |text|
  {
    if text != "" {
      PascalChars(text[1..], if IsLowAlnum(text[0]) then false else true);
    }
  }

  /** The stem of an id: the name in Pascal case, or the kind when the name has no letter or digit. */
  function Stem(lowered: string, kind: EntityKind): string {
    if Pascal(lowered, true) != "" then Pascal(lowered, true)
    else if kind.GroupEntity? then "Group" else "Rule"
  }

  ghost predicate FirstFreeId(stem: string, reserved: set<string>, k: nat) {
    && k >= 1 && Candidate(stem, "", MAX_ID_LENGTH, k) !in reserved
    && forall j: nat :: 1 <= j < k ==> Candidate(stem, "", MAX_ID_LENGTH, j) in reserved
  }

  /** `deriveEntityId`: the search ends on every finite set of reserved ids, at the first free attempt on the
      name's stem, and reserves it; the id is one the project schema accepts. */
  method DeriveEntityId(lower: string -> string, name: string, kind: EntityKind, reserved: set<string>)
    returns (id: string, after: set<string>)
    ensures id !in reserved && after == reserved + {id}
    ensures exists k: nat :: FirstFreeId(Stem(lower(name), kind), reserved, k)
                             && id == Candidate(Stem(lower(name), kind), "", MAX_ID_LENGTH, k)
    ensures |reserved| < MANY ==> IsRogatioId(id)
  {
    hide Candidate, Pascal, IsRogatioId, FirstFreeId;
    var derived := PascalCase(lower(name));
    var stem := if derived != "" then derived else if kind.GroupEntity? then "Group" else "Rule";
    id, after := Allocate(stem, reserved);
    StemChars(lower(name), kind);
  }

  lemma StemChars(lowered: string, kind: EntityKind)
    ensures GoodStem(Stem(lowered, kind))
  {
    PascalChars(lowered, true);
  }

  predicate GoodStem(stem: string) { stem != "" && forall i :: 0 <= i < |stem| ==> IsIdStart(stem[i]) }

  lemma CandidateIsId(stem: string, k: nat)
    requires GoodStem(stem) && k < 10_000_000
    ensures IsRogatioId(Candidate(stem, "", MAX_ID_LENGTH, k))
  {
    hide Text;
    CandidateLength(stem, "", MAX_ID_LENGTH, k);
    assert AllDigits(Suffix("", k));
  }

  /** `allocate`. */
  method Allocate(stem: string, reserved: set<string>) returns (id: string, after: set<string>)
    ensures id !in reserved && after == reserved + {id}
    ensures exists k: nat :: FirstFreeId(stem, reserved, k) && id == Candidate(stem, "", MAX_ID_LENGTH, k)
    ensures |reserved| < MANY && GoodStem(stem) ==> IsRogatioId(id)
  {
    hide Text, Candidate, IsRogatioId, GoodStem;
    ghost var key := (k: nat) => Candidate(stem, "", MAX_ID_LENGTH, k);
    forall a: nat, b: nat | a > 1 && b > 1 && a != b && |Text(a)| == |Text(b)| ensures key(a) != key(b) {
      CandidatesApart(stem, "", MAX_ID_LENGTH, a, b);
    }
    ghost var bound := SomeAttemptIsFree(key, reserved);
    var suffix := 1;
    id := Candidate(stem, "", MAX_ID_LENGTH, suffix);
    while id in reserved
      invariant 1 <= suffix <= bound && id == Candidate(stem, "", MAX_ID_LENGTH, suffix)
      invariant forall j: nat :: 1 <= j < suffix ==> Candidate(stem, "", MAX_ID_LENGTH, j) in reserved
      decreases bound - suffix
    {
      assert key(bound) !in reserved && key(suffix) in reserved;
      suffix := suffix + 1;
      id := Candidate(stem, "", MAX_ID_LENGTH, suffix);
    }
    assert FirstFreeId(stem, reserved, suffix);
    if |reserved| < MANY && GoodStem(stem) {
      CandidateIsId(stem, suffix);
    }
    after := reserved + {id};
  }

  // ----- names

  /** A normalizer that keeps a number at the end of a name apart from another of the same length. */
  ghost predicate KeepsNumbers(norm: string -> string) {
    forall p: string, s: string, t: string {:trigger norm(p + " " + s), norm(p + " " + t)} ::
      AllDigits(s) && AllDigits(t) && |s| == |t| && s != t ==> norm(p + " " + s) != norm(p + " " + t)
  }

  lemma KeysApart(norm: string -> string, base: string, a: nat, b: nat)
    requires KeepsNumbers(norm) && a > 1 && b > 1 && a != b && |Text(a)| == |Text(b)|
    ensures norm(Candidate(base, " ", MAX_LABEL_LENGTH, a)) != norm(Candidate(base, " ", MAX_LABEL_LENGTH, b))
  {
    hide Text, KeepsNumbers, Cut;
    TextDiffers(a, b);
    var p := Cut(base, Room(MAX_LABEL_LENGTH, Suffix(" ", a)));
    assert Candidate(base, " ", MAX_LABEL_LENGTH, a) == p + " " + Text(a);
    assert Candidate(base, " ", MAX_LABEL_LENGTH, b) == p + " " + Text(b);
    NumbersApart(norm, p, Text(a), Text(b));
  }

  lemma NumbersApart(norm: string -> string, p: string, s: string, t: string)
    requires KeepsNumbers(norm) && AllDigits(s) && AllDigits(t) && |s| == |t| && s != t
    ensures norm(p + " " + s) != norm(p + " " + t)
  {
  }

  ghost predicate FirstFreeName(norm: string -> string, base: string, reserved: set<string>, k: nat) {
    && k >= 1 && norm(Candidate(base, " ", MAX_LABEL_LENGTH, k)) !in reserved
    && forall j: nat :: 1 <= j < k ==> norm(Candidate(base, " ", MAX_LABEL_LENGTH, j)) in reserved
  }

  /** `uniqueName`: the name is the first attempt whose normalized form is free, and that form is reserved. */
  method UniqueName(norm: string -> string, base: string, reserved: set<string>) returns (name: string, after: set<string>)
    requires KeepsNumbers(norm)
    ensures norm(name) !in reserved && after == reserved + {norm(name)}
    ensures |reserved| < MANY ==> |name| <= MAX_LABEL_LENGTH
    ensures exists k: nat :: FirstFreeName(norm, base, reserved, k) && name == Candidate(base, " ", MAX_LABEL_LENGTH, k)
  {
    hide Text, Candidate, KeepsNumbers;
    ghost var key := (k: nat) => norm(Candidate(base, " ", MAX_LABEL_LENGTH, k));
    forall a: nat, b: nat | a > 1 && b > 1 && a != b && |Text(a)| == |Text(b)| ensures key(a) != key(b) {
      KeysApart(norm, base, a, b);
    }
    ghost var bound := SomeAttemptIsFree(key, reserved);
    var suffix := 1;
    name := Candidate(base, " ", MAX_LABEL_LENGTH, suffix);
    while norm(name) in reserved
      invariant 1 <= suffix <= bound && name == Candidate(base, " ", MAX_LABEL_LENGTH, suffix)
      invariant forall j: nat :: 1 <= j < suffix ==> norm(Candidate(base, " ", MAX_LABEL_LENGTH, j)) in reserved
      decreases bound - suffix
    {
      assert key(bound) !in reserved && key(suffix) in reserved;
      suffix := suffix + 1;
      name := Candidate(base, " ", MAX_LABEL_LENGTH, suffix);
    }
    assert FirstFreeName(norm, base, reserved, suffix);
    if |reserved| < MANY {
      CandidateLength(base, " ", MAX_LABEL_LENGTH, suffix);
    }
    after := reserved + {norm(name)};
  }

  // ----- the text of ids and names

  predicate Kept(c: char) { 'a' <= c <= 'z' || '0' <= c <= '9' }

  function KeptAt(text: string): nat -> bool { (i: nat) => i < |text| && Kept(text[i]) }

  /** The letters and digits of the text in order, each upper-cased where a word starts. */
  ghost predicate IsPascal(text: string, result: string) {
    exists at: seq<nat> :: Lists(|text|, KeptAt(text), at) && PascalAt(text, true, at, result)
  }

  predicate PascalAt(text: string, atStart: bool, at: seq<nat>, result: string) {
    |result| == |at| && forall k :: 0 <= k < |at| ==> at[k] < |text| && result[k] == CharAt(text, atStart, at[k])
  }

  function CharAt(text: string, atStart: bool, i: nat): char
    requires i < |text|
  {
    var startsWord := if i == 0 then atStart else !Kept(text[i - 1]);
    if startsWord && 'a' <= text[i] <= 'z' then text[i] - 'a' + 'A' else text[i]
  }

  lemma {:induction false} PascalFrom(text: string, atStart: bool) returns (at: seq<nat>)
    ensures Lists(|text|, KeptAt(text), at) && PascalAt(text, atStart, at, Pascal(text, atStart))
    decreases |text|
  {
    hide Lists;
    if text == "" {
      at := [];
      NothingKept();
    } else {
      var rest := text[1..];
      var later := PascalFrom(rest, !Kept(text[0]));
      ListsFromFront(|rest|, KeptAt(text), KeptAt(rest), later);
      at := (if Kept(text[0]) then [0] else []) + Later(later);
      PascalShift(text, atStart, later);
    }
  }

  lemma NothingKept()
    ensures Lists(0, KeptAt(""), [])
  {
  }

  lemma PascalShift(text: string, atStart: bool, later: seq<nat>)
    requires text != "" && PascalAt(text[1..], !Kept(text[0]), later, Pascal(text[1..], !Kept(text[0])))
    ensures PascalAt(text, atStart, (if Kept(text[0]) then [0] else []) + Later(later), Pascal(text, atStart))
  {
    var tail := Pascal(text[1..], !Kept(text[0]));
    forall k | 0 <= k < |later| ensures Later(later)[k] < |text| && tail[k] == CharAt(text, atStart, Later(later)[k]) {
      assert tail[k] == CharAt(text[1..], !Kept(text[0]), later[k]);
    }
    PascalJoin(text, atStart, Later(later), tail);
    PascalHead(text, atStart);
  }

  lemma PascalHead(text: string, atStart: bool)
    requires text != ""
    ensures Pascal(text, atStart) == (if Kept(text[0]) then [CharAt(text, atStart, 0)] else []) + Pascal(text[1..], !Kept(text[0]))
  {
  }

  lemma PascalJoin(text: string, atStart: bool, moved: seq<nat>, tail: string)
    requires text != "" && |moved| == |tail|
    requires forall k :: 0 <= k < |moved| ==> moved[k] < |text| && tail[k] == CharAt(text, atStart, moved[k])
    ensures PascalAt(text, atStart, (if Kept(text[0]) then [0] else []) + moved,
                     (if Kept(text[0]) then [CharAt(text, atStart, 0)] else []) + tail)
  {
    hide CharAt;
  }

  lemma PascalMeans(text: string)
    ensures IsPascal(text, Pascal(text, true))
  {
    var at := PascalFrom(text, true);
  }

  /** The first attempt is the stem, later ones end in their number; the stem is cut to make room, but keeps a
      character. */
  lemma CandidateMeans(stem: string, separator: string, maxLength: nat, k: nat)
    requires k >= 1
    ensures var suffix := if k == 1 then "" else separator + Text(k);
            var room := if maxLength - |suffix| < 1 then 1 else maxLength - |suffix|;
            Candidate(stem, separator, maxLength, k) == (if |stem| <= room then stem else stem[..room]) + suffix
  {
    hide Text;
  }

  /** A name without letters and digits is called after what it names. */
  lemma StemMeans(lowered: string, kind: EntityKind)
    ensures (exists i :: 0 <= i < |lowered| && Kept(lowered[i])) ==> IsPascal(lowered, Stem(lowered, kind))
    ensures !(exists i :: 0 <= i < |lowered| && Kept(lowered[i])) ==>
              Stem(lowered, kind) == if kind == GroupEntity then "Group" else "Rule"
  {
    hide Lists;
    PascalMeans(lowered);
    var at := PascalFrom(lowered, true);
    SomethingListed(|lowered|, KeptAt(lowered), at);
    if i: nat :| i < |lowered| && Kept(lowered[i]) {
      assert KeptAt(lowered)(i);
    }
  }

  lemma SomethingListed(n: nat, due: nat -> bool, at: seq<nat>)
    requires Lists(n, due, at)
    ensures at != [] <==> exists i: nat :: i < n && due(i)
  {
    if at != [] {
      assert due(at[0]);
    }
  }
}

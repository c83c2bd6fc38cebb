/** `packages/compiler/src/pac-safety.ts`: refusing patterns that may take unbounded time.

    The index loops of the source are methods, each proved against a function of the reading
    position. `ScannerDecides` and `ScannerDecidesStructure` then say what the whole scan decides about the pattern
    tree whose printed form it reads. */
module PacSafety {
  import opened RegexSyntax

  const SCAN_LIMIT: nat := 4096

  datatype Kind = NoQuantifier | Bounded | Unlimited

  // ----- what each loop computes, by reading position

  /** Position after the character class whose content starts at `i`. */
  function ClassEnd(p: string, i: nat): (end: nat)
    ensures end <= |p|
    ensures i <= |p| ==> i <= end
    decreases |p| - i
  {
    if i >= |p| then |p|
    else if p[i] == '\\' then ClassEnd(p, i + 2)
    else if p[i] == ']' then i + 1
    else ClassEnd(p, i + 1)
  }

  /** Position of the `)` that closes `depth` open groups, or the end of the text. */
  function GroupEnd(p: string, i: nat, depth: int): (end: nat)
    ensures i <= |p| ==> i <= end
    decreases |p| - i
  {
    if i >= |p| then |p|
    else if p[i] == '\\' then GroupEnd(p, i + 2, depth)
    else if p[i] == '[' then GroupEnd(p, ClassEnd(p, i + 1), depth)
    else if p[i] == '(' then GroupEnd(p, i + 1, depth + 1)
    else if p[i] == ')' then (if depth == 1 then i else GroupEnd(p, i + 1, depth - 1))
    else GroupEnd(p, i + 1, depth)
  }

  /** `pattern.indexOf("}", i)`, or the end of the text. */
  function CloseBrace(p: string, i: nat): (close: nat)
    requires i <= |p|
    ensures i <= close <= |p|
    ensures close < |p| ==> p[close] == '}'
    ensures forall k :: i <= k < close ==> p[k] != '}'
    decreases |p| - i
  {
    if i == |p| || p[i] == '}' then i else CloseBrace(p, i + 1)
  }

  /** `/^\d+$/` or `/^\d+,\d+$/`. */
  predicate IsBoundedCount(quant: string) {
    || IsDigits(quant)
    || exists k :: 0 <= k < |quant| && quant[k] == ',' && IsDigits(quant[..k]) && IsDigits(quant[k + 1..])
  }

  /** `text` is what follows in `p` from position `i` on. */
  predicate Continues(p: string, i: nat, text: string) {
    i + |text| <= |p| && p[i..i + |text|] == text
  }

  function KindAt(p: string, i: nat): Kind {
    if i >= |p| then NoQuantifier
    else if p[i] == '*' || p[i] == '+' then Unlimited
    else if p[i] == '?' then Bounded
    else if p[i] != '{' then NoQuantifier
    else
      var close := CloseBrace(p, i);
      if close == |p| then Unlimited
      else if IsBoundedCount(p[i + 1..close]) then Bounded else Unlimited
  }

  function QuantifierEnd(p: string, i: nat): (end: nat)
    ensures i <= |p| ==> i <= end <= |p|
    ensures i < |p| && (p[i] == '*' || p[i] == '+' || p[i] == '?' || p[i] == '{') ==> i < end
  {
    if i >= |p| then i
    else if p[i] == '*' || p[i] == '+' || p[i] == '?' then i + 1
    else if p[i] != '{' then i
    else
      var close := CloseBrace(p, i);
      if close == |p| then |p| else close + 1
  }

  predicate HasBar(p: string, i: nat)
    decreases |p| - i
  {
    if i >= |p| then false
    else if p[i] == '\\' then HasBar(p, i + 2)
    else if p[i] == '[' then HasBar(p, ClassEnd(p, i + 1))
    else p[i] == '|' || HasBar(p, i + 1)
  }

  predicate HasUnlimited(p: string, i: nat)
    decreases |p| - i
  {
    if i >= |p| then false
    else if p[i] == '\\' then HasUnlimited(p, i + 2)
    else if p[i] == '[' then HasUnlimited(p, ClassEnd(p, i + 1))
    else if p[i] == '(' then HasUnlimited(p, GroupEnd(p, i, 0) + 1)
    else if p[i] == '*' || p[i] == '+' then true
    else if p[i] == '{' then KindAt(p, i) == Unlimited || HasUnlimited(p, QuantifierEnd(p, i))
    else HasUnlimited(p, i + 1)
  }

  /** The two refusals for a group with this body and quantifier. */
  predicate BodyAllowed(body: string, kind: Kind) {
    && (kind != NoQuantifier ==> !HasBar(body, 0))
    && (kind == Unlimited ==> !HasUnlimited(body, 0))
  }

  predicate Scan(p: string, i: nat)
    decreases |p|, |p| - i
  {
    if i >= |p| then true
    else if p[i] == '\\' then Scan(p, i + 2)
    else if p[i] == '[' then Scan(p, ClassEnd(p, i + 1))
    else if p[i] == '(' then
      var end := GroupEnd(p, i, 0);
      && !(i + 1 < |p| && p[i + 1] == '?')
      && i < end < |p| && p[end] == ')'
      && Scan(p[i + 1..end], 0)
      && BodyAllowed(p[i + 1..end], KindAt(p, end + 1))
      && Scan(p, QuantifierEnd(p, end + 1))
    else Scan(p, i + 1)
  }

  /** A count has no closing brace of its own. */
  lemma NoBraceInside(count: string)
    requires IsBoundedCount(count)
    ensures '}' !in count
  {
    hide IsDigits;
    if IsDigits(count) {
      OnlyDigits(count);
    } else {
      var k :| 0 <= k < |count| && count[k] == ',' && IsDigits(count[..k]) && IsDigits(count[k + 1..]);
      OnlyDigits(count[..k]);
      OnlyDigits(count[k + 1..]);
      assert count == count[..k] + [','] + count[k + 1..];
    }
  }

  lemma OnlyDigits(s: string)
    requires IsDigits(s)
    ensures '}' !in s
  {
  }

  /** A closed count behind a `{` ends at the first closing brace. */
  lemma CountEnds(p: string, i: nat, count: string)
    requires i < |p| && p[i] == '{' && IsBoundedCount(count) && Continues(p, i + 1, count + "}")
    ensures CloseBrace(p, i) == i + 1 + |count| < |p| && p[i + 1..i + 1 + |count|] == count
  {
    hide CloseBrace, IsBoundedCount;
    NoBraceInside(count);
    var text, close := count + "}", i + 1 + |count|;
    var span := p[i + 1..i + 1 + |text|];
    assert p[i + 1..close] == span[..|count|] == count;
    assert p[close] == span[|count|] == '}';
    forall k | i <= k < close ensures p[k] != '}' {
      if k > i {
        assert p[k] == span[k - i - 1] == count[k - i - 1];
      }
    }
  }

  lemma NoCountEnds(p: string, i: nat)
    requires i < |p| && p[i] == '{' && CloseBrace(p, i) == |p|
    ensures !exists count :: IsBoundedCount(count) && Continues(p, i + 1, count + "}")
  {
    hide CloseBrace, IsBoundedCount, Continues;
    if count :| IsBoundedCount(count) && Continues(p, i + 1, count + "}") {
      CountEnds(p, i, count);
    }
  }

  lemma CountsAreFirst(p: string, i: nat, close: nat)
    requires i < |p| && p[i] == '{' && CloseBrace(p, i) == close < |p|
    ensures (exists count :: IsBoundedCount(count) && Continues(p, i + 1, count + "}")) <==>
            IsBoundedCount(p[i + 1..close])
  {
    hide CloseBrace, IsBoundedCount;
    if count :| IsBoundedCount(count) && Continues(p, i + 1, count + "}") {
      CountEnds(p, i, count);
    }
    if IsBoundedCount(p[i + 1..close]) {
      var count := p[i + 1..close];
      assert p[i + 1..i + 1 + |count + "}"|] == count + "}";
    }
  }

  lemma NothingToSkip(p: string, i: nat)
    requires KindAt(p, i) == NoQuantifier
    ensures QuantifierEnd(p, i) == i
  {
  }

  // ----- the loops of the source

  method SkipCharacterClass(pattern: string, start: nat) returns (end: nat)
    requires start <= |pattern|
    ensures end == ClassEnd(pattern, start)
  {
    var index := start;
    if index < |pattern| && pattern[index] == '^' {
      index := index + 1;
    }
    while index < |pattern|
      invariant ClassEnd(pattern, start) == ClassEnd(pattern, index)
    {
      if pattern[index] == '\\' {
        index := index + 2;
        continue;
      }
      if pattern[index] == ']' {
        return index + 1;
      }
      index := index + 1;
    }
    return |pattern|;
  }

  method SkipGroup(pattern: string, openIndex: nat) returns (end: nat)
    requires openIndex <= |pattern|
    ensures end == GroupEnd(pattern, openIndex, 0)
  {
    var depth := 0;
    var index := openIndex;
    while index < |pattern|
      invariant GroupEnd(pattern, openIndex, 0) == GroupEnd(pattern, index, depth)
    {
      var c := pattern[index];
      if c == '\\' {
        index := index + 2;
        continue;
      }
      if c == '[' {
        index := SkipCharacterClass(pattern, index + 1);
        continue;
      }
      if c == '(' {
        depth := depth + 1;
        index := index + 1;
        continue;
      }
      if c == ')' {
        depth := depth - 1;
        if depth == 0 {
          return index;
        }
        index := index + 1;
        continue;
      }
      index := index + 1;
    }
    return |pattern|;
  }

  method QuantifierAt(pattern: string, index: nat) returns (kind: Kind)
    ensures kind == KindAt(pattern, index)
    ensures kind == NoQuantifier <==> index >= |pattern| || pattern[index] !in "*+?{"
    ensures index < |pattern| && pattern[index] in "*+" ==> kind == Unlimited
    ensures index < |pattern| && pattern[index] == '?' ==> kind == Bounded
    ensures index < |pattern| && pattern[index] == '{' ==>
              (kind == Bounded <==> exists count :: IsBoundedCount(count) && Continues(pattern, index + 1, count + "}"))
  {
    if index >= |pattern| {
      return NoQuantifier;
    }
    var c := pattern[index];
    if c == '*' || c == '+' {
      return Unlimited;
    }
    if c == '?' {
      return Bounded;
    }
    if c != '{' {
      return NoQuantifier;
    }
    var close := CloseBrace(pattern, index);
    if close == |pattern| {
      NoCountEnds(pattern, index);
      return Unlimited;
    }
    var quant := pattern[index + 1..close];
    CountsAreFirst(pattern, index, close);
    return if IsBoundedCount(quant) then Bounded else Unlimited;
  }

  method SkipQuantifier(pattern: string, index: nat) returns (end: nat)
    ensures end == QuantifierEnd(pattern, index)
    ensures index >= |pattern| || pattern[index] !in "*+?{" ==> end == index
    ensures index < |pattern| && pattern[index] in "*+?" ==> end == index + 1
    ensures index < |pattern| && pattern[index] == '{' && '}' !in pattern[index..] ==> end == |pattern|
    ensures index < |pattern| && pattern[index] == '{' && '}' in pattern[index..] ==>
              index < end <= |pattern| && pattern[end - 1] == '}' && '}' !in pattern[index..end - 1]
  {
    if index >= |pattern| {
      return index;
    }
    var c := pattern[index];
    if c == '*' || c == '+' || c == '?' {
      return index + 1;
    }
    if c != '{' {
      return index;
    }
    var close := CloseBrace(pattern, index);
    return if close == |pattern| then |pattern| else close + 1;
  }

  method ContainsAlternation(groupBody: string) returns (found: bool)
    ensures found == HasBar(groupBody, 0)
  {
    var index := 0;
    while index < |groupBody|
      invariant HasBar(groupBody, 0) == HasBar(groupBody, index)
    {
      if groupBody[index] == '\\' {
        index := index + 2;
        continue;
      }
      if groupBody[index] == '[' {
        index := SkipCharacterClass(groupBody, index + 1);
        continue;
      }
      if groupBody[index] == '|' {
        return true;
      }
      index := index + 1;
    }
    return false;
  }

  method ContainsUnboundedQuantifier(groupBody: string) returns (found: bool)
    ensures found == HasUnlimited(groupBody, 0)
  {
    var index := 0;
    while index < |groupBody|
      invariant HasUnlimited(groupBody, 0) == HasUnlimited(groupBody, index)
    {
      var c := groupBody[index];
      if c == '\\' {
        index := index + 2;
        continue;
      }
      if c == '[' {
        index := SkipCharacterClass(groupBody, index + 1);
        continue;
      }
      if c == '(' {
        var end := SkipGroup(groupBody, index);
        index := end + 1;
        continue;
      }
      if c == '*' || c == '+' {
        return true;
      }
      if c == '{' {
        var kind := QuantifierAt(groupBody, index);
        if kind == Unlimited {
          return true;
        }
        index := SkipQuantifier(groupBody, index);
        continue;
      }
      index := index + 1;
    }
    return false;
  }

  method ScanPacSafety(pattern: string) returns (safe: bool)
    ensures safe <==> |pattern| <= SCAN_LIMIT && Scan(pattern, 0)
    decreases |pattern|
  {
    hide HasBar, HasUnlimited, ClassEnd, GroupEnd, KindAt, QuantifierEnd, IsBoundedCount, Continues;
    if |pattern| > SCAN_LIMIT {
      return false;
    }
    var index := 0;
    while index < |pattern|
      invariant Scan(pattern, 0) == Scan(pattern, index)
    {
      var c := pattern[index];
      if c == '\\' {
        index := index + 2;
        continue;
      }
      if c == '[' {
        index := SkipCharacterClass(pattern, index + 1);
        continue;
      }
      if c == '(' {
        var groupStart := index;
        if index + 1 < |pattern| && pattern[index + 1] == '?' {
          return false;
        }
        var groupEnd := SkipGroup(pattern, groupStart);
        if groupEnd >= |pattern| || pattern[groupEnd] != ')' {
          return false;
        }
        var groupBody := pattern[groupStart + 1..groupEnd];
        var inner := ScanPacSafety(groupBody);
        if !inner {
          return false;
        }
        var quantifier := QuantifierAt(pattern, groupEnd + 1);
        if quantifier != NoQuantifier {
          var alternation := ContainsAlternation(groupBody);
          if alternation {
            return false;
          }
        }
        if quantifier == Unlimited {
          var unbounded := ContainsUnboundedQuantifier(groupBody);
          if unbounded {
            return false;
          }
        }
        if quantifier == NoQuantifier {
          NothingToSkip(pattern, groupEnd + 1);
          index := groupEnd + 1;
        } else {
          index := SkipQuantifier(pattern, groupEnd + 1);
        }
        continue;
      }
      index := index + 1;
    }
    return true;
  }
}

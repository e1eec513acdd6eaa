/** User-friendly Nimiq addresses: the mod-97 checksum of ISO/IEC 7064:2003 over 36 symbols, in Go and in TypeScript. */
module NimiqAddress {
  import opened Text
  import opened Base32

  // ----- The checksum -----

  predicate Alnum(s: string) { forall i :: 0 <= i < |s| ==> IsDigit(s[i]) || IsUpper(s[i]) }

  /** The number a symbol stands for: a digit itself, and A to Z as 10 to 35. */
  function SymbolNumber(c: char): nat
    requires IsDigit(c) || IsUpper(c)
  {
    if IsDigit(c) then DigitValue(c) else c as int - 'A' as int + 10
  }

  /** The digit string in which every letter is written as its two-digit number. */
  function Expand(s: string): (d: string)
    requires Alnum(s)
    ensures AllDigits(d)
  {
    if s == "" then "" else Expand(s[..|s| - 1]) + Dec(SymbolNumber(s[|s| - 1]))
  }

  /** What ibanMod97 returns: the expanded number mod 97, or -1 for a foreign character. */
  function IbanRemainder(s: string): int {
    if Alnum(s) then Num(Expand(s)) % 97 else -1
  }

  function Step(r: nat, c: char): (next: nat)
    requires IsDigit(c) || IsUpper(c)
    ensures next < 97
  {
    if IsDigit(c) then (r * 10 + SymbolNumber(c)) % 97 else (r * 100 + SymbolNumber(c)) % 97
  }

  /** The remainder after the symbols of s, starting from remainder r. */
  function Fold(r: nat, s: string): nat
    requires Alnum(s)
    decreases s
  {
    if s == "" then r else Fold(Step(r, s[0]), s[1..])
  }

  method IbanMod97(value: string) returns (remainder: int)
    ensures remainder == IbanRemainder(value)
  {
    remainder := 0;
    for i := 0 to |value|
      invariant Alnum(value[..i])
      invariant 0 <= remainder < 97
      invariant Alnum(value) ==> Fold(remainder, value[i..]) == Fold(0, value)
    {
      var c := value[i];
      assert value[i..][1..] == value[i + 1..];
      if IsDigit(c) {
        remainder := (remainder * 10 + (c as int - '0' as int)) % 97;
      } else if IsUpper(c) {
        var n := c as int - 'A' as int + 10;
        remainder := (remainder * 100 + n) % 97;
      } else {
        return -1;
      }
    }
    assert value[..|value|] == value && value[|value|..] == "";
    FoldIsRemainder(value);
  }

  lemma ModShift(n: nat, k: nat, d: nat)
    requires k == 10 || k == 100
    ensures ((n % 97) * k + d) % 97 == (k * n + d) % 97
  {
    assert n == 97 * (n / 97) + n % 97;
  }

  /** Appending a symbol's digits to a numeral is one step on its remainder. */
  lemma StepAppends(p: string, c: char)
    requires AllDigits(p) && (IsDigit(c) || IsUpper(c))
    ensures AllDigits(p + Dec(SymbolNumber(c)))
    ensures Step(Num(p) % 97, c) == Num(p + Dec(SymbolNumber(c))) % 97
  {
    var n := SymbolNumber(c);
    NumConcat(p, Dec(n));
    ModShift(Num(p), if IsDigit(c) then 10 else 100, n);
    assert Pow10(1) == 10 && Pow10(2) == 100;
    if n >= 10 { assert |Dec(n)| == 2; }
  }

  lemma {:induction false} FoldConcat(r: nat, a: string, b: string)
    requires Alnum(a) && Alnum(b)
    ensures Alnum(a + b) && Fold(r, a + b) == Fold(Fold(r, a), b)
    decreases a
  {
    if a == "" {
      assert a + b == b;
    } else {
      assert (a + b)[1..] == a[1..] + b;
      FoldConcat(Step(r, a[0]), a[1..], b);
    }
  }

  lemma {:induction false} FoldIsRemainder(s: string)
    requires Alnum(s)
    ensures Fold(0, s) == IbanRemainder(s)
    decreases s
  {
    if s == "" {
      assert Num("") == 0;
    } else {
      var front, c := s[..|s| - 1], s[|s| - 1];
      assert s == front + [c];
      FoldIsRemainder(front);
      FoldConcat(0, front, [c]);
      assert Fold(Fold(0, front), [c]) == Step(Fold(0, front), c) by { assert [c][1..] == ""; }
      StepAppends(Expand(front), c);
    }
  }

  /** 10 is invertible mod 97: 68 * 10 == 7 * 97 + 1. */
  lemma Cancel10(q: nat, r: nat, n: nat)
    requires q < 97 && r < 97 && (q * 10 + n) % 97 == (r * 10 + n) % 97
    ensures q == r
  {
    var m := (q * 10 + n) / 97 - (r * 10 + n) / 97;
    assert q - r == 97 * (68 * m - 7 * (q - r));
  }

  /** 100 is invertible mod 97: 65 * 100 == 67 * 97 + 1. */
  lemma Cancel100(q: nat, r: nat, n: nat)
    requires q < 97 && r < 97 && (q * 100 + n) % 97 == (r * 100 + n) % 97
    ensures q == r
  {
    var m := (q * 100 + n) / 97 - (r * 100 + n) / 97;
    assert q - r == 97 * (65 * m - 67 * (q - r));
  }

  lemma StepInjective(q: nat, r: nat, c: char)
    requires (IsDigit(c) || IsUpper(c)) && q < 97 && r < 97
    ensures Step(q, c) == Step(r, c) <==> q == r
  {
    if Step(q, c) == Step(r, c) {
      if IsDigit(c) { Cancel10(q, r, SymbolNumber(c)); } else { Cancel100(q, r, SymbolNumber(c)); }
    }
  }

  /** Every suffix keeps different remainders different. */
  lemma {:induction false} FoldInjective(q: nat, r: nat, s: string)
    requires Alnum(s) && q < 97 && r < 97
    ensures Fold(q, s) == Fold(r, s) <==> q == r
    decreases s
  {
    if s != "" {
      StepInjective(q, r, s[0]);
      FoldInjective(Step(q, s[0]), Step(r, s[0]), s[1..]);
    }
  }

  // ----- Compacting and formatting -----

  predicate IsBlank(c: char) { c == ' ' }

  /** In Go: white space is trimmed at both ends, blanks are removed inside, letters become upper case. */
  function GoCompact(value: string): string { ToUpper(Without(TrimSpace(value), IsBlank)) }

  /** In TypeScript: all white space is removed, inside and at the ends, and letters become upper case. */
  function TsCompact(address: string): string { ToUpper(Without(address, IsSpace)) }

  function Chunks(s: string): seq<string> {
    if s == "" then [] else if |s| <= 4 then [s] else [s[..4]] + Chunks(s[4..])
  }

  function Join(parts: seq<string>): string {
    if parts == [] then "" else if |parts| == 1 then parts[0] else parts[0] + " " + Join(parts[1..])
  }

  /** The canonical display form: groups of four symbols separated by single blanks. */
  function Format(compact: string): string { Join(Chunks(compact)) }

  lemma ChunkAt(s: string, i: nat, end: nat)
    requires i < end <= |s| && (end == i + 4 || (end == |s| < i + 4))
    ensures Chunks(s[i..]) == [s[i..end]] + Chunks(s[end..])
  {
    var rest := s[i..];
    if |rest| > 4 {
      assert rest[..4] == s[i..end] && rest[4..] == s[end..];
    } else {
      assert rest == s[i..end] && s[end..] == "";
    }
  }

  /** The Go formatter slices whole groups only, so it needs a multiple of four. */
  method FormatUserFriendlyAddress(compact: string) returns (text: string)
    requires |compact| % 4 == 0
    ensures text == Format(compact)
  {
    var parts: seq<string> := [];
    var i := 0;
    while i < |compact|
      invariant i % 4 == 0 && i <= |compact|
      invariant parts + Chunks(compact[i..]) == Chunks(compact)
    {
      assert i + 4 <= |compact|;
      ChunkAt(compact, i, i + 4);
      Associates(parts, [compact[i..i + 4]], Chunks(compact[i + 4..]));
      parts := parts + [compact[i..i + 4]];
      i := i + 4;
    }
    assert parts == Chunks(compact);
    text := Join(parts);
  }

  /** The TypeScript formatter compacts first and accepts any length. */
  method FormatNimiqAddress(compact: string) returns (text: string)
    ensures text == Format(TsCompact(compact))
  {
    var normalized := TsCompact(compact);
    var parts: seq<string> := [];
    var index := 0;
    while index < |normalized|
      invariant 0 <= index
      invariant parts + Chunks(if index <= |normalized| then normalized[index..] else "") == Chunks(normalized)
    {
      var end := if index + 4 <= |normalized| then index + 4 else |normalized|;
      ChunkAt(normalized, index, end);
      parts := parts + [normalized[index..end]];
      index := index + 4;
    }
    assert parts == Chunks(normalized);
    text := Join(parts);
  }

  // ----- Normalising -----

  predicate Payload(s: string) { |s| == 32 && forall i :: 0 <= i < 32 ==> InAlphabet(s[i]) }

  predicate Shaped(compact: string) { |compact| == 36 && compact[..2] == "NQ" }

  /** The rotation that the checksum is taken over: payload first, then prefix and check positions. */
  function Rotated(compact: string): string
    requires |compact| == 36
  {
    compact[4..] + compact[..4]
  }

  /** The compact strings that both normalisers accept. */
  predicate Accepts(compact: string) {
    Shaped(compact) && Payload(compact[4..]) && IbanRemainder(Rotated(compact)) == 1
  }

  /** What an accepted address looks like: NQ, two symbols, 32 symbols of the alphabet, and one left when the number written
      by the last 32 and the first four symbols is divided by 97. */
  lemma AcceptedIff(compact: string)
    ensures Accepts(compact) <==>
              && |compact| == 36 && compact[0] == 'N' && compact[1] == 'Q' && Alnum(compact[2..4])
              && (forall i :: 4 <= i < 36 ==> compact[i] in "0123456789ABCDEFGHJKLMNPQRSTUVXY")
              && Alnum(compact[4..] + compact[..4]) && Num(Expand(compact[4..] + compact[..4])) % 97 == 1
  {
    if |compact| == 36 {
      forall i | 4 <= i < 36
        ensures InAlphabet(compact[i]) <==> compact[i] in "0123456789ABCDEFGHJKLMNPQRSTUVXY"
      {
        AlphabetHas(compact[i]);
      }
      assert forall i :: 4 <= i < 36 ==> compact[4..][i - 4] == compact[i];
      assert compact[..2] == [compact[0], compact[1]];
      var rotated := Rotated(compact);
      assert rotated[34] == compact[2] && rotated[35] == compact[3];
    }
  }

  lemma AlphabetHas(c: char)
    ensures InAlphabet(c) <==> c in "0123456789ABCDEFGHJKLMNPQRSTUVXY"
  {
  }

  datatype Verdict = Accepted(address: string) | BadShape | BadAlphabet | BadChecksum

  method NormalizeUserFriendlyAddress(value: string) returns (verdict: Verdict)
    ensures var compact := GoCompact(value);
            && (verdict.Accepted? <==> Accepts(compact))
            && (verdict.Accepted? ==> verdict.address == Format(compact))
            && (verdict.BadShape? <==> !Shaped(compact))
            && (verdict.BadAlphabet? <==> Shaped(compact) && !Payload(compact[4..]))
  {
    var compact := GoCompact(value);
    if |compact| != 36 || compact[..2] != "NQ" {
      return BadShape;
    }
    for i := 4 to 36
      invariant forall j :: 4 <= j < i ==> InAlphabet(compact[j])
    {
      if !InAlphabet(compact[i]) {
        assert !Payload(compact[4..]) by { assert compact[4..][i - 4] == compact[i]; }
        return BadAlphabet;
      }
    }
    var remainder := IbanMod97(compact[4..] + compact[..4]);
    if remainder != 1 {
      return BadChecksum;
    }
    var text := FormatUserFriendlyAddress(compact);
    return Accepted(text);
  }

  method NormalizeNimiqAddress(value: string) returns (address: Option<string>)
    ensures address == TsNormalized(value)
  {
    var compact := TsCompact(TrimSpace(value));
    if |compact| != 36 || compact[..2] != "NQ" {
      return None;
    }
    for i := 4 to 36
      invariant forall j :: 4 <= j < i ==> InAlphabet(compact[j])
    {
      if !InAlphabet(compact[i]) {
        assert !Payload(compact[4..]) by { assert compact[4..][i - 4] == compact[i]; }
        return None;
      }
    }
    var remainder := IbanMod97(compact[4..] + compact[..4]);
    if remainder != 1 {
      return None;
    }
    var text := FormatNimiqAddress(compact);
    AcceptedIsCompact(compact);
    return Some(text);
  }

  function GoNormalized(value: string): Option<string> {
    if Accepts(GoCompact(value)) then Some(Format(GoCompact(value))) else None
  }

  function TsNormalized(value: string): Option<string> {
    var compact := TsCompact(TrimSpace(value));
    if Accepts(compact) then Some(Format(compact)) else None
  }

  // ----- Accepted strings are compact already, and compacting undoes formatting -----

  lemma AcceptedIsAlnum(compact: string)
    requires Accepts(compact)
    ensures Alnum(compact)
    ensures forall c :: c in compact ==> !IsSpace(c) && !IsBlank(c)
  {
    var rotated := Rotated(compact);
    assert Alnum(rotated);
    forall i | 0 <= i < 36
      ensures IsDigit(compact[i]) || IsUpper(compact[i])
    {
      assert compact[i] == rotated[if i < 4 then 32 + i else i - 4];
    }
  }

  lemma UpperFixed(s: string)
    requires Alnum(s)
    ensures ToUpper(s) == s
  {
  }

  lemma AcceptedIsCompact(compact: string)
    requires Accepts(compact)
    ensures GoCompact(compact) == compact && TsCompact(compact) == compact
  {
    AcceptedIsAlnum(compact);
    UpperFixed(compact);
    TrimmedIsFixed(compact);
    WithoutNothing(compact, IsBlank);
    WithoutNothing(compact, IsSpace);
  }

  lemma FormatSplits(s: string)
    requires |s| > 4
    ensures Format(s) == s[..4] + " " + Format(s[4..])
  {
    assert Chunks(s)[1..] == Chunks(s[4..]);
  }

  lemma WithoutGroup(head: string, rest: string, drop: char -> bool)
    requires drop(' ') && forall c :: c in head ==> !drop(c)
    ensures Without(head + " " + rest, drop) == head + Without(rest, drop)
  {
    WithoutConcat(head + " ", rest, drop);
    WithoutConcat(head, " ", drop);
    WithoutNothing(head, drop);
    assert Without(" ", drop) == "";
    assert head + "" == head;
  }

  lemma {:induction false} FormatKeepsSymbols(s: string, drop: char -> bool)
    requires drop(' ') && forall c :: c in s ==> !drop(c)
    ensures Without(Format(s), drop) == s
  {
    if |s| <= 4 {
      assert Format(s) == s;
      WithoutNothing(s, drop);
    } else {
      assert s == s[..4] + s[4..];
      FormatKeepsSymbols(s[4..], drop);
      FormatSplits(s);
      WithoutGroup(s[..4], Format(s[4..]), drop);
    }
  }

  /** The text has the symbols of s in their order and a blank after every fourth one but the last. */
  predicate Grouped(text: string, s: string) {
    && |text| == |s| + (|s| - 1) / 4
    && forall i :: 0 <= i < |text| ==> text[i] == if i % 5 == 4 then ' ' else s[i - i / 5]
  }

  lemma GroupBefore(text: string, s: string)
    requires |s| > 4 && Grouped(text, s[4..])
    ensures Grouped(s[..4] + " " + text, s)
  {
    var longer := s[..4] + " " + text;
    forall i | 5 <= i < |longer|
      ensures longer[i] == if i % 5 == 4 then ' ' else s[i - i / 5]
    {
      assert longer[i] == text[i - 5];
      assert (i - 5) / 5 == i / 5 - 1 && (i - 5) % 5 == i % 5;
    }
  }

  lemma {:induction false} FormatPlaces(s: string)
    requires s != ""
    ensures Grouped(Format(s), s)
  {
    if |s| <= 4 {
      assert Format(s) == s;
    } else {
      FormatPlaces(s[4..]);
      FormatSplits(s);
      GroupBefore(Format(s[4..]), s);
    }
  }

  lemma {:induction false} WithoutCase(a: string, b: string, drop: char -> bool)
    requires SameUpToCase(a, b) && forall c, d :: Lower(c) == Lower(d) ==> drop(c) == drop(d)
    ensures SameUpToCase(Without(a, drop), Without(b, drop))
  {
    if a != "" {
      assert Lower(a[0]) == Lower(b[0]);
      WithoutCase(a[1..], b[1..], drop);
    }
  }

  lemma UpperCase(a: string, b: string)
    requires SameUpToCase(a, b)
    ensures ToUpper(a) == ToUpper(b)
  {
    forall i | 0 <= i < |a|
      ensures Upper(a[i]) == Upper(b[i])
    {
      assert Lower(a[i]) == Lower(b[i]);
    }
  }

  /** Addresses that differ in letter case only are accepted alike, in either language, and get the same form. */
  lemma CaseIgnored(a: string, b: string)
    requires SameUpToCase(a, b)
    ensures GoNormalized(a) == GoNormalized(b) && TsNormalized(a) == TsNormalized(b)
  {
    TrimCase(a, b);
    var s, t := TrimSpace(a), TrimSpace(b);
    WithoutCase(s, t, IsBlank);
    WithoutCase(s, t, IsSpace);
    UpperCase(Without(s, IsBlank), Without(t, IsBlank));
    UpperCase(Without(s, IsSpace), Without(t, IsSpace));
  }

  lemma {:induction false} FormatEnds(s: string)
    requires s != ""
    ensures Format(s) != "" && Format(s)[0] == s[0] && Format(s)[|Format(s)| - 1] == s[|s| - 1]
  {
    if |s| <= 4 {
      assert Format(s) == s;
    } else {
      FormatEnds(s[4..]);
      FormatSplits(s);
    }
  }

  /** Compacting a formatted accepted address gives it back, in both languages. */
  lemma {:induction false} CompactUndoesFormat(compact: string)
    requires Accepts(compact)
    ensures GoCompact(Format(compact)) == compact
    ensures TsCompact(TrimSpace(Format(compact))) == compact
    ensures TsCompact(Format(compact)) == compact
  {
    AcceptedIsAlnum(compact);
    UpperFixed(compact);
    FormatKeepsSymbols(compact, IsBlank);
    FormatKeepsSymbols(compact, IsSpace);
    FormatEnds(compact);
    TrimmedIsFixed(Format(compact));
  }

  /** Normalising a normalised address changes nothing. */
  lemma {:induction false} NormalizeIdempotent(value: string)
    ensures GoNormalized(value).Some? ==> GoNormalized(GoNormalized(value).value) == GoNormalized(value)
    ensures TsNormalized(value).Some? ==> TsNormalized(TsNormalized(value).value) == TsNormalized(value)
  {
    if GoNormalized(value).Some? { CompactUndoesFormat(GoCompact(value)); }
    if TsNormalized(value).Some? { CompactUndoesFormat(TsCompact(TrimSpace(value))); }
  }
}

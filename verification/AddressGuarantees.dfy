/** What the address checksum catches, how addresses are derived, and where the Go and TypeScript normalisers differ. */
module AddressGuarantees {
  import opened Text
  import opened Base32
  import opened NimiqAddress

  // ----- Error detection -----

  lemma PayloadIsAlnum(s: string)
    requires forall i :: 0 <= i < |s| ==> InAlphabet(s[i])
    ensures Alnum(s)
  {
  }

  /** Two shaped addresses with valid payloads that agree except in a middle section `x` / `y` of the payload are
      accepted alike exactly when the two sections lead to the same remainder. */
  lemma MiddleDecides(a: string, x: string, y: string, b: string, tail: string)
    requires Alnum(a) && Alnum(x) && Alnum(y) && Alnum(b) && Alnum(tail) && x != "" && y != ""
    ensures Alnum(a + x + b + tail) && Alnum(a + y + b + tail)
    ensures Fold(0, a + x + b + tail) == Fold(0, a + y + b + tail)
            <==> Fold(Fold(0, a), x) == Fold(Fold(0, a), y)
  {
    FoldMiddle(a, x, b, tail);
    FoldMiddle(a, y, b, tail);
    FoldRange(Fold(0, a), x);
    FoldRange(Fold(0, a), y);
    FoldConcat(0, b, tail);
    FoldInjective(Fold(Fold(0, a), x), Fold(Fold(0, a), y), b + tail);
  }

  lemma FoldMiddle(a: string, x: string, b: string, tail: string)
    requires Alnum(a) && Alnum(x) && Alnum(b) && Alnum(tail)
    ensures Alnum(a + x + b + tail) && Alnum(b + tail)
    ensures Fold(0, a + x + b + tail) == Fold(Fold(Fold(0, a), x), b + tail)
  {
    assert a + x + b + tail == (a + x) + (b + tail);
    FoldConcat(0, a, x);
    FoldConcat(0, a + x, b + tail);
  }

  lemma {:induction false} FoldRange(r: nat, s: string)
    requires Alnum(s) && (s != "" || r < 97)
    ensures Fold(r, s) < 97
    decreases s
  {
    if s != "" { FoldRange(Step(r, s[0]), s[1..]); }
  }

  /** compact with the payload symbols from position i on overwritten by y. */
  function Splice(compact: string, i: nat, y: string): string
    requires |compact| == 36 && i + |y| <= 32
  {
    compact[..4 + i] + y + compact[4 + i + |y|..]
  }

  lemma SpliceShape(compact: string, i: nat, y: string)
    requires Shaped(compact) && Payload(compact[4..]) && i + |y| <= 32
    requires forall k :: 0 <= k < |y| ==> InAlphabet(y[k])
    ensures Shaped(Splice(compact, i, y)) && Payload(Splice(compact, i, y)[4..])
    ensures Rotated(Splice(compact, i, y)) == compact[4..4 + i] + y + compact[4 + i + |y|..] + compact[..4]
  {
    var changed := Splice(compact, i, y);
    assert changed[..4] == compact[..4] && changed[..2] == changed[..4][..2] && compact[..2] == compact[..4][..2];
    assert changed[4..] == compact[4..4 + i] + y + compact[4 + i + |y|..];
    forall k | 0 <= k < 32 ensures InAlphabet(changed[4..][k]) {
      assert compact[4..][k] == compact[4 + k];
    }
  }

  /** For an accepted address, overwriting payload symbols x at position i by y gives an accepted address exactly when x
      and y lead to the same remainder from that of the payload before them. */
  lemma {:induction false} SpliceDecides(compact: string, i: nat, x: string, y: string)
    requires Accepts(compact) && x != "" && |x| == |y| && i + |x| <= 32
    requires compact[4 + i..4 + i + |x|] == x
    requires forall k :: 0 <= k < |y| ==> InAlphabet(y[k])
    ensures Alnum(compact[4..4 + i]) && Alnum(x) && Alnum(y)
    ensures var r := Fold(0, compact[4..4 + i]);
            Accepts(Splice(compact, i, y)) <==> Fold(r, x) == Fold(r, y)
  {
    var a, b, tail := compact[4..4 + i], compact[4 + i + |x|..], compact[..4];
    AcceptedIsAlnum(compact);
    PayloadIsAlnum(y);
    SpliceShape(compact, i, y);
    assert compact[4..] == a + x + b;
    MiddleDecides(a, x, y, b, tail);
    FoldIsRemainder(a + x + b + tail);
    FoldIsRemainder(a + y + b + tail);
  }

  /** Whether symbols a and b lead to the same remainder from r: never within a class; for a letter and a digit, exactly
      when 90 times r cancels the difference of their numbers. */
  predicate Confusable(r: nat, a: char, b: char)
    requires (IsDigit(a) || IsUpper(a)) && (IsDigit(b) || IsUpper(b))
  {
    if IsDigit(a) == IsDigit(b) then a == b
    else if IsDigit(b) then (90 * r + SymbolNumber(a) - SymbolNumber(b)) % 97 == 0
    else (90 * r + SymbolNumber(b) - SymbolNumber(a)) % 97 == 0
  }

  /** Replacing one payload symbol of an accepted address, at any position: the result is accepted exactly when the two
      symbols are confusable there, so a digit for a digit or a letter for a letter is always caught. */
  lemma SubstitutionCaught(compact: string, i: nat, c: char)
    requires Accepts(compact) && i < 32 && InAlphabet(c)
    ensures Alnum(compact[4..4 + i]) && InAlphabet(compact[4 + i])
    ensures Accepts(compact[4 + i := c]) <==> Confusable(Fold(0, compact[4..4 + i]), compact[4 + i], c)
  {
    var was := compact[4 + i];
    assert compact[4..][i] == was;
    assert compact[4 + i..4 + i + 1] == [was];
    SpliceDecides(compact, i, [was], [c]);
    assert compact[4 + i := c] == Splice(compact, i, [c]);
    var r := Fold(0, compact[4..4 + i]);
    FoldOne(r, was);
    FoldOne(r, c);
    FoldBelow97(compact, i);
    StepsMeet(r, was, c);
  }

  lemma FoldOne(r: nat, c: char)
    requires IsDigit(c) || IsUpper(c)
    ensures Fold(r, [c]) == Step(r, c)
  {
    assert [c][1..] == "";
  }

  lemma FoldBelow97(compact: string, i: nat)
    requires Accepts(compact) && i <= 32 && Alnum(compact[4..4 + i])
    ensures Fold(0, compact[4..4 + i]) < 97
  {
    FoldRange(0, compact[4..4 + i]);
  }

  lemma StepsMeet(r: nat, a: char, b: char)
    requires r < 97 && (IsDigit(a) || IsUpper(a)) && (IsDigit(b) || IsUpper(b))
    ensures Step(r, a) == Step(r, b) <==> Confusable(r, a, b)
  {
    var m, n := SymbolNumber(a), SymbolNumber(b);
    if a == b {
    } else if IsDigit(a) == IsDigit(b) {
      CongruentApart(if IsDigit(a) then r * 10 else r * 100, m, n);
    } else if IsDigit(b) {
      CongruentIff(r * 100 + m, r * 10 + n);
    } else {
      CongruentIff(r * 100 + n, r * 10 + m);
    }
  }

  lemma CongruentApart(k: nat, m: nat, n: nat)
    requires m != n && -97 < m - n < 97
    ensures (k + m) % 97 != (k + n) % 97
  {
  }

  lemma CongruentIff(m: nat, n: nat)
    ensures m % 97 == n % 97 <==> (m - n) % 97 == 0
  {
  }

  predicate Pair(a: char, b: char, digit: char, letter: char) {
    (a == digit && b == letter) || (a == letter && b == digit)
  }

  /** Swapping two adjacent different payload symbols is caught except for the three pairs 1B, 2M and 3X: exactly the
      digit and letter with letter number 11 times the digit. */
  lemma TranspositionCaught(compact: string, i: nat)
    requires Accepts(compact) && i + 1 < 32 && compact[4 + i] != compact[5 + i]
    ensures var a, b := compact[4 + i], compact[5 + i];
            Accepts(compact[4 + i := b][5 + i := a]) <==>
              Pair(a, b, '1', 'B') || Pair(a, b, '2', 'M') || Pair(a, b, '3', 'X')
  {
    var a, b := compact[4 + i], compact[5 + i];
    assert compact[4..][i] == a && compact[4..][i + 1] == b;
    assert compact[4 + i..4 + i + 2] == [a, b];
    SpliceDecides(compact, i, [a, b], [b, a]);
    assert compact[4 + i := b][5 + i := a] == Splice(compact, i, [b, a]);
    var r := Fold(0, compact[4..4 + i]);
    FoldTwo(r, a, b);
    FoldTwo(r, b, a);
    FoldBelow97(compact, i);
    SwapsMeet(r, a, b);
  }

  lemma FoldTwo(r: nat, a: char, b: char)
    requires (IsDigit(a) || IsUpper(a)) && (IsDigit(b) || IsUpper(b))
    ensures Fold(r, [a, b]) == Step(Step(r, a), b)
  {
    assert [a] + [b] == [a, b];
    FoldConcat(r, [a], [b]);
    FoldOne(r, a);
    FoldOne(Step(r, a), b);
  }

  lemma SwapsMeet(r: nat, a: char, b: char)
    requires r < 97 && a != b && InAlphabet(a) && InAlphabet(b)
    ensures Step(Step(r, a), b) == Step(Step(r, b), a) <==>
              Pair(a, b, '1', 'B') || Pair(a, b, '2', 'M') || Pair(a, b, '3', 'X')
  {
    if IsDigit(a) == IsDigit(b) {
      AlikeSwap(r, a, b);
    } else if IsDigit(a) {
      MixedSwap(r, a, b);
    } else {
      MixedSwap(r, b, a);
    }
  }

  lemma AlikeSwap(r: nat, a: char, b: char)
    requires r < 97 && a != b && InAlphabet(a) && InAlphabet(b) && IsDigit(a) == IsDigit(b)
    ensures Step(Step(r, a), b) != Step(Step(r, b), a)
  {
    TwoSteps(r, a, b);
    TwoSteps(r, b, a);
    var m, n := SymbolNumber(a), SymbolNumber(b);
    var x: int := m as int - n as int;
    NotMultiples(x);
    if IsDigit(a) {
      CongruentIff(100 * r + 10 * m + n, 100 * r + 10 * n + m);
    } else {
      CongruentIff(10000 * r + 100 * m + n, 10000 * r + 100 * n + m);
    }
  }

  lemma NotMultiples(x: int)
    requires x != 0 && -97 < x < 97
    ensures (9 * x) % 97 != 0 && (99 * x) % 97 != 0
  {
  }

  lemma MixedSwap(r: nat, digit: char, letter: char)
    requires r < 97 && IsDigit(digit) && IsUpper(letter)
    ensures Step(Step(r, digit), letter) == Step(Step(r, letter), digit) <==> SymbolNumber(letter) == 11 * SymbolNumber(digit)
    ensures SymbolNumber(letter) == 11 * SymbolNumber(digit) <==>
              (digit == '1' && letter == 'B') || (digit == '2' && letter == 'M') || (digit == '3' && letter == 'X')
  {
    TwoSteps(r, digit, letter);
    TwoSteps(r, letter, digit);
    var m, n := SymbolNumber(digit), SymbolNumber(letter);
    CongruentIff(1000 * r + 100 * m + n, 1000 * r + 10 * n + m);
    ElevenTimes(m, n);
  }

  lemma ElevenTimes(m: nat, n: nat)
    requires m < 10 <= n < 36
    ensures (99 * m - 9 * n) % 97 == 0 <==> n == 11 * m
  {
    if (99 * m - 9 * n) % 97 == 0 {
      var q := (99 * m - 9 * n) / 97;
      assert 11 * m - n == 97 * (54 * q - 5 * (11 * m - n));
    }
  }

  function Weight(c: char): nat { if IsDigit(c) then 10 else 100 }

  lemma TwoSteps(r: nat, a: char, b: char)
    requires (IsDigit(a) || IsUpper(a)) && (IsDigit(b) || IsUpper(b))
    ensures Step(Step(r, a), b) == (Weight(a) * Weight(b) * r + Weight(b) * SymbolNumber(a) + SymbolNumber(b)) % 97
  {
    ModShift(r * Weight(a) + SymbolNumber(a), Weight(b), SymbolNumber(b));
  }

  // ----- Derivation -----

  /** The %02d form of a number below 100. */
  function TwoDigits(n: nat): (s: string)
    requires n < 100
    ensures |s| == 2 && AllDigits(s)
  {
    [DigitChar(n / 10), DigitChar(n % 10)]
  }

  /** The check value of a payload: 98 less the remainder with 00 in the check positions. */
  function CheckValue(payload: string): (n: int)
    requires Payload(payload)
    ensures 2 <= n <= 98
  {
    PayloadIsAlnum(payload);
    98 - IbanRemainder(payload + "NQ00")
  }

  function Address(payload: string, check: nat): string
    requires check < 100
  {
    "NQ" + TwoDigits(check) + payload
  }

  lemma PayloadOfDigest(digest: seq<byte>)
    requires |digest| == 20
    ensures Payload(Encode(digest))
  {
    assert SymbolCount(20) == 32;
  }

  /** The derivation of an address from a public key. The hash is a parameter; only its 32-byte result is assumed. */
  method AddressFromPublicKey(publicKey: seq<byte>, blake2b256: seq<byte> -> seq<byte>) returns (address: string)
    requires |blake2b256(publicKey)| == 32
    ensures var payload := Encode(blake2b256(publicKey)[..20]);
            && Payload(payload)
            && address == Format(Address(payload, CheckValue(payload)))
  {
    var digest := blake2b256(publicKey);
    var payload := NimiqBase32(digest[..20]);
    var provisional := "NQ00" + payload;
    var remainder := IbanMod97(payload + "NQ00");
    PayloadOfDigest(digest[..20]);
    var checksum := 98 - remainder;
    assert checksum == CheckValue(payload) && provisional[4..] == payload;
    var compact := "NQ" + TwoDigits(checksum) + provisional[4..];
    assert compact == Address(payload, checksum);
    address := FormatUserFriendlyAddress(compact);
  }

  lemma TwoDigitFold(r: nat, n: nat)
    requires n < 100
    ensures Fold(r, TwoDigits(n)) == (100 * r + n) % 97
  {
    var s := TwoDigits(n);
    FoldTwo(r, s[0], s[1]);
    assert s == [s[0], s[1]];
    TwoSteps(r, s[0], s[1]);
  }

  lemma RotatedRemainder(payload: string, pair: string)
    requires Payload(payload) && |pair| == 2 && Alnum(pair)
    ensures Alnum(payload + "NQ")
    ensures Rotated("NQ" + pair + payload) == payload + "NQ" + pair
    ensures IbanRemainder(payload + "NQ" + pair) == Fold(Fold(0, payload + "NQ"), pair)
  {
    PayloadIsAlnum(payload);
    var compact, base := "NQ" + pair + payload, payload + "NQ";
    assert compact[4..] == payload && compact[..4] == "NQ" + pair;
    assert payload + ("NQ" + pair) == base + pair;
    FoldConcat(0, base, pair);
    FoldIsRemainder(base + pair);
  }

  /** A check pair of any symbols, letters included, is accepted exactly when it completes the remainder to 1. */
  lemma PairAccepted(payload: string, pair: string)
    requires Payload(payload) && |pair| == 2 && Alnum(pair)
    ensures Alnum(payload + "NQ")
    ensures Accepts("NQ" + pair + payload) <==> Fold(Fold(0, payload + "NQ"), pair) == 1
  {
    var compact := "NQ" + pair + payload;
    assert compact[..2] == "NQ" && compact[4..] == payload;
    RotatedRemainder(payload, pair);
  }

  lemma CheckArithmetic(r: nat, pair: nat)
    ensures (100 * r + pair) % 97 == 1 <==> pair % 97 == (98 - (100 * r) % 97) % 97
  {
  }

  /** A decimal check pair is accepted exactly when it is congruent to the check value mod 97. */
  lemma CheckPairAccepted(payload: string, pair: nat)
    requires Payload(payload) && pair < 100
    ensures Accepts(Address(payload, pair)) <==> pair % 97 == CheckValue(payload) % 97
  {
    PairAccepted(payload, TwoDigits(pair));
    RotatedRemainder(payload, "00");
    assert payload + "NQ00" == payload + "NQ" + "00";
    assert "00" == TwoDigits(0);
    var r := Fold(0, payload + "NQ");
    TwoDigitFold(r, pair);
    TwoDigitFold(r, 0);
    CheckArithmetic(r, pair);
  }

  /** Among the pairs 02 to 98 exactly one is accepted; 00, 01 and 99 stand for 97, 98 and 02. */
  lemma CheckPairUnique(payload: string, pair: nat)
    requires Payload(payload) && 2 <= pair <= 98
    ensures Accepts(Address(payload, pair)) <==> pair == CheckValue(payload)
  {
    CheckPairAccepted(payload, pair);
    ResidueUnique(pair, CheckValue(payload));
  }

  lemma ResidueUnique(a: nat, b: nat)
    requires 2 <= a <= 98 && 2 <= b <= 98
    ensures a % 97 == b % 97 <==> a == b
  {
  }

  /** Every derived address is accepted by both normalisers and comes back unchanged. */
  lemma DerivedIsNormal(digest: seq<byte>)
    requires |digest| == 20
    ensures Payload(Encode(digest))
    ensures var payload := Encode(digest);
            var address := Format(Address(payload, CheckValue(payload)));
            GoNormalized(address) == Some(address) && TsNormalized(address) == Some(address)
  {
    var payload := Encode(digest);
    CheckPairUnique(payload, CheckValue(payload));
    CompactUndoesFormat(Address(payload, CheckValue(payload)));
  }

  /** Different 20-byte digests have different addresses. */
  lemma {:induction false} DerivedInjective(a: seq<byte>, b: seq<byte>)
    requires |a| == |b| == 20
    ensures var p, q := Encode(a), Encode(b);
            Format(Address(p, CheckValue(p))) == Format(Address(q, CheckValue(q))) ==> a == b
  {
    var p, q := Encode(a), Encode(b);
    if Format(Address(p, CheckValue(p))) == Format(Address(q, CheckValue(q))) {
      CheckPairUnique(p, CheckValue(p));
      CheckPairUnique(q, CheckValue(q));
      CompactUndoesFormat(Address(p, CheckValue(p)));
      CompactUndoesFormat(Address(q, CheckValue(q)));
      assert Address(p, CheckValue(p))[4..] == p && Address(q, CheckValue(q))[4..] == q;
      EncodeInjective(a, b);
    }
  }

  /** The alphabet scan starts at the payload, so the check positions may hold letters: here U and Q. */
  lemma LettersInCheckPositions()
    ensures Accepts("NQUQ" + Zeros(32))
  {
    var zeros := Zeros(32);
    PairAccepted(zeros, "UQ");
    assert "NQ" + "UQ" + zeros == "NQUQ" + zeros;
    FoldZeros(32);
    FoldConcat(0, zeros, "NQ");
    PrefixAndLetters();
  }

  lemma PrefixAndLetters()
    ensures Fold(Fold(0, "NQ"), "UQ") == 1
  {
    assert Step(0, 'N') == 23 && Step(23, 'Q') == 95;
    assert Step(95, 'U') == 24 && Step(24, 'Q') == 1;
    FoldTwo(0, 'N', 'Q');
    assert ['N', 'Q'] == "NQ" && ['U', 'Q'] == "UQ";
    FoldTwo(95, 'U', 'Q');
  }

  lemma {:induction false} FoldZeros(k: nat)
    ensures Alnum(Zeros(k)) && Fold(0, Zeros(k)) == 0
  {
    if k > 0 {
      assert Zeros(k)[1..] == Zeros(k - 1);
      FoldZeros(k - 1);
    }
  }

  lemma EndsInOneB()
    ensures Fold(Fold(0, "1BNQ"), "17") == 1
  {
    assert Step(0, '1') == 1 && Step(1, 'B') == 14 && Step(14, 'N') == 65 && Step(65, 'Q') == 27;
    assert Step(27, '1') == 77 && Step(77, '7') == 1;
    FoldTwo(0, '1', 'B');
    FoldTwo(14, 'N', 'Q');
    FoldTwo(27, '1', '7');
    FoldConcat(0, "1B", "NQ");
    assert ['1', 'B'] == "1B" && ['N', 'Q'] == "NQ" && ['1', '7'] == "17" && "1B" + "NQ" == "1BNQ";
  }

  lemma OneBPayload()
    ensures Payload(Zeros(30) + "1B") && Alnum(Zeros(30) + "1BNQ") && Fold(0, Zeros(30) + "1BNQ") == Fold(0, "1BNQ")
  {
    FoldZeros(30);
    FoldConcat(0, Zeros(30), "1BNQ");
  }

  lemma OneBAccepted()
    ensures Accepts("NQ17" + Zeros(30) + "1B")
  {
    var zeros, payload := Zeros(30), Zeros(30) + "1B";
    OneBPayload();
    EndsInOneB();
    assert payload + "NQ" == zeros + "1BNQ";
    PairAccepted(payload, "17");
    assert "NQ" + "17" + payload == "NQ17" + zeros + "1B";
  }

  /** An accepted address in which swapping two symbols goes unnoticed. */
  lemma SwapMissed()
    ensures Accepts("NQ17" + Zeros(30) + "1B") && Accepts("NQ17" + Zeros(30) + "B1")
  {
    OneBAccepted();
    var head := "NQ17" + Zeros(30);
    assert |head| == 34;
    SwapAtEnd(head, '1', 'B');
    assert head + ['1', 'B'] == head + "1B" && head + ['B', '1'] == head + "B1";
  }

  lemma SwapAtEnd(head: string, a: char, b: char)
    requires |head| == 34 && Accepts(head + [a, b]) && Pair(a, b, '1', 'B')
    ensures Accepts(head + [b, a])
  {
    var compact := head + [a, b];
    assert compact[4 + 30] == a && compact[5 + 30] == b;
    TranspositionCaught(compact, 30);
    assert compact[4 + 30 := b][5 + 30 := a] == head + [b, a];
  }

  // ----- Go against TypeScript -----

  predicate OddSpace(c: char) { IsSpace(c) && c != ' ' }

  lemma {:induction false} WithoutAgree(s: string)
    requires forall c :: c in s ==> !OddSpace(c)
    ensures Without(s, IsBlank) == Without(s, IsSpace)
  {
    if s != "" {
      assert s[0] in s && forall c :: c in s[1..] ==> c in s;
      WithoutAgree(s[1..]);
    }
  }

  lemma UpperKeepsSpace(s: string, c: char)
    requires c in s && OddSpace(c)
    ensures c in ToUpper(s)
  {
    var i :| 0 <= i < |s| && s[i] == c;
    assert ToUpper(s)[i] == c;
  }

  /** The two normalisers agree on a string exactly when the TypeScript one rejects it or no tab, line feed, vertical tab,
      form feed or carriage return is left inside it after trimming. */
  lemma NormalizersAgree(value: string)
    ensures GoNormalized(value) == TsNormalized(value)
            <==> TsNormalized(value).None? || forall c :: c in TrimSpace(value) ==> !OddSpace(c)
    ensures GoNormalized(value).Some? ==> TsNormalized(value) == GoNormalized(value)
  {
    var t := TrimSpace(value);
    if c :| c in t && OddSpace(c) {
      assert c in Without(t, IsBlank);
      UpperKeepsSpace(Without(t, IsBlank), c);
      if Accepts(GoCompact(value)) { AcceptedIsAlnum(GoCompact(value)); }
    } else {
      WithoutAgree(t);
    }
  }

  lemma WithoutMiddle(left: string, c: char, right: string, drop: char -> bool)
    requires drop(c) && (forall d :: d in left ==> !drop(d)) && (forall d :: d in right ==> !drop(d))
    ensures Without(left + [c] + right, drop) == left + right
  {
    WithoutConcat(left + [c], right, drop);
    WithoutConcat(left, [c], drop);
    WithoutNothing(left, drop);
    WithoutNothing(right, drop);
    assert Without([c], drop) == "" && left + "" == left;
  }

  lemma TrimmedMiddle(left: string, c: char, right: string)
    requires left != "" && right != "" && !IsSpace(left[0]) && !IsSpace(right[|right| - 1])
    ensures TrimSpace(left + [c] + right) == left + [c] + right
  {
    TrimmedIsFixed(left + [c] + right);
  }

  /** A tab, line feed, vertical tab, form feed or carriage return anywhere inside an accepted address makes the two
      differ: TypeScript accepts the text and Go does not. */
  lemma SpaceInsideSeparates(left: string, c: char, right: string)
    requires Accepts(left + right) && left != "" && right != "" && OddSpace(c)
    ensures var value := left + [c] + right;
            GoNormalized(value) == None && TsNormalized(value) == Some(Format(left + right))
  {
    var compact, value := left + right, left + [c] + right;
    AcceptedIsAlnum(compact);
    assert forall d :: d in left || d in right ==> d in compact;
    TrimmedMiddle(left, c, right);
    WithoutMiddle(left, c, right, IsSpace);
    UpperFixed(compact);
    assert c in value;
    NormalizersAgree(value);
  }

  /** Such an input: an accepted address with a tab after its check positions. */
  lemma TabInside()
    ensures var value := "NQ17" + "\t" + (Zeros(30) + "1B");
            GoNormalized(value) == None && TsNormalized(value) == Some(Format("NQ17" + (Zeros(30) + "1B")))
  {
    OneBAccepted();
    assert "NQ17" + Zeros(30) + "1B" == "NQ17" + (Zeros(30) + "1B");
    SpaceInsideSeparates("NQ17", '\t', Zeros(30) + "1B");
    assert ['\t'] == "\t";
  }

  /** isSameNimiqAddress compares normal forms when both sides have one, and compact forms otherwise. */
  function IsSameNimiqAddress(left: string, right: string): bool {
    var l, r := TsNormalized(left), TsNormalized(right);
    if l.Some? && r.Some? && l.value != "" && r.value != "" then TsCompact(l.value) == TsCompact(r.value)
    else |TsCompact(left)| > 0 && TsCompact(left) == TsCompact(right)
  }

  lemma WithoutTrimmed(value: string)
    ensures Without(TrimSpace(value), IsSpace) == Without(value, IsSpace)
  {
    WithoutLeft(value);
    WithoutRight(TrimLeft(value));
  }

  lemma {:induction false} WithoutLeft(s: string)
    ensures Without(TrimLeft(s), IsSpace) == Without(s, IsSpace)
  {
    if s != "" && IsSpace(s[0]) { WithoutLeft(s[1..]); }
  }

  lemma WithoutLast(s: string)
    requires s != "" && IsSpace(s[|s| - 1])
    ensures Without(s, IsSpace) == Without(s[..|s| - 1], IsSpace)
  {
    var front, last := s[..|s| - 1], [s[|s| - 1]];
    assert s == front + last && last[1..] == "";
    WithoutConcat(front, last, IsSpace);
    assert Without(last, IsSpace) == "";
  }

  lemma {:induction false} WithoutRight(s: string)
    ensures Without(TrimRight(s), IsSpace) == Without(s, IsSpace)
  {
    if s != "" && IsSpace(s[|s| - 1]) {
      WithoutRight(s[..|s| - 1]);
      WithoutLast(s);
    }
  }

  /** Both branches decide the same thing: the compact forms are equal and not empty. */
  lemma {:induction false} SameMeansEqualCompact(left: string, right: string)
    ensures IsSameNimiqAddress(left, right) <==> TsCompact(left) != "" && TsCompact(left) == TsCompact(right)
  {
    WithoutTrimmed(left);
    WithoutTrimmed(right);
    if TsNormalized(left).Some? { CompactUndoesFormat(TsCompact(left)); FormatEnds(TsCompact(left)); }
    if TsNormalized(right).Some? { CompactUndoesFormat(TsCompact(right)); FormatEnds(TsCompact(right)); }
  }
}

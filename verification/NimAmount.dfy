/** Exact NIM amounts: three parsers and three printers of decimal money, none of which rounds. */
module NimAmount {
  import opened Text

  const LUNAS_PER_NIM := 100000
  const MAX_INT64 := 9223372036854775807

  // ----- The grammar and the meaning of an amount -----

  /** Where the first dot is, or the length when there is none. */
  function Dot(s: string): (i: nat)
    ensures i <= |s|
    ensures i < |s| ==> s[i] == '.'
    ensures forall k :: 0 <= k < i ==> s[k] != '.'
  {
    if s == "" || s[0] == '.' then 0 else 1 + Dot(s[1..])
  }

  function Whole(s: string): string { s[..Dot(s)] }

  function Fraction(s: string): string { if Dot(s) < |s| then s[Dot(s) + 1..] else "" }

  /** The pattern ^[0-9]+(?:\.[0-9]+)?$ that all three parsers test. */
  predicate IsDecimal(s: string) {
    && Whole(s) != "" && AllDigits(Whole(s))
    && (Dot(s) < |s| ==> Fraction(s) != "" && AllDigits(Fraction(s)))
  }

  /** The number a decimal denotes: its digits over a power of ten. */
  ghost function Value(s: string): real
    requires IsDecimal(s)
  {
    Num(Whole(s) + Fraction(s)) as real / Pow10(|Fraction(s)|) as real
  }

  // ----- Parsers -----

  datatype Parsed = Lunas(amount: nat) | Required | Malformed | NotPositive | TooLarge

  /** The big-integer arithmetic that the Go parsers share. */
  function TotalLunas(s: string): nat
    requires IsDecimal(s) && |Fraction(s)| <= 5
  {
    Num(Whole(s)) * LUNAS_PER_NIM + Num(Fraction(s) + Zeros(5 - |Fraction(s)|))
  }

  /** Event prices: blank means free. */
  function ParsePriceLunas(raw: string): Parsed {
    var s := TrimSpace(raw);
    if s == "" then Lunas(0)
    else if !IsDecimal(s) || |Fraction(s)| > 5 then Malformed
    else if TotalLunas(s) > MAX_INT64 then TooLarge
    else Lunas(TotalLunas(s))
  }

  /** Payment requests: blank and zero are refused. */
  function ParseAmountLunas(raw: string): Parsed {
    var s := TrimSpace(raw);
    if s == "" then Required
    else if !IsDecimal(s) || |Fraction(s)| > 5 then Malformed
    else if TotalLunas(s) <= 0 then NotPositive
    else if TotalLunas(s) > MAX_INT64 then TooLarge
    else Lunas(TotalLunas(s))
  }

  /** The browser's parser, by BigInt and a padded slice. */
  function NimToLunas(value: string): Option<nat> {
    var s := TrimSpace(value);
    if s == "" || !IsDecimal(s) || |Fraction(s)| > 5 then None
    else
      assert AllDigits((Fraction(s) + "00000")[..5]);
      var lunas := Num(Whole(s)) * LUNAS_PER_NIM + Num((Fraction(s) + "00000")[..5]);
      if lunas <= MAX_INT64 then Some(lunas) else None
  }

  // ----- Printers, for amounts from 0 on -----

  /** Without the zeros at the end. */
  function StripZeros(s: string): (r: string)
    ensures r <= s
    ensures r == "" || r[|r| - 1] != '0'
    ensures s == r + Zeros(|s| - |r|)
  {
    if s != "" && s[|s| - 1] == '0' then
      var r := StripZeros(s[..|s| - 1]);
      assert Zeros(|s| - |r|) == Zeros(|s| - 1 - |r|) + "0";
      r
    else s
  }

  /** %05d and padStart(5, "0") */
  function Pad5(s: string): string { if |s| < 5 then Zeros(5 - |s|) + s else s }

  function FormatPriceNIM(lunas: nat): string {
    if lunas == 0 then "0"
    else
      var whole, fraction := lunas / LUNAS_PER_NIM, lunas % LUNAS_PER_NIM;
      if fraction == 0 then Dec(whole)
      else StripZeros(Dec(whole) + "." + Pad5(Dec(fraction)))
  }

  /** The printer of purchases and payment requests: offset the fraction, cut the leading 1, trim in a loop. */
  method FormatNIM(lunas: nat) returns (text: string)
    ensures text == LunasToNimString(lunas)
  {
    if lunas == 0 {
      return "0";
    }
    var whole, fraction := lunas / LUNAS_PER_NIM, lunas % LUNAS_PER_NIM;
    OffsetIsPadding(fraction);
    if fraction == 0 {
      ZeroFraction();
      return Dec(whole);
    }
    var digits := Dec(fraction + LUNAS_PER_NIM)[1..];
    while |digits| > 0 && digits[|digits| - 1] == '0'
      invariant StripZeros(digits) == StripZeros(Pad5(Dec(fraction)))
    {
      digits := digits[..|digits| - 1];
    }
    StrippedFraction(fraction);
    text := Dec(whole) + "." + digits;
  }

  function LunasToNimString(lunas: nat): string {
    if lunas == 0 then "0"
    else
      var integer, fraction := lunas / LUNAS_PER_NIM, StripZeros(Pad5(Dec(lunas % LUNAS_PER_NIM)));
      if fraction != "" then Dec(integer) + "." + fraction else Dec(integer)
  }

  function NormalizeNimPrice(value: string): Option<string> {
    match NimToLunas(value)
    case None => None
    case Some(lunas) => Some(LunasToNimString(lunas))
  }

  // ----- Padding and stripping -----

  lemma Powers()
    ensures Pow10(0) == 1 && Pow10(1) == 10 && Pow10(2) == 100 && Pow10(3) == 1000 && Pow10(4) == 10000
    ensures Pow10(5) == 100000
  {
    assert Pow10(1) == 10 && Pow10(2) == 100 && Pow10(3) == 1000 && Pow10(4) == 10000;
  }

  lemma FiveDigits(n: nat)
    requires n < LUNAS_PER_NIM
    ensures |Dec(n)| <= 5
  {
    Powers();
    var d := Dec(n);
    if |d| > 5 {
      NumLower(d);
      PowGrows(5, |d| - 1);
      assert false;
    }
  }

  lemma Padded(n: nat)
    requires n < LUNAS_PER_NIM
    ensures |Pad5(Dec(n))| == 5 && AllDigits(Pad5(Dec(n))) && Num(Pad5(Dec(n))) == n
  {
    var d := Dec(n);
    FiveDigits(n);
    NumZeros(5 - |d|);
    NumConcat(Zeros(5 - |d|), d);
    assert Pad5(d) == Zeros(5 - |d|) + d;
  }

  lemma OneBefore(p: string)
    requires |p| == 5 && AllDigits(p)
    ensures Dec(Num(p) + LUNAS_PER_NIM) == "1" + p
  {
    OneInFront(p);
    DecNum("1" + p);
  }

  lemma OneInFront(p: string)
    requires |p| == 5 && AllDigits(p)
    ensures AllDigits("1" + p) && Num("1" + p) == Num(p) + LUNAS_PER_NIM
  {
    Powers();
    NumConcat("1", p);
    assert Num("1") == 1 by { assert "1"[..0] == "" && Num("") == 0; }
  }

  /** Five digits of n: padding a numeral and cutting the 1 off the numeral of n + 100000 give the same text. */
  lemma OffsetIsPadding(n: nat)
    requires n < LUNAS_PER_NIM
    ensures |Pad5(Dec(n))| == 5 && AllDigits(Pad5(Dec(n))) && Num(Pad5(Dec(n))) == n
    ensures Dec(n + LUNAS_PER_NIM)[1..] == Pad5(Dec(n))
  {
    var p := Pad5(Dec(n));
    Padded(n);
    OneBefore(p);
    assert ("1" + p)[1..] == p;
  }

  lemma {:induction false} PowGrows(a: nat, b: nat)
    requires a <= b
    ensures Pow10(a) <= Pow10(b)
  {
    if a < b { PowGrows(a, b - 1); }
  }

  lemma StrippedFraction(n: nat)
    requires 0 < n < LUNAS_PER_NIM
    ensures StripZeros(Pad5(Dec(n))) != ""
  {
    OffsetIsPadding(n);
    NumZeros(5);
    if StripZeros(Pad5(Dec(n))) == "" { StrippedAway(Pad5(Dec(n))); }
  }

  lemma StrippedAway(s: string)
    requires StripZeros(s) == ""
    ensures s == Zeros(|s|)
  {
    assert s == "" + Zeros(|s|);
  }

  lemma ZeroFraction()
    ensures Pad5(Dec(0)) == Zeros(5) && StripZeros(Zeros(5)) == ""
  {
    OffsetIsPadding(0);
    NumZeros(5);
    NumInjective(Pad5(Dec(0)), Zeros(5));
    StripFixed("", 5);
    assert "" + Zeros(5) == Zeros(5);
  }

  lemma {:induction false} StripFixed(s: string, k: nat)
    requires s == "" || s[|s| - 1] != '0'
    ensures StripZeros(s + Zeros(k)) == s
  {
    if k == 0 {
      assert s + Zeros(0) == s;
    } else {
      assert (s + Zeros(k))[..|s| + k - 1] == s + Zeros(k - 1);
      StripFixed(s, k - 1);
    }
  }

  lemma {:induction false} StripBehindDot(a: string, b: string)
    requires b == "" || StripZeros(b) != ""
    requires a != "" && a[|a| - 1] != '0'
    ensures StripZeros(a + b) == a + StripZeros(b)
    decreases b
  {
    if b != "" {
      if b[|b| - 1] == '0' {
        assert (a + b)[..|a + b| - 1] == a + b[..|b| - 1];
        if b[..|b| - 1] != "" { StripBehindDot(a, b[..|b| - 1]); }
      }
    } else {
      assert a + b == a;
    }
  }

  /** The three printers write the same text for every amount. */
  lemma {:induction false} PrintersAgree(lunas: nat)
    ensures FormatPriceNIM(lunas) == LunasToNimString(lunas)
  {
    var fraction := lunas % LUNAS_PER_NIM;
    OffsetIsPadding(fraction);
    if fraction == 0 {
      ZeroFraction();
    } else {
      StrippedFraction(fraction);
      StripBehindDot(Dec(lunas / LUNAS_PER_NIM) + ".", Pad5(Dec(fraction)));
    }
  }

  // ----- Parsing is exact -----

  lemma ShiftFraction(s: string)
    requires IsDecimal(s) && |Fraction(s)| <= 5
    ensures TotalLunas(s) * Pow10(|Fraction(s)|) == Num(Whole(s) + Fraction(s)) * LUNAS_PER_NIM
  {
    var w, f := Whole(s), Fraction(s);
    var k := |f|;
    NumConcat(w, f);
    NumConcat(f, Zeros(5 - k));
    NumZeros(5 - k);
    Powers();
  }

  /** The integer the parsers compute is the value times 100000, not rounded. */
  lemma TotalIsExact(s: string)
    requires IsDecimal(s) && |Fraction(s)| <= 5
    ensures TotalLunas(s) as real == Value(s) * 100000.0
  {
    ShiftFraction(s);
    var total, n, p := TotalLunas(s), Num(Whole(s) + Fraction(s)), Pow10(|Fraction(s)|);
    RatioTimes(total, n, p);
  }

  lemma RatioTimes(total: nat, n: nat, p: nat)
    requires p >= 1 && total * p == n * LUNAS_PER_NIM
    ensures total as real == (n as real / p as real) * 100000.0
  {
    var q := n as real / p as real;
    assert q * p as real == n as real;
    assert total as real * p as real == (total * p) as real;
    assert (total as real - q * 100000.0) * p as real == 0.0;
  }

  /** An amount that every parser's grammar and range admit. */
  ghost predicate Payable(s: string) {
    IsDecimal(s) && |Fraction(s)| <= 5 && Value(s) * 100000.0 <= MAX_INT64 as real
  }

  /** A non-blank string is parsed exactly when it is a decimal with at most five fraction digits whose value fits in
      2^63 - 1 Luna, and then the result is that value times 100000; payment requests also need it to be positive. */
  lemma ParsersAreExact(raw: string)
    requires TrimSpace(raw) != ""
    ensures var s, price := TrimSpace(raw), ParsePriceLunas(raw);
            && (price.Lunas? <==> Payable(s))
            && (price.Lunas? ==> price.amount as real == Value(s) * 100000.0 && price.amount <= MAX_INT64)
    ensures ParseAmountLunas(raw).Lunas? <==> Payable(TrimSpace(raw)) && Value(TrimSpace(raw)) > 0.0
    ensures ParseAmountLunas(raw).Lunas? ==> ParseAmountLunas(raw) == ParsePriceLunas(raw)
    ensures NimToLunas(raw) == match ParsePriceLunas(raw) case Lunas(n) => Some(n) case _ => None
  {
    var s := TrimSpace(raw);
    if IsDecimal(s) && |Fraction(s)| <= 5 {
      TotalIsExact(s);
      assert (Fraction(s) + "00000")[..5] == Fraction(s) + Zeros(5 - |Fraction(s)|);
    }
  }

  lemma BlankIsSpace(raw: string)
    ensures TrimSpace(raw) == "" <==> AllSpace(raw)
  {
    var left, right := TrimIs(raw);
    if AllSpace(raw) {
      TrimPads(raw, "", "");
      assert raw + "" + "" == raw;
    }
  }

  /** The largest amount is the largest integer of 64 bits with a sign, and a NIM has five decimal places. */
  lemma Bounds()
    ensures MAX_INT64 == 0x7FFF_FFFF_FFFF_FFFF && LUNAS_PER_NIM == Pow10(5)
  {
    Powers();
  }

  /** Blank text, and only blank text, is a missing amount; as a price it is free, and to the browser it is no number. */
  lemma BlankAmounts(raw: string)
    ensures AllSpace(raw) <==> ParseAmountLunas(raw) == Required
    ensures AllSpace(raw) ==> ParsePriceLunas(raw) == Lunas(0) && NimToLunas(raw) == None
  {
    BlankIsSpace(raw);
  }

  /** Any other text that is refused is refused for one reason: it is no decimal with at most five fraction digits, or it is
      zero where that is not allowed, or it is too large. */
  lemma RefusalsAreExact(raw: string)
    requires !AllSpace(raw)
    ensures var s, price, amount := TrimSpace(raw), ParsePriceLunas(raw), ParseAmountLunas(raw);
            && !price.Required? && !price.NotPositive?
            && (price.Malformed? <==> amount.Malformed?)
            && (price.Malformed? <==> !IsDecimal(s) || |Fraction(s)| > 5)
            && (price.TooLarge? <==> amount.TooLarge?)
            && (!price.Malformed? ==>
                  && (price.TooLarge? <==> Value(s) * 100000.0 > MAX_INT64 as real)
                  && (amount.NotPositive? <==> Value(s) == 0.0))
  {
    var s := TrimSpace(raw);
    BlankIsSpace(raw);
    if IsDecimal(s) && |Fraction(s)| <= 5 { TotalIsExact(s); }
  }

  /** Two accepted strings are parsed alike exactly when they denote the same number. */
  lemma {:induction false} ParsedAlike(a: string, b: string)
    ensures Payable(TrimSpace(a)) && Payable(TrimSpace(b)) ==>
              (ParsePriceLunas(a) == ParsePriceLunas(b) <==> Value(TrimSpace(a)) == Value(TrimSpace(b)))
  {
    if Payable(TrimSpace(a)) && Payable(TrimSpace(b)) {
      ParsersAreExact(a);
      ParsersAreExact(b);
    }
  }

  // ----- Printing is canonical -----

  /** No superfluous leading zero, no trailing zero after the dot and no bare dot. */
  predicate Canonical(s: string) {
    && IsDecimal(s)
    && (Whole(s)[0] == '0' ==> |Whole(s)| == 1)
    && (Dot(s) < |s| ==> s[|s| - 1] != '0')
  }

  lemma {:induction false} DotBetween(w: string, rest: string)
    requires AllDigits(w)
    requires rest == "" || rest[0] == '.'
    ensures Dot(w + rest) == |w|
  {
    if w != "" {
      assert (w + rest)[1..] == w[1..] + rest;
      DotBetween(w[1..], rest);
    }
  }

  lemma DecimalIsTrimmed(s: string)
    requires IsDecimal(s)
    ensures TrimSpace(s) == s && s != ""
  {
    assert Whole(s)[0] == s[0];
    if Dot(s) < |s| { assert Fraction(s)[|Fraction(s)| - 1] == s[|s| - 1]; }
    else { assert Whole(s) == s; }
    TrimmedIsFixed(s);
  }

  /** The text with a given whole part and fraction. */
  function Compose(w: string, f: string): string { if f == "" then w else w + "." + f }

  lemma TextParts(w: string, f: string)
    requires AllDigits(w) && w != "" && AllDigits(f)
    ensures var s := Compose(w, f);
            IsDecimal(s) && Whole(s) == w && Fraction(s) == f && (Dot(s) < |s| <==> f != "")
  {
    if f == "" {
      DotBetween(w, "");
      assert w + "" == w;
    } else {
      DotBetween(w, "." + f);
      assert w + "." + f == w + ("." + f);
    }
  }

  lemma DecimalText(s: string)
    requires IsDecimal(s)
    ensures s == Compose(Whole(s), Fraction(s))
  {
  }

  lemma PrintedText(lunas: nat, w: string, f: string)
    requires w == Dec(lunas / LUNAS_PER_NIM) && f == StripZeros(Pad5(Dec(lunas % LUNAS_PER_NIM)))
    ensures AllDigits(f) && LunasToNimString(lunas) == Compose(w, f)
  {
    OffsetIsPadding(lunas % LUNAS_PER_NIM);
    if lunas == 0 { ZeroFraction(); }
  }

  /** What is printed is canonical, has at most five fraction digits and denotes exactly the amount. */
  lemma {:induction false} PrintedIsCanonical(lunas: nat)
    ensures var s := LunasToNimString(lunas);
            Canonical(s) && |Fraction(s)| <= 5 && TotalLunas(s) == lunas
  {
    var w, p := Dec(lunas / LUNAS_PER_NIM), Pad5(Dec(lunas % LUNAS_PER_NIM));
    var f := StripZeros(p);
    OffsetIsPadding(lunas % LUNAS_PER_NIM);
    PrintedText(lunas, w, f);
    TextParts(w, f);
    assert p == f + Zeros(5 - |f|);
  }

  lemma TotalParts(s: string)
    requires IsDecimal(s) && |Fraction(s)| <= 5
    ensures var p := Fraction(s) + Zeros(5 - |Fraction(s)|);
            && TotalLunas(s) / LUNAS_PER_NIM == Num(Whole(s))
            && TotalLunas(s) % LUNAS_PER_NIM == Num(p)
            && p == Pad5(Dec(Num(p)))
  {
    var p := Fraction(s) + Zeros(5 - |Fraction(s)|);
    Powers();
    NumBound(p);
    OffsetIsPadding(Num(p));
    NumInjective(p, Pad5(Dec(Num(p))));
  }

  lemma CanonicalParts(s: string)
    requires Canonical(s) && |Fraction(s)| <= 5
    ensures var w, f := Whole(s), Fraction(s);
            && AllDigits(f + Zeros(5 - |f|))
            && w == Dec(Num(w)) && f == StripZeros(f + Zeros(5 - |f|))
  {
    var f := Fraction(s);
    DecNum(Whole(s));
    if f != "" { assert f[|f| - 1] == s[|s| - 1]; }
    StripFixed(f, 5 - |f|);
  }

  /** The canonical text of an amount is unique: it is what the printers write. */
  lemma {:induction false} CanonicalIsPrinted(s: string)
    requires Canonical(s) && |Fraction(s)| <= 5
    ensures LunasToNimString(TotalLunas(s)) == s
  {
    CanonicalParts(s);
    TotalParts(s);
    PrintedText(TotalLunas(s), Whole(s), Fraction(s));
    DecimalText(s);
  }

  /** Every int64 amount survives printing and parsing, by every parser and hence every printer. */
  lemma {:induction false} PrintParse(lunas: nat)
    requires lunas <= MAX_INT64
    ensures ParsePriceLunas(LunasToNimString(lunas)) == Lunas(lunas)
    ensures NimToLunas(LunasToNimString(lunas)) == Some(lunas)
    ensures ParseAmountLunas(LunasToNimString(lunas)) == if lunas > 0 then Lunas(lunas) else NotPositive
  {
    var s := LunasToNimString(lunas);
    PrintedIsCanonical(lunas);
    DecimalIsTrimmed(s);
    ParsersAreExact(s);
    TotalIsExact(s);
  }

  /** Normalising is defined exactly on payable strings, keeps the number, yields canonical text and is idempotent. */
  lemma {:induction false} NormalizeIsCanonical(value: string)
    ensures var n := NormalizeNimPrice(value);
            && (n.Some? <==> TrimSpace(value) != "" && Payable(TrimSpace(value)))
            && (n.Some? ==> Canonical(n.value) && Value(n.value) == Value(TrimSpace(value)))
            && (n.Some? ==> NormalizeNimPrice(n.value) == n)
  {
    var n := NormalizeNimPrice(value);
    if TrimSpace(value) != "" { ParsersAreExact(value); }
    if n.Some? {
      var lunas := NimToLunas(value).value;
      PrintedIsCanonical(lunas);
      TotalIsExact(n.value);
      PrintParse(lunas);
    }
  }

  /** Normalising leaves alone exactly the canonical payable strings. */
  lemma {:induction false} NormalFormsAreCanonical(value: string)
    ensures NormalizeNimPrice(value) == Some(value) <==> Canonical(value) && Payable(value)
  {
    NormalizeIsCanonical(value);
    if NormalizeNimPrice(value) == Some(value) {
      DecimalIsTrimmed(value);
    }
    if Canonical(value) && Payable(value) {
      DecimalIsTrimmed(value);
      ParsersAreExact(value);
      TotalIsExact(value);
      CanonicalIsPrinted(value);
    }
  }
}

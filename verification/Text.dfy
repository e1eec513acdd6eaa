/** ASCII text and decimal numerals: the string helpers that the Go and TypeScript code share. */
module Text {

  datatype Option<+T> = None | Some(value: T)

  // ----- Characters -----

  predicate IsDigit(c: char) { '0' <= c <= '9' }

  predicate IsUpper(c: char) { 'A' <= c <= 'Z' }

  predicate IsLower(c: char) { 'a' <= c <= 'z' }

  /** The ASCII white space that strings.TrimSpace, String.trim and the class \s agree on. */
  predicate IsSpace(c: char) { c == ' ' || 9 as char <= c <= 13 as char }

  function Upper(c: char): char {
    if IsLower(c) then (c as int - 32) as char else c
  }

  function ToUpper(s: string): (r: string)
    ensures |r| == |s|
    ensures forall i :: 0 <= i < |s| ==> r[i] == Upper(s[i])
  {
    seq(|s|, i requires 0 <= i < |s| => Upper(s[i]))
  }

  function Lower(c: char): char {
    if IsUpper(c) then (c as int + 32) as char else c
  }

  function ToLower(s: string): (r: string)
    ensures |r| == |s| && forall i :: 0 <= i < |s| ==> r[i] == Lower(s[i])
  {
    if s == "" then "" else [Lower(s[0])] + ToLower(s[1..])
  }

  const CAPITALS := "ABCDEFGHIJKLMNOPQRSTUVWXYZ"
  const SMALL := "abcdefghijklmnopqrstuvwxyz"

  lemma Alphabets(k: nat)
    requires k < 26
    ensures CAPITALS[k] as int == 'A' as int + k && SMALL[k] as int == 'a' as int + k
  {
  }

  /** The two alphabets, letter by letter. */
  lemma CaseTable(k: nat)
    requires k < 26
    ensures IsUpper(CAPITALS[k]) && IsLower(SMALL[k])
    ensures Upper(SMALL[k]) == CAPITALS[k] && Lower(CAPITALS[k]) == SMALL[k]
  {
    Alphabets(k);
  }

  /** No other character has a case. */
  lemma Caseless(c: char)
    ensures IsUpper(c) <==> c in CAPITALS
    ensures IsLower(c) <==> c in SMALL
    ensures c !in SMALL ==> Upper(c) == c
    ensures c !in CAPITALS ==> Lower(c) == c
  {
    if IsUpper(c) { Alphabets(c as int - 'A' as int); }
    if IsLower(c) { Alphabets(c as int - 'a' as int); }
    if c in CAPITALS {
      var k :| 0 <= k < 26 && CAPITALS[k] == c;
      Alphabets(k);
    }
    if c in SMALL {
      var k :| 0 <= k < 26 && SMALL[k] == c;
      Alphabets(k);
    }
  }

  /** Two spellings that differ in the case of letters only. */
  predicate SameUpToCase(a: string, b: string) {
    |a| == |b| && forall i :: 0 <= i < |a| ==> Lower(a[i]) == Lower(b[i])
  }

  predicate NoCapital(s: string) { forall i :: 0 <= i < |s| ==> !IsUpper(s[i]) }

  // ----- Trimming and filtering -----

  function TrimLeft(s: string): (r: string)
    ensures r == [] || !IsSpace(r[0])
  {
    if s != [] && IsSpace(s[0]) then TrimLeft(s[1..]) else s
  }

  function TrimRight(s: string): (r: string)
    ensures r <= s
    ensures r == [] || !IsSpace(r[|r| - 1])
  {
    if s != [] && IsSpace(s[|s| - 1]) then TrimRight(s[..|s| - 1]) else s
  }

  function TrimSpace(s: string): string { TrimRight(TrimLeft(s)) }

  /** Deletes every character that `drop` selects. */
  function Without(s: string, drop: char -> bool): (r: string)
    ensures forall c :: c in r <==> c in s && !drop(c)
  {
    if s == [] then []
    else (if drop(s[0]) then [] else [s[0]]) + Without(s[1..], drop)
  }

  lemma {:induction false} WithoutConcat(a: string, b: string, drop: char -> bool)
    ensures Without(a + b, drop) == Without(a, drop) + Without(b, drop)
  {
    if a == [] {
      assert a + b == b;
    } else {
      assert (a + b)[1..] == a[1..] + b;
      WithoutConcat(a[1..], b, drop);
    }
  }

  lemma {:induction false} WithoutNothing(s: string, drop: char -> bool)
    requires forall c :: c in s ==> !drop(c)
    ensures Without(s, drop) == s
  {
    if s != [] {
      assert forall c :: c in s[1..] ==> c in s;
      WithoutNothing(s[1..], drop);
      assert s == [s[0]] + s[1..];
    }
  }

  /** A string that starts and ends with non-blanks is trimmed already. */
  lemma TrimmedIsFixed(s: string)
    requires s == [] || (!IsSpace(s[0]) && !IsSpace(s[|s| - 1]))
    ensures TrimSpace(s) == s
  {
  }

  predicate AllSpace(s: string) { forall i :: 0 <= i < |s| ==> IsSpace(s[i]) }

  lemma SpaceTable(c: char)
    ensures IsSpace(c) <==> c in " \t\n\r" + [11 as char, 12 as char]
  {
  }

  lemma {:induction false} TrimLeftIs(s: string) returns (left: string)
    ensures AllSpace(left) && s == left + TrimLeft(s)
  {
    left := "";
    if s != "" && IsSpace(s[0]) {
      var rest := TrimLeftIs(s[1..]);
      left := [s[0]] + rest;
    }
  }

  lemma {:induction false} TrimRightIs(s: string) returns (right: string)
    ensures AllSpace(right) && s == TrimRight(s) + right
  {
    right := "";
    if s != "" && IsSpace(s[|s| - 1]) {
      var rest := TrimRightIs(s[..|s| - 1]);
      right := rest + [s[|s| - 1]];
    }
  }

  /** Trimming takes white space off both ends, all of it and nothing else. */
  lemma TrimIs(s: string) returns (left: string, right: string)
    ensures AllSpace(left) && AllSpace(right) && s == left + TrimSpace(s) + right
    ensures var t := TrimSpace(s); t != "" ==> !IsSpace(t[0]) && !IsSpace(t[|t| - 1])
  {
    left := TrimLeftIs(s);
    right := TrimRightIs(TrimLeft(s));
    assert TrimSpace(s) != "" ==> TrimSpace(s)[0] == TrimLeft(s)[0];
  }

  lemma {:induction false} TrimLeftPads(left: string, s: string)
    requires AllSpace(left)
    ensures TrimLeft(left + s) == TrimLeft(s)
  {
    if left == "" {
      assert left + s == s;
    } else {
      assert (left + s)[1..] == left[1..] + s;
      TrimLeftPads(left[1..], s);
    }
  }

  lemma {:induction false} TrimRightPads(s: string, right: string)
    requires AllSpace(right)
    ensures TrimRight(s + right) == TrimRight(s)
  {
    if right == "" {
      assert s + right == s;
    } else {
      var n := |s + right| - 1;
      assert (s + right)[..n] == s + right[..|right| - 1];
      TrimRightPads(s, right[..|right| - 1]);
    }
  }

  lemma {:induction false} TrimLeftKeepsRight(s: string, right: string)
    requires AllSpace(right)
    ensures TrimLeft(s + right) == if TrimLeft(s) == "" then TrimLeft(right) else TrimLeft(s) + right
  {
    if s == "" {
      assert s + right == right;
    } else if IsSpace(s[0]) {
      assert (s + right)[1..] == s[1..] + right;
      TrimLeftKeepsRight(s[1..], right);
    }
  }

  /** White space around a text does not matter. */
  lemma {:induction false} TrimPads(left: string, s: string, right: string)
    requires AllSpace(left) && AllSpace(right)
    ensures TrimSpace(left + s + right) == TrimSpace(s)
  {
    assert left + s + right == left + (s + right);
    TrimLeftPads(left, s + right);
    TrimLeftKeepsRight(s, right);
    if TrimLeft(s) == "" {
      var none := TrimLeftIs(right);
      assert forall i :: 0 <= i < |TrimLeft(right)| ==> TrimLeft(right)[i] == right[|none| + i];
      TrimRightPads("", TrimLeft(right));
      assert "" + TrimLeft(right) == TrimLeft(right);
    } else {
      TrimRightPads(TrimLeft(s), right);
    }
  }

  lemma {:induction false} TrimCase(a: string, b: string)
    requires SameUpToCase(a, b)
    ensures SameUpToCase(TrimSpace(a), TrimSpace(b))
  {
    TrimLeftCase(a, b);
    TrimRightCase(TrimLeft(a), TrimLeft(b));
  }

  lemma {:induction false} TrimLeftCase(a: string, b: string)
    requires SameUpToCase(a, b)
    ensures SameUpToCase(TrimLeft(a), TrimLeft(b))
  {
    if a != "" {
      assert IsSpace(a[0]) <==> IsSpace(b[0]) by { assert Lower(a[0]) == Lower(b[0]); }
      if IsSpace(a[0]) { TrimLeftCase(a[1..], b[1..]); }
    }
  }

  lemma {:induction false} TrimRightCase(a: string, b: string)
    requires SameUpToCase(a, b)
    ensures SameUpToCase(TrimRight(a), TrimRight(b))
  {
    if a != "" {
      var n := |a| - 1;
      assert IsSpace(a[n]) <==> IsSpace(b[n]) by { assert Lower(a[n]) == Lower(b[n]); }
      if IsSpace(a[n]) { TrimRightCase(a[..n], b[..n]); }
    }
  }

  // ----- Decimal numerals -----

  predicate AllDigits(s: string) { forall i :: 0 <= i < |s| ==> IsDigit(s[i]) }

  function DigitValue(c: char): nat
    requires IsDigit(c)
  {
    c as int - '0' as int
  }

  function DigitChar(d: nat): (c: char)
    requires d < 10
    ensures IsDigit(c) && DigitValue(c) == d
  {
    ('0' as int + d) as char
  }

  /** The number a string of decimal digits denotes. */
  function Num(s: string): nat
    requires AllDigits(s)
  {
    if s == [] then 0 else 10 * Num(s[..|s| - 1]) + DigitValue(s[|s| - 1])
  }

  /** The shortest decimal numeral of n, as %d, FormatInt and toString print it. */
  function Dec(n: nat): (s: string)
    ensures AllDigits(s) && |s| >= 1
    ensures Num(s) == n
    ensures s[0] == '0' ==> n == 0 && s == "0"
  {
    if n < 10 then
      assert Num([]) == 0;
      [DigitChar(n)]
    else
      var front := Dec(n / 10);
      assert (front + [DigitChar(n % 10)])[..|front|] == front;
      front + [DigitChar(n % 10)]
  }

  function Pow10(k: nat): (p: nat)
    ensures p >= 1
  {
    if k == 0 then 1 else 10 * Pow10(k - 1)
  }

  function Zeros(k: nat): (z: string)
    ensures |z| == k && AllDigits(z)
    ensures forall i :: 0 <= i < k ==> z[i] == '0'
  {
    seq(k, i => '0')
  }

  lemma {:induction false} NumZeros(k: nat)
    ensures Num(Zeros(k)) == 0
  {
    if k > 0 {
      assert Zeros(k)[..k - 1] == Zeros(k - 1);
      NumZeros(k - 1);
    }
  }

  lemma {:induction false} NumConcat(a: string, b: string)
    requires AllDigits(a) && AllDigits(b)
    ensures AllDigits(a + b)
    ensures Num(a + b) == Num(a) * Pow10(|b|) + Num(b)
  {
    if b == [] {
      assert a + b == a;
    } else {
      var b' := b[..|b| - 1];
      NumConcat(a, b');
      assert (a + b)[..|a + b| - 1] == a + b';
      assert Num(a + b) == 10 * Num(a + b') + DigitValue(b[|b| - 1]);
      Tenfold(Num(a), Pow10(|b'|));
    }
  }

  lemma Tenfold(n: nat, p: nat)
    ensures n * (10 * p) == 10 * (n * p)
  {
  }

  lemma {:induction false} NumBound(s: string)
    requires AllDigits(s)
    ensures Num(s) < Pow10(|s|)
  {
    if s != [] { NumBound(s[..|s| - 1]); }
  }

  /** Digit strings of one length are determined by their value. */
  lemma {:induction false} NumInjective(a: string, b: string)
    requires AllDigits(a) && AllDigits(b) && |a| == |b|
    requires Num(a) == Num(b)
    ensures a == b
  {
    if a != [] {
      var a', b' := a[..|a| - 1], b[..|b| - 1];
      NumInjective(a', b');
      assert a == a' + [a[|a| - 1]] && b == b' + [b[|b| - 1]];
    }
  }

  lemma {:induction false} NumLower(s: string)
    requires AllDigits(s) && |s| >= 1 && s[0] != '0'
    ensures Num(s) >= Pow10(|s| - 1)
  {
    if |s| == 1 {
      assert Num(s[..0]) == 0;
    } else {
      NumLower(s[..|s| - 1]);
    }
  }

  /** A numeral without a leading zero is the shortest one of its number. */
  lemma {:induction false} DecNum(s: string)
    requires AllDigits(s) && |s| >= 1 && (s[0] == '0' ==> |s| == 1)
    ensures Dec(Num(s)) == s
  {
    if |s| == 1 {
      assert Num(s[..0]) == 0;
      NumInjective(Dec(Num(s)), s);
    } else {
      NumLower(s);
      var front := s[..|s| - 1];
      DecNum(front);
      assert Num(s) / 10 == Num(front);
      assert s == front + [s[|s| - 1]];
      if Num(front) == 0 { NumLower(front); assert false; }
    }
  }

  lemma Associates<T>(a: seq<T>, b: seq<T>, c: seq<T>)
    ensures a + b + c == a + (b + c)
  {
  }
}

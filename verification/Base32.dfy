/** The five-bit encoder of address payloads: the grouping of section 6 of RFC 4648, with Nimiq's alphabet. */
module Base32 {

  newtype byte = x: int | 0 <= x < 256

  // ----- The alphabet -----

  /** Entry v of the alphabet string, by ranges; AlphabetTable compares it with the literal. */
  function Symbol(v: nat): (c: char)
    requires v < 32
    ensures InAlphabet(c) && SymbolIndex(c) == v
  {
    if v < 10 then ('0' as int + v) as char
    else if v < 18 then ('A' as int + v - 10) as char
    else if v < 23 then ('J' as int + v - 18) as char
    else if v < 30 then ('P' as int + v - 23) as char
    else ('X' as int + v - 30) as char
  }

  /** The digits and the capitals other than I, O, W and Z. */
  predicate InAlphabet(c: char) {
    '0' <= c <= '9' || ('A' <= c <= 'Z' && c != 'I' && c != 'O' && c != 'W' && c != 'Z')
  }

  /** The position of a symbol in the alphabet. */
  function SymbolIndex(c: char): (v: nat)
    requires InAlphabet(c)
    ensures v < 32
  {
    if c <= '9' then c as int - '0' as int
    else if c <= 'H' then c as int - 'A' as int + 10
    else if c <= 'N' then c as int - 'J' as int + 18
    else if c <= 'V' then c as int - 'P' as int + 23
    else c as int - 'X' as int + 30
  }

  lemma AlphabetTable()
    ensures seq(32, v requires 0 <= v < 32 => Symbol(v)) == "0123456789ABCDEFGHJKLMNPQRSTUVXY"
  {
  }

  // ----- Shifts -----

  /** v << k */
  function Shl(v: nat, k: nat): nat { if k == 0 then v else 2 * Shl(v, k - 1) }

  /** v >> k */
  function Shr(v: nat, k: nat): nat { if k == 0 then v else Shr(v / 2, k - 1) }

  lemma {:induction false} ShlSum(v: nat, a: nat, b: nat)
    ensures Shl(v, a + b) == Shl(Shl(v, a), b)
  {
    if b > 0 { ShlSum(v, a, b - 1); }
  }

  lemma {:induction false} ShlMonotone(v: nat, w: nat, k: nat)
    requires v < w
    ensures Shl(v, k) < Shl(w, k)
  {
    if k > 0 { ShlMonotone(v, w, k - 1); }
  }

  lemma {:induction false} ShrUndoesShl(v: nat, k: nat)
    ensures Shr(Shl(v, k), k) == v
  {
    if k > 0 { ShrUndoesShl(v, k - 1); }
  }

  lemma {:induction false} ShrSum(v: nat, a: nat, b: nat)
    ensures Shr(v, a + b) == Shr(Shr(v, a), b)
    decreases a
  {
    if a > 0 { ShrSum(v / 2, a - 1, b); }
  }

  lemma {:induction false} ShrToZero(v: nat, k: nat)
    requires v < Shl(1, k)
    ensures Shr(v, k) == 0
  {
    if k > 0 { ShrToZero(v / 2, k - 1); }
  }

  lemma ShlByFive(v: nat)
    ensures Shl(v, 5) == 32 * v
  {
    assert Shl(v, 1) == 2 * Shl(v, 0) && Shl(v, 2) == 2 * Shl(v, 1);
    assert Shl(v, 3) == 2 * Shl(v, 2) && Shl(v, 4) == 2 * Shl(v, 3);
  }

  lemma ShlByEight(v: nat)
    ensures Shl(v, 8) == 256 * v
  {
    ShlByFive(v);
    assert Shl(v, 6) == 64 * v && Shl(v, 7) == 128 * v;
  }

  // ----- The encoder -----

  /** The bit of data at a position counted from its first byte's top bit, zero past the end: the mask test
      data[index / 8] & (1 << (7 - index % 8)). */
  function BitAt(data: seq<byte>, index: nat): (bit: nat)
    ensures bit < 2
  {
    if index < 8 * |data| then Shr(data[index / 8] as int, 7 - index % 8) % 2 else 0
  }

  /** The k bits of data from position bit on, read as one binary number. */
  function GroupValue(data: seq<byte>, bit: nat, k: nat): nat {
    if k == 0 then 0 else 2 * GroupValue(data, bit, k - 1) + BitAt(data, bit + k - 1)
  }

  /** The big-endian integer of a byte string. */
  function BigEndian(data: seq<byte>): nat {
    if data == [] then 0 else 256 * BigEndian(data[..|data| - 1]) + data[|data| - 1] as int
  }

  /** The n low base-32 digits of v, most significant first. */
  function Digits32(v: nat, n: nat): (s: string)
    ensures |s| == n
    ensures forall i :: 0 <= i < n ==> InAlphabet(s[i])
  {
    if n == 0 then "" else Digits32(v / 32, n - 1) + [Symbol(v % 32)]
  }

  function SymbolCount(bytes: nat): nat { (8 * bytes + 4) / 5 }

  function Padding(bytes: nat): nat { 5 * SymbolCount(bytes) - 8 * bytes }

  /** The encoding by value: the base-32 digits of the integer, shifted up to a whole number of symbols. */
  function Encode(data: seq<byte>): string {
    Digits32(Shl(BigEndian(data), Padding(|data|)), SymbolCount(|data|))
  }

  /** The encoder's bit loops compute those digits. */
  method NimiqBase32(data: seq<byte>) returns (out: string)
    ensures out == Encode(data)
  {
    out := "";
    var bit := 0;
    ghost var n := 0;
    while bit < 8 * |data|
      invariant bit == 5 * n && n <= SymbolCount(|data|)
      invariant out == Digits32(GroupValue(data, 0, bit), n)
    {
      var value := FiveBits(data, bit);
      AppendGroup(data, bit, n);
      out := out + [Symbol(value)];
      bit, n := bit + 5, n + 1;
    }
    assert n == SymbolCount(|data|);
    AllBits(data, Padding(|data|));
  }

  /** The inner loop: five bits from position bit on. */
  method FiveBits(data: seq<byte>, bit: nat) returns (value: nat)
    ensures value == GroupValue(data, bit, 5) && value < 32
  {
    value := 0;
    for offset := 0 to 5
      invariant value == GroupValue(data, bit, offset)
    {
      var index := bit + offset;
      value := 2 * value;
      if BitAt(data, index) == 1 {
        value := value + 1;
      }
    }
    GroupExtends(data, bit, 5);
    ShlByFive(1);
  }

  lemma {:induction false} GroupExtends(data: seq<byte>, bit: nat, k: nat)
    ensures GroupValue(data, bit, k) < Shl(1, k)
    ensures GroupValue(data, 0, bit + k) == Shl(GroupValue(data, 0, bit), k) + GroupValue(data, bit, k)
  {
    if k > 0 { GroupExtends(data, bit, k - 1); }
  }

  lemma AppendGroup(data: seq<byte>, bit: nat, n: nat)
    ensures var low := GroupValue(data, bit, 5);
            && low < 32
            && Digits32(GroupValue(data, 0, bit + 5), n + 1) == Digits32(GroupValue(data, 0, bit), n) + [Symbol(low)]
  {
    var v, low := GroupValue(data, 0, bit), GroupValue(data, bit, 5);
    GroupExtends(data, bit, 5);
    ShlByFive(1);
    ShlByFive(v);
    assert (32 * v + low) / 32 == v && (32 * v + low) % 32 == low;
  }

  /** The first j bits of the byte at position i are that byte shifted down by 8 - j. */
  lemma {:induction false} ByteBits(data: seq<byte>, i: nat, j: nat)
    requires i < |data| && j <= 8
    ensures GroupValue(data, 8 * i, j) == Shr(data[i] as int, 8 - j)
  {
    var b := data[i] as int;
    if j == 0 {
      ShlByEight(1);
      ShrToZero(b, 8);
    } else {
      ByteBits(data, i, j - 1);
      var index := 8 * i + (j - 1);
      assert index / 8 == i && index % 8 == j - 1;
      ShrSum(b, 8 - j, 1);
      assert Shr(Shr(b, 8 - j), 1) == Shr(b, 8 - j) / 2;
    }
  }

  lemma WholeByte(data: seq<byte>, i: nat)
    requires i < |data|
    ensures GroupValue(data, 0, 8 * (i + 1)) == 256 * GroupValue(data, 0, 8 * i) + data[i] as int
  {
    var before := GroupValue(data, 0, 8 * i);
    assert 8 * (i + 1) == 8 * i + 8;
    GroupExtends(data, 8 * i, 8);
    ByteBits(data, i, 8);
    ShlByEight(before);
  }

  lemma {:induction false} BitsAreBigEndian(data: seq<byte>, i: nat)
    requires i <= |data|
    ensures GroupValue(data, 0, 8 * i) == BigEndian(data[..i])
  {
    if i > 0 {
      BitsAreBigEndian(data, i - 1);
      WholeByte(data, i - 1);
      assert data[..i][..i - 1] == data[..i - 1];
    }
  }

  lemma {:induction false} AllBits(data: seq<byte>, j: nat)
    ensures GroupValue(data, 0, 8 * |data| + j) == Shl(BigEndian(data), j)
  {
    if j == 0 {
      BitsAreBigEndian(data, |data|);
      assert data[..|data|] == data;
    } else {
      AllBits(data, j - 1);
    }
  }

  // ----- Decoding -----

  /** The number a string of symbols denotes in base 32. */
  function Value32(s: string): nat
    requires forall i :: 0 <= i < |s| ==> InAlphabet(s[i])
  {
    if s == "" then 0 else 32 * Value32(s[..|s| - 1]) + SymbolIndex(s[|s| - 1])
  }

  /** The n low bytes of v, most significant first. */
  function ToBytes(v: nat, n: nat): (data: seq<byte>)
    ensures |data| == n
  {
    if n == 0 then [] else ToBytes(v / 256, n - 1) + [(v % 256) as byte]
  }

  /** Reads a string of symbols back as n bytes. */
  function Decode(s: string, n: nat): (data: seq<byte>)
    requires forall i :: 0 <= i < |s| ==> InAlphabet(s[i])
  {
    ToBytes(Shr(Value32(s), Padding(n)), n)
  }

  lemma {:induction false} Value32OfDigits(v: nat, n: nat)
    requires v < Shl(1, 5 * n)
    ensures Value32(Digits32(v, n)) == v
  {
    if n > 0 {
      ShlSum(1, 5 * (n - 1), 5);
      ShlByFive(Shl(1, 5 * (n - 1)));
      Value32OfDigits(v / 32, n - 1);
      assert Digits32(v, n)[..n - 1] == Digits32(v / 32, n - 1);
    }
  }

  lemma {:induction false} BytesOfBigEndian(data: seq<byte>)
    ensures BigEndian(data) < Shl(1, 8 * |data|)
    ensures ToBytes(BigEndian(data), |data|) == data
  {
    if data != [] {
      var front := data[..|data| - 1];
      BytesOfBigEndian(front);
      ShlSum(1, 8 * |front|, 8);
      ShlByEight(Shl(1, 8 * |front|));
      assert BigEndian(data) / 256 == BigEndian(front);
      assert data == front + [data[|data| - 1]];
    }
  }

  /** Decoding undoes encoding, for byte strings of every length. */
  lemma DecodeEncode(data: seq<byte>)
    ensures Decode(Encode(data), |data|) == data
  {
    var n, pad := |data|, Padding(|data|);
    var v := BigEndian(data);
    BytesOfBigEndian(data);
    ShlMonotone(v, Shl(1, 8 * n), pad);
    ShlSum(1, 8 * n, pad);
    Value32OfDigits(Shl(v, pad), SymbolCount(n));
    ShrUndoesShl(v, pad);
  }

  /** So byte strings of one length have different encodings. */
  lemma EncodeInjective(a: seq<byte>, b: seq<byte>)
    requires |a| == |b| && Encode(a) == Encode(b)
    ensures a == b
  {
    DecodeEncode(a);
    DecodeEncode(b);
  }
}

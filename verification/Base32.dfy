/**
 `encodeBase32` and `decodeBase32` of packages/crypto/src/totp.ts, against section 6 of RFC 4648: the
 text spells, five bits a letter and padded with zero bits, the number the bytes spell eight bits each.
 */
module Base32 {
  type Byte = b: int | 0 <= b < 256

  // ----- JavaScript's 32-bit operators -----

  function Pow2(k: nat): (r: int)
    ensures r > 0
  {
    if k == 0 then 1 else 2 * Pow2(k - 1)
  }

  /** The signed 32-bit value of an integer: what every bitwise operator does to its operands and result. */
  function ToInt32(x: int): int {
    var m := x % 0x1_0000_0000;
    if m >= 0x8000_0000 then m - 0x1_0000_0000 else m
  }

  function ShiftLeft(a: int, k: nat): int {
    ToInt32(a * Pow2(k))
  }

  /** `>>` keeps the sign: division rounding down. */
  function ShiftRight(a: int, k: nat): int {
    a / Pow2(k)
  }

  /** `a | b`, bit by bit, for `b` of `k` bits; a negative `a` has its sign bits on the left. */
  function Or(a: int, b: int, k: nat): (r: int)
    requires 0 <= b < Pow2(k)
    decreases k
  {
    if k == 0 then a
    else 2 * Or(a / 2, b / 2, k - 1) + (if a % 2 == 1 || b % 2 == 1 then 1 else 0)
  }

  /** `a & (2^k - 1)`, bit by bit. */
  function LowBits(a: int, k: nat): (r: int)
    ensures 0 <= r < Pow2(k)
    decreases k
  {
    if k == 0 then 0 else 2 * LowBits(a / 2, k - 1) + a % 2
  }

  /** `(a << k) | b`. */
  function ShiftIn(a: int, k: nat, b: int): int
    requires 0 <= b < Pow2(k)
  {
    Or(ShiftLeft(a, k), b, k)
  }

  lemma HalfOfMultiple(a: int, p: int)
    requires p > 0 && a % (2 * p) == 0
    ensures a % 2 == 0 && a / 2 % p == 0
  {
    var q := a / (2 * p);
    assert a == 2 * (p * q);
    Remainder(a, 2, p * q, 0);
    Remainder(p * q, p, q, 0);
  }

  /** Where no bit is shared, `|` adds. */
  lemma {:induction false} OrAdds(a: int, b: int, k: nat)
    requires 0 <= b < Pow2(k) && a % Pow2(k) == 0
    ensures Or(a, b, k) == a + b
    decreases k
  {
    if k > 0 {
      HalfOfMultiple(a, Pow2(k - 1));
      OrAdds(a / 2, b / 2, k - 1);
    }
  }

  lemma HalfRemainder(a: int, p: int)
    requires p > 0
    ensures a % (2 * p) == 2 * (a / 2 % p) + a % 2
  {
    var h := a / 2;
    var q, r := h / p, h % p;
    assert h == p * q + r;
    assert a == 2 * p * q + (2 * r + a % 2);
    Remainder(a, 2 * p, q, 2 * r + a % 2);
  }

  /** The low bits are the remainder, also of a negative number. */
  lemma {:induction false} LowBitsIsRemainder(a: int, k: nat)
    ensures LowBits(a, k) == a % Pow2(k)
    decreases k
  {
    if k > 0 {
      LowBitsIsRemainder(a / 2, k - 1);
      HalfRemainder(a, Pow2(k - 1));
    }
  }

  lemma {:induction false} Pow2Add(a: nat, b: nat)
    ensures Pow2(a + b) == Pow2(a) * Pow2(b)
  {
    if b > 0 {
      Pow2Add(a, b - 1);
      assert Pow2(a + b) == 2 * Pow2(a + b - 1);
      hide Pow2;
      Doubled(Pow2(a), Pow2(b - 1));
    }
  }

  lemma Doubled(x: int, y: int)
    ensures x * (2 * y) == 2 * (x * y)
  {
  }

  lemma Pow2Values()
    ensures Pow2(5) == 32 && Pow2(8) == 256 && Pow2(32) == 0x1_0000_0000
  {
    assert Pow2(4) == 16;
    Pow2Add(8, 8);
    Pow2Add(16, 16);
  }

  // ----- Numbers written in a base -----

  /** The number spelt by the first `n` digits. */
  function Value(base: int, digits: seq<int>, n: nat): int
    requires n <= |digits|
  {
    if n == 0 then 0 else base * Value(base, digits, n - 1) + digits[n - 1]
  }

  predicate AreDigits(base: int, digits: seq<int>) {
    forall i | 0 <= i < |digits| :: 0 <= digits[i] < base
  }

  lemma {:induction false} ValuePrefix(base: int, a: seq<int>, b: seq<int>, n: nat)
    requires n <= |a| && n <= |b| && forall i | 0 <= i < n :: a[i] == b[i]
    ensures Value(base, a, n) == Value(base, b, n)
  {
    if n > 0 {
      ValuePrefix(base, a, b, n - 1);
    }
  }

  lemma {:induction false} ValueAppend(base: int, a: seq<int>, d: int)
    ensures Value(base, a + [d], |a| + 1) == base * Value(base, a, |a|) + d
  {
    ValuePrefix(base, a + [d], a, |a|);
  }

  lemma {:induction false} ValueUnique(base: int, a: seq<int>, b: seq<int>, n: nat)
    requires base > 0 && n <= |a| && n <= |b| && AreDigits(base, a) && AreDigits(base, b)
    requires Value(base, a, n) == Value(base, b, n)
    ensures forall i | 0 <= i < n :: a[i] == b[i]
  {
    if n > 0 {
      LastDigit(base, Value(base, a, n - 1), a[n - 1], Value(base, b, n - 1), b[n - 1]);
      ValueUnique(base, a, b, n - 1);
    }
  }

  lemma Grows(base: int, x: int, y: int)
    requires base > 0
    ensures x < y ==> base * x + base <= base * y
  {
    if x < y {
      assert base * (x + 1) <= base * y;
    }
  }

  lemma LastDigit(base: int, x: int, d: int, y: int, e: int)
    requires base > 0 && 0 <= d < base && 0 <= e < base && base * x + d == base * y + e
    ensures x == y && d == e
  {
    Grows(base, x, y);
    Grows(base, y, x);
  }

  // ----- The accumulator: its low bits survive the wrap-around -----

  /** The accumulator's low `bits` bits are what has been read and not yet written. */
  predicate Holds(acc: int, bits: nat, rest: int) {
    acc % Pow2(bits) == rest
  }

  lemma Remainder(x: int, m: int, q: int, r: int)
    requires m > 0 && x == m * q + r && 0 <= r < m
    ensures x % m == r && x / m == q
  {
    LastDigit(m, x / m, x % m, q, r);
  }

  lemma WrapsBy32(x: int) returns (turns: int)
    ensures ToInt32(x) == x + Pow2(32) * turns
  {
    Pow2Values();
    turns := if x % 0x1_0000_0000 >= 0x8000_0000 then -(x / 0x1_0000_0000) - 1 else -(x / 0x1_0000_0000);
  }

  lemma Scaled(d: int, m: int, low: int, p: int)
    requires m > 0 && p > 0 && 0 <= low < m && 0 <= d < p
    ensures 0 <= d * m + low < p * m
  {
    assert 0 <= d * m;
    assert (d + 1) * m <= p * m;
  }

  lemma ReadArithmetic(m: int, p: int, q: int, rest: int, b: int, up: int, turns: int, acc: int, x: int)
    requires m > 0 && p > 0 && acc == m * q + rest && 0 <= rest < m && 0 <= b < p
    requires x == acc * p + m * p * up * turns + b
    ensures x % (m * p) == rest * p + b
  {
    assert acc * p == (m * p) * q + rest * p;
    assert m * p * up * turns == (m * p) * (up * turns);
    assert (m * p) * q + (m * p) * (up * turns) == (m * p) * (q + up * turns);
    Scaled(rest, p, b, m);
    Remainder(x, m * p, q + up * turns, rest * p + b);
  }

  /** Shifting left makes room: the new bits only add. */
  lemma ShiftInAdds(a: int, k: nat, b: int)
    requires k <= 32 && 0 <= b < Pow2(k)
    ensures ShiftIn(a, k, b) == ShiftLeft(a, k) + b
  {
    hide Pow2, ToInt32, Or;
    var turns := WrapsBy32(a * Pow2(k));
    Pow2Add(k, 32 - k);
    RoomMade(a, Pow2(k), Pow2(32 - k), turns);
    OrAdds(ShiftLeft(a, k), b, k);
  }

  lemma RoomMade(a: int, p: int, up: int, turns: int)
    requires p > 0
    ensures (a * p + p * up * turns) % p == 0
  {
    assert a * p + p * up * turns == p * (a + up * turns) + 0;
    Remainder(a * p + p * up * turns, p, a + up * turns, 0);
  }

  /** Reading `k` bits: the wrap-around at 2^32 only disturbs bits that were already written. */
  lemma ReadBits(acc: int, bits: nat, rest: int, k: nat, b: int)
    requires bits + k <= 32 && Holds(acc, bits, rest) && 0 <= b < Pow2(k)
    ensures Holds(ShiftIn(acc, k, b), bits + k, rest * Pow2(k) + b)
  {
    hide Pow2, ToInt32, Or;
    var turns := WrapsBy32(acc * Pow2(k));
    Pow2Add(bits, k);
    Pow2Add(bits + k, 32 - bits - k);
    ShiftInAdds(acc, k, b);
    ReadArithmetic(Pow2(bits), Pow2(k), acc / Pow2(bits), rest, b, Pow2(32 - bits - k), turns, acc, ShiftIn(acc, k, b));
  }

  lemma WriteArithmetic(m: int, p: int, acc: int, high: int, low: int, h: int, d: int)
    requires m > 0 && p > 0 && acc == m * high + low && 0 <= low < m && high == p * h + d && 0 <= d < p
    ensures acc % (m * p) == d * m + low
  {
    assert m * (p * h + d) == (m * p) * h + d * m;
    Scaled(d, m, low, p);
    Remainder(acc, m * p, h, d * m + low);
  }

  /** Writing the top `k` of `bits + k` unwritten bits leaves the lower ones. */
  lemma WriteBits(acc: int, bits: nat, k: nat, rest: int)
    requires Holds(acc, bits + k, rest)
    ensures rest == LowBits(ShiftRight(acc, bits), k) * Pow2(bits) + acc % Pow2(bits)
  {
    hide Pow2, LowBits;
    Pow2Add(bits, k);
    var high := acc / Pow2(bits);
    LowBitsIsRemainder(high, k);
    WriteArithmetic(Pow2(bits), Pow2(k), acc, high, acc % Pow2(bits), high / Pow2(k), high % Pow2(k));
  }

  // ----- The alphabet -----

  const ALPHABET := "ABCDEFGHIJKLMNOPQRSTUVWXYZ234567"

  /** `indexOf`: the place of `c` in the alphabet, or -1. */
  function IndexOf(c: char): int {
    if 'A' <= c <= 'Z' then c as int - 'A' as int
    else if '2' <= c <= '7' then c as int - '2' as int + 26
    else -1
  }

  lemma PlaceOfLetter(d: int)
    requires 0 <= d < 32
    ensures IndexOf(ALPHABET[d]) == d
  {
  }

  lemma LetterAtPlace(c: char)
    requires IndexOf(c) >= 0
    ensures IndexOf(c) < 32 && ALPHABET[IndexOf(c)] == c
  {
  }

  /** It is the place, and the only one. */
  lemma IndexOfIsPlace(c: char)
    ensures c in ALPHABET <==> IndexOf(c) >= 0
  {
    hide IndexOf, ALPHABET;
    assert |ALPHABET| == 32 by { ThirtyTwo(); }
    if c in ALPHABET {
      var d :| 0 <= d < |ALPHABET| && ALPHABET[d] == c;
      PlaceOfLetter(d);
    }
    if IndexOf(c) >= 0 {
      LetterAtPlace(c);
    }
  }

  lemma ThirtyTwo()
    ensures |ALPHABET| == 32
  {
  }

  predicate InAlphabet(s: string) {
    forall i | 0 <= i < |s| :: IndexOf(s[i]) >= 0
  }

  function Indices(s: string): (r: seq<int>)
    ensures |r| == |s| && forall i | 0 <= i < |s| :: r[i] == IndexOf(s[i])
  {
    seq(|s|, i requires 0 <= i < |s| => IndexOf(s[i]))
  }

  lemma InAlphabetIsMembership(s: string)
    ensures InAlphabet(s) <==> forall c | c in s :: c in ALPHABET
  {
    hide IndexOf, ALPHABET;
    forall c: char ensures c in ALPHABET <==> IndexOf(c) >= 0 {
      IndexOfIsPlace(c);
    }
  }

  // ----- What the two functions promise -----

  /** The letters spell the bytes' number, followed by zero bits up to a whole letter. */
  predicate IsEncoding(bytes: seq<Byte>, s: string) {
    && InAlphabet(s)
    && |s| == (8 * |bytes| + 4) / 5
    && Value(32, Indices(s), |s|) == Value(256, bytes, |bytes|) * Pow2(5 * |s| - 8 * |bytes|)
  }

  /** The bytes spell the letters' number, less the bits that do not fill a byte. */
  predicate IsDecoding(s: string, bytes: seq<Byte>) {
    && |bytes| == 5 * |s| / 8
    && Value(256, bytes, |bytes|) == Value(32, Indices(s), |s|) / Pow2(5 * |s| - 8 * |bytes|)
  }

  lemma {:induction false} EncodingUnique(bytes: seq<Byte>, s: string, s': string)
    requires IsEncoding(bytes, s) && IsEncoding(bytes, s')
    ensures s == s'
  {
    hide Pow2, Value;
    ValueUnique(32, Indices(s), Indices(s'), |s|);
    forall i | 0 <= i < |s| ensures s[i] == s'[i] {
      assert Indices(s)[i] == Indices(s')[i];
    }
  }

  /** Decoding an encoding gives the bytes back, for every byte sequence. */
  lemma {:induction false} RoundTrip(bytes: seq<Byte>, s: string, bytes': seq<Byte>)
    requires IsEncoding(bytes, s) && IsDecoding(s, bytes')
    ensures bytes' == bytes
  {
    hide Pow2, Value;
    assert |bytes'| == |bytes|;
    var v, p := Value(256, bytes, |bytes|), Pow2(5 * |s| - 8 * |bytes|);
    assert v * p == p * v + 0;
    Remainder(v * p, p, v, 0);
    ValueUnique(256, bytes', bytes, |bytes|);
  }

  // ----- The loops -----

  /** What has been read is what has been written, then the accumulator's low bits. */
  predicate Tracks(read: int, written: int, acc: int, bits: nat) {
    read == written * Pow2(bits) + acc % Pow2(bits)
  }

  lemma DistributeRead(written: int, m: int, low: int, p: int)
    ensures (written * m + low) * p == written * (m * p) + low * p
  {
    assert written * m * p == written * (m * p);
  }

  lemma TracksRead(read: int, written: int, acc: int, bits: nat, k: nat, b: int)
    requires Tracks(read, written, acc, bits) && bits + k <= 32 && 0 <= b < Pow2(k)
    ensures Tracks(read * Pow2(k) + b, written, ShiftIn(acc, k, b), bits + k)
  {
    hide Pow2, ShiftIn;
    var m, p, low := Pow2(bits), Pow2(k), acc % Pow2(bits);
    ReadBits(acc, bits, low, k, b);
    Pow2Add(bits, k);
    DistributeRead(written, m, low, p);
    ReadSum(read, written, m, p, low, b, ShiftIn(acc, k, b) % Pow2(bits + k), Pow2(bits + k));
  }

  lemma ReadSum(read: int, written: int, m: int, p: int, low: int, b: int, low': int, mp: int)
    requires read == written * m + low && low' == low * p + b && mp == m * p
    requires (written * m + low) * p == written * (m * p) + low * p
    ensures read * p + b == written * mp + low'
  {
  }

  lemma WriteSum(written: int, m: int, p: int, d: int)
    ensures written * (m * p) + d * m == (p * written + d) * m
  {
    assert written * (m * p) == (p * written) * m;
  }

  lemma TracksWrite(read: int, written: int, acc: int, bits: nat, k: nat)
    requires Tracks(read, written, acc, bits + k)
    ensures Tracks(read, Pow2(k) * written + LowBits(ShiftRight(acc, bits), k), acc, bits)
  {
    hide Pow2, LowBits, ShiftRight;
    WriteBits(acc, bits, k, acc % Pow2(bits + k));
    Pow2Add(bits, k);
    WriteSum(written, Pow2(bits), Pow2(k), LowBits(ShiftRight(acc, bits), k));
  }

  /** `encodeBase32`. */
  method EncodeBase32(buffer: seq<Byte>) returns (out: string)
    ensures IsEncoding(buffer, out)
  {
    hide Pow2, ShiftIn, LowBits, ShiftRight, ShiftLeft, Value, Tracks, IndexOf;
    Pow2Values();
    var bits, accumulator := 0, 0;
    out := "";
    ghost var written := 0;
    NothingSpelt(256, buffer);
    NothingSpelt(32, Indices(out));
    TracksNothing(Value(256, buffer, 0), written, accumulator, bits);
    for j := 0 to |buffer|
      invariant 0 <= bits < 5 && 5 * |out| + bits == 8 * j
      invariant InAlphabet(out) && written == Value(32, Indices(out), |out|)
      invariant Tracks(Value(256, buffer, j), written, accumulator, bits)
    {
      TracksRead(Value(256, buffer, j), written, accumulator, bits, 8, buffer[j]);
      ValueStep(256, buffer, j);
      accumulator := ShiftIn(accumulator, 8, buffer[j]);
      bits := bits + 8;
      while bits >= 5
        invariant 0 <= bits <= 12 && 5 * |out| + bits == 8 * (j + 1)
        invariant InAlphabet(out) && written == Value(32, Indices(out), |out|)
        invariant Tracks(Value(256, buffer, j + 1), written, accumulator, bits)
      {
        bits := bits - 5;
        TracksWrite(Value(256, buffer, j + 1), written, accumulator, bits, 5);
        var index := LowBits(ShiftRight(accumulator, bits), 5);
        PlaceOfLetter(index);
        AppendLetter(out, ALPHABET[index]);
        written := 32 * written + index;
        out := out + [ALPHABET[index]];
      }
    }
    if bits > 0 {
      var index := LowBits(ShiftLeft(accumulator, 5 - bits), 5);
      LastLetter(Value(256, buffer, |buffer|), written, accumulator, bits);
      PlaceOfLetter(index);
      AppendLetter(out, ALPHABET[index]);
      out := out + [ALPHABET[index]];
    } else {
      NoLastLetter(Value(256, buffer, |buffer|), written, accumulator);
    }
  }

  lemma TracksNothing(read: int, written: int, acc: int, bits: nat)
    requires read == 0 && written == 0 && acc == 0 && bits == 0
    ensures Tracks(read, written, acc, bits)
  {
  }

  lemma NothingSpelt(base: int, digits: seq<int>)
    ensures Value(base, digits, 0) == 0
  {
  }

  lemma ValueStep(base: int, digits: seq<int>, j: nat)
    requires j < |digits|
    ensures Value(base, digits, j + 1) == Value(base, digits, j) * base + digits[j]
  {
  }

  lemma {:induction false} AppendLetter(s: string, c: char)
    requires InAlphabet(s) && IndexOf(c) >= 0
    ensures InAlphabet(s + [c])
    ensures Value(32, Indices(s + [c]), |s| + 1) == 32 * Value(32, Indices(s), |s|) + IndexOf(c)
  {
    hide IndexOf, Value, Indices;
    IndicesAppend(s, c);
    ValueAppend(32, Indices(s), IndexOf(c));
  }

  lemma {:induction false} IndicesAppend(s: string, c: char)
    ensures Indices(s + [c]) == Indices(s) + [IndexOf(c)]
  {
    hide IndexOf, Indices;
    var a, b := Indices(s + [c]), Indices(s) + [IndexOf(c)];
    assert |a| == |b|;
    forall i | 0 <= i < |a| ensures a[i] == b[i] {
    }
  }

  /** The last letter holds the bits left over, moved up by zero bits. */
  lemma LastLetter(read: int, written: int, acc: int, bits: nat)
    requires 0 < bits < 5 && Tracks(read, written, acc, bits)
    ensures 32 * written + LowBits(ShiftLeft(acc, 5 - bits), 5) == read * Pow2(5 - bits)
  {
    hide Pow2, ToInt32, ShiftLeft, Or, LowBits;
    Pow2Values();
    TracksRead(read, written, acc, bits, 5 - bits, 0);
    ShiftInAdds(acc, 5 - bits, 0);
    LowBitsIsRemainder(ShiftLeft(acc, 5 - bits), 5);
  }

  lemma NoLastLetter(read: int, written: int, acc: int)
    requires Tracks(read, written, acc, 0)
    ensures written == read * Pow2(0)
  {
  }

  // ----- Decoding -----

  datatype Decoded = Bytes(bytes: seq<Byte>) | InvalidCharacter(c: char)

  /** Upper-casing letter by letter; `upper` is the platform's table. */
  function UpperCased(s: string, upper: char -> string): string {
    if s == "" then "" else upper(s[0]) + UpperCased(s[1..], upper)
  }

  function WithoutPadding(s: string): string {
    if s != "" && s[|s| - 1] == '=' then WithoutPadding(s[..|s| - 1]) else s
  }

  /** What a regular expression's white-space class matches. */
  predicate IsSpace(c: char) {
    var u := c as int;
    || 9 <= u <= 13 || u == 32 || u == 0xa0 || u == 0x1680 || 0x2000 <= u <= 0x200a
    || u == 0x2028 || u == 0x2029 || u == 0x202f || u == 0x205f || u == 0x3000 || u == 0xfeff
  }

  function WithoutSpaces(s: string): string {
    if s == "" then "" else (if IsSpace(s[0]) then "" else [s[0]]) + WithoutSpaces(s[1..])
  }

  function Clean(value: string, upper: char -> string): string {
    WithoutSpaces(WithoutPadding(UpperCased(value, upper)))
  }

  predicate InAlphabetUpTo(s: string, n: int) {
    forall i | 0 <= i < n && i < |s| :: IndexOf(s[i]) >= 0
  }

  /** `c` is the first character outside the alphabet. */
  predicate FirstStranger(s: string, c: char) {
    exists i :: 0 <= i < |s| && s[i] == c && IndexOf(c) < 0 && InAlphabetUpTo(s, i)
  }

  lemma StrangerFound(s: string, i: nat)
    requires i < |s| && IndexOf(s[i]) < 0 && InAlphabetUpTo(s, i)
    ensures FirstStranger(s, s[i]) && !InAlphabet(s)
  {
  }

  lemma IndexBelow32(c: char)
    ensures IndexOf(c) < 32
  {
  }

  /** `decodeBase32`: accepted exactly when the cleaned text is in the alphabet; else the first stranger. */
  method DecodeBase32(value: string, upper: char -> string) returns (r: Decoded)
    ensures r.Bytes? <==> InAlphabet(Clean(value, upper))
    ensures r.Bytes? ==> IsDecoding(Clean(value, upper), r.bytes)
    ensures r.InvalidCharacter? ==> FirstStranger(Clean(value, upper), r.c)
  {
    hide Pow2, ShiftIn, LowBits, ShiftRight, Value, Tracks, IndexOf, Clean;
    Pow2Values();
    var clean := Clean(value, upper);
    var bits, accumulator := 0, 0;
    var out: seq<Byte> := [];
    ghost var written := 0;
    NothingSpelt(32, Indices(clean));
    NothingSpelt(256, out);
    TracksNothing(Value(32, Indices(clean), 0), written, accumulator, bits);
    for i := 0 to |clean|
      invariant 0 <= bits < 8 && 8 * |out| + bits == 5 * i
      invariant InAlphabetUpTo(clean, i) && written == Value(256, out, |out|)
      invariant Tracks(Value(32, Indices(clean), i), written, accumulator, bits)
    {
      IndexBelow32(clean[i]);
      var index := IndexOf(clean[i]);
      if index < 0 {
        StrangerFound(clean, i);
        return InvalidCharacter(clean[i]);
      }
      TracksRead(Value(32, Indices(clean), i), written, accumulator, bits, 5, index);
      ValueStep(32, Indices(clean), i);
      accumulator := ShiftIn(accumulator, 5, index);
      bits := bits + 5;
      if bits >= 8 {
        bits := bits - 8;
        TracksWrite(Value(32, Indices(clean), i + 1), written, accumulator, bits, 8);
        var octet := LowBits(ShiftRight(accumulator, bits), 8);
        ValueAppend(256, out, octet);
        written := 256 * written + octet;
        out := out + [octet];
      }
    }
    DecodeEnd(Value(32, Indices(clean), |clean|), written, accumulator, bits);
    r := Bytes(out);
  }

  lemma DecodeEnd(read: int, written: int, acc: int, bits: nat)
    requires Tracks(read, written, acc, bits)
    ensures written == read / Pow2(bits)
  {
    hide Pow2;
    Remainder(read, Pow2(bits), written, acc % Pow2(bits));
  }

  // ----- Cleaning -----

  /** Upper-casing leaves capitals, digits, the padding sign and white space alone. */
  ghost predicate Fixes(upper: char -> string) {
    forall c: char | IndexOf(c) >= 0 || c == '=' || IsSpace(c) :: upper(c) == [c]
  }

  function Padding(k: nat): string {
    if k == 0 then "" else Padding(k - 1) + "="
  }

  lemma {:induction false} UpperFixed(s: string, upper: char -> string)
    requires Fixes(upper) && forall i | 0 <= i < |s| :: IndexOf(s[i]) >= 0 || s[i] == '=' || IsSpace(s[i])
    ensures UpperCased(s, upper) == s
  {
    hide IndexOf, IsSpace;
    if s != "" {
      UpperFixed(s[1..], upper);
      assert upper(s[0]) == [s[0]];
      assert s == [s[0]] + s[1..];
    }
  }

  lemma {:induction false} PaddingIs(k: nat)
    ensures |Padding(k)| == k && forall i | 0 <= i < k :: Padding(k)[i] == '='
  {
    if k > 0 {
      PaddingIs(k - 1);
    }
  }

  lemma {:induction false} PaddingRemoved(s: string, k: nat)
    requires s == "" || s[|s| - 1] != '='
    ensures WithoutPadding(s + Padding(k)) == s
  {
    if k == 0 {
      assert s + Padding(0) == s;
    } else {
      hide WithoutPadding;
      PaddingRemoved(s, k - 1);
      assert s + Padding(k) == (s + Padding(k - 1)) + "=";
      OnePadRemoved(s + Padding(k - 1));
    }
  }

  lemma {:induction false} OnePadRemoved(t: string)
    ensures WithoutPadding(t + "=") == WithoutPadding(t)
  {
    assert (t + "=")[..|t|] == t;
  }

  lemma {:induction false} SpacesRemoved(s: string, t: string)
    requires (forall i | 0 <= i < |s| :: !IsSpace(s[i])) && (forall i | 0 <= i < |t| :: IsSpace(t[i]))
    ensures WithoutSpaces(s + t) == s
  {
    hide IsSpace;
    if s != "" {
      SpacesRemoved(s[1..], t);
      assert (s + t)[1..] == s[1..] + t;
      assert s == [s[0]] + s[1..];
    } else if t != "" {
      SpacesRemoved(s, t[1..]);
      assert (s + t)[1..] == s + t[1..];
    }
  }

  lemma LettersAreNotSpaces(c: char)
    ensures IndexOf(c) >= 0 || c == '=' ==> !IsSpace(c)
    ensures IndexOf('=') < 0
  {
  }

  /**
   Text, padding, then white space. The padding is cut only at the very end and before the white space
   is dropped, so it comes out clean with nothing after the padding, and keeps the padding otherwise.
   */
  lemma CleanPadded(s: string, k: nat, t: string, upper: char -> string)
    requires InAlphabet(s) && Fixes(upper) && forall i | 0 <= i < |t| :: IsSpace(t[i])
    ensures Clean(s + Padding(k) + t, upper) == if t == "" then s else s + Padding(k)
  {
    hide IndexOf, IsSpace;
    PaddingIs(k);
    var u := s + Padding(k) + t;
    forall c: char ensures IndexOf(c) >= 0 || c == '=' ==> !IsSpace(c) {
      LettersAreNotSpaces(c);
    }
    LettersAreNotSpaces('=');
    UpperFixed(u, upper);
    if t == "" {
      assert u == s + Padding(k);
      PaddingRemoved(s, k);
      assert s + "" == s;
      SpacesRemoved(s, "");
    } else {
      assert u[|u| - 1] == t[|t| - 1];
      assert WithoutPadding(u) == u;
      SpacesRemoved(s + Padding(k), t);
    }
  }

  /** An encoding is accepted with any padding or any white space after it, but not with both. */
  lemma AcceptedExactlyWithoutBoth(s: string, k: nat, t: string, upper: char -> string)
    requires InAlphabet(s) && Fixes(upper) && forall i | 0 <= i < |t| :: IsSpace(t[i])
    ensures InAlphabet(Clean(s + Padding(k) + t, upper)) <==> k == 0 || t == ""
  {
    hide IndexOf, IsSpace, Clean;
    CleanPadded(s, k, t, upper);
    PaddingIs(k);
    LettersAreNotSpaces('=');
    if k > 0 {
      assert (s + Padding(k))[|s|] == '=';
    } else {
      assert s + Padding(k) == s;
    }
  }

  /** Encoding and decoding in turn, with or without padding, is the identity on byte sequences. */
  method EncodeThenDecode(bytes: seq<Byte>, padding: nat, upper: char -> string) returns (r: Decoded)
    requires Fixes(upper)
    ensures r == Bytes(bytes)
  {
    hide Clean, Pow2, Value, Fixes;
    var s := EncodeBase32(bytes);
    CleanPadded(s, padding, "", upper);
    assert s + Padding(padding) + "" == s + Padding(padding);
    r := DecodeBase32(s + Padding(padding), upper);
    RoundTrip(bytes, s, r.bytes);
  }
}

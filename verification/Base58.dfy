/** Base58 with the Bitcoin alphabet: an in-place base conversion and its big-integer inverse. */
module Base58 {
  import opened Wire

  const ALPHABET: string := "123456789" + "ABCDEFGH" + "JKLMN" + "PQRSTUVWXYZ" + "abcdefghijk" + "mnopqrstuvwxyz"

  type Digits = seq<nat>

  // ---------------------------------------------------------------- powers

  function Pow(b: nat, e: nat): nat {
    if e == 0 then 1 else b * Pow(b, e - 1)
  }

  lemma Associates(x: nat, y: nat, z: nat)
    ensures (x * y) * z == x * (y * z)
  {
  }

  lemma {:induction false} PowAdds(b: nat, m: nat, n: nat)
    ensures Pow(b, m + n) == Pow(b, m) * Pow(b, n)
  {
    if m > 0 {
      PowAdds(b, m - 1, n);
      Associates(b, Pow(b, m - 1), Pow(b, n));
    }
  }

  lemma {:induction false} PowMultiplies(b: nat, m: nat, n: nat)
    ensures Pow(Pow(b, m), n) == Pow(b, m * n)
  {
    if n > 0 {
      PowMultiplies(b, m, n - 1);
      PowAdds(b, m, m * (n - 1));
      assert m + m * (n - 1) == m * n;
    }
  }

  lemma TimesMonotone(a: nat, b: nat, x: nat, y: nat)
    requires a <= b && x <= y
    ensures a * x <= b * y
    ensures a < b && y > 0 ==> a * x < b * y
  {
  }

  lemma {:induction false} PowMonotoneInBase(a: nat, b: nat, e: nat)
    requires a <= b
    ensures Pow(a, e) <= Pow(b, e)
  {
    if e > 0 {
      PowMonotoneInBase(a, b, e - 1);
      TimesMonotone(a, b, Pow(a, e - 1), Pow(b, e - 1));
    }
  }

  lemma PowStrictInBase(a: nat, b: nat, e: nat)
    requires a < b && e > 0
    ensures Pow(a, e) < Pow(b, e)
  {
  }

  lemma {:induction false} PowPositive(b: nat, e: nat)
    requires b > 0
    ensures Pow(b, e) > 0
  {
    if e > 0 {
      PowPositive(b, e - 1);
    }
  }

  lemma {:induction false} PowMonotoneInExponent(b: nat, m: nat, n: nat)
    requires b > 0 && m <= n
    ensures Pow(b, m) <= Pow(b, n)
  {
    PowAdds(b, n - m, m);
    PowPositive(b, n - m);
    PowPositive(b, m);
    assert 1 * Pow(b, m) <= Pow(b, n - m) * Pow(b, m);
  }

  /** Eight bytes fit in eleven base-58 digits. */
  lemma EightBytes()
    ensures Pow(256, 8) <= Pow(58, 11)
  {
  }

  /** The digits reserved for n bytes. */
  function BufferSize(n: nat): nat {
    n * 138 / 100 + 1
  }

  /** The reserved digits always suffice: raise both sides to the eighth power. */
  lemma BufferSuffices(n: nat)
    ensures Pow(256, n) <= Pow(58, BufferSize(n))
  {
    var e := BufferSize(n);
    assert 8 * e >= 11 * n;
    EightBytes();
    calc {
      Pow(Pow(256, n), 8);
    == { PowMultiplies(256, n, 8); PowMultiplies(256, 8, n); assert n * 8 == 8 * n; }
      Pow(Pow(256, 8), n);
    <= { PowMonotoneInBase(Pow(256, 8), Pow(58, 11), n); }
      Pow(Pow(58, 11), n);
    == { PowMultiplies(58, 11, n); }
      Pow(58, 11 * n);
    <= { PowMonotoneInExponent(58, 11 * n, e * 8); }
      Pow(58, e * 8);
    == { PowMultiplies(58, e, 8); }
      Pow(Pow(58, e), 8);
    }
    if Pow(58, e) < Pow(256, n) {
      PowStrictInBase(Pow(58, e), Pow(256, n), 8);
    }
  }

  // ---------------------------------------------------------------- positional notation

  predicate IsDigits(base: nat, d: Digits) {
    forall i :: 0 <= i < |d| ==> d[i] < base
  }

  /** Big-endian value. */
  function Value(base: nat, d: Digits): nat {
    if d == [] then 0 else Shift(Value(base, d[..|d| - 1]), base, d[|d| - 1])
  }

  /** One more digit at the end. */
  function Shift(v: nat, base: nat, last: nat): nat {
    v * base + last
  }

  function Quotient(n: nat, b: nat): (q: nat)
    requires b > 1
    ensures n > 0 ==> q < n
  {
    Divides(n, b);
    n / b
  }

  function Remainder(n: nat, b: nat): (r: nat)
    requires b > 1
    ensures r < b
  {
    n % b
  }

  lemma Divides(n: nat, b: nat)
    requires b > 1
    ensures n > 0 ==> 0 <= n / b < n
  {
    assert n == b * (n / b) + n % b;
    if n > 0 && n / b >= n {
      TimesMonotone(2, b, n, n / b);
    }
  }

  lemma Recompose(n: nat, b: nat)
    requires b > 1
    ensures n == Quotient(n, b) * b + Remainder(n, b)
  {
  }

  /** The digits of n without leading zeros; no digits at all for zero (as big.Int.Bytes does). */
  function ToDigits(base: nat, n: nat): Digits
    requires base > 1
  {
    if n == 0 then [] else ToDigits(base, Quotient(n, base)) + [Remainder(n, base)]
  }

  lemma {:induction false} DigitsAreCanonical(base: nat, n: nat)
    requires base > 1
    ensures IsDigits(base, ToDigits(base, n))
    ensures n > 0 ==> ToDigits(base, n) != [] && ToDigits(base, n)[0] != 0
  {
    hide Quotient, Remainder;
    if n > 0 {
      var q := Quotient(n, base);
      DigitsAreCanonical(base, q);
      Recompose(n, base);
    }
  }

  function LeadingZeros(d: Digits): (z: nat)
    ensures z <= |d| && (forall i :: 0 <= i < z ==> d[i] == 0) && (z < |d| ==> d[z] != 0)
  {
    if d == [] || d[0] != 0 then 0 else 1 + LeadingZeros(d[1..])
  }

  lemma {:induction false} ValueOfDigits(base: nat, n: nat)
    requires base > 1
    ensures Value(base, ToDigits(base, n)) == n
  {
    hide Quotient, Remainder;
    if n > 0 {
      var q := Quotient(n, base);
      ValueOfDigits(base, q);
      Recompose(n, base);
      var d := ToDigits(base, n);
      assert d[..|d| - 1] == ToDigits(base, q);
    }
  }

  lemma {:induction false} ValueBound(base: nat, d: Digits)
    requires base > 1 && IsDigits(base, d)
    ensures Value(base, d) < Pow(base, |d|)
  {
    if d != [] {
      var front := d[..|d| - 1];
      ValueBound(base, front);
      ShiftBound(Value(base, front), Pow(base, |front|), base, d[|d| - 1]);
      hide Shift;
    }
  }

  lemma ShiftBound(v: nat, p: nat, base: nat, last: nat)
    requires v < p && last < base
    ensures Shift(v, base, last) < base * p
  {
    TimesMonotone(v + 1, p, base, base);
    assert (v + 1) * base == v * base + base;
  }

  lemma ShiftPositive(v: nat, base: nat, last: nat)
    requires base > 0 && (v > 0 || last > 0)
    ensures Shift(v, base, last) > 0
  {
    if v > 0 { TimesMonotone(1, v, base, base); }
  }

  lemma {:induction false} ValuePositive(base: nat, d: Digits)
    requires base > 1 && d != [] && d[0] != 0
    ensures Value(base, d) > 0
  {
    var front := d[..|d| - 1];
    if front != [] {
      ValuePositive(base, front);
    }
    ShiftPositive(Value(base, front), base, d[|d| - 1]);
    hide Shift;
  }

  /** Without leading zeros the digits are the only ones with their value. */
  lemma {:induction false} DigitsOfValue(base: nat, d: Digits)
    requires base > 1 && IsDigits(base, d) && (d != [] ==> d[0] != 0)
    ensures ToDigits(base, Value(base, d)) == d
  {
    if d != [] {
      var front, last := d[..|d| - 1], d[|d| - 1];
      assert last < base && IsDigits(base, front) && (front != [] ==> front[0] == d[0]);
      assert Value(base, d) == Shift(Value(base, front), base, last);
      ValuePositive(base, d);
      hide Quotient, Remainder, ToDigits, Shift, Value, IsDigits;
      DigitsOfValue(base, front);
      AppendedDigit(base, Value(base, front), last);
      assert front + [last] == d;
    }
  }

  lemma AppendedDigit(base: nat, q: nat, last: nat)
    requires base > 1 && last < base && Shift(q, base, last) > 0
    ensures ToDigits(base, Shift(q, base, last)) == ToDigits(base, q) + [last]
  {
    QuotientRemainder(q, base, last);
    hide Quotient, Remainder, Shift;
  }

  lemma Multiples(k: int, b: nat)
    ensures k >= 1 ==> k * b >= b
    ensures k <= -1 ==> k * b <= 0 - b
  {
  }

  lemma QuotientRemainder(q: nat, b: nat, r: nat)
    requires b > 1 && r < b
    ensures Quotient(Shift(q, b, r), b) == q && Remainder(Shift(q, b, r), b) == r
  {
    var n := Shift(q, b, r);
    Recompose(n, b);
    var p, s := Quotient(n, b), Remainder(n, b);
    assert (p - q) * b == p * b - q * b;
    Multiples(p - q, b);
  }

  lemma {:induction false} ValueConcatenates(base: nat, a: Digits, b: Digits)
    ensures Value(base, a + b) == Value(base, a) * Pow(base, |b|) + Value(base, b)
  {
    if b == [] {
      assert a + b == a;
    } else {
      var front, last := b[..|b| - 1], b[|b| - 1];
      assert (a + b)[..|a + b| - 1] == a + front;
      ValueConcatenates(base, a, front);
      ShiftLeft(Value(base, a), Pow(base, |front|), Value(base, front), base);
    }
  }

  lemma ShiftLeft(v: nat, p: nat, w: nat, base: nat)
    ensures (v * p + w) * base == v * (base * p) + w * base
  {
  }

  lemma {:induction false} ZerosAreWorthless(base: nat, z: Digits)
    requires forall i :: 0 <= i < |z| ==> z[i] == 0
    ensures Value(base, z) == 0
  {
    if z != [] {
      ZerosAreWorthless(base, z[..|z| - 1]);
    }
  }

  /** Dropping the leading zeros of any digit string leaves the canonical digits of its value. */
  lemma StrippedIsCanonical(base: nat, d: Digits)
    requires base > 1 && IsDigits(base, d)
    ensures ToDigits(base, Value(base, d)) == d[LeadingZeros(d)..]
  {
    hide ToDigits;
    LeadingZerosAreWorthless(base, d, LeadingZeros(d));
    DigitsOfValue(base, d[LeadingZeros(d)..]);
  }

  lemma LeadingZerosAreWorthless(base: nat, d: Digits, z: nat)
    requires z <= |d| && forall i :: 0 <= i < z ==> d[i] == 0
    ensures Value(base, d) == Value(base, d[z..])
  {
    assert d == d[..z] + d[z..];
    ValueConcatenates(base, d[..z], d[z..]);
    ZerosAreWorthless(base, d[..z]);
  }

  // ---------------------------------------------------------------- changing the base

  /** A digit string in another base: leading zeros one for one, the rest by value. */
  function Rebase(source: nat, target: nat, d: Digits): Digits
    requires target > 1
  {
    seq(LeadingZeros(d), _ => 0) + ToDigits(target, Value(source, d))
  }

  lemma LeadingZerosOfPadded(z: nat, d: Digits)
    requires d != [] ==> d[0] != 0
    ensures LeadingZeros(seq(z, _ => 0) + d) == z
  {
    LeadingZerosUnique(seq(z, _ => 0) + d, z);
  }

  lemma {:induction false} LeadingZerosUnique(d: Digits, z: nat)
    requires z <= |d| && (forall i :: 0 <= i < z ==> d[i] == 0) && (z < |d| ==> d[z] != 0)
    ensures LeadingZeros(d) == z
  {
  }

  /** The new digits have the old value and as many leading zeros. */
  lemma RebaseKeeps(source: nat, target: nat, d: Digits)
    requires target > 1
    ensures var r := Rebase(source, target, d);
            IsDigits(target, r) && LeadingZeros(r) == LeadingZeros(d) && Value(target, r) == Value(source, d)
  {
    var z, v := LeadingZeros(d), Value(source, d);
    var tail := ToDigits(target, v);
    var r := seq(z, _ => 0) + tail;
    DigitsAreCanonical(target, v);
    ValueOfDigits(target, v);
    assert v == 0 ==> tail == [];
    hide ToDigits, Value;
    LeadingZerosOfPadded(z, tail);
    LeadingZerosAreWorthless(target, r, z);
    assert r[z..] == tail;
  }

  lemma RebaseInverts(source: nat, target: nat, d: Digits)
    requires source > 1 && target > 1 && IsDigits(source, d)
    ensures IsDigits(target, Rebase(source, target, d))
    ensures Rebase(target, source, Rebase(source, target, d)) == d
  {
    RebaseKeeps(source, target, d);
    RebaseSplits(target, source, Rebase(source, target, d));
    StrippedIsCanonical(source, d);
    hide Rebase, ToDigits, Value, IsDigits;
    assert d == seq(LeadingZeros(d), _ => 0) + d[LeadingZeros(d)..];
  }

  lemma RebaseSplits(source: nat, target: nat, d: Digits)
    requires target > 1
    ensures Rebase(source, target, d) == seq(LeadingZeros(d), _ => 0) + ToDigits(target, Value(source, d))
  {
  }

  // ---------------------------------------------------------------- the codec

  /** Position of a character in the alphabet, -1 outside it. */
  function Index(c: char): (i: int)
    ensures i >= 0 ==> i < 58
  {
    if '1' <= c <= '9' then c as int - '1' as int
    else if 'A' <= c <= 'H' then c as int - 'A' as int + 9
    else if 'J' <= c <= 'N' then c as int - 'J' as int + 17
    else if 'P' <= c <= 'Z' then c as int - 'P' as int + 22
    else if 'a' <= c <= 'k' then c as int - 'a' as int + 33
    else if 'm' <= c <= 'z' then c as int - 'm' as int + 44
    else -1
  }

  function Run(first: char, n: nat): string
    requires first as int + n < 128
  {
    seq(n, i requires 0 <= i < n => (first as int + i) as char)
  }

  lemma AlphabetRuns()
    ensures ALPHABET == Run('1', 9) + Run('A', 8) + Run('J', 5) + Run('P', 11) + Run('a', 11) + Run('m', 14)
  {
    assert "123456789" == Run('1', 9);
    assert "ABCDEFGH" == Run('A', 8);
    assert "JKLMN" == Run('J', 5);
    assert "PQRSTUVWXYZ" == Run('P', 11);
    assert "abcdefghijk" == Run('a', 11);
    assert "mnopqrstuvwxyz" == Run('m', 14);
  }

  lemma AlphabetIsIndexed(i: nat)
    requires i < 58
    ensures |ALPHABET| == 58 && Index(ALPHABET[i]) == i
  {
    AlphabetRuns();
    if i < 9 { assert ALPHABET[i] == Run('1', 9)[i]; }
    else if i < 17 { assert ALPHABET[i] == Run('A', 8)[i - 9]; }
    else if i < 22 { assert ALPHABET[i] == Run('J', 5)[i - 17]; }
    else if i < 33 { assert ALPHABET[i] == Run('P', 11)[i - 22]; }
    else if i < 44 { assert ALPHABET[i] == Run('a', 11)[i - 33]; }
    else { assert ALPHABET[i] == Run('m', 14)[i - 44]; }
  }

  lemma IndexIsInAlphabet(c: char)
    requires Index(c) >= 0
    ensures |ALPHABET| == 58 && ALPHABET[Index(c)] == c
  {
    AlphabetRuns();
    var i := Index(c);
    if i < 9 { assert ALPHABET[i] == Run('1', 9)[i]; }
    else if i < 17 { assert ALPHABET[i] == Run('A', 8)[i - 9]; }
    else if i < 22 { assert ALPHABET[i] == Run('J', 5)[i - 17]; }
    else if i < 33 { assert ALPHABET[i] == Run('P', 11)[i - 22]; }
    else if i < 44 { assert ALPHABET[i] == Run('a', 11)[i - 33]; }
    else { assert ALPHABET[i] == Run('m', 14)[i - 44]; }
  }

  function Letter(v: nat): (c: char)
    requires v < 58
    ensures Index(c) == v
  {
    AlphabetIsIndexed(v);
    ALPHABET[v]
  }

  function Letters(d: Digits): string
    requires IsDigits(58, d)
  {
    seq(|d|, i requires 0 <= i < |d| => Letter(d[i]))
  }

  predicate IsBase58(s: string) {
    forall i :: 0 <= i < |s| ==> Index(s[i]) >= 0
  }

  function Indices(s: string): Digits
    requires IsBase58(s)
  {
    seq(|s|, i requires 0 <= i < |s| => Index(s[i]))
  }

  function Encode(b: Bytes): string {
    RebaseInverts(256, 58, b);
    Letters(Rebase(256, 58, b))
  }

  function Decode(s: string): Option<Bytes> {
    if !IsBase58(s) then None else
    RebaseInverts(58, 256, Indices(s));
    Some(Rebase(58, 256, Indices(s)))
  }

  lemma DecodeInvertsEncode(b: Bytes)
    ensures Decode(Encode(b)) == Some(b)
  {
    RebaseInverts(256, 58, b);
    var d := Rebase(256, 58, b);
    hide Rebase, IsDigits;
    LettersIndexed(d);
  }

  lemma LettersIndexed(d: Digits)
    requires IsDigits(58, d)
    ensures IsBase58(Letters(d)) && Indices(Letters(d)) == d
  {
  }

  lemma IndicesLettered(s: string)
    requires IsBase58(s)
    ensures IsDigits(58, Indices(s)) && Letters(Indices(s)) == s
  {
    forall i | 0 <= i < |s| ensures Letter(Index(s[i])) == s[i] {
      IndexIsInAlphabet(s[i]);
    }
  }

  /** Every string over the alphabet is the encoding of what it decodes to; every other string is rejected. */
  lemma EncodeInvertsDecode(s: string)
    ensures Decode(s).Some? <==> IsBase58(s)
    ensures Decode(s).Some? ==> Encode(Decode(s).value) == s
  {
    if IsBase58(s) {
      IndicesLettered(s);
      RebaseInverts(58, 256, Indices(s));
      hide Rebase, IsDigits, Letters, Indices;
    }
  }

  /** Peer ids derived from public keys. */
  function PeerId(publicKey: Bytes): string {
    "ed25519:" + Encode(publicKey)
  }

  lemma PeerIdsAreInjective(a: Bytes, b: Bytes)
    requires PeerId(a) == PeerId(b)
    ensures a == b
  {
    assert PeerId(a)[8..] == Encode(a) && PeerId(b)[8..] == Encode(b);
    DecodeInvertsEncode(a);
    DecodeInvertsEncode(b);
  }

  // ---------------------------------------------------------------- the in-place encoder

  /** What the inner loop conserves: digits still to be multiplied count 256-fold, and they and the carry weigh
      by the digits already rewritten. */
  function Balance(carry: nat, todo: Digits, done: Digits): nat {
    (carry + 256 * Value(58, todo)) * Pow(58, |done|) + Value(58, done)
  }

  lemma CarryConserves(carry: nat, todo: Digits, done: Digits)
    requires todo != []
    ensures var c := carry + 256 * todo[|todo| - 1];
            Balance(c / 58, todo[..|todo| - 1], [c % 58] + done) == Balance(carry, todo, done)
  {
    var front, last := todo[..|todo| - 1], todo[|todo| - 1];
    var c, v, p := carry + 256 * last, Value(58, front), Pow(58, |done|);
    assert Value(58, [c % 58]) == c % 58;
    ValueConcatenates(58, [c % 58], done);
    CarryArithmetic(c / 58, c % 58, v, p, carry, last);
  }

  lemma CarryArithmetic(q: nat, r: nat, v: nat, p: nat, carry: nat, last: nat)
    requires 58 * q + r == carry + 256 * last
    ensures (q + 256 * v) * (58 * p) + r * p == (carry + 256 * (v * 58 + last)) * p
  {
  }

  /** One pass of the inner loop: the big-endian number in `encoded` is multiplied by 256 and increased by
      `byt`, digit by digit from the back; what does not fit is the carry. */
  method MultiplyAdd(encoded: array<byte>, byt: byte) returns (carry: nat)
    requires IsDigits(58, encoded[..])
    modifies encoded
    ensures IsDigits(58, encoded[..])
    ensures carry * Pow(58, encoded.Length) + Value(58, encoded[..]) == 256 * old(Value(58, encoded[..])) + byt
  {
    hide Value, Pow, Balance;
    BalanceAtStart(byt, encoded[..]);
    carry := CarryThrough(encoded, byt);
    BalanceAtEnd(carry, encoded[..]);
  }

  /** The loop over the positions, from the back. */
  method CarryThrough(encoded: array<byte>, byt: byte) returns (carry: nat)
    requires IsDigits(58, encoded[..])
    modifies encoded
    ensures IsDigits(58, encoded[..])
    ensures Balance(carry, [], encoded[..]) == old(Balance(byt, encoded[..], []))
  {
    hide Value, Pow, Balance;
    ghost var before := encoded[..];
    carry := byt;
    var j := encoded.Length - 1;
    assert before[..j + 1] == before && encoded[j + 1..] == [];
    while j >= 0
      invariant -1 <= j < encoded.Length
      invariant encoded[..j + 1] == before[..j + 1]
      invariant IsDigits(58, encoded[..])
      invariant Balance(carry, before[..j + 1], encoded[j + 1..]) == Balance(byt, before, [])
    {
      ghost var todo, done := before[..j + 1], encoded[j + 1..];
      CarryConserves(carry, todo, done);
      LastOf(before, j);
      assert encoded[..j + 1][j] == before[j];
      carry := carry + 256 * (encoded[j] as int);
      encoded[j] := carry % 58;
      assert encoded[j..] == [carry % 58] + done;
      carry := carry / 58;
      j := j - 1;
    }
    assert encoded[..] == encoded[0..] && before[..0] == [];
  }

  lemma LastOf(before: Digits, j: nat)
    requires j < |before|
    ensures var todo := before[..j + 1]; todo[|todo| - 1] == before[j] && todo[..|todo| - 1] == before[..j]
  {
  }

  lemma BalanceAtStart(byt: byte, before: Digits)
    ensures Balance(byt, before, []) == 256 * Value(58, before) + byt
  {
  }

  lemma BalanceAtEnd(carry: nat, done: Digits)
    ensures Balance(carry, [], done) == carry * Pow(58, |done|) + Value(58, done)
  {
  }

  /** The running number never outgrows the buffer, so every pass ends with carry 0. */
  lemma NoCarry(n: nat, read: Bytes, byt: byte, carry: nat, digits: Digits)
    requires |read| < n && |digits| == BufferSize(n)
    requires carry * Pow(58, |digits|) + Value(58, digits) == 256 * Value(256, read) + byt
    ensures carry == 0 && Value(58, digits) == Value(256, read + [byt])
  {
    var all := read + [byt];
    assert all[..|all| - 1] == read;
    assert Value(256, all) == Shift(Value(256, read), 256, byt);
    assert Shift(Value(256, read), 256, byt) == 256 * Value(256, read) + byt;
    hide Value, Pow, BufferSize, Shift;
    ValueBound(256, all);
    PowMonotoneInExponent(256, |all|, n);
    BufferSuffices(n);
    CarryIsZero(carry, Pow(58, |digits|), Value(58, digits), Value(256, all));
  }

  lemma CarryIsZero(carry: nat, p: nat, v: nat, w: nat)
    requires carry * p + v == w < p
    ensures carry == 0 && v == w
  {
    if carry > 0 { TimesMonotone(1, carry, p, p); }
  }

  method CountLeadingZeros(d: Bytes) returns (z: nat)
    ensures z == LeadingZeros(d)
  {
    z := 0;
    while z < |d| && d[z] == 0
      invariant z <= |d| && forall i :: 0 <= i < z ==> d[i] == 0
    {
      z := z + 1;
    }
    LeadingZerosUnique(d, z);
  }

  /** The conversion loop: `encoded` holds the exact base-58 value of the bytes read so far. */
  method Convert(tail: Bytes) returns (encoded: array<byte>)
    ensures fresh(encoded) && IsDigits(58, encoded[..])
    ensures Value(58, encoded[..]) == Value(256, tail)
  {
    hide Value;
    encoded := new byte[|tail| * 138 / 100 + 1](_ => 0);
    ZerosAreWorthless(58, encoded[..]);
    ZerosAreWorthless(256, tail[..0]);
    for i := 0 to |tail|
      invariant IsDigits(58, encoded[..])
      invariant Value(58, encoded[..]) == Value(256, tail[..i])
    {
      var carry := MultiplyAdd(encoded, tail[i]);
      NoCarry(|tail|, tail[..i], tail[i], carry, encoded[..]);
      assert tail[..i + 1] == tail[..i] + [tail[i]];
    }
    assert tail[..|tail|] == tail;
  }

  method Render(zeros: nat, digits: Bytes) returns (s: string)
    requires IsDigits(58, digits)
    ensures s == Letters(seq(zeros, _ => 0) + digits)
  {
    var out := new char[zeros + |digits|];
    for i := 0 to zeros
      invariant forall k :: 0 <= k < i ==> out[k] == Letter(0)
    {
      out[i] := Letter(0);
    }
    for j := 0 to |digits|
      invariant forall k :: 0 <= k < zeros ==> out[k] == Letter(0)
      invariant forall k :: 0 <= k < j ==> out[zeros + k] == Letter(digits[k])
    {
      out[zeros + j] := Letter(digits[j]);
    }
    s := out[..];
    forall k | zeros <= k < |s| ensures s[k] == Letter(digits[k - zeros]) {
      assert out[zeros + (k - zeros)] == Letter(digits[k - zeros]);
    }
  }

  /** Any base-58 digits with the value of the bytes behind the leading zeros give the encoding, once their own
      leading zeros are skipped. */
  lemma EncodeByDigits(b: Bytes, digits: Digits)
    requires IsDigits(58, digits)
    requires Value(58, digits) == Value(256, b[LeadingZeros(b)..])
    ensures Rebase(256, 58, b) == seq(LeadingZeros(b), _ => 0) + digits[LeadingZeros(digits)..]
  {
    LeadingZerosAreWorthless(256, b, LeadingZeros(b));
    StrippedIsCanonical(58, digits);
  }

  method EncodeBase58(b: Bytes) returns (s: string)
    ensures s == Encode(b)
  {
    hide Value, ToDigits, Letters;
    if |b| == 0 {
      EncodeNothing();
      return "";
    }
    var zeros := CountLeadingZeros(b);
    var encoded := Convert(b[zeros..]);
    var leading := CountLeadingZeros(encoded[..]);
    EncodeByDigits(b, encoded[..]);
    s := Render(zeros, encoded[leading..]);
  }

  lemma EncodeNothing()
    ensures Encode([]) == ""
  {
  }

  // ---------------------------------------------------------------- the decoder

  /** base58Index: alphabet positions for the 128 ASCII codes. */
  class IndexTable {
    const base58Index: array<int>

    ghost predicate Valid()
      reads base58Index
    {
      base58Index.Length == 128 && forall c: char :: c as int < 128 ==> base58Index[c as int] == Index(c)
    }

    constructor ()
      ensures Valid()
    {
      base58Index := new int[128](_ => -1);
      new;
      for i := 0 to 58
        invariant forall c: char :: c as int < 128 ==>
                    base58Index[c as int] == if Index(c) < i then Index(c) else -1
      {
        IndexMeansLetter(i);
        base58Index[ALPHABET[i] as int] := i;
      }
    }
  }

  lemma IndexMeansLetter(i: nat)
    requires i < 58
    ensures |ALPHABET| == 58 && ALPHABET[i] as int < 128
    ensures forall c: char :: Index(c) == i <==> c == ALPHABET[i]
  {
    AlphabetIsIndexed(i);
    forall c: char | Index(c) == i ensures c == ALPHABET[i] {
      IndexIsInAlphabet(c);
    }
  }

  lemma AppendLetter(t: string, c: char)
    requires IsBase58(t) && Index(c) >= 0
    ensures IsBase58(t + [c])
    ensures Value(58, Indices(t + [c])) == Value(58, Indices(t)) * 58 + Index(c)
  {
    var d := Indices(t);
    assert Indices(t + [c]) == d + [Index(c)];
    assert (d + [Index(c)])[..|d|] == d;
  }

  /** Decoding by parts: leading ones, then the value of the rest. */
  lemma DecodeByParts(s: string, zeros: nat)
    requires zeros <= |s| && IsBase58(s[zeros..])
    requires forall i :: 0 <= i < zeros ==> Index(s[i]) == 0
    requires zeros < |s| ==> Index(s[zeros]) != 0
    ensures IsBase58(s)
    ensures Rebase(58, 256, Indices(s)) ==
            seq(zeros, _ => 0) + ToDigits(256, Value(58, Indices(s[zeros..])))
  {
    hide Value, ToDigits, Index;
    forall i | 0 <= i < |s| ensures Index(s[i]) >= 0 {
      assert i >= zeros ==> s[i] == s[zeros..][i - zeros];
    }
    LeadingZerosUnique(Indices(s), zeros);
    LeadingZerosAreWorthless(58, Indices(s), zeros);
    assert Indices(s)[zeros..] == Indices(s[zeros..]);
  }

  method DecodeBase58(table: IndexTable, s: string) returns (r: Option<Bytes>)
    requires table.Valid()
    ensures r == Decode(s)
  {
    hide Value, ToDigits, Indices, Rebase;
    if |s| == 0 {
      DecodeNothing();
      return Some([]);
    }
    IndexMeansLetter(0);
    var zeros := 0;
    while zeros < |s| && s[zeros] == ALPHABET[0]
      invariant zeros <= |s| && forall i :: 0 <= i < zeros ==> Index(s[i]) == 0
    {
      zeros := zeros + 1;
    }
    var acc := 0;
    NoLetters();
    assert s[zeros..zeros] == "";
    for i := zeros to |s|
      invariant IsBase58(s[zeros..i])
      invariant acc == Value(58, Indices(s[zeros..i]))
    {
      var c := s[i];
      if c as int >= 128 || table.base58Index[c as int] < 0 {
        return None;
      }
      AppendLetter(s[zeros..i], c);
      assert s[zeros..i + 1] == s[zeros..i] + [c];
      acc := acc * 58 + table.base58Index[c as int];
    }
    assert s[zeros..|s|] == s[zeros..];
    DecodeByParts(s, zeros);
    DigitsAreCanonical(256, acc);
    var decoded: Bytes := ToDigits(256, acc);
    r := Some(seq(zeros, _ => 0) + decoded);
  }

  lemma NoLetters()
    ensures Value(58, Indices("")) == 0
  {
  }

  lemma DecodeNothing()
    ensures Decode("") == Some([])
  {
    assert Indices("") == [];
    assert Value(58, Indices("")) == 0 && LeadingZeros(Indices("")) == 0;
    assert seq(0, _ => 0) + ToDigits(256, 0) == [];
  }
}

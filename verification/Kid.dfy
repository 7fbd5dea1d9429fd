/**
 The key id of the broker: the first 26 base-32 characters of a 32-byte digest, read
 through a 32-bit accumulator.
 */
module Kid {
  import opened Numerals
  import opened WireIds

  const WORD: nat := 0x1_0000_0000

  /** The first 130 bits of a digest, as a number. */
  function Leading(sum: seq<nat>): nat
    requires |sum| >= 17
  {
    Value(256, sum[..17]) / 64
  }

  /** The key id as base-32 digits of those bits. */
  function KidOf(sum: seq<nat>): string
    requires |sum| >= 17
  {
    "kid_" + Spell(Digits(32, Leading(sum), 26))
  }

  function Cut(v: nat, bits: nat): nat
    requires bits <= 12
  {
    PowPositive(2, bits);
    Quotient(v, Pow(2, bits))
  }

  /** The accumulator forgets only bits above those still to be read. */
  lemma AccumulatorDigit(v: nat, bits: nat)
    requires bits <= 7
    ensures Remainder(Cut(v % WORD, bits), 32) == Remainder(Cut(v, bits), 32)
  {
    var h, a, p, r := v / WORD, v % WORD, Pow(2, bits), Pow(2, 27 - bits);
    PowPositive(2, bits);
    WordSplits(bits);
    Regroup(h, r, p);
    var x := h * r;
    QuotientShift(x * 32, a, p);
    QuotientShift(x, Quotient(a, p), 32);
  }

  lemma Regroup(h: nat, r: nat, p: nat)
    ensures h * (32 * r * p) == ((h * r) * 32) * p
  {
  }

  lemma WordSplits(bits: nat)
    requires bits <= 7
    ensures WORD == 32 * Pow(2, 27 - bits) * Pow(2, bits)
  {
    PowSum(2, 27 - bits, bits);
    PowSum(2, 13, 14);
  }

  /** Five bits fewer below the cut: one more digit above it. */
  lemma CutFive(v: nat, bits: nat)
    requires bits <= 7
    ensures Quotient(Cut(v, bits), 32) == Cut(v, bits + 5)
  {
    PowPositive(2, bits);
    PowSum(2, bits, 5);
    QuotientTwice(v, Pow(2, bits), 32);
  }

  lemma CutByte(v: nat, b: nat, bits: nat)
    requires b < 256 && bits <= 4
    ensures Cut(v * 256 + b, bits + 8) == Cut(v, bits)
  {
    PowPositive(2, bits);
    PowSum(2, 8, bits);
    QuotientTwice(v * 256 + b, 256, Pow(2, bits));
    Carry(256, v, b);
  }

  lemma AppendByte(sum: seq<nat>, i: nat)
    requires i < |sum|
    ensures Value(256, sum[..i + 1]) == Value(256, sum[..i]) * 256 + sum[i]
  {
    assert sum[..i + 1][..i] == sum[..i];
  }

  lemma AppendDigit(v: nat, n: nat, body: string)
    requires body == Spell(Digits(32, Quotient(v, 32), n))
    ensures body + [CharOf(Remainder(v, 32))] == Spell(Digits(32, v, n + 1))
  {
  }

  /** `body` holds the digits of the first `i` bytes but for the last `bits` bits. */
  ghost predicate Holds(body: string, v: nat, i: nat, bits: nat) {
    8 * i == 5 * |body| + bits && bits <= 12 && body == Spell(Digits(32, Cut(v, bits), |body|))
  }

  /** The inner loop: as many digits as the pending bits give, up to 26. */
  method Emit(body0: string, bits0: nat, acc: nat, ghost v: nat, ghost i: nat) returns (body: string, bits: nat)
    requires acc == v % WORD && Holds(body0, v, i, bits0) && |body0| <= 26
    ensures Holds(body, v, i, bits) && |body| <= 26 && (bits < 5 || |body| == 26)
  {
    body, bits := body0, bits0;
    while bits >= 5 && |body| < 26
      invariant Holds(body, v, i, bits) && |body| <= 26
    {
      bits := bits - 5;
      AccumulatorDigit(v, bits);
      CutFive(v, bits);
      AppendDigit(Cut(v, bits), |body|, body);
      body := body + [CharOf(Remainder(Cut(acc, bits), 32))];
    }
  }

  /** Shifting a byte into the accumulator: the low bits are free and the high ones fall out. */
  lemma ShiftByte(v: nat, b: nat)
    requires b < 256
    ensures (v % WORD * 256) % WORD + b == (v * 256 + b) % WORD
  {
    var h, a := v / WORD, v % WORD;
    var k, t := a / 0x100_0000, a % 0x100_0000;
    assert a == k * 0x100_0000 + t;
    Carry(WORD, k, t * 256);
    Carry(WORD, 256 * h + k, t * 256 + b);
    assert v * 256 + b == (256 * h + k) * WORD + (t * 256 + b);
  }

  lemma NextByte(sum: seq<nat>, i: nat, body: string, bits: nat)
    requires i < |sum| && Are(256, sum) && bits <= 4 && Holds(body, Value(256, sum[..i]), i, bits)
    ensures Holds(body, Value(256, sum[..i + 1]), i + 1, bits + 8)
    ensures (Value(256, sum[..i]) % WORD * 256) % WORD + sum[i] == Value(256, sum[..i + 1]) % WORD
  {
    AppendByte(sum, i);
    CutByte(Value(256, sum[..i]), sum[i], bits);
    ShiftByte(Value(256, sum[..i]), sum[i]);
  }

  lemma AtTwentySix(body: string, v: nat, i: nat, bits: nat)
    requires Holds(body, v, i, bits) && |body| == 26
    ensures i == 17 && body == Spell(Digits(32, v / 64, 26))
  {
    assert bits == 6;
  }

  /** `KIDFromPublicKey` on the digest of the public key. */
  method KidFromDigest(sum: seq<nat>) returns (kid: string)
    requires |sum| == 32 && Are(256, sum)
    ensures kid == KidOf(sum)
  {
    var body: string := [];
    var acc: nat, bits: nat := 0, 0;
    var i := 0;
    while i < |sum|
      invariant 0 <= i <= |sum| && acc == Value(256, sum[..i]) % WORD
      invariant Holds(body, Value(256, sum[..i]), i, bits) && bits <= 4 && |body| < 26
    {
      NextByte(sum, i, body, bits);
      acc := (acc * 256) % WORD + sum[i];
      body, bits := Emit(body, bits + 8, acc, Value(256, sum[..i + 1]), i + 1);
      i := i + 1;
      if |body| == 26 { break; }
    }
    AtTwentySix(body, Value(256, sum[..i]), i, bits);
    kid := "kid_" + body;
  }

  /** The 256 bits of a digest, most significant first. */
  function DigestBits(sum: seq<nat>): (bits: seq<nat>)
    ensures |bits| == 256
  {
    Digits(2, Value(256, sum), 256)
  }

  /** The leading bits are what is left when the other bytes and six bits are dropped. */
  lemma TopBits(head: seq<nat>, tail: seq<nat>, low: nat)
    requires Are(256, tail) && low == 8 * |tail| + 6
    ensures Pow(2, low) > 0 && Quotient(Value(256, head + tail), Pow(2, low)) == Value(256, head) / 64
  {
    var n, v := |tail|, Value(256, head + tail);
    assert Pow(2, 8) == 256 && Pow(2, 6) == 64;
    PowTimes(2, 8, 256, n);
    PowSum(2, 8 * n, 6);
    PowPositive(256, n);
    ValueConcat(256, head, tail);
    ValueBelow(256, tail);
    Carry(Pow(256, n), Value(256, head), Value(256, tail));
    QuotientTwice(v, Pow(256, n), 64);
  }

  lemma LeadingIs(sum: seq<nat>)
    requires |sum| == 32 && Are(256, sum)
    ensures DigestBits(sum)[..130] == Digits(2, Leading(sum), 130)
  {
    var head, tail := sum[..17], sum[17..];
    assert sum == head + tail;
    var low := 8 * |tail| + 6;
    TopBits(head, tail, low);
    DigitsFront(2, Value(256, sum), 130, low);
  }

  /** Character `i` of the id is bits `5 * i` to `5 * i + 4` of the digest. */
  lemma KidCharacter(sum: seq<nat>, i: nat)
    requires |sum| == 32 && Are(256, sum) && i < 26
    ensures |KidOf(sum)| == 30
    ensures KidOf(sum)[4 + i] == CharOf(Digits(32, Leading(sum), 26)[i])
    ensures Digits(32, Leading(sum), 26)[i] == Value(2, DigestBits(sum)[5 * i..5 * i + 5])
  {
    LeadingIs(sum);
    DigitsOfFive(Leading(sum), 26, i);
    assert DigestBits(sum)[..130][5 * i..5 * i + 5] == DigestBits(sum)[5 * i..5 * i + 5];
  }

  /** Two digests get the same key id exactly when their first 130 bits agree. */
  lemma KidIsLeadingBits(sum: seq<nat>, other: seq<nat>)
    requires |sum| == |other| == 32 && Are(256, sum) && Are(256, other)
    ensures KidOf(sum) == KidOf(other) <==> DigestBits(sum)[..130] == DigestBits(other)[..130]
  {
    KidValue(sum);
    KidValue(other);
    LeadingIs(sum);
    LeadingIs(other);
    BitsValue(sum, 26);
    BitsValue(other, 26);
  }

  lemma BitsValue(sum: seq<nat>, n: nat)
    requires |sum| == 32 && Are(256, sum) && n == 26
    ensures Value(2, Digits(2, Leading(sum), 5 * n)) == Leading(sum)
  {
    LeadingBelow(sum, n);
    assert Pow(2, 5) == 32;
    PowTimes(2, 5, 32, n);
    ValueOfDigits(2, Leading(sum), 5 * n);
  }

  lemma LeadingBelow(sum: seq<nat>, n: nat)
    requires |sum| == 32 && Are(256, sum) && n == 26
    ensures Leading(sum) < Pow(32, n)
  {
    ValueBelow(256, sum[..17]);
    LeadingBound(17, n);
  }

  lemma KidValue(sum: seq<nat>)
    requires |sum| == 32 && Are(256, sum)
    ensures KidOf(sum)[4..] == Spell(Digits(32, Leading(sum), 26))
    ensures IsToken(KidOf(sum)[4..]) && Value(32, TokenDigits(KidOf(sum)[4..])) == Leading(sum)
  {
    var digits := Digits(32, Leading(sum), 26);
    AfterPrefix("kid_", Spell(digits));
    SpellDigits(digits);
    LeadingBelow(sum, 26);
    ValueOfDigits(32, Leading(sum), 26);
  }

  lemma LeadingBound(m: nat, n: nat)
    ensures m == 17 && n == 26 ==> Pow(256, m) == 64 * Pow(32, n)
  {
    PowSum(256, 8, 9);
    PowSum(32, 13, 13);
    assert Pow(256, 8) == 0x1_0000_0000_0000_0000 && Pow(32, 13) == 0x2_0000_0000_0000_0000;
  }
}

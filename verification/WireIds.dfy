/**
 Wire-form ids: the encoder of the Kong syncer, which writes a database UUID as a
 prefix and 26 Crockford base-32 characters, and the decoder of the proxy plugin,
 which reads ids back.  Strings are ASCII.
 */
module WireIds {
  import opened Basics
  import opened Numerals

  const TWO64: nat := 0x1_0000_0000_0000_0000
  const TWO59: nat := 0x0800_0000_0000_0000
  const TWO128: nat := 0x1_0000_0000_0000_0000_0000_0000_0000_0000
  const ALPHABET: string := "0123456789ABCDEFGHJKMNPQRSTVWXYZ"

  // ------------------------------------------------------------ characters

  function CharOf(d: nat): char
    requires d < 32
  {
    ALPHABET[d]
  }

  /** The value of a Crockford character, or -1. */
  function DigitOf(c: char): (d: int)
    ensures -1 <= d < 32
  {
    if '0' <= c <= '9' then c as int - '0' as int
    else if 'A' <= c <= 'H' then c as int - 'A' as int + 10
    else if 'J' <= c <= 'K' then c as int - 'J' as int + 18
    else if 'M' <= c <= 'N' then c as int - 'M' as int + 20
    else if 'P' <= c <= 'T' then c as int - 'P' as int + 22
    else if 'V' <= c <= 'Z' then c as int - 'V' as int + 27
    else -1
  }

  /** The value of a hexadecimal digit of either case, or -1. */
  function HexDigit(c: char): (d: int)
    ensures -1 <= d < 16
  {
    if '0' <= c <= '9' then c as int - '0' as int
    else if 'a' <= c <= 'f' then c as int - 'a' as int + 10
    else if 'A' <= c <= 'F' then c as int - 'A' as int + 10
    else -1
  }

  function HexChar(d: nat): char
    requires d < 16
  {
    "0123456789abcdef"[d]
  }

  function UpperChar(c: char): char {
    if 'a' <= c <= 'z' then (c as int - 32) as char else c
  }

  function LowerChar(c: char): char {
    if 'A' <= c <= 'Z' then (c as int + 32) as char else c
  }

  function Lower(s: string): (r: string)
    ensures |r| == |s|
  {
    seq(|s|, i requires 0 <= i < |s| => LowerChar(s[i]))
  }

  predicate IsHex(s: string) {
    forall i :: 0 <= i < |s| ==> HexDigit(s[i]) >= 0
  }

  lemma CharRoundTrip(d: nat)
    requires d < 32
    ensures DigitOf(CharOf(d)) == d && UpperChar(CharOf(d)) == CharOf(d)
  {
    if d < 10 {
      assert CharOf(d) as int == '0' as int + d;
    } else if d < 18 {
      assert CharOf(d) as int == 'A' as int + d - 10;
    } else if d < 22 {
    } else if d < 27 {
      assert CharOf(d) as int == 'P' as int + d - 22;
    } else {
      assert CharOf(d) as int == 'V' as int + d - 27;
    }
  }

  lemma DigitRoundTrip(c: char)
    requires DigitOf(c) >= 0
    ensures CharOf(DigitOf(c)) == c
  {
    CharRoundTrip(DigitOf(c));
    SameDigit(CharOf(DigitOf(c)), c);
  }

  lemma SameDigit(a: char, b: char)
    requires DigitOf(a) == DigitOf(b) >= 0
    ensures a == b
  {
  }

  lemma HexRoundTrip(c: char)
    requires HexDigit(c) >= 0
    ensures HexChar(HexDigit(c)) == LowerChar(c)
  {
  }

  // ------------------------------------------------------------ UUID text

  function Strip(s: string): string {
    if s == [] then [] else (if s[0] == '-' then [] else [s[0]]) + Strip(s[1..])
  }

  /** Thirty-two hexadecimal digits of either case, and any dashes at all. */
  predicate IsUuid(u: string) {
    |Strip(u)| == 32 && IsHex(Strip(u))
  }

  function Nibbles(s: string): (ds: seq<nat>)
    requires IsHex(s)
    ensures |ds| == |s| && Are(16, ds)
  {
    seq(|s|, i requires 0 <= i < |s| => HexDigit(s[i]))
  }

  /** The 128-bit number a UUID denotes. */
  function Number(u: string): nat
    requires IsUuid(u)
  {
    Value(16, Nibbles(Strip(u)))
  }

  function Dash(h: string): string
    requires |h| >= 20
  {
    h[..8] + "-" + h[8..12] + "-" + h[12..16] + "-" + h[16..20] + "-" + h[20..]
  }

  /** The lowercase dashed form. */
  function Canonical(u: string): string
    requires IsUuid(u)
  {
    Dash(Lower(Strip(u)))
  }

  // ------------------------------------------------------------ the encoder

  function Spell(ds: seq<nat>): (s: string)
    requires Are(32, ds)
    ensures |s| == |ds|
  {
    seq(|ds|, i requires 0 <= i < |ds| => CharOf(ds[i]))
  }

  function Token(v: nat): (t: string)
    ensures |t| == 26
  {
    Spell(Digits(32, v, 26))
  }

  function Wire(u: string, prefix: string): string
    requires IsUuid(u)
  {
    prefix + "_" + Token(Number(u))
  }

  lemma ShiftPair(hi: nat, lo: nat)
    requires hi < TWO64 && lo < TWO64
    ensures var w := hi * TWO64 + lo;
            Quotient(w, 32) == (hi / 32) * TWO64 + (lo / 32 + (hi % 32) * TWO59) && Remainder(w, 32) == lo % 32
    ensures lo / 32 + (hi % 32) * TWO59 < TWO64
  {
    assert TWO64 == 32 * TWO59;
  }

  lemma DigitStep(w: nat, i: nat, all: seq<nat>)
    requires i < |all| && Digits(32, w, i + 1) == all[..i + 1]
    ensures Digits(32, Quotient(w, 32), i) == all[..i] && Remainder(w, 32) == all[i]
  {
    var here := Digits(32, w, i + 1);
    assert here[..i] == all[..i] && here[i] == all[i];
  }

  /** The digit loop: 26 times the low five bits of a 128-bit value held in two 64-bit words. */
  method EncodeWords(high: nat, low: nat) returns (t: string)
    requires high < TWO64 && low < TWO64
    ensures t == Token(high * TWO64 + low)
  {
    var hi: nat, lo: nat := high, low;
    var chars := new char[26];
    ghost var all := Digits(32, high * TWO64 + low, 26);
    var i := 26;
    while i > 0
      invariant 0 <= i <= 26 && hi < TWO64 && lo < TWO64
      invariant Digits(32, hi * TWO64 + lo, i) == all[..i]
      invariant forall j :: i <= j < 26 ==> chars[j] == CharOf(all[j])
    {
      i := i - 1;
      ShiftPair(hi, lo);
      DigitStep(hi * TWO64 + lo, i, all);
      chars[i] := CharOf(lo % 32);
      lo := lo / 32 + (hi % 32) * TWO59;
      hi := hi / 32;
    }
    return chars[..];
  }

  lemma BytesAre(ds: seq<nat>)
    requires |ds| % 2 == 0 && Are(16, ds)
    ensures Are(256, Paired(16, ds))
  {
  }

  lemma {:induction false} PowGrows(b: nat, m: nat, n: nat)
    requires b > 0 && m <= n
    ensures Pow(b, m) <= Pow(b, n)
    decreases n - m
  {
    if m < n {
      PowGrows(b, m, n - 1);
      Scale(0, b, Pow(b, n - 1));
    }
  }

  lemma WordPower(n: nat)
    ensures n == 8 ==> Pow(256, n) == TWO64
  {
    PowSum(256, 4, 4);
    assert Pow(256, 4) == 0x1_0000_0000;
  }

  lemma WordBound(bytes: seq<nat>)
    requires |bytes| <= 8 && Are(256, bytes)
    ensures Value(256, bytes) < TWO64
  {
    ValueBelow(256, bytes);
    WordPower(8);
    PowGrows(256, |bytes|, 8);
  }

  /** Eight bytes into a 64-bit word; the word never overflows. */
  method ReadWord(raw: seq<nat>) returns (w: nat)
    requires |raw| == 8 && Are(256, raw)
    ensures w == Value(256, raw) && w < TWO64
  {
    w := 0;
    var i := 0;
    while i < 8
      invariant 0 <= i <= 8 && w == Value(256, raw[..i])
    {
      assert raw[..i + 1][..i] == raw[..i];
      WordBound(raw[..i + 1]);
      w := (w * 256) % TWO64 + raw[i];
      i := i + 1;
    }
    assert raw[..8] == raw;
    WordBound(raw);
  }

  lemma HalvesAreWhole(ds: seq<nat>)
    requires |ds| == 32 && Are(16, ds)
    ensures var raw := Paired(16, ds); Value(256, raw[..8]) * TWO64 + Value(256, raw[8..]) == Value(16, ds)
  {
    var raw := Paired(16, ds);
    PairedValue(16, ds);
    assert raw == raw[..8] + raw[8..];
    ValueConcat(256, raw[..8], raw[8..]);
    WordPower(|raw[8..]|);
  }

  method EncodeHex(hex32: string) returns (token: string)
    requires |hex32| == 32 && IsHex(hex32)
    ensures token == Token(Value(16, Nibbles(hex32)))
  {
    var nibbles := Nibbles(hex32);
    var raw := Paired(16, nibbles);
    BytesAre(nibbles);
    var hi := ReadWord(raw[..8]);
    var lo := ReadWord(raw[8..]);
    HalvesAreWhole(nibbles);
    token := EncodeWords(hi, lo);
  }

  /** The encoder: it accepts exactly the UUIDs and writes the digits of the number they denote. */
  method DBUUIDToWire(u: string, prefix: string) returns (id: Option<string>)
    ensures id.Some? <==> IsUuid(u)
    ensures id.Some? ==> id.value == Wire(u, prefix)
  {
    var hex32 := Strip(u);
    if |hex32| != 32 { return None; }
    if !IsHex(hex32) { return None; }
    var token := EncodeHex(hex32);
    return Some(prefix + "_" + token);
  }

  // ------------------------------------------------------------ the decoder

  predicate IsToken(s: string) {
    forall i :: 0 <= i < |s| ==> DigitOf(UpperChar(s[i])) >= 0
  }

  function TokenDigits(s: string): (ds: seq<nat>)
    requires IsToken(s)
    ensures |ds| == |s| && Are(32, ds)
  {
    seq(|s|, i requires 0 <= i < |s| => DigitOf(UpperChar(s[i])))
  }

  /** The shortest lowercase hexadecimal text. */
  function Text(v: nat): string {
    if v < 16 then [HexChar(v)] else Text(Quotient(v, 16)) + [HexChar(Remainder(v, 16))]
  }

  function Zeros(n: nat): string { seq(n, _ => '0') }

  function Padded(v: nat, width: nat): string {
    var h := Text(v); if |h| < width then Zeros(width - |h|) + h else h
  }

  function Crockford(s: string): Option<string> {
    if !IsToken(s) then None
    else
      var v := Value(32, TokenDigits(s)) % TWO128;
      Padded32(v);
      Some(Dash(Padded(v, 32)))
  }

  /** The digit loop of the decoder, over an unbounded integer masked to 128 bits at the end. */
  method DecodeCrockford(s: string) returns (r: Option<string>)
    ensures r == Crockford(s)
  {
    var v := 0;
    var i := 0;
    while i < |s|
      invariant 0 <= i <= |s|
      invariant IsToken(s[..i]) && v == Value(32, TokenDigits(s[..i]))
    {
      var d := DigitOf(UpperChar(s[i]));
      if d < 0 { return None; }
      assert s[..i + 1][i] == s[i];
      assert TokenDigits(s[..i + 1])[..i] == TokenDigits(s[..i]);
      v := v * 32 + d;
      i := i + 1;
    }
    assert s[..i] == s;
    Padded32(v % TWO128);
    return Some(Dash(Padded(v % TWO128, 32)));
  }

  function Hex(s: string): Option<string>
    requires |s| == 32
  {
    if IsHex(s) then Some(Dash(Lower(s))) else None
  }

  function Undashed(s: string): (h: string)
    requires |s| == 36
    ensures |h| == 32
  {
    s[..8] + s[9..13] + s[14..18] + s[19..23] + s[24..]
  }

  function DashedUuid(s: string): Option<string>
    requires |s| == 36
  {
    if s[8] != '-' || s[13] != '-' || s[18] != '-' || s[23] != '-' then None else Hex(Undashed(s))
  }

  /** `ToUUID`. */
  function ToUuid(id: string, prefix: string): Option<string> {
    if id == "" then None
    else if prefix != "" && prefix <= id then
      var tail := id[|prefix|..];
      if |tail| == 26 then Crockford(tail) else if |tail| == 32 then Hex(tail) else None
    else if |id| == 36 then DashedUuid(id)
    else if |id| == 32 then Hex(id)
    else None
  }

  // ------------------------------------------------------------ padding

  function HexSpell(ds: seq<nat>): (s: string)
    requires Are(16, ds)
    ensures |s| == |ds|
  {
    seq(|ds|, i requires 0 <= i < |ds| => HexChar(ds[i]))
  }

  lemma HexSpellLast(ds: seq<nat>, d: nat)
    requires Are(16, ds) && d < 16
    ensures Are(16, ds + [d]) && HexSpell(ds + [d]) == HexSpell(ds) + [HexChar(d)]
  {
  }

  lemma {:induction false} DigitsOfZero(n: nat)
    ensures HexSpell(Digits(16, 0, n)) == Zeros(n)
    decreases n
  {
    if n > 0 {
      DigitsOfZero(n - 1);
      HexSpellLast(Digits(16, 0, n - 1), 0);
      assert Zeros(n) == Zeros(n - 1) + "0";
    }
  }

  lemma HexDigitsLast(v: nat, n: nat)
    requires n > 0
    ensures HexSpell(Digits(16, v, n)) == HexSpell(Digits(16, Quotient(v, 16), n - 1)) + [HexChar(Remainder(v, 16))]
  {
    HexSpellLast(Digits(16, Quotient(v, 16), n - 1), Remainder(v, 16));
  }

  lemma PaddedIsSmall(v: nat, n: nat)
    requires n > 0 && v < 16
    ensures |Text(v)| == 1 && Padded(v, n) == HexSpell(Digits(16, v, n))
  {
    HexDigitsLast(v, n);
    assert Quotient(v, 16) == 0 && Remainder(v, 16) == v;
    DigitsOfZero(n - 1);
    PaddedSmall(v, n);
  }

  lemma {:induction false} PaddedIs(v: nat, n: nat)
    requires n > 0 && v < Pow(16, n)
    ensures 0 < |Text(v)| <= n && Padded(v, n) == HexSpell(Digits(16, v, n))
    decreases n
  {
    if v < 16 {
      PaddedIsSmall(v, n);
    } else {
      Shorter(v, n);
      PaddedIs(Quotient(v, 16), n - 1);
      HexDigitsLast(v, n);
      PaddedLast(v, n);
    }
  }

  lemma Shorter(v: nat, n: nat)
    requires n > 0 && 16 <= v < Pow(16, n)
    ensures n > 1 && Quotient(v, 16) < Pow(16, n - 1)
  {
    var q, p := Quotient(v, 16), Pow(16, n - 1);
    Division(v, 16);
    assert Pow(16, n) == 16 * p;
  }

  lemma PaddedSmall(v: nat, n: nat)
    requires n > 0 && v < 16
    ensures Padded(v, n) == Zeros(n - 1) + [HexChar(v)]
  {
    if n == 1 { assert Zeros(0) + Text(v) == Text(v); }
  }

  lemma PaddedLast(v: nat, n: nat)
    requires n > 0 && v >= 16 && |Text(Quotient(v, 16))| < n
    ensures Padded(v, n) == Padded(Quotient(v, 16), n - 1) + [HexChar(Remainder(v, 16))]
  {
    var q, r := Quotient(v, 16), Remainder(v, 16);
    var k := n - |Text(v)|;
    assert Padded(v, n) == Zeros(k) + Text(v);
    assert Padded(q, n - 1) == Zeros(k) + Text(q);
  }

  lemma Powers(n: nat)
    ensures n == 32 ==> Pow(16, n) == TWO128
    ensures n == 26 ==> Pow(32, n) == 4 * TWO128
  {
    PowSum(16, 8, 8);
    PowSum(16, 16, 16);
    PowSum(32, 13, 13);
  }

  lemma Padded32(v: nat)
    requires v < TWO128
    ensures Padded(v, 32) == HexSpell(Digits(16, v, 32)) && |Padded(v, 32)| == 32
  {
    Powers(32);
    PaddedIs(v, 32);
  }

  // ------------------------------------------------------------ round trips

  lemma SpellDigits(ds: seq<nat>)
    requires Are(32, ds)
    ensures IsToken(Spell(ds)) && TokenDigits(Spell(ds)) == ds
  {
    forall i | 0 <= i < |ds| ensures DigitOf(UpperChar(Spell(ds)[i])) == ds[i] {
      CharRoundTrip(ds[i]);
    }
  }

  lemma HexSpellNibbles(s: string)
    requires IsHex(s)
    ensures HexSpell(Nibbles(s)) == Lower(s)
  {
    forall i | 0 <= i < |s| ensures HexSpell(Nibbles(s))[i] == Lower(s)[i] {
      HexRoundTrip(s[i]);
    }
  }

  lemma NumberBound(u: string)
    requires IsUuid(u)
    ensures Number(u) < TWO128
  {
    ValueBelow(16, Nibbles(Strip(u)));
    Powers(32);
  }

  /** A canonical token has the value it was made from. */
  lemma TokenValue(v: nat)
    requires v < TWO128
    ensures IsToken(Token(v)) && Value(32, TokenDigits(Token(v))) == v
  {
    SpellDigits(Digits(32, v, 26));
    Powers(26);
    ValueOfDigits(32, v, 26);
  }

  lemma CanonicalIs(u: string)
    requires IsUuid(u)
    ensures Number(u) < TWO128 && |Padded(Number(u), 32)| == 32 && Dash(Padded(Number(u), 32)) == Canonical(u)
  {
    var nibbles := Nibbles(Strip(u));
    NumberBound(u);
    Padded32(Number(u));
    DigitsOfValue(16, nibbles);
    HexSpellNibbles(Strip(u));
  }

  lemma AfterPrefix(prefix: string, tail: string)
    ensures prefix <= prefix + tail && (prefix + tail)[|prefix|..] == tail
  {
  }

  lemma CrockfordIs(t: string, v: nat)
    requires IsToken(t) && v == Value(32, TokenDigits(t)) % TWO128
    ensures |Padded(v, 32)| == 32 && Crockford(t) == Some(Dash(Padded(v, 32)))
  {
    Padded32(v);
  }

  lemma ReadToken(prefix: string, tail: string)
    requires prefix != "" && |tail| == 26
    ensures ToUuid(prefix + tail, prefix) == Crockford(tail)
  {
    AfterPrefix(prefix, tail);
  }

  /** The proxy plugin reads back the UUID that the Kong syncer wrote, in lowercase dashed form. */
  lemma DecodeEncoded(u: string, prefix: string)
    requires IsUuid(u)
    ensures ToUuid(Wire(u, prefix), prefix + "_") == Some(Canonical(u))
  {
    CanonicalIs(u);
    TokenDecodes(Number(u));
    ReadToken(prefix + "_", Token(Number(u)));
  }

  lemma TokenDecodes(v: nat)
    requires v < TWO128
    ensures |Padded(v, 32)| == 32 && Crockford(Token(v)) == Some(Dash(Padded(v, 32)))
  {
    TokenValue(v);
    CrockfordIs(Token(v), v);
  }

  /** Two UUIDs get the same id exactly when they are the same UUID. */
  lemma WireIsInjective(u: string, w: string, prefix: string)
    requires IsUuid(u) && IsUuid(w)
    ensures Wire(u, prefix) == Wire(w, prefix) <==> Canonical(u) == Canonical(w)
    ensures Canonical(u) == Canonical(w) <==> Number(u) == Number(w)
  {
    DecodeEncoded(u, prefix);
    DecodeEncoded(w, prefix);
    CanonicalIs(u);
    CanonicalIs(w);
    if Canonical(u) == Canonical(w) {
      DashIsInjective(Padded(Number(u), 32), Padded(Number(w), 32));
      Padded32(Number(u));
      Padded32(Number(w));
      HexSpellIsInjective(Digits(16, Number(u), 32), Digits(16, Number(w), 32));
      Powers(32);
      ValueOfDigits(16, Number(u), 32);
      ValueOfDigits(16, Number(w), 32);
    }
  }

  lemma DashIsInjective(g: string, h: string)
    requires |g| == |h| == 32 && Dash(g) == Dash(h)
    ensures g == h
  {
    UndashedDash(g);
    UndashedDash(h);
  }

  lemma UndashedDash(h: string)
    requires |h| == 32
    ensures |Dash(h)| == 36 && Undashed(Dash(h)) == h
  {
    var r := Dash(h);
    assert r[..8] == h[..8] && r[9..13] == h[8..12] && r[14..18] == h[12..16] && r[19..23] == h[16..20] && r[24..] == h[20..];
  }

  lemma HexSpellIsInjective(xs: seq<nat>, ys: seq<nat>)
    requires Are(16, xs) && Are(16, ys) && HexSpell(xs) == HexSpell(ys)
    ensures xs == ys
  {
    assert |xs| == |HexSpell(xs)| == |ys|;
    forall i | 0 <= i < |xs| ensures xs[i] == ys[i] {
      assert HexSpell(xs)[i] == HexChar(xs[i]) && HexSpell(ys)[i] == HexChar(ys[i]);
      assert HexDigit(HexChar(xs[i])) == xs[i];
      assert HexDigit(HexChar(ys[i])) == ys[i];
    }
  }

  // ------------------------------------------------------------ order

  lemma TopDigit(ds: seq<nat>)
    requires |ds| == 26 && Are(32, ds)
    ensures Value(32, ds) < TWO128 <==> ds[0] < 8
  {
    assert ds == [ds[0]] + ds[1..];
    ValueConcat(32, [ds[0]], ds[1..]);
    ValueBelow(32, ds[1..]);
    TopPower(25);
    assert Value(32, [ds[0]]) == ds[0];
  }

  lemma TopPower(n: nat)
    ensures n == 25 ==> 8 * Pow(32, n) == TWO128
  {
    PowSum(32, 12, 13);
  }

  function Codes(s: string): (ds: seq<nat>)
    ensures |ds| == |s|
  {
    seq(|s|, i requires 0 <= i < |s| => s[i] as nat)
  }

  lemma CodesConcat(a: string, b: string)
    ensures Codes(a + b) == Codes(a) + Codes(b)
  {
  }

  lemma CharOrder(d: nat, e: nat)
    requires d < 32 && e < 32
    ensures CharOf(d) < CharOf(e) <==> d < e
    ensures CharOf(d) == CharOf(e) <==> d == e
  {
    CharRoundTrip(d);
    CharRoundTrip(e);
  }

  lemma SpellOrder(xs: seq<nat>, ys: seq<nat>)
    requires Are(32, xs) && Are(32, ys)
    ensures Before(Codes(Spell(xs)), Codes(Spell(ys))) <==> Before(xs, ys)
  {
    forall i, j | 0 <= i < |xs| && 0 <= j < |ys|
      ensures (Codes(Spell(xs))[i] < Codes(Spell(ys))[j] <==> xs[i] < ys[j])
              && (Codes(Spell(xs))[i] == Codes(Spell(ys))[j] <==> xs[i] == ys[j])
    {
      CharOrder(xs[i], ys[j]);
    }
    if Before(Codes(Spell(xs)), Codes(Spell(ys))) { BeforeTransfers(Codes(Spell(xs)), Codes(Spell(ys)), xs, ys); }
    if Before(xs, ys) { BeforeTransfers(xs, ys, Codes(Spell(xs)), Codes(Spell(ys))); }
  }

  lemma BeforeTransfers(a: seq<nat>, b: seq<nat>, x: seq<nat>, y: seq<nat>)
    requires |a| == |x| && |b| == |y|
    requires forall i, j :: 0 <= i < |a| && 0 <= j < |b| ==> (a[i] < b[j] <==> x[i] < y[j]) && (a[i] == b[j] <==> x[i] == y[j])
    requires Before(a, b)
    ensures Before(x, y)
  {
    var k: nat :| k < |a| && k < |b| && a[..k] == b[..k] && a[k] < b[k];
    forall i | 0 <= i < k ensures x[i] == y[i] {
      assert a[i] == a[..k][i] == b[..k][i] == b[i];
    }
    assert x[..k] == y[..k];
  }

  lemma BeforeUnderPrefix(p: seq<nat>, xs: seq<nat>, ys: seq<nat>)
    requires Before(xs, ys)
    ensures Before(p + xs, p + ys)
  {
    var k: nat :| k < |xs| && k < |ys| && xs[..k] == ys[..k] && xs[k] < ys[k];
    assert (p + xs)[..|p| + k] == p + xs[..k] && (p + ys)[..|p| + k] == p + ys[..k];
    assert (p + xs)[|p| + k] < (p + ys)[|p| + k];
  }

  lemma BeforeAfterPrefix(p: seq<nat>, xs: seq<nat>, ys: seq<nat>)
    requires Before(p + xs, p + ys)
    ensures Before(xs, ys)
  {
    var a, b := p + xs, p + ys;
    var k: nat :| k < |a| && k < |b| && a[..k] == b[..k] && a[k] < b[k];
    assert k >= |p|;
    var n := k - |p|;
    assert xs[..n] == a[..k][|p|..] && ys[..n] == b[..k][|p|..];
    assert xs[n] < ys[n];
  }

  lemma BeforePrefixed(p: seq<nat>, xs: seq<nat>, ys: seq<nat>)
    ensures Before(p + xs, p + ys) <==> Before(xs, ys)
  {
    if Before(xs, ys) { BeforeUnderPrefix(p, xs, ys); }
    if Before(p + xs, p + ys) { BeforeAfterPrefix(p, xs, ys); }
  }

  /** Ids of one prefix sort as the UUIDs do, and their token starts with one of 0 to 7. */
  lemma WireOrder(u: string, w: string, prefix: string)
    requires IsUuid(u) && IsUuid(w)
    ensures Before(Codes(Wire(u, prefix)), Codes(Wire(w, prefix))) <==> Number(u) < Number(w)
    ensures '0' <= Token(Number(u))[0] <= '7'
  {
    var x, y := Number(u), Number(w);
    NumberBound(u);
    NumberBound(w);
    TokenOrder(x, y);
    CodesConcat(prefix + "_", Token(x));
    CodesConcat(prefix + "_", Token(y));
    BeforePrefixed(Codes(prefix + "_"), Codes(Token(x)), Codes(Token(y)));
  }

  lemma TokenOrder(x: nat, y: nat)
    requires x < TWO128 && y < TWO128
    ensures Before(Codes(Token(x)), Codes(Token(y))) <==> x < y
    ensures '0' <= Token(x)[0] <= '7'
  {
    var xs, ys := Digits(32, x, 26), Digits(32, y, 26);
    Powers(26);
    ValueOfDigits(32, x, 26);
    ValueOfDigits(32, y, 26);
    OrderAgrees(32, xs, ys);
    SpellOrder(xs, ys);
    TopDigit(xs);
    CharRoundTrip(xs[0]);
  }

  // ------------------------------------------------------------ decoded ids

  /** Thirty-two lowercase hexadecimal digits. */
  ghost predicate LowHex(h: string) {
    |h| == 32 && forall i :: 0 <= i < |h| ==> HexDigit(h[i]) >= 0 && LowerChar(h[i]) == h[i]
  }

  lemma {:induction false} StripConcat(a: string, b: string)
    ensures Strip(a + b) == Strip(a) + Strip(b)
    decreases |a|
  {
    if a == [] {
      assert a + b == b;
    } else {
      assert (a + b)[1..] == a[1..] + b;
      StripConcat(a[1..], b);
    }
  }

  lemma {:induction false} StripKeeps(a: string)
    requires '-' !in a
    ensures Strip(a) == a
    decreases |a|
  {
    if a != [] {
      assert a == [a[0]] + a[1..];
      StripKeeps(a[1..]);
    }
  }

  lemma StripPiece(a: string, b: string)
    requires '-' !in a
    ensures Strip(a + "-" + b) == a + Strip(b)
  {
    assert a + "-" + b == a + ("-" + b);
    StripConcat(a, "-" + b);
    StripKeeps(a);
    StripLeading(b);
  }

  lemma StripLeading(b: string)
    ensures Strip("-" + b) == Strip(b)
  {
    assert ("-" + b)[1..] == b;
  }

  lemma DashPieces(h: string)
    requires |h| == 32
    ensures Dash(h) == h[..8] + "-" + (h[8..12] + "-" + (h[12..16] + "-" + (h[16..20] + "-" + h[20..])))
    ensures h == h[..8] + (h[8..12] + (h[12..16] + (h[16..20] + h[20..])))
  {
  }

  lemma StripDash(h: string)
    requires |h| == 32 && '-' !in h
    ensures Strip(Dash(h)) == h
  {
    var a, b, c, d, e := h[..8], h[8..12], h[12..16], h[16..20], h[20..];
    DashPieces(h);
    StripKeeps(e);
    StripPiece(d, e);
    StripPiece(c, d + "-" + e);
    StripPiece(b, c + "-" + (d + "-" + e));
    StripPiece(a, b + "-" + (c + "-" + (d + "-" + e)));
  }

  lemma DashedIsCanonical(h: string)
    requires LowHex(h)
    ensures var r := Dash(h); |r| == 36 && Strip(r) == h && IsUuid(r) && Canonical(r) == r && DashedUuid(r) == Some(r)
  {
    StripDash(h);
    assert Lower(h) == h;
    UndashedDash(h);
  }

  lemma LowerIsLow(s: string)
    requires |s| == 32 && IsHex(s)
    ensures LowHex(Lower(s))
  {
  }

  lemma PaddedIsLow(v: nat)
    requires v < TWO128
    ensures LowHex(Padded(v, 32)) && Value(16, Nibbles(Padded(v, 32))) == v
  {
    var ds := Digits(16, v, 32);
    Padded32(v);
    forall i | 0 <= i < 32 ensures HexDigit(HexSpell(ds)[i]) == ds[i] && LowerChar(HexSpell(ds)[i]) == HexSpell(ds)[i] {
      assert HexSpell(ds)[i] == HexChar(ds[i]);
    }
    assert Nibbles(HexSpell(ds)) == ds;
    Powers(32);
    ValueOfDigits(16, v, 32);
  }

  lemma DecodedIsLow(id: string, prefix: string) returns (h: string)
    requires ToUuid(id, prefix).Some?
    ensures LowHex(h) && ToUuid(id, prefix) == Some(Dash(h))
  {
    if prefix != "" && prefix <= id {
      var tail := id[|prefix|..];
      if |tail| == 26 {
        var v := Value(32, TokenDigits(tail)) % TWO128;
        CrockfordIs(tail, v);
        PaddedIsLow(v);
        h := Padded(v, 32);
      } else {
        LowerIsLow(tail);
        h := Lower(tail);
      }
    } else if |id| == 36 {
      LowerIsLow(Undashed(id));
      h := Lower(Undashed(id));
    } else {
      LowerIsLow(id);
      h := Lower(id);
    }
  }

  lemma NotPrefixed(h: string, prefix: string)
    requires LowHex(h) && '_' in prefix
    ensures !(prefix <= Dash(h))
  {
    var k :| 0 <= k < |prefix| && prefix[k] == '_';
    if k < |Dash(h)| {
      assert Dash(h)[k] == '-' || Dash(h)[k] in h;
    }
  }

  /** Whatever the decoder accepts, it returns a canonical UUID, which it then leaves alone. */
  lemma DecodeIsIdempotent(id: string, prefix: string)
    requires ToUuid(id, prefix).Some? && (prefix == "" || '_' in prefix)
    ensures var r := ToUuid(id, prefix).value; IsUuid(r) && Canonical(r) == r && ToUuid(r, prefix) == Some(r)
  {
    var h := DecodedIsLow(id, prefix);
    DashedIsCanonical(h);
    if prefix != "" { NotPrefixed(h, prefix); }
  }

  /** Encoding what was decoded gives the id back exactly when the token is a canonical one. */
  lemma EncodeDecoded(tail: string, prefix: string)
    requires |tail| == 26 && IsToken(tail)
    ensures var id := prefix + "_" + tail;
            var r := ToUuid(id, prefix + "_");
            && r.Some? && IsUuid(r.value)
            && (Wire(r.value, prefix) == id <==>
                (DigitOf(UpperChar(tail[0])) < 8 && forall i :: 0 <= i < 26 ==> UpperChar(tail[i]) == tail[i]))
  {
    var ds := TokenDigits(tail);
    var full := Value(32, ds);
    var v := full % TWO128;
    CrockfordIs(tail, v);
    ReadToken(prefix + "_", tail);
    PaddedIsLow(v);
    DashedIsCanonical(Padded(v, 32));
    assert Number(Dash(Padded(v, 32))) == v;
    TokenIsCanonical(tail);
    if Wire(Dash(Padded(v, 32)), prefix) == prefix + "_" + tail {
      AfterPrefix(prefix + "_", Token(v));
      AfterPrefix(prefix + "_", tail);
    }
  }

  lemma SpellTokenDigits(tail: string)
    requires IsToken(tail) && forall i :: 0 <= i < |tail| ==> UpperChar(tail[i]) == tail[i]
    ensures Spell(TokenDigits(tail)) == tail
  {
    forall i | 0 <= i < |tail| ensures Spell(TokenDigits(tail))[i] == tail[i] {
      DigitRoundTrip(tail[i]);
    }
  }

  lemma Unmasked(ds: seq<nat>)
    requires |ds| == 26 && Are(32, ds) && ds[0] < 8
    ensures Token(Value(32, ds) % TWO128) == Spell(ds)
  {
    TopDigit(ds);
    Mask(Value(32, ds));
    DigitsOfValue(32, ds);
  }

  lemma Mask(v: nat)
    requires v < TWO128
    ensures v % TWO128 == v
  {
  }

  lemma MadeTokenIsCanonical(v: nat)
    requires v < TWO128
    ensures var t := Token(v);
            DigitOf(UpperChar(t[0])) < 8 && forall i :: 0 <= i < 26 ==> UpperChar(t[i]) == t[i]
  {
    var ds := Digits(32, v, 26);
    Powers(26);
    ValueOfDigits(32, v, 26);
    TopDigit(ds);
    forall i | 0 <= i < 26 ensures UpperChar(Spell(ds)[i]) == Spell(ds)[i] && DigitOf(Spell(ds)[i]) == ds[i] {
      CharRoundTrip(ds[i]);
    }
  }

  lemma TokenIsCanonical(tail: string)
    requires |tail| == 26 && IsToken(tail)
    ensures Token(Value(32, TokenDigits(tail)) % TWO128) == tail <==>
            (DigitOf(UpperChar(tail[0])) < 8 && forall i :: 0 <= i < 26 ==> UpperChar(tail[i]) == tail[i])
  {
    if DigitOf(UpperChar(tail[0])) < 8 && forall i :: 0 <= i < 26 ==> UpperChar(tail[i]) == tail[i] {
      SpellTokenDigits(tail);
      Unmasked(TokenDigits(tail));
    }
    MadeTokenIsCanonical(Value(32, TokenDigits(tail)) % TWO128);
  }
}

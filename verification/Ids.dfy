/** ULID identifiers: base-32 digits of a millisecond stamp and of ten random bytes,
    written from the least significant end with shifting accumulators. */
module Ids {
  import opened Text

  const ALPHABET: string := "0123456789ABCDEFGHJKMNPQRSTVWXYZ"
  const LENGTH := 26

  // ----- Positional notation -------------------------------------------------------------

  function Pow(base: nat, e: nat): nat {
    if e == 0 then 1 else base * Pow(base, e - 1)
  }

  /** The number that big-endian digits denote. */
  function Value(base: nat, s: seq<nat>): nat {
    if s == [] then 0 else s[0] * Pow(base, |s| - 1) + Value(base, s[1..])
  }

  ghost predicate DigitsBelow(base: nat, s: seq<nat>) {
    forall k :: 0 <= k < |s| ==> s[k] < base
  }

  lemma {:induction false} PowPositive(base: nat, e: nat)
    requires base > 0
    ensures Pow(base, e) > 0
  {
    if e > 0 {
      PowPositive(base, e - 1);
    }
  }

  lemma {:induction false} PowAdd(base: nat, a: nat, b: nat)
    ensures Pow(base, a + b) == Pow(base, a) * Pow(base, b)
  {
    if a > 0 {
      PowAdd(base, a - 1, b);
      assert Pow(base, a + b) == base * Pow(base, a - 1 + b);
      assert base * (Pow(base, a - 1) * Pow(base, b)) == (base * Pow(base, a - 1)) * Pow(base, b);
    }
  }

  lemma {:induction false} ValueBelow(base: nat, s: seq<nat>)
    requires DigitsBelow(base, s) && base > 0
    ensures Value(base, s) < Pow(base, |s|)
  {
    if s != [] {
      ValueBelow(base, s[1..]);
      var p := Pow(base, |s| - 1);
      PowPositive(base, |s| - 1);
      ScaleDigit(s[0], base, p);
    }
  }

  lemma NonNegative(a: nat, b: nat)
    ensures a * b >= 0
  {
  }

  lemma ScaleDigit(d: nat, base: nat, p: nat)
    requires d < base
    ensures d * p + p <= base * p
  {
    var k := base - d - 1;
    assert base * p == (d + 1 + k) * p == d * p + p + k * p;
    NonNegative(k, p);
  }

  /** Digits are determined by the number, and compare like the number. */
  lemma {:induction false} ValueOrders(base: nat, a: seq<nat>, b: seq<nat>)
    requires base > 0 && |a| == |b| && DigitsBelow(base, a) && DigitsBelow(base, b)
    ensures Value(base, a) < Value(base, b) <==> DigitsLess(a, b)
    ensures Value(base, a) == Value(base, b) <==> a == b
  {
    if a != [] {
      var p := Pow(base, |a| - 1);
      ValueOrders(base, a[1..], b[1..]);
      ValueBelow(base, a[1..]);
      ValueBelow(base, b[1..]);
      if a[0] < b[0] {
        ScaleDigit(a[0], b[0], p);
      } else if b[0] < a[0] {
        ScaleDigit(b[0], a[0], p);
      } else {
        assert a == [a[0]] + a[1..] && b == [b[0]] + b[1..];
      }
    }
  }

  /** Lexicographic order of digit lists of one length. */
  predicate DigitsLess(a: seq<nat>, b: seq<nat>) {
    a != [] && b != [] && (a[0] < b[0] || (a[0] == b[0] && DigitsLess(a[1..], b[1..])))
  }

  // ----- The alphabet ----------------------------------------------------------------------

  function CharOf(d: nat): char
    requires d < 32
  {
    ALPHABET[d]
  }

  predicate InAlphabet(c: char) {
    c in ALPHABET
  }

  function DigitOf(c: char): (d: nat)
    requires InAlphabet(c)
    ensures d < 32 && CharOf(d) == c
  {
    AlphabetIncreases();
    var d: nat :| d < 32 && ALPHABET[d] == c;
    d
  }

  /** The alphabet is in character order, so encoded text sorts like its digits. */
  lemma AlphabetIncreases()
    ensures |ALPHABET| == 32
    ensures forall i, j :: 0 <= i < j < 32 ==> ALPHABET[i] < ALPHABET[j]
    ensures '_' !in ALPHABET
  {
  }

  ghost predicate Encodes(text: string, digits: seq<nat>) {
    |text| == |digits| && DigitsBelow(32, digits)
    && forall k :: 0 <= k < |text| ==> text[k] == CharOf(digits[k])
  }

  lemma {:induction false} EncodingOrders(s: string, t: string, a: seq<nat>, b: seq<nat>, x: string, y: string)
    requires Encodes(s, a) && Encodes(t, b) && |a| == |b|
    ensures DigitsLess(a, b) ==> TextLess(s + x, t + y)
  {
    if DigitsLess(a, b) {
      AlphabetIncreases();
      if a[0] == b[0] {
        EncodingOrders(s[1..], t[1..], a[1..], b[1..], x, y);
        assert (s + x)[1..] == s[1..] + x && (t + y)[1..] == t[1..] + y;
      }
    }
  }

  lemma {:induction false} TextLessAfterPrefix(p: string, s: string, t: string)
    requires TextLess(s, t)
    ensures TextLess(p + s, p + t)
  {
    if p == [] {
      assert p + s == s && p + t == t;
    } else {
      TextLessAfterPrefix(p[1..], s, t);
      assert (p + s)[1..] == p[1..] + s && (p + t)[1..] == p[1..] + t;
    }
  }

  // ----- Encoders ------------------------------------------------------------------------------

  lemma ValuePrepend(base: nat, d: nat, s: seq<nat>)
    ensures Value(base, [d] + s) == d * Pow(base, |s|) + Value(base, s)
  {
    assert ([d] + s)[1..] == s;
  }

  /** One more digit at the front of what has been written takes over the low digit of
      what is left. */
  lemma DigitMoves(base: nat, v: nat, p: nat)
    requires base > 0
    ensures v * p == (v % base) * p + (v / base) * (base * p)
  {
    var q, r := v / base, v % base;
    assert v == q * base + r;
    assert (q * base + r) * p == q * (base * p) + r * p;
  }

  /** encodeTime: ten digits, least significant last; bits above the fiftieth are lost. */
  method EncodeTime(buf: array<char>, ms: nat) returns (ghost digits: seq<nat>)
    requires buf.Length >= 10
    modifies buf
    ensures Encodes(buf[..10], digits) && Value(32, digits) == ms % Pow(32, 10)
    ensures buf[10..] == old(buf[10..])
  {
    digits := [];
    var left: nat := ms;
    for i := 10 downto 0
      invariant |digits| == 10 - i && DigitsBelow(32, digits)
      invariant forall k :: i <= k < 10 ==> buf[k] == CharOf(digits[k - i])
      invariant ms == left * Pow(32, 10 - i) + Value(32, digits)
      invariant buf[10..] == old(buf[10..])
    {
      buf[i] := ALPHABET[left % 32];
      ValuePrepend(32, left % 32, digits);
      DigitMoves(32, left, Pow(32, |digits|));
      digits := [left % 32] + digits;
      left := left / 32;
    }
    ValueBelow(32, digits);
    Remainder(ms, left, Pow(32, 10), Value(32, digits));
  }

  lemma Remainder(n: nat, q: nat, d: nat, r: nat)
    requires d > 0 && n == q * d + r && r < d
    ensures n % d == r
  {
    var q2, r2 := n / d, n % d;
    assert n == q2 * d + r2;
    if q2 > q {
      ScaleDigit(q, q2, d);
    } else if q2 < q {
      ScaleDigit(q2, q, d);
    }
  }

  function Two(e: nat): nat {
    Pow(2, e)
  }

  /** The bitwise OR of two numbers. */
  function Or(a: nat, b: nat): nat {
    if a == 0 then b
    else if b == 0 then a
    else 2 * Or(a / 2, b / 2) + if a % 2 == 1 || b % 2 == 1 then 1 else 0
  }

  /** A number shifted left: `b << bits`, wide enough to lose nothing. */
  function Shifted(b: nat, bits: nat): nat {
    b * Two(bits)
  }

  /** Joining a shifted byte to the accumulator with OR adds it, because the accumulator
      has no bit at or above the shift. */
  lemma {:induction false} OrIsAdd(v: nat, b: nat, bits: nat)
    requires v < Two(bits)
    ensures Or(v, Shifted(b, bits)) == v + Shifted(b, bits)
  {
    if v != 0 && b != 0 {
      var t := Two(bits - 1);
      assert Two(bits) == 2 * t;
      assert Shifted(b, bits) == 2 * (b * t) by {
        assert b * (2 * t) == 2 * (b * t);
      }
      assert Shifted(b, bits) / 2 == Shifted(b, bits - 1) && Shifted(b, bits) % 2 == 0;
      OrIsAdd(v / 2, b, bits - 1);
    }
  }

  lemma {:induction false} PowOfTwo(base: nat, width: nat, e: nat)
    requires base == Two(width)
    ensures Pow(base, e) == Two(width * e)
  {
    if e > 0 {
      PowOfTwo(base, width, e - 1);
      PowAdd(2, width, width * (e - 1));
      assert width * e == width + width * (e - 1);
    }
  }

  lemma SmallPowers()
    ensures Two(0) == 1 && Two(5) == 32 && Two(8) == 256
  {
    assert Two(1) == 2 && Two(2) == 4 && Two(3) == 8 && Two(4) == 16;
    assert Two(6) == 64 && Two(7) == 128;
  }

  /** After `m` bytes and `k` digits the next byte has weight `Two(bits)` in the
      accumulator. */
  lemma ByteWeight(m: nat, k: nat, bits: nat)
    requires 8 * m == 5 * k + bits
    ensures Pow(256, m) == Two(bits) * Pow(32, k)
  {
    SmallPowers();
    PowOfTwo(256, 8, m);
    PowOfTwo(32, 5, k);
    PowAdd(2, bits, 5 * k);
  }

  lemma ByteEnters(b: nat, v: nat, m: nat, k: nat, bits: nat, rest: nat)
    requires 8 * m == 5 * k + bits && b < 256 && v < Two(bits)
    ensures b * Pow(256, m) + (v * Pow(32, k) + rest) == (v + b * Two(bits)) * Pow(32, k) + rest
    ensures v + b * Two(bits) < Two(bits + 8)
  {
    hide Pow, Two;
    ByteWeight(m, k, bits);
    JoinedScales(b, v, Two(bits), Pow(32, k));
    ByteFits(b, v, bits);
  }

  lemma JoinedScales(b: nat, v: nat, t: nat, p: nat)
    ensures b * (t * p) + v * p == (v + b * t) * p
  {
    assert b * (t * p) == (b * t) * p;
  }

  lemma ByteFits(b: nat, v: nat, bits: nat)
    requires b < 256 && v < Two(bits)
    ensures v + b * Two(bits) < Two(bits + 8)
  {
    SmallPowers();
    PowAdd(2, bits, 8);
    ScaleDigit(b, 256, Two(bits));
  }

  lemma DigitLeaves(v: nat, bits: nat)
    requires v < Two(bits) && bits >= 5
    ensures v / 32 < Two(bits - 5)
  {
    SmallPowers();
    PowAdd(2, 5, bits - 5);
  }

  /** The digits written so far stand at the end of the array. */
  ghost predicate Written(buf: array<char>, offset: nat, digits: seq<nat>)
    requires offset <= buf.Length
    reads buf
  {
    offset + |digits| <= buf.Length && DigitsBelow(32, digits)
    && forall k :: 0 <= k < |digits| ==> buf[buf.Length - |digits| + k] == CharOf(digits[k])
  }

  /** The number seen so far: the accumulator above the digits already written. */
  ghost function Seen(v: nat, digits: seq<nat>): nat {
    v * Pow(32, |digits|) + Value(32, digits)
  }

  lemma DigitSeen(v: nat, digits: seq<nat>)
    ensures Seen(v / 32, [v % 32] + digits) == Seen(v, digits)
  {
    ValuePrepend(32, v % 32, digits);
    DigitMoves(32, v, Pow(32, |digits|));
  }

  /** The inner loop of encodeBytes: emit digits while five bits are available. The
      accumulator never holds more than twelve bits. */
  method EmitDigits(buf: array<char>, offset: nat, at: nat, acc: nat, width: nat, ghost before: seq<nat>)
    returns (di: nat, v: nat, bits: nat, ghost digits: seq<nat>)
    requires offset <= buf.Length && Written(buf, offset, before) && at == buf.Length - offset - |before|
    requires acc < Two(width) && width <= 12 && 5 * |before| + width <= 5 * (buf.Length - offset)
    modifies buf
    ensures Written(buf, offset, digits) && di == buf.Length - offset - |digits|
    ensures v < Two(bits) && bits < 5 && 5 * |digits| + bits == 5 * |before| + width
    ensures Seen(v, digits) == Seen(acc, before)
    ensures buf[..offset] == old(buf[..offset])
  {
    hide Seen, Two;
    di, v, bits, digits := at, acc, width, before;
    while bits >= 5
      invariant Written(buf, offset, digits) && di == buf.Length - offset - |digits|
      invariant v < Two(bits) && bits <= 12 && 5 * |digits| + bits == 5 * |before| + width
      invariant Seen(v, digits) == Seen(acc, before)
      invariant buf[..offset] == old(buf[..offset])
    {
      DigitSeen(v, digits);
      DigitLeaves(v, bits);
      di := di - 1;
      buf[offset + di] := ALPHABET[v % 32];
      digits := [v % 32] + digits;
      v, bits := v / 32, bits - 5;
    }
  }

  lemma ByteSeen(b: nat, src: seq<nat>, v: nat, digits: seq<nat>, bits: nat)
    requires 8 * |src| == 5 * |digits| + bits && b < 256 && v < Two(bits)
    requires Value(256, src) == Seen(v, digits)
    ensures Value(256, [b] + src) == Seen(v + b * Two(bits), digits)
    ensures v + b * Two(bits) < Two(bits + 8)
  {
    ValuePrepend(256, b, src);
    ByteEnters(b, v, |src|, |digits|, bits, Value(32, digits));
  }

  /** encodeBytes into buf[offset..]: the base-32 digits of the big-endian number the
      bytes denote, for any window wide enough for them. */
  method EncodeBytes(buf: array<char>, offset: nat, src: seq<nat>) returns (ghost digits: seq<nat>)
    requires DigitsBelow(256, src)
    requires offset <= buf.Length && 8 * |src| <= 5 * (buf.Length - offset)
    modifies buf
    ensures Encodes(buf[offset..], digits) && Value(32, digits) == Value(256, src)
    ensures buf[..offset] == old(buf[..offset])
  {
    digits := [];
    var di: nat, v: nat, bits: nat := buf.Length - offset, 0, 0;
    SmallPowers();
    for i := |src| downto 0
      invariant Written(buf, offset, digits) && di == buf.Length - offset - |digits|
      invariant 8 * (|src| - i) == 5 * |digits| + bits && bits < 5 && v < Two(bits)
      invariant Value(256, src[i..]) == Seen(v, digits)
      invariant buf[..offset] == old(buf[..offset])
    {
      hide Seen, Two, Written, Value, Or;
      assert src[i..] == [src[i]] + src[i + 1..];
      ByteSeen(src[i], src[i + 1..], v, digits, bits);
      OrIsAdd(v, src[i], bits);
      v := Or(v, Shifted(src[i], bits));
      bits := bits + 8;
      di, v, bits, digits := EmitDigits(buf, offset, di, v, bits, digits);
    }
    assert src[0..] == src;
    FewBits(v, bits);
    digits := PadDigits(buf, offset, di, v, digits);
  }

  lemma FewBits(v: nat, bits: nat)
    requires v < Two(bits) && bits < 5
    ensures v < 32 && (bits == 0 ==> v == 0)
  {
    SmallPowers();
    assert Two(1) == 2 && Two(2) == 4 && Two(3) == 8 && Two(4) == 16;
  }

  /** The last loop of encodeBytes: the remaining bits, then zeros. */
  method PadDigits(buf: array<char>, offset: nat, at: nat, acc: nat, ghost before: seq<nat>)
    returns (ghost digits: seq<nat>)
    requires offset <= buf.Length && Written(buf, offset, before) && at == buf.Length - offset - |before|
    requires acc < 32 && (at == 0 ==> acc == 0)
    modifies buf
    ensures Encodes(buf[offset..], digits) && Value(32, digits) == Seen(acc, before)
    ensures buf[..offset] == old(buf[..offset])
  {
    hide Seen;
    var di, v := at, acc;
    digits := before;
    while di > 0
      invariant Written(buf, offset, digits) && di == buf.Length - offset - |digits|
      invariant v < 32 && (di == 0 ==> v == 0)
      invariant Seen(v, digits) == Seen(acc, before)
      invariant buf[..offset] == old(buf[..offset])
    {
      DigitSeen(v, digits);
      di := di - 1;
      buf[offset + di] := ALPHABET[v % 32];
      digits := [v % 32] + digits;
      v := v / 32;
    }
    NothingLeft(digits);
  }

  lemma NothingLeft(digits: seq<nat>)
    ensures Seen(0, digits) == Value(32, digits)
  {
  }

  // ----- Identifiers -------------------------------------------------------------------------------

  function Join(prefix: string, body: string): string {
    if prefix == "" then body else prefix + "_" + body
  }

  /** NewAt, for a clock reading in milliseconds and ten random bytes. A negative reading
      wraps to an unsigned 64-bit number before it gets here. */
  method NewAt(prefix: string, ms: nat, entropy: seq<nat>) returns (id: string)
    requires |entropy| == 10 && DigitsBelow(256, entropy)
    ensures IsId(id, prefix, ms, entropy)
  {
    var buf := new char[LENGTH];
    ghost var stamp := EncodeTime(buf, ms);
    ghost var tail := EncodeBytes(buf, 10, entropy);
    assert buf[..10] == TextOf(stamp);
    assert buf[10..] == TextOf(tail);
    assert buf[..] == buf[..10] + buf[10..];
    id := Join(prefix, buf[..]);
    assert IdOf(id, prefix, ms, entropy, stamp, tail);
  }

  ghost function TextOf(digits: seq<nat>): string
    requires DigitsBelow(32, digits)
  {
    seq(|digits|, k requires 0 <= k < |digits| => CharOf(digits[k]))
  }

  lemma TextOfEncodes(digits: seq<nat>)
    requires DigitsBelow(32, digits)
    ensures Encodes(TextOf(digits), digits)
  {
  }

  ghost predicate IdOf(id: string, prefix: string, ms: nat, entropy: seq<nat>, stamp: seq<nat>, tail: seq<nat>) {
    && |entropy| == 10 && DigitsBelow(256, entropy) && |stamp| == 10 && |tail| == 16
    && DigitsBelow(32, stamp) && DigitsBelow(32, tail)
    && Value(32, stamp) == ms % Pow(32, 10) && Value(32, tail) == Value(256, entropy)
    && id == Join(prefix, TextOf(stamp) + TextOf(tail))
  }

  /** `id` is the identifier of a prefix, a millisecond and ten bytes. */
  ghost predicate IsId(id: string, prefix: string, ms: nat, entropy: seq<nat>) {
    exists stamp, tail :: IdOf(id, prefix, ms, entropy, stamp, tail)
  }

  lemma FiftyBits()
    ensures Pow(32, 10) == 0x4_0000_0000_0000
  {
    assert Pow(32, 1) == 32 && Pow(32, 2) == 1024 && Pow(32, 3) == 32768 && Pow(32, 4) == 1048576;
    assert Pow(32, 5) == 33554432 && Pow(32, 6) == 1073741824;
    assert Pow(32, 7) == 34359738368 && Pow(32, 8) == 1099511627776;
  }

  /** Below 2^50 milliseconds, ids of one prefix sort by creation time. */
  lemma IdsSortByTime(a: string, b: string, prefix: string, ms: nat, ms': nat, e: seq<nat>, e': seq<nat>)
    requires IsId(a, prefix, ms, e) && IsId(b, prefix, ms', e')
    requires ms < ms' < 0x4_0000_0000_0000
    ensures TextLess(a, b)
  {
    hide Value, DigitsLess, TextLess, TextOf, Encodes;
    var s, t :| IdOf(a, prefix, ms, e, s, t);
    var s', t' :| IdOf(b, prefix, ms', e', s', t');
    FiftyBits();
    ValueOrders(32, s, s');
    TextOfEncodes(s);
    TextOfEncodes(s');
    EncodingOrders(TextOf(s), TextOf(s'), s, s', TextOf(t), TextOf(t'));
    if prefix != "" {
      TextLessAfterPrefix(prefix + "_", TextOf(s) + TextOf(t), TextOf(s') + TextOf(t'));
    }
  }

  /** The stamp and the ten bytes can be read back: two ids are equal exactly when the
      stamps agree below 2^50 and the random bytes are the same. */
  lemma IdsDecode(a: string, b: string, prefix: string, ms: nat, ms': nat, e: seq<nat>, e': seq<nat>)
    requires IsId(a, prefix, ms, e) && IsId(b, prefix, ms', e')
    ensures a == b <==> ms % 0x4_0000_0000_0000 == ms' % 0x4_0000_0000_0000 && e == e'
  {
    var s, t :| IdOf(a, prefix, ms, e, s, t);
    var s', t' :| IdOf(b, prefix, ms', e', s', t');
    FiftyBits();
    ValueOrders(32, s, s');
    ValueOrders(32, t, t');
    ValueOrders(256, e, e');
    if a == b {
      JoinInjective(prefix, TextOf(s) + TextOf(t), TextOf(s') + TextOf(t'));
      assert TextOf(s) == (TextOf(s) + TextOf(t))[..10] == TextOf(s');
      assert TextOf(t) == (TextOf(s) + TextOf(t))[10..] == TextOf(t');
      TextInjective(s, s');
      TextInjective(t, t');
    }
  }

  /** The digits a text stands for. */
  function DigitsOf(text: string): (ds: seq<nat>)
    requires forall k :: 0 <= k < |text| ==> InAlphabet(text[k])
    ensures |ds| == |text| && forall k :: 0 <= k < |text| ==> ds[k] == DigitOf(text[k])
  {
    seq(|text|, k requires 0 <= k < |text| => DigitOf(text[k]))
  }

  /** The decoder: the first ten digits of the body denote the stamp, the other sixteen the
      same number as the ten random bytes. */
  lemma BodyDecodes(id: string, prefix: string, ms: nat, e: seq<nat>)
    requires IsId(id, prefix, ms, e)
    ensures
      var body := if prefix == "" then id else id[|prefix| + 1..];
      && |body| == LENGTH && (forall k :: 0 <= k < |body| ==> InAlphabet(body[k]))
      && Value(32, DigitsOf(body[..10])) == ms % 0x4_0000_0000_0000
      && Value(32, DigitsOf(body[10..])) == Value(256, e)
    ensures prefix == "" || id[..|prefix| + 1] == prefix + "_"
  {
    hide Value;
    var s, t :| IdOf(id, prefix, ms, e, s, t);
    var body := if prefix == "" then id else id[|prefix| + 1..];
    FiftyBits();
    assert body == TextOf(s) + TextOf(t);
    assert body[..10] == TextOf(s) && body[10..] == TextOf(t);
    TextDecodes(s);
    TextDecodes(t);
  }

  lemma TextDecodes(digits: seq<nat>)
    requires DigitsBelow(32, digits)
    ensures forall k :: 0 <= k < |TextOf(digits)| ==> InAlphabet(TextOf(digits)[k])
    ensures DigitsOf(TextOf(digits)) == digits
  {
    AlphabetIncreases();
  }

  lemma JoinInjective(prefix: string, x: string, y: string)
    requires Join(prefix, x) == Join(prefix, y)
    ensures x == y
  {
    if prefix != "" {
      assert (prefix + "_" + x)[|prefix| + 1..] == x;
      assert (prefix + "_" + y)[|prefix| + 1..] == y;
    }
  }

  lemma TextInjective(a: seq<nat>, b: seq<nat>)
    requires DigitsBelow(32, a) && DigitsBelow(32, b) && TextOf(a) == TextOf(b)
    ensures a == b
  {
    assert |TextOf(a)| == |TextOf(b)|;
    AlphabetIncreases();
    forall k | 0 <= k < |a| ensures a[k] == b[k] {
      assert CharOf(a[k]) == TextOf(a)[k] == TextOf(b)[k] == CharOf(b[k]);
    }
  }

  // ----- Valid ---------------------------------------------------------------------------------------

  predicate Lowercase(s: string) {
    forall k :: 0 <= k < |s| ==> 'a' <= s[k] <= 'z'
  }

  predicate IsBody(s: string) {
    |s| == LENGTH && forall k :: 0 <= k < |s| ==> InAlphabet(s[k])
  }

  /** The index of the last underscore, or -1. */
  method LastUnderscore(id: string) returns (i: int)
    ensures -1 <= i < |id| && (i >= 0 ==> id[i] == '_') && forall k :: i < k < |id| ==> id[k] != '_'
  {
    i := |id| - 1;
    while i >= 0 && id[i] != '_'
      invariant -1 <= i < |id| && forall k :: i < k < |id| ==> id[k] != '_'
    {
      i := i - 1;
    }
  }

  /** Valid: an optional lowercase prefix and a body of 26 alphabet characters. */
  method Valid(id: string) returns (ok: bool)
    ensures ok <==> exists prefix, body :: Lowercase(prefix) && IsBody(body) && id == Join(prefix, body)
  {
    var body := id;
    var i := LastUnderscore(id);
    ghost var prefix := "";
    if i >= 0 {
      SplitAt(id, i);
      if i == 0 || i == |id| - 1 { return false; }
      for j := 0 to i
        invariant forall k :: 0 <= k < j ==> 'a' <= id[k] <= 'z'
      {
        if id[j] < 'a' || id[j] > 'z' { return false; }
      }
      prefix, body := id[..i], id[i + 1..];
      assert id == prefix + "_" + body;
    } else {
      NoPrefix(id);
    }
    if |body| != LENGTH { return false; }
    for k := 0 to |body|
      invariant forall j :: 0 <= j < k ==> InAlphabet(body[j])
    {
      if !InAlphabet(body[k]) { return false; }
    }
    assert Lowercase(prefix) && IsBody(body) && id == Join(prefix, body);
    return true;
  }

  lemma BodyHasNoUnderscore(body: string)
    requires IsBody(body)
    ensures forall k :: 0 <= k < |body| ==> body[k] != '_'
  {
    AlphabetIncreases();
    forall k | 0 <= k < |body| ensures body[k] != '_' {
      assert InAlphabet(body[k]);
    }
  }

  /** With an underscore, there is only one way to split. */
  lemma SplitAt(id: string, i: nat)
    requires i < |id| && id[i] == '_' && forall k :: i < k < |id| ==> id[k] != '_'
    ensures forall prefix, body :: Lowercase(prefix) && IsBody(body) && id == Join(prefix, body) ==>
      prefix == id[..i] && prefix != "" && body == id[i + 1..]
  {
    hide Lowercase, IsBody, Join;
    forall prefix, body | Lowercase(prefix) && IsBody(body) && id == Join(prefix, body)
      ensures prefix == id[..i] && prefix != "" && body == id[i + 1..]
    {
      BodyHasNoUnderscore(body);
      SplitOnce(id, i, prefix, body);
    }
  }

  lemma SplitOnce(id: string, i: nat, prefix: string, body: string)
    requires i < |id| && id[i] == '_' && forall k :: i < k < |id| ==> id[k] != '_'
    requires id == Join(prefix, body) && forall k :: 0 <= k < |body| ==> body[k] != '_'
    ensures prefix == id[..i] && prefix != "" && body == id[i + 1..]
  {
    var p := |prefix|;
    assert prefix != "";
    assert id[p] == '_';
    assert forall k :: p < k < |id| ==> id[k] == body[k - p - 1];
    assert i == p;
  }

  lemma NoPrefix(id: string)
    requires forall k :: 0 <= k < |id| ==> id[k] != '_'
    ensures forall prefix, body :: Lowercase(prefix) && IsBody(body) && id == Join(prefix, body) ==> body == id
  {
    forall prefix, body | Lowercase(prefix) && IsBody(body) && id == Join(prefix, body) ensures body == id {
      assert (prefix + "_" + body)[|prefix|] == '_';
    }
  }

  /** Every id made here, with an empty or lowercase prefix, is valid. */
  lemma GeneratedIsValid(id: string, prefix: string, ms: nat, e: seq<nat>)
    requires IsId(id, prefix, ms, e) && Lowercase(prefix)
    ensures exists p, body :: Lowercase(p) && IsBody(body) && id == Join(p, body)
  {
    var s, t :| IdOf(id, prefix, ms, e, s, t);
    var body := TextOf(s) + TextOf(t);
    forall k | 0 <= k < |body| ensures InAlphabet(body[k]) {
      assert body[k] == if k < 10 then CharOf(s[k]) else CharOf(t[k - 10]);
    }
    assert Lowercase(prefix) && IsBody(body) && id == Join(prefix, body);
  }
}

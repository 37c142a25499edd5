/** 256-bit helpers over big integers stored as machine words (pkg/common/math/big.go), for any
    word size. */
module BigMath {
  import opened Numbers

  const TT255: int := 0x8000000000000000_0000000000000000_0000000000000000_0000000000000000

  // ---------------------------------------------------------------------------------------
  // Words

  /** big.Int.Bits: the little-endian words of n in base `w`, without leading zero words. */
  function Bits(n: nat, w: int): seq<nat>
    requires w > 1
    decreases n
  {
    if n == 0 then [] else
      assert n / w < n by {
        DivShrinks(n, w);
      }
      [n % w] + Bits(n / w, w)
  }

  lemma DivShrinks(n: nat, w: int)
    requires w > 1 && n > 0
    ensures n / w < n
  {
    var q := n / w;
    MulMonotone(q, 2, w);
    assert q * w == w * q;
  }

  function FromBits(ws: seq<nat>, w: int): int {
    if ws == [] then 0 else ws[0] + w * FromBits(ws[1..], w)
  }

  lemma {:induction false} BitsValue(n: nat, w: int)
    requires w > 1
    ensures FromBits(Bits(n, w), w) == n
    decreases n
  {
    if n > 0 {
      DivShrinks(n, w);
      BitsValue(n / w, w);
      assert Bits(n, w)[1..] == Bits(n / w, w);
      assert n == n % w + w * (n / w);
    }
  }

  lemma {:induction false} WordsFit(n: nat, w: int, i: nat)
    requires w > 1 && i < |Bits(n, w)|
    ensures Bits(n, w)[i] < w
    decreases n
  {
    DivShrinks(n, w);
    if i > 0 {
      WordsFit(n / w, w, i - 1);
    }
  }

  lemma {:induction false} TopWordNotZero(n: nat, w: int)
    requires w > 1 && n > 0
    ensures Bits(n, w) != [] && Bits(n, w)[|Bits(n, w)| - 1] != 0
    decreases n
  {
    DivShrinks(n, w);
    if n / w == 0 {
      assert Bits(n / w, w) == [];
      assert n == n % w + w * (n / w);
    } else {
      TopWordNotZero(n / w, w);
    }
  }

  // ---------------------------------------------------------------------------------------
  // Objects

  /** math/big.Int as far as it is used here: a number whose methods overwrite the receiver. */
  class BigInt {
    var val: int

    constructor (v: int)
      ensures val == v
    {
      val := v;
    }

    method Mul(x: BigInt, y: BigInt) returns (z: BigInt)
      modifies this
      ensures z == this && val == old(x.val) * old(y.val)
    {
      val := x.val * y.val;
      z := this;
    }
  }

  /** Keeps the last 256 bits of x in two's complement, in place. */
  method U256(x: BigInt) returns (z: BigInt)
    modifies x
    ensures z == x && 0 <= x.val < TT256 && x.val == old(x.val) % TT256
  {
    x.val := x.val % TT256;
    z := x;
  }

  function S256(x: int): int {
    if x < TT255 then x else x - TT256
  }

  /** On 256-bit numbers, reading as two's complement and truncating undo each other, and the
      reading is the number of the signed range with the same last 256 bits. */
  lemma SignedRoundTrip(x: int)
    ensures 0 <= x < TT256 ==> S256(x) % TT256 == x && -TT255 <= S256(x) < TT255
    ensures -TT255 <= x < TT255 ==> S256(x % TT256) == x
  {
    if 0 <= x < TT256 {
      if x < TT255 {
        DivModUnique(x, TT256, 0, x);
      } else {
        DivModUnique(x - TT256, TT256, -1, x);
      }
    } else if -TT255 <= x < 0 {
      DivModUnique(x, TT256, -1, x + TT256);
    }
  }

  // ---------------------------------------------------------------------------------------
  // Exponentiation by squaring

  /** One squaring step: the lowest bit of the exponent moves into the result. */
  lemma SquareStep(result: int, base: int, e: nat, m: int)
    requires m > 0
    ensures var r := if e % 2 == 1 then result * base % m else result;
            r * Pow(base * base % m, e / 2) % m == result * Pow(base, e) % m
  {
    var r := if e % 2 == 1 then result * base % m else result;
    var half, sq := e / 2, base * base;
    PowSquare(base, half);
    PowMod(sq, half, m);
    ModOfProduct(Pow(sq % m, half), r, m);
    ModOfProduct(Pow(sq, half), r, m);
    assert r * Pow(sq % m, half) % m == r * Pow(sq, half) % m;
    if e % 2 == 1 {
      ModOfProduct(result * base, Pow(sq, half), m);
      MulAssoc(result, base, Pow(base, 2 * half));
      assert e == 2 * half + 1;
    } else {
      assert e == 2 * half;
    }
  }

  /** The exponent that is left when `w` of the current word, shifted `i` times, and the words
      above it are still to be read. */
  function Remaining(w: nat, left: nat, above: nat): nat
    ensures Remaining(w, left, above) == w + Pow(2, left) * above
  {
    PowPositive(2, left);
    MulMonotone(Pow(2, left), 0, above);
    w + Pow(2, left) * above
  }

  lemma RemainingHalves(w: nat, left: nat, above: nat)
    requires left > 0
    ensures Remaining(w, left, above) % 2 == w % 2
    ensures Remaining(w, left, above) / 2 == Remaining(w / 2, left - 1, above)
  {
    assert Pow(2, left) * above == 2 * (Pow(2, left - 1) * above) by {
      MulAssoc(2, Pow(2, left - 1), above);
    }
    DivModUnique(Remaining(w, left, above), 2, w / 2 + Pow(2, left - 1) * above, w % 2);
  }

  /** After `squared` bits: the result times the base to the power of what is left is the answer,
      and the base has been squared that often. */
  ghost predicate ExpInv(b: int, answer: int, squared: nat, result: int, base: int, left: nat) {
    && result * Pow(base, left) % TT256 == answer
    && 0 <= result < TT256
    && base == if squared == 0 then b else Pow(b, PowerOfTwo(squared)) % TT256
  }

  lemma BitStep(b: int, answer: int, squared: nat, result: int, base: int, left: nat)
    requires ExpInv(b, answer, squared, result, base, left)
    ensures ExpInv(b, answer, squared + 1, if left % 2 == 1 then result * base % TT256 else result, base * base % TT256, left / 2)
  {
    SquareStep(result, base, left, TT256);
    SquaredAgain(b, squared, base);
  }

  /** Returns base to the power of the exponent modulo 2^256. `base` is overwritten: it ends as
      its own square, taken once per bit of the exponent's words, so it is unchanged exactly for
      exponent 0 and for bases 0 and 1. A negative exponent counts as its absolute value. */
  method Exp(base: BigInt, exponent: BigInt, wordBits: nat) returns (result: BigInt)
    requires base != exponent && wordBits > 0
    modifies base
    ensures fresh(result) && result.val == Pow(old(base.val), Abs(exponent.val)) % TT256
    ensures base.val == BaseAfter(old(base.val), exponent.val, wordBits)
    ensures base.val == old(base.val) <==> exponent.val == 0 || old(base.val) == 0 || old(base.val) == 1
  {
    ghost var b, answer := base.val, Pow(base.val, Abs(exponent.val)) % TT256;
    WordSize(wordBits);
    ghost var size: nat := Pow(2, wordBits);
    var words := Bits(Abs(exponent.val), Pow(2, wordBits));
    BitsValue(Abs(exponent.val), size);
    result := new BigInt(1);
    ghost var squared := 0;
    ghost var left: nat := Abs(exponent.val);
    var k := 0;
    assert words[0..] == words;
    ExpStarts(b, left);
    while k < |words|
      invariant k <= |words| && fresh(result) && squared == wordBits * k
      invariant left == FromBits(words[k..], size)
      invariant ExpInv(b, answer, squared, result.val, base.val, left)
    {
      WordsFit(Abs(exponent.val), size, k);
      left := NextWord(words, k, wordBits, left);
      squared := ExpWord(result, base, words[k], wordBits, b, answer, squared, left);
      k := k + 1;
      assert wordBits * k == wordBits * (k - 1) + wordBits;
    }
    assert words[k..] == [];
    ExpEnds(b, answer, squared, result.val, base.val);
    BaseKept(b, exponent.val, wordBits);
  }

  lemma ExpStarts(b: int, left: nat)
    ensures ExpInv(b, Pow(b, left) % TT256, 0, 1, b, left)
  {
  }

  lemma ExpEnds(b: int, answer: int, squared: nat, result: int, base: int)
    requires ExpInv(b, answer, squared, result, base, 0)
    ensures result == answer
  {
    DivModUnique(result, TT256, 0, result);
  }

  lemma NextWord(words: seq<nat>, k: nat, wordBits: nat, left: nat) returns (above: nat)
    requires k < |words| && left == FromBits(words[k..], Pow(2, wordBits))
    ensures above == FromBits(words[k + 1..], Pow(2, wordBits)) && left == Remaining(words[k], wordBits, above)
  {
    PowPositive(2, wordBits);
    FromBitsNat(words[k + 1..], Pow(2, wordBits));
    assert words[k..][1..] == words[k + 1..];
    above := FromBits(words[k + 1..], Pow(2, wordBits));
  }

  /** The inner loop: the bits of one word, lowest first. */
  method ExpWord(result: BigInt, base: BigInt, w: nat, wordBits: nat,
                 ghost b: int, ghost answer: int, ghost squared: nat, ghost above: nat) returns (ghost squared': nat)
    requires result != base && w < Pow(2, wordBits)
    requires ExpInv(b, answer, squared, result.val, base.val, Remaining(w, wordBits, above))
    modifies result, base
    ensures squared' == squared + wordBits
    ensures ExpInv(b, answer, squared', result.val, base.val, above)
  {
    var word: nat := w;
    var i := 0;
    while i < wordBits
      invariant i <= wordBits && word < Pow(2, wordBits - i)
      invariant ExpInv(b, answer, squared + i, result.val, base.val, Remaining(word, wordBits - i, above))
    {
      BitStep(b, answer, squared + i, result.val, base.val, Remaining(word, wordBits - i, above));
      RemainingHalves(word, wordBits - i, above);
      if word % 2 == 1 {
        var product := result.Mul(result, base);
        product := U256(product);
      }
      var square := base.Mul(base, base);
      square := U256(square);
      word := word / 2;
      i := i + 1;
    }
    squared' := squared + wordBits;
  }

  lemma WordSize(wordBits: nat)
    requires wordBits > 0
    ensures Pow(2, wordBits) > 1
  {
    PowPositive(2, wordBits - 1);
  }

  /** The number of words of n. */
  function WordCount(n: nat, wordBits: nat): nat
    requires wordBits > 0
  {
    WordSize(wordBits);
    |Bits(n, Pow(2, wordBits))|
  }

  /** 2 to the power `n`, as a natural number. */
  function PowerOfTwo(n: nat): nat {
    PowPositive(2, n);
    Pow(2, n)
  }

  // ---------------------------------------------------------------------------------------
  // What Exp leaves in its base

  function BaseAfter(b: int, e: int, wordBits: nat): int
    requires wordBits > 0
  {
    if e == 0 then b else Pow(b, PowerOfTwo(wordBits * WordCount(Abs(e), wordBits))) % TT256
  }

  /** The base keeps its value exactly for exponent 0 and for bases 0 and 1. */
  lemma BaseKept(b: int, e: int, wordBits: nat)
    requires wordBits > 0
    ensures BaseAfter(b, e, wordBits) == b <==> e == 0 || b == 0 || b == 1
  {
    if e != 0 {
      WordSize(wordBits);
      TopWordNotZero(Abs(e), Pow(2, wordBits));
      MulPositive(wordBits, WordCount(Abs(e), wordBits));
      FixedBySquaring(b, wordBits * WordCount(Abs(e), wordBits));
    }
  }

  /** 2 to the power 1 with 64-bit words: the base ends as 0. */
  lemma BaseLost()
    ensures BaseAfter(2, 1, 64) == 0
  {
    WordSize(64);
    OneWord(Pow(2, 64));
    PowMonotone(2, 8, 64);
    SmallPowers();
    PowerVanishes(PowerOfTwo(64), 1);
  }

  lemma OneWord(w: int)
    requires w > 1
    ensures |Bits(1, w)| == 1
  {
    DivModUnique(1, w, 0, 1);
  }

  lemma SmallPowers()
    ensures Pow(2, 8) == 256 && Pow(2, 256) == TT256
  {
    assert Pow(2, 1) == 2;
    PowAdd(2, 1, 1);
    PowAdd(2, 2, 2);
    PowAdd(2, 4, 4);
    PowAdd(2, 8, 8);
    PowAdd(2, 16, 16);
    PowAdd(2, 32, 32);
    PowAdd(2, 64, 64);
    PowAdd(2, 128, 128);
  }

  /** A multiple of a power of 2 above 2^256 is 0 modulo 2^256, and one more than it is 1. */
  lemma PowerVanishes(n: nat, t: int)
    requires n >= 256
    ensures Pow(2, n) * t % TT256 == 0 && (1 + Pow(2, n) * t) % TT256 == 1
  {
    SmallPowers();
    PowAdd(2, 256, n - 256);
    var q := Pow(2, n - 256) * t;
    assert Pow(2, n) * t == TT256 * q by {
      MulAssoc(TT256, Pow(2, n - 256), t);
    }
    DivModUnique(TT256 * q, TT256, q, 0);
    DivModUnique(TT256 * q + 1, TT256, q, 1);
  }

  lemma {:induction false} PowOfProduct(a: int, b: int, k: nat)
    ensures Pow(a * b, k) == Pow(a, k) * Pow(b, k)
  {
    if k > 0 {
      PowOfProduct(a, b, k - 1);
      var x, y := Pow(a, k - 1), Pow(b, k - 1);
      assert a * b * (x * y) == a * x * (b * y) by {
        MulAssoc(a * b, x, y);
        MulAssoc(a, b, x);
        MulAssoc(a, x, b);
        MulAssoc(a * x, b, y);
        assert b * x == x * b;
      }
    }
  }

  lemma {:induction false} OddPower(b: int, k: nat)
    requires b % 2 == 1
    ensures Pow(b, k) % 2 == 1
  {
    if k > 0 {
      OddPower(b, k - 1);
      OddTimesOdd(b, Pow(b, k - 1));
    }
  }

  lemma OddTimesOdd(a: int, b: int)
    requires a % 2 == 1 && b % 2 == 1
    ensures a * b % 2 == 1
  {
    var x, y := a / 2, b / 2;
    assert a == 2 * x + 1 && b == 2 * y + 1;
    assert a * b == 2 * (x * b + y) + 1 by {
      assert a * b == 2 * x * b + b;
      MulAssoc(2, x, b);
    }
  }

  /** An odd number squared k times is 1 more than a multiple of 2^k. */
  lemma {:induction false} OddSquared(b: int, k: nat) returns (t: int)
    requires b % 2 == 1
    ensures Pow(b, PowerOfTwo(k)) == 1 + Pow(2, k) * t
  {
    if k == 0 {
      t := b - 1;
      assert Pow(b, 1) == b * Pow(b, 0) == b;
    } else {
      var u := OddSquared(b, k - 1);
      var x := Pow(b, PowerOfTwo(k - 1));
      assert PowerOfTwo(k) == PowerOfTwo(k - 1) + PowerOfTwo(k - 1);
      PowAdd(b, PowerOfTwo(k - 1), PowerOfTwo(k - 1));
      OddPower(b, PowerOfTwo(k - 1));
      t := u * ((x + 1) / 2);
      SquareOfOdd(x, Pow(2, k - 1), u);
    }
  }

  lemma SquareOfOdd(x: int, m: int, u: int)
    requires x % 2 == 1 && x == 1 + m * u
    ensures x * x == 1 + 2 * m * (u * ((x + 1) / 2))
  {
    var h := (x + 1) / 2;
    assert x + 1 == 2 * h;
    assert x * x == 1 + (x - 1) * (x + 1);
    assert m * u * (2 * h) == 2 * m * (u * h) by {
      MulAssoc(m * u, 2, h);
      MulAssoc(2 * m, u, h);
      MulAssoc(2, m, u);
    }
  }

  /** A number that squaring n times fixes stays fixed when that is repeated. */
  lemma {:induction false} FixedAgain(b: int, n: nat, j: nat)
    requires Pow(b, PowerOfTwo(n)) % TT256 == b
    ensures 0 <= n * j && Pow(b, PowerOfTwo(n * j)) % TT256 == b
    decreases j
  {
    if j == 0 {
      assert n * j == 0 && Pow(b, 1) == b * Pow(b, 0) == b;
      DivModUnique(b, TT256, 0, b);
    } else {
      FixedAgain(b, n, j - 1);
      var k := n * (j - 1);
      assert n * j == k + n;
      PowAdd(2, k, n);
      PowPow(b, PowerOfTwo(k), PowerOfTwo(n));
      PowMod(Pow(b, PowerOfTwo(k)), PowerOfTwo(n), TT256);
    }
  }

  /** Squaring a number n > 0 times modulo 2^256 gives the number back only for 0 and 1. */
  lemma FixedBySquaring(b: int, n: nat)
    requires n > 0
    ensures Pow(b, PowerOfTwo(n)) % TT256 == b <==> b == 0 || b == 1
  {
    if b == 0 || b == 1 {
      PowPositive(2, n);
      PowOfZeroOrOne(b, PowerOfTwo(n));
      DivModUnique(b, TT256, 0, b);
    } else if Pow(b, PowerOfTwo(n)) % TT256 == b {
      FixedAgain(b, n, 256);
      var m := n * 256;
      if b % 2 == 1 {
        var t := OddSquared(b, m);
        PowerVanishes(m, t);
      } else {
        PowOfProduct(2, b / 2, PowerOfTwo(m));
        SmallPowers();
        PowMonotone(2, 8, m);
        PowerVanishes(PowerOfTwo(m), Pow(b / 2, PowerOfTwo(m)));
      }
    }
  }

  lemma {:induction false} PowOfZeroOrOne(b: int, k: nat)
    requires (b == 0 && k > 0) || b == 1
    ensures Pow(b, k) == b
  {
    if b == 1 && k > 0 {
      PowOfZeroOrOne(b, k - 1);
    }
  }

  lemma {:induction false} FromBitsNat(ws: seq<nat>, w: int)
    requires w >= 0
    ensures FromBits(ws, w) >= 0
  {
    if ws != [] {
      FromBitsNat(ws[1..], w);
      MulMonotone(w, 0, FromBits(ws[1..], w));
    }
  }

  lemma SquaredAgain(b: int, n: nat, base: int)
    requires base == if n == 0 then b else Pow(b, PowerOfTwo(n)) % TT256
    ensures base * base % TT256 == Pow(b, PowerOfTwo(n + 1)) % TT256
  {
    assert PowerOfTwo(n + 1) == PowerOfTwo(n) + PowerOfTwo(n);
    PowAdd(b, PowerOfTwo(n), PowerOfTwo(n));
    var x := Pow(b, PowerOfTwo(n));
    if n == 0 {
      assert x == b * Pow(b, 0) == b;
    } else {
      ModOfProduct(x, x % TT256, TT256);
      ModOfProduct(x, x, TT256);
    }
  }

  // ---------------------------------------------------------------------------------------
  // Byte views, for words of `wb` bytes

  /** Byte k of a number in base 256^wb is a byte of its lowest word or of the rest. */
  lemma {:induction false} ByteOfWords(d: nat, rest: nat, wb: nat, k: nat)
    requires d < Pow(256, wb)
    ensures 0 <= Pow(256, wb) * rest
    ensures ByteAt(d + Pow(256, wb) * rest, k) == if k < wb then ByteAt(d, k) else ByteAt(rest, k - wb)
    decreases wb
  {
    PowPositive(256, wb);
    MulMonotone(Pow(256, wb), 0, rest);
    if wb > 0 {
      var m := Pow(256, wb - 1);
      PowPositive(256, wb - 1);
      MulMonotone(m, 0, rest);
      var n := d + Pow(256, wb) * rest;
      assert Pow(256, wb) * rest == 256 * (m * rest) by {
        MulAssoc(256, m, rest);
      }
      DivModUnique(n, 256, d / 256 + m * rest, d % 256);
      if k > 0 {
        ByteOfWords(d / 256, rest, wb - 1, k - 1);
      }
    }
  }

  /** Reading bytes word by word reads the bytes of the number; past the words there are zeros. */
  lemma {:induction false} ByteOfBits(n: nat, wb: nat, i: nat, j: nat)
    requires j < wb && Pow(256, wb) > 1
    ensures 0 <= i * wb
    ensures ByteAt(n, i * wb + j) == if i < |Bits(n, Pow(256, wb))| then ByteAt(Bits(n, Pow(256, wb))[i], j) else 0
    decreases i
  {
    var w := Pow(256, wb);
    if n == 0 {
      MulMonotone(wb, 0, i);
      ByteAtZero(i * wb + j);
    } else {
      var rest := n / w;
      assert n == n % w + w * rest;
      if i == 0 {
        ByteOfWords(n % w, rest, wb, j);
      } else {
        assert i * wb + j == (i - 1) * wb + j + wb;
        ByteOfBits(rest, wb, i - 1, j);
        ByteOfWords(n % w, rest, wb, i * wb + j);
      }
    }
  }

  lemma WordBase(wb: nat)
    requires wb > 0
    ensures Pow(256, wb) > 1
  {
    PowPositive(256, wb - 1);
  }

  /** Byte n of |x| from the least significant end, found in its word and shifted out. */
  function BigEndianByteAt(x: int, n: nat, wb: nat): (r: byte)
    requires wb > 0
    ensures r == ByteAt(Abs(x), n)
  {
    WordBase(wb);
    ghost var i, j := n / wb, n % wb;
    assert n == n / wb * wb + n % wb;
    ByteOfBits(Abs(x), wb, n / wb, n % wb);
    var words := Bits(Abs(x), Pow(256, wb));
    if n / wb >= |words| then 0
    else
      ByteAtIsQuotient(words[n / wb], n % wb);
      words[n / wb] / Pow(256, n % wb) % 256
  }

  /** Byte n of |x| written big-endian in `padlength` bytes, and zero beyond it. */
  function Byte(x: int, padlength: int, n: int, wb: nat): (r: byte)
    requires wb > 0
    ensures n >= padlength ==> r == 0
    ensures n < padlength ==> r == ByteAt(Abs(x), padlength - 1 - n)
  {
    if n >= padlength then 0 else BigEndianByteAt(x, padlength - 1 - n, wb)
  }

  /** Writes |x| big-endian into the end of the buffer: as many bytes as fit, in whole words. What
      lies before the words' bytes is left alone. */
  method ReadBits(x: int, buf: array<byte>, wb: nat)
    requires wb > 0
    modifies buf
    ensures forall p :: 0 <= p < buf.Length ==>
              buf[p] == if buf.Length - 1 - p < wb * |WordsOf(x, wb)| then ByteAt(Abs(x), buf.Length - 1 - p) else old(buf[p])
  {
    var words := WordsOf(x, wb);
    WordBase(wb);
    var i := buf.Length;
    var k := 0;
    while k < |words|
      invariant k <= |words| && 0 <= wb * k && i == if wb * k <= buf.Length then buf.Length - wb * k else 0
      invariant forall p :: i <= p < buf.Length ==> buf[p] == ByteAt(Abs(x), buf.Length - 1 - p)
      invariant forall p :: 0 <= p < i ==> buf[p] == old(buf[p])
    {
      ghost var before, top := buf[..], i;
      i := WriteWord(buf, i, words[k], wb);
      forall p | i <= p < buf.Length
        ensures buf[p] == ByteAt(Abs(x), buf.Length - 1 - p)
      {
        if p < top {
          assert wb * k == k * wb;
          ByteOfBits(Abs(x), wb, k, top - 1 - p);
        } else {
          assert buf[p] == before[p];
        }
      }
      assert wb * (k + 1) == wb * k + wb;
      k := k + 1;
    }
  }

  /** The inner loop: the bytes of one word, from position `top` downwards, while there is room. */
  method WriteWord(buf: array<byte>, top: nat, word: nat, wb: nat) returns (i: nat)
    requires top <= buf.Length
    modifies buf
    ensures i == if wb <= top then top - wb else 0
    ensures forall p :: i <= p < top ==> buf[p] == ByteAt(word, top - 1 - p)
    ensures forall p :: 0 <= p < buf.Length && !(i <= p < top) ==> buf[p] == old(buf[p])
  {
    i := top;
    var d, j := word, 0;
    while j < wb && i > 0
      invariant j <= wb && i == top - j
      invariant forall m: nat :: ByteAt(d, m) == ByteAt(word, j + m)
      invariant forall p :: i <= p < top ==> buf[p] == ByteAt(word, top - 1 - p)
      invariant forall p :: 0 <= p < buf.Length && !(i <= p < top) ==> buf[p] == old(buf[p])
    {
      i := i - 1;
      assert ByteAt(d, 0) == ByteAt(word, j);
      buf[i] := d % 256;
      ShiftedByte(d, word, j);
      d := d / 256;
      j := j + 1;
    }
  }

  function WordsOf(x: int, wb: nat): seq<nat>
    requires wb > 0
  {
    WordBase(wb);
    Bits(Abs(x), Pow(256, wb))
  }

  /** Into a zeroed buffer of p bytes, ReadBits writes |x| modulo 256^p. */
  method ReadBitsIntoZeros(x: int, buf: array<byte>, wb: nat)
    requires wb > 0 && forall p :: 0 <= p < buf.Length ==> buf[p] == 0
    modifies buf
    ensures IsPadded(buf[..], Abs(x))
    ensures Pow(256, buf.Length) > 0 && FromBytes(buf[..]) == Abs(x) % Pow(256, buf.Length)
  {
    ReadBits(x, buf, wb);
    forall p | 0 <= p < buf.Length
      ensures buf[..][p] == ByteAt(Abs(x), buf.Length - 1 - p)
    {
      if wb * |WordsOf(x, wb)| <= buf.Length - 1 - p {
        PastWords(x, wb, buf.Length - 1 - p);
      }
    }
    PaddedValue(buf[..], Abs(x));
  }

  lemma PastWords(x: int, wb: nat, k: nat)
    requires wb > 0 && k >= wb * |WordsOf(x, wb)|
    ensures ByteAt(Abs(x), k) == 0
  {
    WordBase(wb);
    DivAtLeast(k, wb, |WordsOf(x, wb)|);
    assert k == k / wb * wb + k % wb;
    ByteOfBits(Abs(x), wb, k / wb, k % wb);
  }

  lemma DivAtLeast(k: int, m: int, c: int)
    requires m > 0 && k >= m * c
    ensures k / m >= c
  {
    var e := k - m * c;
    assert k == m * (c + e / m) + e % m by {
      assert m * (c + e / m) == m * c + m * (e / m);
    }
    DivModUnique(k, m, c + e / m, e % m);
  }

  /** big.Int.BitLen. */
  function BitLen(n: nat): nat {
    if n == 0 then 0 else 1 + BitLen(n / 2)
  }

  /** A number of b bits takes b/8 bytes, rounded up. */
  lemma {:induction false} ByteLenOfBitLen(n: nat)
    ensures ByteLen(n) == (BitLen(n) + 7) / 8
    decreases n
  {
    if n < 256 {
      SmallBitLen(n, 8);
    } else {
      ByteLenOfBitLen(n / 256);
      EightBits(n);
    }
  }

  lemma {:induction false} SmallBitLen(n: nat, k: nat)
    requires n < Pow(2, k)
    ensures BitLen(n) <= k && (n > 0 ==> BitLen(n) > 0)
    decreases k
  {
    if n > 0 {
      SmallBitLen(n / 2, k - 1);
    }
  }

  lemma EightBits(n: nat)
    requires n >= 256
    ensures BitLen(n) == 8 + BitLen(n / 256)
  {
    FourBits(n);
    FourBits(n / 16);
    assert n / 16 / 16 == n / 256;
  }

  lemma FourBits(n: nat)
    requires n >= 16
    ensures BitLen(n) == 4 + BitLen(n / 16)
  {
    assert n / 2 / 2 == n / 4 && n / 4 / 2 == n / 8 && n / 8 / 2 == n / 16;
    assert BitLen(n) == 1 + BitLen(n / 2) && BitLen(n / 2) == 1 + BitLen(n / 4);
    assert BitLen(n / 4) == 1 + BitLen(n / 8) && BitLen(n / 8) == 1 + BitLen(n / 16);
  }

  /** |x| big-endian in at least n bytes: as many as asked for, or as needed. */
  method PaddedBigBytes(x: int, n: int, wb: nat) returns (bs: seq<byte>)
    requires wb > 0
    ensures |bs| == if n > ByteLen(Abs(x)) then n else ByteLen(Abs(x))
    ensures FromBytes(bs) == Abs(x)
  {
    ByteLenOfBitLen(Abs(x));
    if BitLen(Abs(x)) / 8 >= n {
      MinBytesValue(Abs(x));
      return MinBytes(Abs(x));
    }
    var ret := new byte[n](_ => 0);
    ReadBitsIntoZeros(x, ret, wb);
    ByteLenBounds(Abs(x));
    PowMonotone(256, ByteLen(Abs(x)), n);
    DivModUnique(Abs(x), Pow(256, n), 0, Abs(x));
    return ret[..];
  }

  /** The three byte views agree: byte n of the padded bytes is `Byte`, whatever the word sizes. */
  lemma ViewsAgree(x: int, bs: seq<byte>, n: nat, wb: nat)
    requires wb > 0 && n < |bs| && FromBytes(bs) == Abs(x)
    ensures bs[n] == Byte(x, |bs|, n, wb)
  {
    FromBytesPadded(bs);
  }

  // ---------------------------------------------------------------------------------------
  // Bits

  function Bit(v: int, i: nat): (b: int)
    ensures b == 0 || b == 1
    decreases i
  {
    if i == 0 then v % 2 else Bit(v / 2, i - 1)
  }

  /** The index of the lowest one bit; the bit length when there is none. */
  method FirstBitSet(v: int) returns (r: nat)
    ensures r <= BitLen(Abs(v))
    ensures v == 0 ==> r == 0
    ensures v != 0 ==> Pow(2, r) > 0 && v % Pow(2, r) == 0 && v / Pow(2, r) % 2 == 1
  {
    r := 0;
    while r < BitLen(Abs(v))
      invariant r <= BitLen(Abs(v))
      invariant forall i: nat :: i < r ==> Bit(v, i) == 0
    {
      if Bit(v, r) > 0 {
        break;
      }
      r := r + 1;
    }
    if v != 0 {
      LowestBit(v, r);
    }
  }

  /** When the bits below r are zero, v is a multiple of 2^r; and a number whose bits are zero up
      to its bit length is zero. */
  lemma {:induction false} LowestBit(v: int, r: nat)
    requires v != 0 && (forall i: nat :: i < r ==> Bit(v, i) == 0)
    requires r < BitLen(Abs(v)) ==> Bit(v, r) == 1
    requires r <= BitLen(Abs(v))
    ensures Pow(2, r) > 0 && v % Pow(2, r) == 0 && v / Pow(2, r) % 2 == 1
    decreases r
  {
    PowPositive(2, r);
    if r > 0 {
      assert Bit(v, 0) == 0;
      var h := v / 2;
      assert v == 2 * h;
      HalfBits(v, h, r);
      LowestBit(h, r - 1);
      DoubledMultiple(v, h, Pow(2, r - 1));
    }
  }

  lemma DoubledMultiple(v: int, h: int, m: int)
    requires v == 2 * h && m > 0 && h % m == 0
    ensures v % (2 * m) == 0 && v / (2 * m) == h / m
  {
    var q := h / m;
    assert h == m * q;
    MulAssoc(2, m, q);
    DivModUnique(v, 2 * m, q, 0);
  }

  lemma HalfBits(v: int, h: int, r: nat)
    requires v != 0 && v == 2 * h && r > 0
    requires forall i: nat :: i < r ==> Bit(v, i) == 0
    ensures forall i: nat :: i < r - 1 ==> Bit(h, i) == 0
    ensures Bit(v, r) == Bit(h, r - 1) && BitLen(Abs(v)) == 1 + BitLen(Abs(h))
  {
    assert v / 2 == h && Abs(v) / 2 == Abs(h);
    forall i: nat | i < r - 1
      ensures Bit(h, i) == 0
    {
      assert Bit(v, i + 1) == 0;
    }
  }
}

/** Powers, remainders and positional notation. */
module Numbers {

  const TT256: int := 0x1_0000000000000000_0000000000000000_0000000000000000_0000000000000000

  function Pow(b: int, e: nat): int {
    if e == 0 then 1 else b * Pow(b, e - 1)
  }

  function Abs(x: int): nat {
    if x < 0 then -x else x
  }

  lemma {:induction false} PowPositive(b: int, e: nat)
    requires b > 0
    ensures Pow(b, e) > 0
  {
    if e > 0 {
      PowPositive(b, e - 1);
      MulPositive(b, Pow(b, e - 1));
    }
  }

  lemma MulPositive(a: int, b: int)
    requires a > 0 && b > 0
    ensures a * b > 0
  {
  }

  lemma {:induction false} PowAdd(b: int, d: nat, e: nat)
    ensures Pow(b, d + e) == Pow(b, d) * Pow(b, e)
  {
    if d > 0 {
      PowAdd(b, d - 1, e);
      assert d + e - 1 == d - 1 + e;
      MulAssoc(b, Pow(b, d - 1), Pow(b, e));
    }
  }

  lemma MulAssoc(a: int, b: int, c: int)
    ensures a * (b * c) == a * b * c
  {
  }

  lemma {:induction false} PowSquare(b: int, e: nat)
    ensures Pow(b * b, e) == Pow(b, 2 * e)
  {
    if e > 0 {
      PowSquare(b, e - 1);
      assert Pow(b, 2 * e) == b * Pow(b, 2 * e - 1) == b * (b * Pow(b, 2 * e - 2));
      MulAssoc(b, b, Pow(b, 2 * e - 2));
    }
  }

  lemma {:induction false} PowPow(b: int, d: nat, e: nat)
    ensures 0 <= d * e && Pow(Pow(b, d), e) == Pow(b, d * e)
  {
    if e == 0 {
      assert d * e == 0;
    } else {
      PowPow(b, d, e - 1);
      assert d * e == d + d * (e - 1);
      PowAdd(b, d, d * (e - 1));
    }
  }

  /** Quotient and remainder are determined by their equation. */
  lemma DivModUnique(x: int, m: int, q: int, r: int)
    requires m > 0 && 0 <= r < m && x == m * q + r
    ensures x / m == q && x % m == r
  {
    var q' := x / m;
    assert x == m * q' + x % m;
    assert m * (q - q') == m * q - m * q';
    MultipleSize(m, q - q');
  }

  lemma MultipleSize(m: int, k: int)
    requires m > 0
    ensures k > 0 ==> m * k >= m
    ensures k < 0 ==> m * k <= -m
  {
    if k > 0 {
      MulMonotone(m, 1, k);
    } else if k < 0 {
      MulMonotone(m, k, -1);
    }
  }

  lemma MulMonotone(m: int, a: int, b: int)
    requires m >= 0 && a <= b
    ensures m * a <= m * b
  {
  }

  lemma ModOfSum(m: int, k: int, c: int)
    requires m > 0
    ensures (m * k + c) % m == c % m
  {
    var q := c / m;
    assert m * k + c == m * (k + q) + c % m by {
      assert m * (k + q) == m * k + m * q;
    }
    DivModUnique(m * k + c, m, k + q, c % m);
  }

  lemma ModOfProduct(a: int, b: int, m: int)
    requires m > 0
    ensures (a % m) * b % m == a * b % m
    ensures b * (a % m) % m == b * a % m
  {
    var q, r := a / m, a % m;
    assert a == m * q + r;
    assert a * b == m * (q * b) + r * b by {
      assert a * b == (m * q + r) * b == m * q * b + r * b;
      MulAssoc(m, q, b);
    }
    ModOfSum(m, q * b, r * b);
    assert b * r == r * b && b * a == a * b;
  }

  /** Reducing the base does not change a power modulo m. */
  lemma {:induction false} PowMod(b: int, e: nat, m: int)
    requires m > 0
    ensures Pow(b % m, e) % m == Pow(b, e) % m
  {
    if e > 0 {
      PowMod(b, e - 1, m);
      calc {
        Pow(b % m, e) % m;
        (b % m) * Pow(b % m, e - 1) % m;
        { ModOfProduct(b, Pow(b % m, e - 1), m); }
        b * Pow(b % m, e - 1) % m;
        { ModOfProduct(Pow(b % m, e - 1), b, m); }
        b * (Pow(b % m, e - 1) % m) % m;
        b * (Pow(b, e - 1) % m) % m;
        { ModOfProduct(Pow(b, e - 1), b, m); }
        b * Pow(b, e - 1) % m;
      }
    }
  }

  lemma DivDiv(n: nat, a: nat, b: nat)
    requires a > 0 && b > 0
    ensures a * b > 0 && n / a / b == n / (a * b)
  {
    MulPositive(a, b);
    var q, r := n / a, n % a;
    var q2, r2 := q / b, q % b;
    assert n == a * q + r && q == b * q2 + r2;
    assert n == a * b * q2 + (a * r2 + r) by {
      assert a * q == a * (b * q2 + r2) == a * (b * q2) + a * r2;
      MulAssoc(a, b, q2);
    }
    assert 0 <= a * r2 + r < a * b by {
      MulMonotone(a, r2 + 1, b);
      assert a * (r2 + 1) == a * r2 + a;
      MulMonotone(a, 0, r2);
    }
    DivModUnique(n, a * b, q2, a * r2 + r);
  }

  // ---------------------------------------------------------------------------------------
  // Bytes

  type byte = x: int | 0 <= x < 256

  /** Byte k of n, counting from the least significant one. */
  function ByteAt(n: nat, k: nat): byte {
    if k == 0 then n % 256 else ByteAt(n / 256, k - 1)
  }

  lemma {:induction false} ByteAtIsQuotient(n: nat, k: nat)
    ensures Pow(256, k) > 0 && ByteAt(n, k) == n / Pow(256, k) % 256
  {
    PowPositive(256, k);
    if k > 0 {
      ByteAtIsQuotient(n / 256, k - 1);
      PowPositive(256, k - 1);
      DivDiv(n, 256, Pow(256, k - 1));
    }
  }

  lemma {:induction false} ByteAtZero(k: nat)
    ensures ByteAt(0, k) == 0
  {
    if k > 0 {
      ByteAtZero(k - 1);
    }
  }

  /** The number whose big-endian bytes are `bs`. */
  function FromBytes(bs: seq<byte>): nat
    decreases |bs|
  {
    if bs == [] then 0 else 256 * FromBytes(bs[..|bs| - 1]) + bs[|bs| - 1]
  }

  /** The last p bytes of n, most significant first. */
  ghost predicate IsPadded(bs: seq<byte>, n: nat) {
    forall i :: 0 <= i < |bs| ==> bs[i] == ByteAt(n, |bs| - 1 - i)
  }

  /** Bytes are the digits of the number modulo a power of 256. */
  lemma {:induction false} PaddedValue(bs: seq<byte>, n: nat)
    requires IsPadded(bs, n)
    ensures Pow(256, |bs|) > 0 && FromBytes(bs) == n % Pow(256, |bs|)
    decreases |bs|
  {
    var p := |bs|;
    PowPositive(256, p);
    if p > 0 {
      var front := bs[..p - 1];
      forall i | 0 <= i < p - 1
        ensures front[i] == ByteAt(n / 256, p - 2 - i)
      {
        assert bs[i] == ByteAt(n, p - 1 - i);
      }
      PaddedValue(front, n / 256);
      var m := Pow(256, p - 1);
      PowPositive(256, p - 1);
      var q, r := n / 256 / m, n / 256 % m;
      assert n / 256 == m * q + r;
      assert n == 256 * m * q + (256 * r + n % 256) by {
        assert n == 256 * (m * q + r) + n % 256;
        MulAssoc(256, m, q);
      }
      DivModUnique(n, 256 * m, q, 256 * r + n % 256);
      assert bs[p - 1] == ByteAt(n, 0);
    }
  }

  lemma {:induction false} FromBytesBound(bs: seq<byte>)
    ensures FromBytes(bs) < Pow(256, |bs|)
    decreases |bs|
  {
    if bs != [] {
      FromBytesBound(bs[..|bs| - 1]);
    }
  }

  /** Every byte string is the padded form of its value, so equal values of equal length are
      equal strings. */
  lemma {:induction false} FromBytesPadded(bs: seq<byte>)
    ensures IsPadded(bs, FromBytes(bs))
    decreases |bs|
  {
    if bs != [] {
      var p := |bs|;
      var front, v := bs[..p - 1], FromBytes(bs);
      FromBytesPadded(front);
      LastDigit(FromBytes(front), bs[p - 1]);
      forall i | 0 <= i < p
        ensures bs[i] == ByteAt(v, p - 1 - i)
      {
        if i < p - 1 {
          assert front[i] == ByteAt(v / 256, p - 1 - i - 1);
        }
      }
    }
  }

  lemma LastDigit(v: nat, d: byte)
    ensures (256 * v + d) / 256 == v && (256 * v + d) % 256 == d
  {
  }

  /** The shortest number of bytes that holds n. */
  function ByteLen(n: nat): nat {
    if n == 0 then 0 else 1 + ByteLen(n / 256)
  }

  /** big.Int.Bytes: the bytes of n without leading zeros. */
  function MinBytes(n: nat): (bs: seq<byte>)
    ensures |bs| == ByteLen(n)
  {
    if n == 0 then [] else MinBytes(n / 256) + [n % 256]
  }

  lemma {:induction false} MinBytesValue(n: nat)
    ensures FromBytes(MinBytes(n)) == n
    ensures n > 0 ==> MinBytes(n)[0] != 0
  {
    if n > 0 {
      MinBytesValue(n / 256);
      assert MinBytes(n)[..|MinBytes(n)| - 1] == MinBytes(n / 256);
    }
  }

  lemma {:induction false} ByteLenBounds(n: nat)
    ensures n < Pow(256, ByteLen(n))
    ensures n > 0 ==> Pow(256, ByteLen(n) - 1) <= n
  {
    if n > 0 {
      ByteLenBounds(n / 256);
      if n / 256 > 0 {
        assert Pow(256, ByteLen(n) - 1) == 256 * Pow(256, ByteLen(n) - 2);
      }
    }
  }

  lemma {:induction false} PowMonotone(b: int, d: nat, e: nat)
    requires b >= 1 && d <= e
    ensures Pow(b, d) <= Pow(b, e)
    decreases e - d
  {
    if d < e {
      PowMonotone(b, d, e - 1);
      PowPositive(b, e - 1);
      MulMonotone(Pow(b, e - 1), 1, b);
    }
  }

  lemma ShiftedByte(d: nat, w: nat, j: nat)
    requires forall m: nat :: ByteAt(d, m) == ByteAt(w, j + m)
    ensures forall m: nat :: ByteAt(d / 256, m) == ByteAt(w, j + 1 + m)
  {
    forall m: nat
      ensures ByteAt(d / 256, m) == ByteAt(w, j + 1 + m)
    {
      assert ByteAt(d, m + 1) == ByteAt(w, j + (m + 1));
    }
  }
}

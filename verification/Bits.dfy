/** Bytes, powers of two, and numbers as bit strings written most significant bit first. */
module Bits {
  import opened Sequences

  type byte = x: int | 0 <= x < 256

  /** 2^n, which is also what a left shift by n multiplies by and a right shift divides by. */
  function Pow2(n: nat): (p: nat)
    ensures p >= 1
  {
    if n == 0 then 1 else 2 * Pow2(n - 1)
  }

  lemma {:induction false} Pow2Add(m: nat, n: nat)
    ensures Pow2(m + n) == Pow2(m) * Pow2(n)
  {
    if m == 0 {
    } else {
      Pow2Add(m - 1, n);
      assert Pow2(m + n) == 2 * (Pow2(m - 1) * Pow2(n));
    }
  }

  lemma {:induction false} Pow2Monotone(m: nat, n: nat)
    requires m <= n
    ensures Pow2(m) <= Pow2(n)
  {
    if m == n {
    } else {
      Pow2Monotone(m, n - 1);
    }
  }

  /** The number of binary digits of x; 0 has none. */
  function BitLength(x: nat): nat {
    if x == 0 then 0 else 1 + BitLength(x / 2)
  }

  lemma {:induction false} BitLengthBounds(x: nat)
    requires x > 0
    ensures BitLength(x) >= 1
    ensures Pow2(BitLength(x) - 1) <= x < Pow2(BitLength(x))
  {
    if x / 2 > 0 {
      BitLengthBounds(x / 2);
    } else {
      assert x == 1 && BitLength(0) == 0 && BitLength(1) == 1 && Pow2(1) == 2;
    }
  }

  lemma {:induction false} BitLengthOfPow2(n: nat)
    ensures BitLength(Pow2(n)) == n + 1
  {
    if n > 0 {
      BitLengthOfPow2(n - 1);
      assert Pow2(n) / 2 == Pow2(n - 1);
    } else {
      assert BitLength(1) == 1 + BitLength(0);
    }
  }

  lemma {:induction false} BitLengthMonotone(x: nat, y: nat)
    requires x <= y
    ensures BitLength(x) <= BitLength(y)
  {
    if x == 0 {
    } else {
      BitLengthMonotone(x / 2, y / 2);
    }
  }

  /** The low n bits of v, most significant first. */
  function BitsOf(v: nat, n: nat): (s: seq<bool>)
    ensures |s| == n
  {
    if n == 0 then [] else BitsOf(v / 2, n - 1) + [v % 2 == 1]
  }

  /** The number a bit string writes. */
  function ValueOf(s: seq<bool>): (v: nat)
    ensures v < Pow2(|s|)
  {
    if s == [] then 0
    else 2 * ValueOf(s[..|s| - 1]) + if s[|s| - 1] then 1 else 0
  }

  lemma {:induction false} ValueOfBitsOf(v: nat, n: nat)
    requires v < Pow2(n)
    ensures ValueOf(BitsOf(v, n)) == v
  {
    if n == 0 {
    } else {
      ValueOfBitsOf(v / 2, n - 1);
      assert BitsOf(v, n)[..n - 1] == BitsOf(v / 2, n - 1);
    }
  }

  lemma {:induction false} BitsOfValueOf(s: seq<bool>)
    ensures BitsOf(ValueOf(s), |s|) == s
  {
    if s == [] {
    } else {
      BitsOfValueOf(s[..|s| - 1]);
      assert ValueOf(s) / 2 == ValueOf(s[..|s| - 1]);
      assert s == s[..|s| - 1] + [s[|s| - 1]];
    }
  }

  /** v shifted left by n, shifted right by n, and masked to its low n bits. */
  function Shl(v: nat, n: nat): nat {
    if n == 0 then v else 2 * Shl(v, n - 1)
  }

  function Shr(v: nat, n: nat): nat {
    if n == 0 then v else Shr(v / 2, n - 1)
  }

  function Low(v: nat, n: nat): (r: nat)
    ensures r < Pow2(n)
  {
    if n == 0 then 0 else 2 * Low(v / 2, n - 1) + v % 2
  }

  /** Shifting a left by m and putting b in the freed bits writes b after a. */
  lemma {:induction false} ShlBits(a: nat, n: nat, b: nat, m: nat)
    requires b < Pow2(m)
    ensures BitsOf(Shl(a, m) + b, n + m) == BitsOf(a, n) + BitsOf(b, m)
    ensures a < Pow2(n) ==> Shl(a, m) + b < Pow2(n + m)
  {
    if m == 0 {
    } else {
      var v := Shl(a, m) + b;
      assert v / 2 == Shl(a, m - 1) + b / 2 && v % 2 == b % 2;
      ShlBits(a, n, b / 2, m - 1);
      assert BitsOf(v, n + m) == BitsOf(a, n) + BitsOf(b / 2, m - 1) + [b % 2 == 1];
    }
  }

  /** A right shift by m keeps the first bits; the mask keeps the last m. */
  lemma {:induction false} ShrBits(v: nat, n: nat, m: nat)
    ensures BitsOf(v, n + m) == BitsOf(Shr(v, m), n) + BitsOf(Low(v, m), m)
    ensures v < Pow2(n + m) ==> Shr(v, m) < Pow2(n)
  {
    if m == 0 {
    } else {
      ShrBits(v / 2, n, m - 1);
      var w := Low(v, m);
      assert w / 2 == Low(v / 2, m - 1) && w % 2 == v % 2;
      assert BitsOf(v, n + m) == BitsOf(v / 2, n + m - 1) + [v % 2 == 1];
    }
  }

  /** Shifting back what was shifted out gives the number again. */
  lemma {:induction false} ShrOfShl(a: nat, b: nat, m: nat)
    requires b < Pow2(m)
    ensures Shr(Shl(a, m) + b, m) == a && Low(Shl(a, m) + b, m) == b
  {
    if m == 0 {
    } else {
      var v := Shl(a, m) + b;
      assert v / 2 == Shl(a, m - 1) + b / 2 && v % 2 == b % 2;
      ShrOfShl(a, b / 2, m - 1);
    }
  }

  lemma {:induction false} ShrZero(v: nat, m: nat)
    ensures Shr(v, m) == 0 <==> v < Pow2(m)
    ensures v < Pow2(m) ==> Low(v, m) == v
  {
    if m == 0 {
    } else {
      ShrZero(v / 2, m - 1);
    }
  }

  lemma ValueOfInjective(a: nat, b: nat, n: nat)
    requires a < Pow2(n) && b < Pow2(n) && BitsOf(a, n) == BitsOf(b, n)
    ensures a == b
  {
    ValueOfBitsOf(a, n);
    ValueOfBitsOf(b, n);
  }

  function Zeros(n: nat): (s: seq<bool>)
    ensures |s| == n
  {
    seq(n, _ => false)
  }

  lemma {:induction false} BitsOfZero(n: nat)
    ensures BitsOf(0, n) == Zeros(n)
  {
    if n == 0 {
    } else {
      BitsOfZero(n - 1);
    }
  }

  /** The number bytes hold, least significant byte first. */
  function LittleEndian(b: seq<byte>): nat {
    if b == [] then 0 else b[0] + 256 * LittleEndian(b[1..])
  }

  /** The same, most significant byte first. */
  function BigEndian(s: seq<byte>): nat {
    if s == [] then 0 else BigEndian(s[..|s| - 1]) * 256 + s[|s| - 1]
  }

  /** A number's last bytes, most significant first. */
  function Big(n: nat, octets: nat): (r: seq<byte>)
    ensures |r| == octets
  {
    if octets == 0 then [] else Big(n / 256, octets - 1) + [n % 256]
  }

  /** 256^octets. */
  function Room(octets: nat): nat {
    if octets == 0 then 1 else 256 * Room(octets - 1)
  }

  lemma {:induction false} BigRead(n: nat, octets: nat)
    requires n < Room(octets)
    ensures BigEndian(Big(n, octets)) == n
  {
    if octets == 0 {
    } else {
      BigRead(n / 256, octets - 1);
      var b := Big(n, octets);
      assert b[..|b| - 1] == Big(n / 256, octets - 1);
    }
  }

  /** A number's bytes, least significant first. */
  function Little(n: nat, octets: nat): (r: seq<byte>)
    ensures |r| == octets
  {
    if octets == 0 then [] else [n % 256] + Little(n / 256, octets - 1)
  }

  lemma {:induction false} LittleRead(n: nat, octets: nat)
    requires n < Room(octets)
    ensures LittleEndian(Little(n, octets)) == n
  {
    if octets == 0 {
    } else {
      LittleRead(n / 256, octets - 1);
      assert Little(n, octets)[1..] == Little(n / 256, octets - 1);
    }
  }

  /** The bits of a buffer read backwards: its last byte's top bit first. */
  function BackwardBits(b: seq<byte>): (s: seq<bool>)
    ensures |s| == 8 * |b|
  {
    if b == [] then [] else BackwardBits(b[1..]) + BitsOf(b[0], 8)
  }

  lemma {:induction false} LittleEndianBits(b: seq<byte>)
    ensures LittleEndian(b) < Pow2(8 * |b|)
    ensures BitsOf(LittleEndian(b), 8 * |b|) == BackwardBits(b)
  {
    if b == [] {
    } else {
      LittleEndianBits(b[1..]);
      Pow2Is256();
      ShlBits(LittleEndian(b[1..]), 8 * |b[1..]|, b[0], 8);
      ShlByte(LittleEndian(b[1..]));
    }
  }

  lemma ShlByte(v: nat)
    ensures Shl(v, 8) == 256 * v
  {
    assert Shl(v, 1) == 2 * v;
    assert Shl(v, 3) == 2 * Shl(v, 2) == 4 * Shl(v, 1);
    assert Shl(v, 5) == 2 * Shl(v, 4) == 4 * Shl(v, 3);
    assert Shl(v, 7) == 2 * Shl(v, 6) == 4 * Shl(v, 5);
  }

  lemma Pow2Is256()
    ensures Pow2(8) == 256
  {
    assert Pow2(4) == 16;
    Pow2Add(4, 4);
  }

  lemma {:induction false} BackwardBitsConcat(a: seq<byte>, b: seq<byte>)
    ensures BackwardBits(a + b) == BackwardBits(b) + BackwardBits(a)
  {
    hide BitsOf;
    if a == [] {
      assert a + b == b;
    } else {
      BackwardBitsConcat(a[1..], b);
      assert (a + b)[1..] == a[1..] + b;
      Associate(BackwardBits(b), BackwardBits(a[1..]), BitsOf(a[0], 8));
    }
  }
}

/**
 * The values LZFSE's length and distance symbols stand for (tools/ftab/lzfse.py): a base for each symbol, and how many
 * bits of its own follow it.
 */
module LmdValues {
  import opened Bits

  /** A symbol, and the bits of its own its value carries. */
  datatype Token = Token(sym: nat, own: nat)

  const L_EXTRA: seq<nat> := [0, 0, 0, 0, 0, 0, 0, 0, 0, 0, 0, 0, 0, 0, 0, 0, 2, 3, 5, 8]
  const L_BASE: seq<nat> := [0, 1, 2, 3, 4, 5, 6, 7, 8, 9, 10, 11, 12, 13, 14, 15, 16, 20, 28, 60]
  const M_EXTRA: seq<nat> := [0, 0, 0, 0, 0, 0, 0, 0, 0, 0, 0, 0, 0, 0, 0, 0, 3, 5, 8, 11]
  const M_BASE: seq<nat> := [0, 1, 2, 3, 4, 5, 6, 7, 8, 9, 10, 11, 12, 13, 14, 15, 16, 24, 56, 312]

  // Four distance symbols for each number of bits, nearer ones first.
  const D_EXTRA_NEAR: seq<nat> :=
    [0, 0, 0, 0] + [1, 1, 1, 1] + [2, 2, 2, 2] + [3, 3, 3, 3] + [4, 4, 4, 4] + [5, 5, 5, 5] + [6, 6, 6, 6]
    + [7, 7, 7, 7]
  const D_BASE_NEAR: seq<nat> :=
    [0, 1, 2, 3] + [4, 6, 8, 10] + [12, 16, 20, 24] + [28, 36, 44, 52] + [60, 76, 92, 108]
    + [124, 156, 188, 220] + [252, 316, 380, 444] + [508, 636, 764, 892]
  const D_EXTRA_FAR: seq<nat> :=
    [8, 8, 8, 8] + [9, 9, 9, 9] + [10, 10, 10, 10] + [11, 11, 11, 11] + [12, 12, 12, 12] + [13, 13, 13, 13]
    + [14, 14, 14, 14] + [15, 15, 15, 15]
  const D_BASE_FAR: seq<nat> :=
    [1020, 1276, 1532, 1788] + [2044, 2556, 3068, 3580] + [4092, 5116, 6140, 7164] + [8188, 10236, 12284, 14332]
    + [16380, 20476, 24572, 28668] + [32764, 40956, 49148, 57340] + [65532, 81916, 98300, 114684]
    + [131068, 163836, 196604, 229372]

  const D_EXTRA: seq<nat> := D_EXTRA_NEAR + D_EXTRA_FAR
  const D_BASE: seq<nat> := D_BASE_NEAR + D_BASE_FAR

  /** The values of each symbol start where the values of the symbol before end. */
  ghost predicate Contiguous(base: seq<nat>, extra: seq<nat>) {
    && |base| == |extra| > 0
    && forall i :: 0 <= i < |base| - 1 ==> base[i + 1] == base[i] + Pow2(extra[i])
  }

  lemma LengthsContiguous()
    ensures Contiguous(L_BASE, L_EXTRA) && L_BASE[0] == 0 && End(L_BASE, L_EXTRA) == 316
  {
    SmallPowers();
  }

  lemma MatchLengthsContiguous()
    ensures Contiguous(M_BASE, M_EXTRA) && M_BASE[0] == 0 && End(M_BASE, M_EXTRA) == 2360
  {
    SmallPowers();
  }

  lemma DistancesContiguous()
    ensures Contiguous(D_BASE, D_EXTRA) && D_BASE[0] == 0 && End(D_BASE, D_EXTRA) == 262140
  {
    hide Contiguous, End;
    NearDistances();
    FarDistances();
    RowsJoin(D_BASE_NEAR, D_EXTRA_NEAR, D_BASE_FAR, D_EXTRA_FAR);
  }

  lemma NearDistances()
    ensures Contiguous(D_BASE_NEAR, D_EXTRA_NEAR) && D_BASE_NEAR[0] == 0 && End(D_BASE_NEAR, D_EXTRA_NEAR) == 1020
  {
    hide Contiguous, End;
    SmallPowers();
    FourOf(0, 0);
    var base: seq<nat>, extra: seq<nat> := [0, 1, 2, 3], [0, 0, 0, 0];
    base, extra := NextFour(base, extra, [4, 6, 8, 10], 1);
    base, extra := NextFour(base, extra, [12, 16, 20, 24], 2);
    base, extra := NextFour(base, extra, [28, 36, 44, 52], 3);
    base, extra := NextFour(base, extra, [60, 76, 92, 108], 4);
    base, extra := NextFour(base, extra, [124, 156, 188, 220], 5);
    base, extra := NextFour(base, extra, [252, 316, 380, 444], 6);
    base, extra := NextFour(base, extra, [508, 636, 764, 892], 7);
    assert base == D_BASE_NEAR && extra == D_EXTRA_NEAR;
  }

  lemma FarDistances()
    ensures Contiguous(D_BASE_FAR, D_EXTRA_FAR) && D_BASE_FAR[0] == 1020 && End(D_BASE_FAR, D_EXTRA_FAR) == 262140
  {
    hide Contiguous, End;
    SmallPowers();
    FourOf(1020, 8);
    var base: seq<nat>, extra: seq<nat> := [1020, 1276, 1532, 1788], [8, 8, 8, 8];
    base, extra := NextFour(base, extra, [2044, 2556, 3068, 3580], 9);
    base, extra := NextFour(base, extra, [4092, 5116, 6140, 7164], 10);
    base, extra := NextFour(base, extra, [8188, 10236, 12284, 14332], 11);
    base, extra := NextFour(base, extra, [16380, 20476, 24572, 28668], 12);
    base, extra := NextFour(base, extra, [32764, 40956, 49148, 57340], 13);
    base, extra := NextFour(base, extra, [65532, 81916, 98300, 114684], 14);
    base, extra := NextFour(base, extra, [131068, 163836, 196604, 229372], 15);
    assert base == D_BASE_FAR && extra == D_EXTRA_FAR;
  }

  lemma FourOf(b: nat, bits: nat)
    ensures var p := Pow2(bits);
      && Contiguous([b, b + p, b + 2 * p, b + 3 * p], [bits, bits, bits, bits])
      && End([b, b + p, b + 2 * p, b + 3 * p], [bits, bits, bits, bits]) == b + 4 * p
  {
  }

  lemma NextFour(base: seq<nat>, extra: seq<nat>, four: seq<nat>, bits: nat) returns (base': seq<nat>, extra': seq<nat>)
    requires Contiguous(base, extra) && |four| == 4 && four[0] == End(base, extra)
    requires four == [four[0], four[0] + Pow2(bits), four[0] + 2 * Pow2(bits), four[0] + 3 * Pow2(bits)]
    ensures base' == base + four && extra' == extra + [bits, bits, bits, bits]
    ensures Contiguous(base', extra') && End(base', extra') == four[0] + 4 * Pow2(bits) && base'[0] == base[0]
  {
    FourOf(four[0], bits);
    base', extra' := base + four, extra + [bits, bits, bits, bits];
    RowsJoin(base, extra, four, [bits, bits, bits, bits]);
  }

  /** Where a contiguous table's values end. */
  ghost function End(base: seq<nat>, extra: seq<nat>): nat
    requires Contiguous(base, extra)
  {
    base[|base| - 1] + Pow2(extra[|extra| - 1])
  }

  lemma RowsJoin(base: seq<nat>, extra: seq<nat>, base': seq<nat>, extra': seq<nat>)
    requires Contiguous(base, extra) && Contiguous(base', extra') && base'[0] == End(base, extra)
    ensures Contiguous(base + base', extra + extra')
    ensures End(base + base', extra + extra') == End(base', extra') && (base + base')[0] == base[0]
  {
  }

  lemma SmallPowers()
    ensures Pow2(0) == 1 && Pow2(1) == 2 && Pow2(2) == 4 && Pow2(3) == 8 && Pow2(4) == 16 && Pow2(5) == 32
    ensures Pow2(6) == 64 && Pow2(7) == 128 && Pow2(8) == 256 && Pow2(9) == 512 && Pow2(10) == 1024 && Pow2(11) == 2048
    ensures Pow2(12) == 4096 && Pow2(13) == 8192 && Pow2(14) == 16384 && Pow2(15) == 32768
  {
  }

  /** Every value below the last symbol's end is exactly one symbol's, with exactly one number in its own bits. */
  lemma {:induction false} ValueHasOneToken(base: seq<nat>, extra: seq<nat>, count: nat, v: nat) returns (t: Token)
    requires Contiguous(base, extra) && 0 < count <= |base|
    requires base[0] <= v < base[count - 1] + Pow2(extra[count - 1])
    ensures t.sym < count && t.own < Pow2(extra[t.sym]) && base[t.sym] + t.own == v
    ensures forall u: Token ::
      u.sym < count && u.own < Pow2(extra[u.sym]) && base[u.sym] + u.own == v ==> u == t
  {
    if v >= base[count - 1] {
      t := Token(count - 1, v - base[count - 1]);
      forall u: Token | u.sym < count - 1 && u.own < Pow2(extra[u.sym])
        ensures base[u.sym] + u.own < base[count - 1]
      {
        BasesIncrease(base, extra, u.sym + 1, count - 1);
      }
    } else {
      t := ValueHasOneToken(base, extra, count - 1, v);
    }
  }

  lemma {:induction false} BasesIncrease(base: seq<nat>, extra: seq<nat>, i: nat, k: nat)
    requires Contiguous(base, extra) && i <= k < |base|
    ensures base[i] <= base[k]
  {
    if i == k {
    } else {
      BasesIncrease(base, extra, i, k - 1);
    }
  }
}

/**
 * The backward bit reader of tools/ftab/lzfse.py: an accumulator of at most 63 bits refilled from the end of a buffer
 * towards its start. It refines a stack of bits: a refill leaves the stack as it is, a pull pops its top.
 */
module BackwardReader {
  import opened Bits
  import opened Sequences

  class BackBits {
    const buf: seq<byte>
    /** Where the unread bytes end; below 0 once zeros were read in front of the buffer. */
    var pos: int
    var accum: nat
    var nbits: nat

    ghost predicate Valid()
      reads this
    {
      pos <= |buf| && nbits < 64 && accum < Pow2(nbits)
    }

    /** Everything still to be read, first bit first. */
    ghost function Stack(): (s: seq<bool>)
      reads this
      requires Valid()
      ensures |s| >= nbits
    {
      BitsOf(accum, nbits) + Unread(buf, pos)
    }

    /**
     * Opens the reader over buf[..end], whose last -n bits are not part of the stream and must be zeros. Null stands
     * for the constructor's ValueError. An n of 0 is held as 56 bits in 7 bytes.
     */
    static method Open(buf: seq<byte>, end: nat, n: int) returns (r: BackBits?)
      requires 8 <= end <= |buf|
      ensures r != null <==> Opens(buf[..end], n)
      ensures r != null ==>
        && fresh(r) && r.Valid() && r.nbits >= 56 && r.buf == buf
        && r.Stack() == BackwardBits(buf[..end])[-n..]
    {
      var pos, accum, nbits;
      if n != 0 {
        pos := end - 8;
        accum := LittleEndian(buf[pos..end]);
        nbits := n + 64;
      } else {
        pos := end - 7;
        accum := LittleEndian(buf[pos..end]);
        nbits := n + 56;
      }
      if !(56 <= nbits < 64) {
        return null;
      }
      OpenedStack(buf, pos, end, accum, nbits, n);
      if Shr(accum, nbits) != 0 {
        return null;
      }
      r := new BackBits(buf, pos, accum, nbits);
    }

    constructor (buf: seq<byte>, pos: int, accum: nat, nbits: nat)
      ensures this.buf == buf && this.pos == pos && this.accum == accum && this.nbits == nbits
    {
      this.buf, this.pos, this.accum, this.nbits := buf, pos, accum, nbits;
    }

    /**
     * Refills to at least 56 bits. Once no byte is left a refill fails; one reaching in front of the buffer reads
     * zeros there, below what the stack held.
     */
    method Flush() returns (ok: bool, ghost pad: nat)
      requires Valid()
      modifies this`pos, this`accum, this`nbits
      ensures Valid()
      ensures ok <==> old(nbits) >= 56 || old(pos) > 0
      ensures ok ==> nbits >= 56
      ensures ok ==> Stack() == old(Stack()) + Zeros(pad)
      ensures pad == if ok && old(nbits) < 56 && pos < 0 then 8 * -pos else 0
      ensures |old(Stack())| >= 64 ==> ok && pad == 0
    {
      var nbytes := RefillBytes(nbits);
      if nbytes == 0 {
        return true, 0;
      }
      if pos <= 0 {
        // Both bounds of the refill are at or in front of the buffer's start.
        return false, 0;
      }
      Refill(buf, pos, nbytes, accum, nbits);
      accum := Shl(accum, 8 * nbytes) + Fetched(buf, pos, nbytes);
      pos, nbits := pos - nbytes, nbits + 8 * nbytes;
      return true, if pos < 0 then 8 * -pos else 0;
    }

    /** Pops n bits. */
    method Pull(n: nat) returns (r: nat)
      requires Valid() && n <= nbits
      modifies this`accum, this`nbits
      ensures Valid() && nbits == old(nbits) - n
      ensures r < Pow2(n) && BitsOf(r, n) == old(Stack())[..n]
      ensures Stack() == old(Stack())[n..]
    {
      PullBits(accum, n, nbits - n);
      ghost var all, rest := BitsOf(accum, nbits), Unread(buf, pos);
      nbits := nbits - n;
      r := Shr(accum, nbits);
      accum := Low(accum, nbits);
      assert (all + rest)[..n] == all[..n];
      assert (all + rest)[n..] == all[n..] + rest;
    }
  }

  /** How many whole bytes fit above nbits bits, below a 64th. */
  function RefillBytes(nbits: nat): (n: nat)
    requires nbits < 64
    ensures 56 <= nbits + 8 * n < 64
  {
    (63 - nbits) / 8
  }

  function Unread(buf: seq<byte>, pos: int): seq<bool>
    requires pos <= |buf|
  {
    if pos > 0 then BackwardBits(buf[..pos]) else []
  }

  /** Whether a stream whose last -n bits are padding can be opened: at most 8 of them, all zeros. */
  ghost predicate Opens(bytes: seq<byte>, n: int)
    requires |bytes| >= 8
  {
    -8 <= n <= 0 && BackwardBits(bytes)[..-n] == Zeros(-n)
  }

  lemma OpenedStack(buf: seq<byte>, pos: nat, end: nat, accum: nat, nbits: nat, n: int)
    requires pos <= end <= |buf| && accum == LittleEndian(buf[pos..end]) && 8 <= end
    requires -8 <= n <= 0 && nbits == 8 * (end - pos) + n
    ensures Opens(buf[..end], n) <==> Shr(accum, nbits) == 0
    ensures Opens(buf[..end], n) ==>
      accum < Pow2(nbits) && BitsOf(accum, nbits) + BackwardBits(buf[..pos]) == BackwardBits(buf[..end])[-n..]
  {
    hide BackwardBits, LittleEndian, BitsOf, Shr;
    var all := BackwardBits(buf[..end]);
    TakeBytes(buf, pos, end, buf[pos..end]);
    TopBits(accum, nbits, -n);
    var top := BitsOf(accum, 8 * (end - pos));
    assert all[..-n] == top[..-n];
    assert all[-n..] == top[-n..] + BackwardBits(buf[..pos]);
  }

  /** Bytes [pos, end) are the next bits of a buffer read backwards from end. */
  lemma TakeBytes(buf: seq<byte>, pos: nat, end: nat, bytes: seq<byte>)
    requires pos <= end <= |buf| && bytes == buf[pos..end]
    ensures LittleEndian(bytes) < Pow2(8 * |bytes|)
    ensures BackwardBits(buf[..end]) == BitsOf(LittleEndian(bytes), 8 * |bytes|) + BackwardBits(buf[..pos])
  {
    hide BackwardBits, LittleEndian, BitsOf;
    BackwardBitsConcat(buf[..pos], bytes);
    assert buf[..pos] + bytes == buf[..end];
    LittleEndianBits(bytes);
  }

  /** The n bytes before pos as a number, zeros standing for bytes in front of the buffer. */
  function Fetched(buf: seq<byte>, pos: int, n: nat): nat
    requires 0 < pos <= |buf|
  {
    if n > pos then LittleEndian(seq(n - pos, _ => 0) + buf[..pos]) else LittleEndian(buf[pos - n..pos])
  }

  lemma Refill(buf: seq<byte>, pos: int, n: nat, accum: nat, nbits: nat)
    requires 0 < pos <= |buf| && accum < Pow2(nbits)
    ensures var accum' := Shl(accum, 8 * n) + Fetched(buf, pos, n);
      && accum' < Pow2(nbits + 8 * n)
      && BitsOf(accum', nbits + 8 * n) + Unread(buf, pos - n)
         == BitsOf(accum, nbits) + Unread(buf, pos) + Zeros(if pos < n then 8 * (n - pos) else 0)
  {
    if n > pos {
      RefillPastStart(buf, pos, n, accum, nbits);
    } else {
      RefillWithin(buf, pos, n, accum, nbits);
    }
  }

  lemma RefillWithin(buf: seq<byte>, pos: int, n: nat, accum: nat, nbits: nat)
    requires 0 < pos <= |buf| && n <= pos && accum < Pow2(nbits)
    ensures var accum' := Shl(accum, 8 * n) + LittleEndian(buf[pos - n..pos]);
      && accum' < Pow2(nbits + 8 * n)
      && BitsOf(accum', nbits + 8 * n) + Unread(buf, pos - n) == BitsOf(accum, nbits) + Unread(buf, pos)
  {
    var bytes := buf[pos - n..pos];
    var inc := LittleEndian(bytes);
    TakeBytes(buf, pos - n, pos, bytes);
    ShlBits(accum, nbits, inc, 8 * n);
    UnreadBits(buf, pos);
    UnreadBits(buf, pos - n);
    Associate(BitsOf(accum, nbits), BitsOf(inc, 8 * n), Unread(buf, pos - n));
  }

  lemma UnreadBits(buf: seq<byte>, pos: nat)
    requires pos <= |buf|
    ensures Unread(buf, pos) == BackwardBits(buf[..pos])
  {
  }

  lemma RefillPastStart(buf: seq<byte>, pos: int, n: nat, accum: nat, nbits: nat)
    requires 0 < pos < n && pos <= |buf| && accum < Pow2(nbits)
    ensures var inc := LittleEndian(seq(n - pos, _ => 0) + buf[..pos]);
      var accum' := Shl(accum, 8 * n) + inc;
      && accum' < Pow2(nbits + 8 * n)
      && BitsOf(accum', nbits + 8 * n) + Unread(buf, pos - n)
         == BitsOf(accum, nbits) + Unread(buf, pos) + Zeros(8 * (n - pos))
  {
    var bytes: seq<byte> := seq(n - pos, _ => 0) + buf[..pos];
    ZerosInFront(n - pos, buf[..pos], bytes);
    ShlBits(accum, nbits, LittleEndian(bytes), 8 * n);
  }

  lemma ZerosInFront(n: nat, b: seq<byte>, bytes: seq<byte>)
    requires bytes == seq(n, _ => 0) + b
    ensures LittleEndian(bytes) < Pow2(8 * |bytes|)
    ensures BitsOf(LittleEndian(bytes), 8 * |bytes|) == BackwardBits(b) + Zeros(8 * n)
  {
    LittleEndianBits(bytes);
    BackwardBitsConcat(seq(n, _ => 0), b);
    BackwardZeros(n);
  }

  lemma {:induction false} BackwardZeros(n: nat)
    ensures BackwardBits(seq(n, _ => 0)) == Zeros(8 * n)
  {
    if n == 0 {
    } else {
      BackwardZeros(n - 1);
      var z: seq<byte> := seq(n, _ => 0);
      assert z[1..] == seq(n - 1, _ => 0);
      BitsOfZero(8);
    }
  }

  /** The bits above the low n of v are zeros exactly when v has no more than n. */
  lemma TopBits(v: nat, n: nat, m: nat)
    requires v < Pow2(m + n)
    ensures Shr(v, n) == 0 <==> BitsOf(v, m + n)[..m] == Zeros(m)
    ensures Shr(v, n) == 0 ==> v < Pow2(n) && BitsOf(v, m + n)[m..] == BitsOf(v, n)
  {
    PullBits(v, m, n);
    ShrZero(v, n);
    BitsOfZero(m);
    if BitsOf(Shr(v, n), m) == Zeros(m) {
      ValueOfInjective(Shr(v, n), 0, m);
    }
  }

  /** An accumulator splits at any bit. */
  lemma PullBits(accum: nat, n: nat, rest: nat)
    requires accum < Pow2(n + rest)
    ensures Shr(accum, rest) < Pow2(n)
    ensures BitsOf(Shr(accum, rest), n) == BitsOf(accum, n + rest)[..n]
    ensures BitsOf(Low(accum, rest), rest) == BitsOf(accum, n + rest)[n..]
  {
    ShrBits(accum, n, rest);
  }

}

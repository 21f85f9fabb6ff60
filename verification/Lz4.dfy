/**
 * LZ4 blocks (packages/binary/src/lz4.ts): decoding in place, whole or only as far as the buffer goes, expands the
 * sequences a block writes; and every block that decodes writes some sequences.
 */
module Lz4 {
  import opened Bits
  import opened LzCopy
  import opened Options

  // What a block writes.

  /** A block: sequences of literals and a match, the last one of literals alone, its match nibble unused. */
  datatype Block =
    | End
    | Last(literals: seq<byte>, unused: nat)
    | Sequence(literals: seq<byte>, offset: nat, length: nat, rest: Block)

  predicate Writable(b: Block) {
    match b
    case End => true
    case Last(_, unused) => unused < 16
    case Sequence(_, offset, length, rest) => 0 < offset < 0x10000 && length >= 4 && Writable(rest)
  }

  /** Each match reaches back into what is written, `at` bytes before the block included. */
  predicate Valid(b: Block, at: nat): (v: bool)
    ensures v ==> Writable(b)
  {
    match b
    case End => true
    case Last(_, unused) => unused < 16
    case Sequence(literals, offset, length, rest) =>
      && 0 < offset < 0x10000 && length >= 4 && offset <= at + |literals|
      && Valid(rest, at + |literals| + length)
  }

  /** The bytes a block stands for after `written`, each byte of a match the one `offset` before it. */
  function Expansion(b: Block, written: seq<byte>): (r: seq<byte>)
    requires Valid(b, |written|)
    decreases b
  {
    match b
    case End => written
    case Last(literals, _) => written + literals
    case Sequence(literals, offset, length, rest) => Expansion(rest, Copied(written + literals, offset, length))
  }

  function Nibble(length: nat): (n: nat)
    ensures n < 16
  {
    if length < 15 then length else 15
  }

  function Tail(length: nat): seq<byte> {
    if length < 15 then [] else More(length - 15)
  }

  function More(length: nat): seq<byte> {
    if length < 255 then [length] else [255] + More(length - 255)
  }

  function Encode(b: Block): seq<byte>
    requires Writable(b)
  {
    match b
    case End => []
    case Last(literals, unused) => [16 * Nibble(|literals|) + unused] + Tail(|literals|) + literals
    case Sequence(literals, offset, length, rest) =>
      [16 * Nibble(|literals|) + Nibble(length - 4)] + Tail(|literals|) + literals
      + [offset % 256, offset / 256] + Tail(length - 4) + Encode(rest)
  }

  // Reading it, whatever the room for output.

  datatype Length = Length(length: nat, rest: seq<byte>)

  function ReadMore(src: seq<byte>): (r: Option<Length>)
    ensures r.Some? ==> |r.value.rest| < |src|
  {
    if src == [] then None
    else if src[0] < 255 then Some(Length(src[0], src[1..]))
    else
      match ReadMore(src[1..])
      case None => None
      case Some(more) => Some(Length(255 + more.length, more.rest))
  }

  function ReadLength(src: seq<byte>, base: nat): (r: Option<Length>)
    ensures r.Some? ==> |r.value.rest| <= |src|
  {
    if base != 15 then Some(Length(base, src))
    else
      match ReadMore(src)
      case None => None
      case Some(more) => Some(Length(15 + more.length, more.rest))
  }

  /** A sequence's literals, and what follows them. */
  function ReadLiterals(src: seq<byte>): (r: Option<(seq<byte>, seq<byte>)>)
    requires src != []
    ensures r.Some? ==> |r.value.0| + |r.value.1| < |src|
  {
    match ReadLength(src[1..], src[0] / 16)
    case None => None
    case Some(l) => if |l.rest| < l.length then None else Some((l.rest[..l.length], l.rest[l.length..]))
  }

  function Little(low: byte, high: byte): nat {
    low as int + 256 * (high as int)
  }

  datatype Match = Match(offset: nat, length: nat, rest: seq<byte>)

  /** The match after a sequence's literals, which must reach no further back than the `at` bytes written. */
  function ReadMatch(src: seq<byte>, nibble: nat, at: nat): (r: Option<Match>)
    ensures r.Some? ==> 0 < r.value.offset <= at && |r.value.rest| < |src|
  {
    if |src| < 2 then None
    else
      var offset := Little(src[0], src[1]);
      if offset == 0 || offset > at then None
      else
        match ReadLength(src[2..], nibble)
        case None => None
        case Some(l) => Some(Match(offset, l.length + 4, l.rest))
  }

  /** What a block decodes to after `written`, byte by byte. */
  function Expand(src: seq<byte>, written: seq<byte>): (r: Option<seq<byte>>)
    decreases |src|
  {
    if src == [] then Some(written)
    else
      match ReadLiterals(src)
      case None => None
      case Some((literals, rest)) =>
        var with := written + literals;
        if rest == [] then Some(with)
        else
          match ReadMatch(rest, src[0] % 16, |with|)
          case None => None
          case Some(m) => Expand(m.rest, Copied(with, m.offset, m.length))
  }

  /** What a buffer of `size` bytes holds of them. */
  function Cut(s: seq<byte>, size: nat): (r: seq<byte>)
    ensures |r| <= size
  {
    if |s| <= size then s else s[..size]
  }

  /** The same into `size` bytes, stopping once they are full. */
  function ExpandUpTo(src: seq<byte>, written: seq<byte>, size: nat): (r: Option<seq<byte>>)
    requires |written| <= size
    ensures r.Some? ==> |r.value| <= size
    decreases |src|
  {
    if src == [] then Some(written)
    else
      match ReadLiterals(src)
      case None => None
      case Some((literals, rest)) =>
        var with := written + literals;
        if rest == [] || |with| >= size then Some(Cut(with, size))
        else
          match ReadMatch(rest, src[0] % 16, |with|)
          case None => None
          case Some(m) =>
            var copied := Copied(with, m.offset, m.length);
            if |copied| >= size then Some(Cut(copied, size)) else ExpandUpTo(m.rest, copied, size)
  }

  /** Output only grows. */
  lemma {:induction false} ExpandExtends(src: seq<byte>, written: seq<byte>)
    ensures Expand(src, written).Some? ==> written <= Expand(src, written).value
    decreases |src|
  {
    hide Copied, ReadMatch, ReadLiterals;
    if src == [] || ReadLiterals(src) == None {
    } else {
      var (literals, rest) := ReadLiterals(src).value;
      var with := written + literals;
      if rest != [] && ReadMatch(rest, src[0] % 16, |with|).Some? {
        var m := ReadMatch(rest, src[0] % 16, |with|).value;
        var copied := Copied(with, m.offset, m.length);
        ExpandExtends(m.rest, copied);
        CopiedIsEcho(with, m.offset, m.length, copied);
      }
    }
  }

  /** Decoding a block as far as a buffer goes gives the first bytes of decoding all of it. */
  lemma {:induction false} UpToIsPrefix(src: seq<byte>, written: seq<byte>, size: nat)
    requires |written| <= size && Expand(src, written).Some?
    ensures ExpandUpTo(src, written, size) == Some(Cut(Expand(src, written).value, size))
    decreases |src|
  {
    ExpandExtends(src, written);
    if src == [] {
    } else {
      var (literals, rest) := ReadLiterals(src).value;
      var with := written + literals;
      if rest != [] {
        var m := ReadMatch(rest, src[0] % 16, |with|).value;
        var copied := Copied(with, m.offset, m.length);
        ExpandExtends(m.rest, copied);
        CopiedIsEcho(with, m.offset, m.length, copied);
        if |copied| < size {
          UpToIsPrefix(m.rest, copied, size);
        } else {
          CutAgain(copied, Expand(src, written).value, size);
        }
        if |with| >= size {
          CutAgain(with, Expand(src, written).value, size);
        }
      }
    }
  }

  lemma CutAgain(a: seq<byte>, all: seq<byte>, size: nat)
    requires a <= all && |a| >= size
    ensures Cut(a, size) == Cut(all, size)
  {
    assert all[..size] == all[..|a|][..size];
    assert a[..size] == Cut(a, size) && all[..size] == Cut(all, size);
  }

  // Writing then reading, and reading then writing.

  lemma {:induction false} ReadMoreOfMore(length: nat, rest: seq<byte>)
    ensures ReadMore(More(length) + rest) == Some(Length(length, rest))
  {
    if length < 255 {
      assert (More(length) + rest)[1..] == rest;
    } else {
      assert (More(length) + rest)[1..] == More(length - 255) + rest;
      ReadMoreOfMore(length - 255, rest);
    }
  }

  lemma ReadLengthOfTail(length: nat, rest: seq<byte>)
    ensures ReadLength(Tail(length) + rest, Nibble(length)) == Some(Length(length, rest))
  {
    if length < 15 {
      assert Tail(length) + rest == rest;
    } else {
      ReadMoreOfMore(length - 15, rest);
    }
  }

  lemma {:induction false} MoreOfReadMore(src: seq<byte>)
    requires ReadMore(src).Some?
    ensures src == More(ReadMore(src).value.length) + ReadMore(src).value.rest
  {
    assert src == [src[0]] + src[1..];
    if src[0] != 255 {
    } else {
      MoreOfReadMore(src[1..]);
    }
  }

  lemma TailOfReadLength(src: seq<byte>, base: nat)
    requires ReadLength(src, base).Some? && base < 16
    ensures var l := ReadLength(src, base).value;
      src == Tail(l.length) + l.rest && Nibble(l.length) == base
  {
    if base == 15 {
      MoreOfReadMore(src);
    }
  }

  /** The first byte and the literals of a sequence. */
  function Head(literals: seq<byte>, nibble: nat): seq<byte>
    requires nibble < 16
  {
    [16 * Nibble(|literals|) + nibble] + Tail(|literals|) + literals
  }

  lemma ReadLiteralsOfHead(literals: seq<byte>, nibble: nat, rest: seq<byte>)
    requires nibble < 16
    ensures var src := Head(literals, nibble) + rest;
      src[0] % 16 == nibble && ReadLiterals(src) == Some((literals, rest))
  {
    var src := Head(literals, nibble) + rest;
    assert src[1..] == Tail(|literals|) + (literals + rest);
    assert src[0] / 16 == Nibble(|literals|);
    ReadLengthOfTail(|literals|, literals + rest);
    assert (literals + rest)[..|literals|] == literals && (literals + rest)[|literals|..] == rest;
  }

  lemma HeadOfReadLiterals(src: seq<byte>)
    requires src != [] && ReadLiterals(src).Some?
    ensures src == Head(ReadLiterals(src).value.0, src[0] % 16) + ReadLiterals(src).value.1
  {
    TailOfReadLength(src[1..], src[0] / 16);
    hide ReadLength, Tail, Nibble;
    var l := ReadLength(src[1..], src[0] / 16).value;
    assert 16 * Nibble(l.length) + src[0] % 16 == src[0];
  }

  function MatchBytes(offset: nat, length: nat): seq<byte>
    requires offset < 0x10000 && length >= 4
  {
    [offset % 256, offset / 256] + Tail(length - 4)
  }

  lemma ReadMatchOfBytes(offset: nat, length: nat, rest: seq<byte>, at: nat)
    requires 0 < offset < 0x10000 && length >= 4 && offset <= at
    ensures ReadMatch(MatchBytes(offset, length) + rest, Nibble(length - 4), at) == Some(Match(offset, length, rest))
  {
    var src := MatchBytes(offset, length) + rest;
    assert src[2..] == Tail(length - 4) + rest;
    assert Little(src[0], src[1]) == offset;
    ReadLengthOfTail(length - 4, rest);
  }

  lemma LittleBytes(low: byte, high: byte)
    ensures Little(low, high) < 0x10000 && Little(low, high) % 256 == low && Little(low, high) / 256 == high
  {
  }

  lemma BytesOfReadMatch(src: seq<byte>, nibble: nat, at: nat)
    requires ReadMatch(src, nibble, at).Some? && nibble < 16
    ensures var m := ReadMatch(src, nibble, at).value;
      && m.offset < 0x10000 && m.length >= 4 && nibble == Nibble(m.length - 4)
      && src == MatchBytes(m.offset, m.length) + m.rest
  {
    hide Little, Tail, ReadLength, Nibble;
    TailOfReadLength(src[2..], nibble);
    LittleBytes(src[0], src[1]);
    var m := ReadMatch(src, nibble, at).value;
    assert src == [src[0], src[1]] + (Tail(m.length - 4) + m.rest);
  }

  lemma EncodeParts(b: Block)
    requires Writable(b) && b.Sequence?
    ensures MatchBytes(b.offset, b.length) + Encode(b.rest) != [] && Encode(b) != []
    ensures Encode(b) == Head(b.literals, Nibble(b.length - 4)) + (MatchBytes(b.offset, b.length) + Encode(b.rest))
  {
    hide Tail, Nibble;
  }

  lemma EncodeLast(b: Block)
    requires Writable(b) && b.Last?
    ensures Encode(b) == Head(b.literals, b.unused) + [] && Encode(b) != []
  {
  }

  /** Decoding what a block writes gives its expansion. */
  lemma {:induction false} DecodeEncoded(b: Block, written: seq<byte>)
    requires Valid(b, |written|)
    ensures Expand(Encode(b), written) == Some(Expansion(b, written))
    decreases b
  {
    hide ReadLiterals, ReadMatch, ReadLength, Tail, Nibble, Copied, Head, MatchBytes;
    match b
    case End =>
    case Last(literals, unused) =>
      ReadLiteralsOfHead(literals, unused, []);
      EncodeLast(b);
    case Sequence(literals, offset, length, rest) =>
      EncodeParts(b);
      ReadLiteralsOfHead(literals, Nibble(length - 4), MatchBytes(offset, length) + Encode(rest));
      ReadMatchOfBytes(offset, length, Encode(rest), |written + literals|);
      DecodeEncoded(rest, Copied(written + literals, offset, length));
  }

  /** A block's first sequence, when it goes on behind it. */
  lemma FirstSequence(src: seq<byte>, written: seq<byte>) returns (literals: seq<byte>, m: Match)
    requires src != [] && Expand(src, written).Some? && ReadLiterals(src).Some? && ReadLiterals(src).value.1 != []
    ensures 0 < m.offset < 0x10000 && m.offset <= |written + literals| && m.length >= 4 && |m.rest| < |src|
    ensures src == Head(literals, Nibble(m.length - 4)) + (MatchBytes(m.offset, m.length) + m.rest)
    ensures Expand(src, written) == Expand(m.rest, Copied(written + literals, m.offset, m.length))
  {
    literals := ReadLiterals(src).value.0;
    var rest := ReadLiterals(src).value.1;
    m := ReadMatch(rest, src[0] % 16, |written + literals|).value;
    hide *;
    HeadOfReadLiterals(src);
    BytesOfReadMatch(rest, src[0] % 16, |written + literals|);
  }

  lemma LastIs(src: seq<byte>, written: seq<byte>)
    requires src != [] && ReadLiterals(src).Some? && ReadLiterals(src).value.1 == []
    ensures var b := Last(ReadLiterals(src).value.0, src[0] % 16);
      Valid(b, |written|) && src == Encode(b) && Expand(src, written) == Some(Expansion(b, written))
  {
    HeadOfReadLiterals(src);
    hide ReadLiterals, Tail, Nibble;
  }

  lemma ValidNext(literals: seq<byte>, offset: nat, length: nat, others: Block, written: seq<byte>)
    requires 0 < offset < 0x10000 && length >= 4 && offset <= |written + literals|
    requires Valid(others, |Copied(written + literals, offset, length)|)
    ensures var b := Sequence(literals, offset, length, others);
      && Valid(b, |written|) && Writable(b) && b.length - 4 >= 0
      && Expansion(b, written) == Expansion(others, Copied(written + literals, offset, length))
  {
    hide Copied;
  }

  /** Whatever decodes is what some block writes, and decodes to that block's expansion. */
  lemma {:induction false} DecodedIsEncoding(src: seq<byte>, written: seq<byte>) returns (b: Block)
    requires Expand(src, written).Some?
    ensures Valid(b, |written|) && src == Encode(b) && Expand(src, written) == Some(Expansion(b, written))
    decreases |src|
  {
    if src == [] {
      return End;
    }
    assert ReadLiterals(src).Some?;
    hide *;
    if ReadLiterals(src).value.1 == [] {
      LastIs(src, written);
      return Last(ReadLiterals(src).value.0, src[0] % 16);
    }
    var literals, m := FirstSequence(src, written);
    var others := DecodedIsEncoding(m.rest, Copied(written + literals, m.offset, m.length));
    ValidNext(literals, m.offset, m.length, others, written);
    b := Sequence(literals, m.offset, m.length, others);
    EncodeParts(b);
  }

  // In place.

  /** A length nibble of 15 continues in the following bytes. None is the error of a length running past its block. */
  method Extended(src: seq<byte>, at: nat, base: nat) returns (r: Option<(nat, nat)>)
    requires at <= |src| && base < 16
    ensures r.Some? <==> ReadLength(src[at..], base).Some?
    ensures r.Some? ==> r.value.1 <= |src| && ReadLength(src[at..], base) == Some(Length(r.value.0, src[r.value.1..]))
  {
    var length, i := base, at;
    if base == 15 {
      var b: byte := 255;
      while b == 255
        invariant at <= i <= |src| && length >= 15
        invariant b == 255 ==> ReadMore(src[at..]) == Added(length - 15, ReadMore(src[i..]))
        invariant b < 255 ==> ReadMore(src[at..]) == Some(Length(length - 15, src[i..]))
        decreases if b == 255 then 1 else 0, |src| - i
      {
        if i >= |src| {
          return None;
        }
        b := src[i];
        assert src[i..][1..] == src[i + 1..];
        i := i + 1;
        length := length + b;
      }
    }
    return Some((length, i));
  }

  function Added(length: nat, more: Option<Length>): Option<Length> {
    match more
    case None => None
    case Some(l) => Some(Length(length + l.length, l.rest))
  }

  method Put(out: array<byte>, at: nat, bytes: seq<byte>)
    requires at + |bytes| <= out.Length
    modifies out
    ensures out[..at + |bytes|] == old(out[..at]) + bytes
    ensures out[at + |bytes|..] == old(out[at + |bytes|..])
  {
    forall k | 0 <= k < |bytes| {
      out[at + k] := bytes[k];
    }
  }

  /** No more than `offset` bytes, all of them written already. */
  method Slide(out: array<byte>, o: nat, offset: nat, n: nat)
    requires 0 < offset <= o && n <= offset && o + n <= out.Length
    modifies out
    ensures out[..o + n] == Copied(old(out[..o]), offset, n)
    ensures out[o + n..] == old(out[o + n..])
  {
    hide *;
    CopiedSlice(out[..o], offset, n);
    assert out[..o][o - offset..o - offset + n] == out[o - offset..o - offset + n];
    Put(out, o, out[o - offset..o - offset + n]);
  }

  /** A match copied within the output, at most `offset` bytes at a time. */
  method CopyWithin(out: array<byte>, at: nat, offset: nat, length: nat)
    requires 0 < offset <= at && at + length <= out.Length
    modifies out
    ensures out[..at + length] == Copied(old(out[..at]), offset, length)
    ensures out[at + length..] == old(out[at + length..])
  {
    hide *;
    var o, left := at, length;
    ghost var was, after := out[..at], out[at + length..];
    CopiedSlice(was, offset, 0);
    assert was[at - offset..at - offset] == [] && was + [] == was;
    while left > 0
      invariant at <= o && 0 <= left && o + left == at + length
      invariant out[..o] == Copied(was, offset, o - at)
      invariant out[at + length..] == after
    {
      var n := if left < offset then left else offset;
      CopiedTwice(was, offset, o - at, n);
      ghost var beyond := out[o + n..];
      assert beyond[left - n..] == after;
      Slide(out, o, offset, n);
      assert out[o + n..][left - n..] == out[at + length..];
      o, left := o + n, left - n;
    }
  }

  /** The bounds of a sequence's literals. None is an error. */
  method FindLiterals(src: seq<byte>, i: nat) returns (r: Option<(nat, nat)>)
    requires i < |src|
    ensures r.Some? <==> ReadLiterals(src[i..]).Some?
    ensures r.Some? ==> var (from, to) := r.value;
      i < from <= to <= |src| && ReadLiterals(src[i..]) == Some((src[from..to], src[to..]))
  {
    var literals := Extended(src, i + 1, src[i] / 16);
    assert src[i..][1..] == src[i + 1..];
    if literals == None {
      return None;
    }
    var (length, next) := literals.value;
    if next + length > |src| {
      return None;
    }
    assert src[next..][..length] == src[next..next + length] && src[next..][length..] == src[next + length..];
    return Some((next, next + length));
  }

  /** The offset and length of a match, and where it ends. None is an error. */
  method FindMatch(src: seq<byte>, i: nat, nibble: nat, o: nat) returns (r: Option<(nat, nat, nat)>)
    requires i < |src| && nibble < 16
    ensures r.Some? <==> ReadMatch(src[i..], nibble, o).Some?
    ensures r.Some? ==> var (offset, length, next) := r.value;
      i < next <= |src| && ReadMatch(src[i..], nibble, o) == Some(Match(offset, length, src[next..]))
  {
    if i + 1 >= |src| {
      return None;
    }
    var offset := Little(src[i], src[i + 1]);
    if offset == 0 || offset > o {
      return None;
    }
    var matched := Extended(src, i + 2, nibble);
    assert src[i..][2..] == src[i + 2..];
    if matched == None {
      return None;
    }
    return Some((offset, matched.value.0 + 4, matched.value.1));
  }

  lemma FromNothing(src: seq<byte>, written: seq<byte>, size: nat)
    requires src == [] && |written| <= size
    ensures Expand(src, written) == Some(written) && ExpandUpTo(src, written, size) == Some(written)
  {
  }

  /** What a block decodes to, by what its first sequence's literals are. */
  lemma FromLiterals(src: seq<byte>, written: seq<byte>, size: nat)
    requires src != [] && |written| <= size
    ensures ReadLiterals(src) == None ==> Expand(src, written) == None && ExpandUpTo(src, written, size) == None
    ensures ReadLiterals(src).Some? ==>
      var with := written + ReadLiterals(src).value.0;
      && (Expand(src, written).Some? ==> |Expand(src, written).value| >= |with|)
      && (ReadLiterals(src).value.1 == [] ==> Expand(src, written) == Some(with))
      && (ReadLiterals(src).value.1 == [] || |with| >= size ==> ExpandUpTo(src, written, size) == Some(Cut(with, size)))
  {
    ExpandExtends(src, written);
    if ReadLiterals(src).Some? {
      var (literals, rest) := ReadLiterals(src).value;
      if rest != [] && ReadMatch(rest, src[0] % 16, |written + literals|).Some? {
        var m := ReadMatch(rest, src[0] % 16, |written + literals|).value;
        ExpandExtends(m.rest, Copied(written + literals, m.offset, m.length));
      }
    }
  }

  /** And by the match after them. */
  lemma FromMatch(src: seq<byte>, written: seq<byte>, size: nat)
    requires src != [] && |written| <= size && ReadLiterals(src).Some? && ReadLiterals(src).value.1 != []
    ensures var with := written + ReadLiterals(src).value.0;
      match ReadMatch(ReadLiterals(src).value.1, src[0] % 16, |with|)
      case None => Expand(src, written) == None && (|with| < size ==> ExpandUpTo(src, written, size) == None)
      case Some(m) =>
        var copied := Copied(with, m.offset, m.length);
        && Expand(src, written) == Expand(m.rest, copied)
        && (Expand(src, written).Some? ==> |Expand(src, written).value| >= |copied|)
        && (|with| < size ==>
              ExpandUpTo(src, written, size)
              == if |copied| >= size then Some(Cut(copied, size)) else ExpandUpTo(m.rest, copied, size))
  {
    var (literals, rest) := ReadLiterals(src).value;
    var with := written + literals;
    if ReadMatch(rest, src[0] % 16, |with|).Some? {
      var m := ReadMatch(rest, src[0] % 16, |with|).value;
      ExpandExtends(m.rest, Copied(with, m.offset, m.length));
    }
  }

  /** A copy cut short is the start of the copy. */
  lemma CopiedCut(out: seq<byte>, offset: nat, length: nat, less: nat)
    requires 0 < offset <= |out| && less <= length
    ensures Copied(out, offset, less) == Cut(Copied(out, offset, length), |out| + less)
  {
    var all := Copied(out, offset, length);
    CopiedIsEcho(out, offset, length, all);
    CopiedIsEcho(out, offset, less, all[..|out| + less]);
    assert all[..|out| + less][..|out|] == all[..|out|];
    assert all[..|out| + less] == Cut(all, |out| + less);
  }

  /** Literals written as far as the buffer goes. None is the error of a whole decode they run past. */
  method EmitLiterals(src: seq<byte>, from: nat, to: nat, out: array<byte>, o: nat, partial: bool) returns (r: Option<nat>)
    requires from <= to <= |src| && o <= out.Length
    modifies out
    ensures r == None <==> !partial && o + to - from > out.Length
    ensures r.Some? ==> o <= r.value <= out.Length && out[r.value..] == old(out[r.value..])
    ensures r.Some? ==> out[..r.value] == Cut(old(out[..o]) + src[from..to], out.Length)
  {
    if o + to - from > out.Length {
      if !partial {
        return None;
      }
      Put(out, o, src[from..from + out.Length - o]);
      assert old(out[..o]) + src[from..from + out.Length - o] == (old(out[..o]) + src[from..to])[..out.Length];
      return Some(out.Length);
    }
    Put(out, o, src[from..to]);
    return Some(o + to - from);
  }

  /** A match copied as far as the buffer goes. None is the error of a whole decode it runs past. */
  method EmitMatch(out: array<byte>, o: nat, offset: nat, length: nat, partial: bool) returns (r: Option<nat>)
    requires 0 < offset <= o <= out.Length
    modifies out
    ensures r == None <==> !partial && o + length > out.Length
    ensures r.Some? ==> o <= r.value <= out.Length && out[r.value..] == old(out[r.value..])
    ensures r.Some? ==> out[..r.value] == Cut(Copied(old(out[..o]), offset, length), out.Length)
  {
    hide Copied;
    var left := length;
    if o + left > out.Length {
      if !partial {
        return None;
      }
      left := out.Length - o;
    }
    CopiedCut(out[..o], offset, length, left);
    CopyWithin(out, o, offset, left);
    return Some(o + left);
  }

  lemma DropTwice(s: seq<byte>, p: nat, q: nat)
    requires p <= q <= |s|
    ensures s[p..][q - p..] == s[q..]
  {
  }

  datatype Progress = Progress(i: nat, o: nat, done: bool)

  /** One sequence. */
  method DecodeSequence(src: seq<byte>, i: nat, out: array<byte>, o: nat, partial: bool) returns (r: Option<Progress>)
    requires i < |src| && o <= out.Length
    modifies out
    ensures r == None && !partial ==> var all := Expand(src[i..], old(out[..o])); all == None || |all.value| > out.Length
    ensures r == None && partial ==> ExpandUpTo(src[i..], old(out[..o]), out.Length) == None
    ensures r.Some? ==> o <= r.value.o <= out.Length && out[r.value.o..] == old(out[r.value.o..])
    ensures r.Some? ==> i < r.value.i <= |src|
    ensures r.Some? && !partial ==>
      Expand(src[i..], old(out[..o]))
      == if r.value.done then Some(out[..r.value.o]) else Expand(src[r.value.i..], out[..r.value.o])
    ensures r.Some? && partial ==>
      ExpandUpTo(src[i..], old(out[..o]), out.Length)
      == if r.value.done then Some(out[..r.value.o]) else ExpandUpTo(src[r.value.i..], out[..r.value.o], out.Length)
  {
    hide *;
    ghost var here, written, was := src[i..], out[..o], out[..];
    FromLiterals(here, written, out.Length);
    var literals := FindLiterals(src, i);
    if literals == None {
      return None;
    }
    var (from, to) := literals.value;
    ghost var with := written + src[from..to];
    CutIs(with, out.Length);
    var filled := EmitLiterals(src, from, to, out, o, partial);
    if filled == None {
      return None;
    }
    var p := filled.value;
    if to >= |src| || (partial && p == out.Length) {
      return Some(Progress(to, p, true));
    }
    FromMatch(here, written, out.Length);
    var matched := FindMatch(src, to, src[i] % 16, p);
    if matched == None {
      return None;
    }
    var (offset, length, next) := matched.value;
    CutIs(Copied(with, offset, length), out.Length);
    assert out[p..] == was[p..];
    var q := EmitMatch(out, p, offset, length, partial);
    if q == None {
      return None;
    }
    DropTwice(was, p, q.value);
    return Some(Progress(next, q.value, partial && q.value == out.Length));
  }

  lemma CutIs(s: seq<byte>, size: nat)
    ensures |s| <= size ==> Cut(s, size) == s
    ensures |s| > size ==> |Cut(s, size)| == size
  {
  }

  /**
   * One block's sequences, written from `at`. None is an error: a sequence that runs past the block or the buffer, or a
   * match that reaches before the buffer.
   */
  method DecodeInto(src: seq<byte>, out: array<byte>, at: nat, partial: bool) returns (r: Option<nat>)
    requires at <= out.Length
    modifies out
    ensures !partial ==>
      (r.Some? <==> Expand(src, old(out[..at])).Some? && |Expand(src, old(out[..at])).value| <= out.Length)
    ensures partial ==> (r.Some? <==> ExpandUpTo(src, old(out[..at]), out.Length).Some?)
    ensures r.Some? ==> r.value <= out.Length && out[r.value..] == old(out[r.value..])
    ensures r.Some? && !partial ==> Expand(src, old(out[..at])) == Some(out[..r.value])
    ensures r.Some? && partial ==> ExpandUpTo(src, old(out[..at]), out.Length) == Some(out[..r.value])
  {
    hide *;
    ghost var all, upTo := Expand(src, out[..at]), ExpandUpTo(src, out[..at], out.Length);
    ghost var was := out[..];
    var o, i := at, 0;
    assert src[0..] == src;
    while i < |src|
      invariant 0 <= i <= |src| && 0 <= o <= out.Length
      invariant !partial ==> all == Expand(src[i..], out[..o])
      invariant partial ==> upTo == ExpandUpTo(src[i..], out[..o], out.Length)
      invariant out[o..] == was[o..]
      decreases |src| - i
    {
      var step := DecodeSequence(src, i, out, o, partial);
      if step == None {
        return None;
      }
      i, o := step.value.i, step.value.o;
      if step.value.done {
        return Some(o);
      }
    }
    FromNothing(src[|src|..], out[..o], out.Length);
    r := Some(o);
  }

  /** Exactly `size` bytes from one block. None is an error. */
  method DecodeBlock(src: seq<byte>, size: nat) returns (r: Option<seq<byte>>)
    ensures r == if Expand(src, []).Some? && |Expand(src, []).value| == size then Expand(src, []) else None
  {
    var out := new byte[size](_ => 0);
    assert out[..0] == [];
    var o := DecodeInto(src, out, 0, false);
    if o == None || o.value != size {
      return None;
    }
    assert out[..size] == out[..];
    return Some(out[..]);
  }
}

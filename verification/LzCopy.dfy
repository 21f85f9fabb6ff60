/**
 * Back-references of the LZ formats: each copied byte repeats the one `distance` before it, so a copy longer than its
 * distance repeats what it has just written.
 */
module LzCopy {
  import opened Arithmetic
  import opened Bits
  import opened Options

  /** A match copied byte by byte. */
  function Copied(out: seq<byte>, distance: nat, length: nat): (r: seq<byte>)
    requires 0 < distance <= |out|
    ensures |r| == |out| + length
    decreases length
  {
    if length == 0 then out else Copied(out + [out[|out| - distance]], distance, length - 1)
  }

  /** From `from` on, each byte is the one `distance` before it. */
  ghost predicate Echoes(s: seq<byte>, from: nat, distance: nat)
    requires 0 < distance <= from
  {
    forall i :: from <= i < |s| ==> s[i] == s[i - distance]
  }

  /** A copy keeps what was there and echoes after it; nothing else of its length does. */
  lemma {:induction false} CopiedIsEcho(out: seq<byte>, distance: nat, length: nat, r: seq<byte>)
    requires 0 < distance <= |out|
    ensures r == Copied(out, distance, length)
      <==> |r| == |out| + length && r[..|out|] == out && Echoes(r, |out|, distance)
    decreases length
  {
    if length == 0 {
      if |r| == |out| {
        assert r[..|out|] == r;
      }
    } else {
      var longer := out + [out[|out| - distance]];
      CopiedIsEcho(longer, distance, length - 1, r);
      if |r| == |out| + length {
        assert r[..|longer|] == r[..|out|] + [r[|out|]];
        assert r[|out| - distance] == r[..|out|][|out| - distance];
      }
    }
  }

  /** Copying in two goes, whatever the first length, is copying once. */
  lemma {:induction false} CopiedTwice(out: seq<byte>, distance: nat, first: nat, more: nat)
    requires 0 < distance <= |out|
    ensures Copied(Copied(out, distance, first), distance, more) == Copied(out, distance, first + more)
    decreases first
  {
    if first == 0 {
    } else {
      CopiedTwice(out + [out[|out| - distance]], distance, first - 1, more);
    }
  }

  /** A copy no longer than its distance is one slice of what was there. */
  lemma CopiedSlice(out: seq<byte>, distance: nat, length: nat)
    requires 0 < distance <= |out| && length <= distance
    ensures Copied(out, distance, length) == out + out[|out| - distance..|out| - distance + length]
  {
    var r := out + out[|out| - distance..|out| - distance + length];
    CopiedIsEcho(out, distance, length, r);
  }

  function Repeated(chunk: seq<byte>, times: nat): seq<byte> {
    if times == 0 then [] else Repeated(chunk, times - 1) + chunk
  }

  lemma {:induction false} CopiedRepeats(out: seq<byte>, distance: nat, chunk: seq<byte>, times: nat)
    requires 0 < distance <= |out| && chunk == out[|out| - distance..]
    ensures Copied(out, distance, Times(distance, times)) == out + Repeated(chunk, times)
    ensures EndsWith(out + Repeated(chunk, times), chunk)
  {
    if times == 0 {
      assert out + Repeated(chunk, 0) == out;
    } else {
      CopiedRepeats(out, distance, chunk, times - 1);
      CopyChunk(out, distance, Times(distance, times - 1), chunk, Repeated(chunk, times - 1));
    }
  }

  lemma CopyChunk(out: seq<byte>, distance: nat, length: nat, chunk: seq<byte>, body: seq<byte>)
    requires 0 < distance <= |out| && distance == |chunk|
    requires Copied(out, distance, length) == out + body && EndsWith(out + body, chunk)
    ensures Copied(out, distance, length + distance) == out + (body + chunk)
    ensures EndsWith(out + (body + chunk), chunk)
  {
    CopyEnd(out, distance, length, distance, chunk);
    assert chunk[..distance] == chunk;
    assert out + body + chunk == out + (body + chunk);
  }

  predicate EndsWith(s: seq<byte>, end: seq<byte>) {
    |end| <= |s| && s[|s| - |end|..] == end
  }

  /** Going on with a copy appends what the output ends with. */
  lemma CopyEnd(out: seq<byte>, distance: nat, length: nat, more: nat, chunk: seq<byte>)
    requires 0 < distance <= |out| && more <= distance == |chunk|
    requires EndsWith(Copied(out, distance, length), chunk)
    ensures Copied(out, distance, length + more) == Copied(out, distance, length) + chunk[..more]
    ensures more == distance ==> EndsWith(Copied(out, distance, length + more), chunk)
  {
    var a := Copied(out, distance, length);
    CopiedTwice(out, distance, length, more);
    CopiedSlice(a, distance, more);
    assert a[|a| - distance..|a| - distance + more] == chunk[..more];
  }

  /** LZFSE's match copy: one slice, or the last `distance` bytes repeated and cut. None is a bad distance. */
  method CopyMatch(out: seq<byte>, distance: nat, length: nat) returns (r: Option<seq<byte>>)
    ensures r == if 0 < distance <= |out| then Some(Copied(out, distance, length)) else None
  {
    if distance <= 0 || distance > |out| {
      return None;
    }
    var s := |out| - distance;
    if distance >= length {
      CopiedSlice(out, distance, length);
      return Some(out + out[s..s + length]);
    }
    var chunk := out[s..];
    var reps, rem := length / distance, length % distance;
    DivMod(length, distance);
    CopiedRepeats(out, distance, chunk, reps);
    CopyEnd(out, distance, Times(distance, reps), rem, chunk);
    return Some(out + Repeated(chunk, reps) + chunk[..rem]);
  }
}

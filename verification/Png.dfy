/**
 * PNG scanline filters (packages/decode-ios/src/png.ts; section 9.2 of the W3C PNG specification): undoing them in place,
 * each byte predicted from bytes already restored, gives the pixels that were filtered.
 */
module Png {
  import opened Arithmetic
  import opened Bits
  import opened Sequences

  function Abs(n: int): nat {
    if n < 0 then -n else n
  }

  /** Whichever of the bytes left, above and above left is nearest their plane, the earlier of those as near. */
  function Paeth(a: byte, b: byte, c: byte): (r: byte)
    ensures r == a || r == b || r == c
    ensures var p: int := a + b - c;
      && Abs(p - r) <= Abs(p - a) && Abs(p - r) <= Abs(p - b) && Abs(p - r) <= Abs(p - c)
      && (r != a ==> Abs(p - r) < Abs(p - a))
      && (r != a && r != b ==> Abs(p - r) < Abs(p - b))
  {
    var p: int := a + b - c;
    var pa, pb, pc := Abs(p - a), Abs(p - b), Abs(p - c);
    if pa <= pb && pa <= pc then a else if pb <= pc then b else c
  }

  function Predict(filter: byte, a: byte, b: byte, c: byte): byte {
    if filter == 1 then a
    else if filter == 2 then b
    else if filter == 3 then (a + b) / 2
    else if filter == 4 then Paeth(a, b, c)
    else 0
  }

  /** The byte `bpp` before `x`, or 0 before a row's first pixel. */
  function Left(row: seq<byte>, x: nat, bpp: nat): byte
    requires bpp > 0 && x <= |row|
  {
    if x >= bpp then row[x - bpp] else 0
  }

  function PredictAt(filter: byte, row: seq<byte>, above: seq<byte>, x: nat, bpp: nat): byte
    requires bpp > 0 && x <= |row| && x < |above|
  {
    Predict(filter, Left(row, x, bpp), above[x], Left(above, x, bpp))
  }

  /** A row as a PNG encoder filters it: each byte less what is predicted of it, modulo 256. */
  function Filtered(filter: byte, row: seq<byte>, above: seq<byte>, bpp: nat): (r: seq<byte>)
    requires bpp > 0 && |row| == |above|
    ensures |r| == |row|
  {
    seq(|row|, x requires 0 <= x < |row| => (row[x] - PredictAt(filter, row, above, x, bpp)) % 256)
  }

  /** The first `n` bytes of a row, each restored from those before it and the row above. */
  function Restored(filter: byte, line: seq<byte>, above: seq<byte>, bpp: nat, n: nat): (r: seq<byte>)
    requires bpp > 0 && |line| == |above| && n <= |line|
    ensures |r| == n
  {
    if n == 0 then []
    else
      var before := Restored(filter, line, above, bpp, n - 1);
      before + [(line[n - 1] + PredictAt(filter, before, above, n - 1, bpp)) % 256]
  }

  lemma {:induction false} RowBack(filter: byte, row: seq<byte>, above: seq<byte>, bpp: nat, n: nat)
    requires bpp > 0 && |row| == |above| && n <= |row|
    ensures Restored(filter, Filtered(filter, row, above, bpp), above, bpp, n) == row[..n]
  {
    if n == 0 {
    } else {
      RowBack(filter, row, above, bpp, n - 1);
      assert Left(row[..n - 1], n - 1, bpp) == Left(row, n - 1, bpp);
      ThereAndBack(row[n - 1], PredictAt(filter, row, above, n - 1, bpp));
      assert row[..n] == row[..n - 1] + [row[n - 1]];
    }
  }

  lemma ThereAndBack(x: byte, predicted: byte)
    ensures ((x - predicted) % 256 + predicted) % 256 == x
  {
  }

  /** The row a PNG's first row is predicted from. */
  function Black(stride: nat): (r: seq<byte>)
    ensures |r| == stride
  {
    seq(stride, _ => 0)
  }

  function Above(rows: seq<seq<byte>>, y: nat, stride: nat): seq<byte>
    requires y <= |rows|
  {
    if y == 0 then Black(stride) else rows[y - 1]
  }

  predicate IsImage(rows: seq<seq<byte>>, stride: nat) {
    forall y :: 0 <= y < |rows| ==> |rows[y]| == stride
  }

  /** An image's scanlines: each row's filter, then the row filtered. */
  function Scanlines(rows: seq<seq<byte>>, filters: seq<byte>, stride: nat, bpp: nat): (r: seq<byte>)
    requires bpp > 0 && IsImage(rows, stride) && |filters| == |rows|
    ensures |r| == Times(stride + 1, |rows|)
  {
    if rows == [] then []
    else
      var y := |rows| - 1;
      Scanlines(rows[..y], filters[..y], stride, bpp)
      + [filters[y]] + Filtered(filters[y], rows[y], Above(rows, y, stride), bpp)
  }

  /** The pixels of scanlines, row by row. */
  function Pixels(raw: seq<byte>, height: nat, stride: nat, bpp: nat): (rows: seq<seq<byte>>)
    requires bpp > 0 && |raw| >= Times(stride + 1, height)
    ensures |rows| == height && IsImage(rows, stride)
  {
    if height == 0 then []
    else
      var y := height - 1;
      var before := Pixels(raw, y, stride, bpp);
      var at := Times(stride + 1, y);
      before + [Restored(raw[at], raw[at + 1..at + 1 + stride], Above(before, y, stride), bpp, stride)]
  }

  lemma PixelsMore(raw: seq<byte>, y: nat, stride: nat, bpp: nat)
    requires bpp > 0 && |raw| >= Times(stride + 1, y + 1)
    ensures Pixels(raw, y + 1, stride, bpp)[..y] == Pixels(raw, y, stride, bpp)
    ensures var at := Times(stride + 1, y);
      Pixels(raw, y + 1, stride, bpp)[y]
      == Restored(raw[at], raw[at + 1..at + 1 + stride], Above(Pixels(raw, y, stride, bpp), y, stride), bpp, stride)
  {
    hide Restored, Above;
  }

  lemma LastOf<T>(a: seq<T>, b: seq<T>)
    requires |a| == |b| > 0 && a[..|a| - 1] == b[..|b| - 1] && a[|a| - 1] == b[|b| - 1]
    ensures a == b
  {
    assert a == a[..|a| - 1] + [a[|a| - 1]] && b == b[..|b| - 1] + [b[|b| - 1]];
  }

  /** Only the scanlines of the rows wanted are read. */
  lemma {:induction false} PixelsOfStart(raw: seq<byte>, more: seq<byte>, height: nat, stride: nat, bpp: nat)
    requires bpp > 0 && |raw| >= Times(stride + 1, height)
    ensures Pixels(raw + more, height, stride, bpp) == Pixels(raw, height, stride, bpp)
  {
    if height == 0 {
    } else {
      hide Restored, Above, Pixels;
      var y, at := height - 1, Times(stride + 1, height - 1);
      PixelsOfStart(raw, more, y, stride, bpp);
      PixelsMore(raw, y, stride, bpp);
      PixelsMore(raw + more, y, stride, bpp);
      SliceOfStart(raw, more, at + 1, at + 1 + stride);
      assert (raw + more)[at] == raw[at];
      LastOf(Pixels(raw + more, height, stride, bpp), Pixels(raw, height, stride, bpp));
    }
  }

  lemma SliceOfStart<T>(s: seq<T>, more: seq<T>, from: nat, to: nat)
    requires from <= to <= |s|
    ensures (s + more)[from..to] == s[from..to]
  {
  }

  /** Where the last scanline is. */
  lemma LastLine(rows: seq<seq<byte>>, filters: seq<byte>, stride: nat, bpp: nat, more: seq<byte>)
    requires bpp > 0 && rows != [] && IsImage(rows, stride) && |filters| == |rows|
    ensures var y := |rows| - 1;
      var at, line := Times(stride + 1, y), Filtered(filters[y], rows[y], Above(rows, y, stride), bpp);
      var raw := Scanlines(rows, filters, stride, bpp) + more;
      && raw == Scanlines(rows[..y], filters[..y], stride, bpp) + ([filters[y]] + line + more)
      && raw[at] == filters[y] && raw[at + 1..at + 1 + stride] == line
  {
    hide Filtered;
    var y := |rows| - 1;
    var lines := Scanlines(rows[..y], filters[..y], stride, bpp);
    var line := Filtered(filters[y], rows[y], Above(rows, y, stride), bpp);
    var all := Scanlines(rows, filters, stride, bpp);
    assert all == lines + [filters[y]] + line;
    hide Scanlines;
    assert all + more == lines + ([filters[y]] + line + more);
    assert (all + more)[|lines| + 1..|lines| + 1 + stride] == line;
  }

  /** Whatever filter each row was given, undoing them restores the image; bytes behind its scanlines do not matter. */
  lemma {:induction false} FiltersUndone(rows: seq<seq<byte>>, filters: seq<byte>, stride: nat, bpp: nat, more: seq<byte>)
    requires bpp > 0 && IsImage(rows, stride) && |filters| == |rows|
    ensures Pixels(Scanlines(rows, filters, stride, bpp) + more, |rows|, stride, bpp) == rows
  {
    if rows == [] {
    } else {
      var y := |rows| - 1;
      var lines := Scanlines(rows[..y], filters[..y], stride, bpp);
      var line := Filtered(filters[y], rows[y], Above(rows, y, stride), bpp);
      var raw := Scanlines(rows, filters, stride, bpp) + more;
      LastLine(rows, filters, stride, bpp, more);
      hide Scanlines, Pixels, Filtered, Restored, Above;
      FiltersUndone(rows[..y], filters[..y], stride, bpp, [filters[y]] + line + more);
      PixelsMore(raw, y, stride, bpp);
      LastRow(rows, filters[y], stride, bpp);
      AboveSame(rows, y, stride);
      LastOf(Pixels(raw, |rows|, stride, bpp), rows);
    }
  }

  /** The last row is restored from the row above it. */
  lemma LastRow(rows: seq<seq<byte>>, filter: byte, stride: nat, bpp: nat)
    requires bpp > 0 && rows != [] && IsImage(rows, stride)
    ensures var above := Above(rows, |rows| - 1, stride);
      Restored(filter, Filtered(filter, rows[|rows| - 1], above, bpp), above, bpp, stride) == rows[|rows| - 1]
  {
    hide Restored, Filtered;
    var row := rows[|rows| - 1];
    RowBack(filter, row, Above(rows, |rows| - 1, stride), bpp, stride);
    assert row[..stride] == row;
  }

  lemma AboveSame(rows: seq<seq<byte>>, y: nat, stride: nat)
    requires y < |rows|
    ensures Above(rows[..y], y, stride) == Above(rows, y, stride)
  {
  }

  // What undoing a filter means, byte by byte.

  /** `p` is nearest the plane through its left, upper and upper left neighbours, the earlier of those as near. */
  predicate IsNearest(p: nat, left: nat, up: nat, corner: nat) {
    var plane := left + up - corner;
    var l, u, c, d := Abs(plane - left), Abs(plane - up), Abs(plane - corner), Abs(plane - p);
    && (p == left || p == up || p == corner) && d <= l && d <= u && d <= c
    && (p != left ==> d < l) && (p != left && p != up ==> d < u)
  }

  /** Byte `x` of a row: the filtered one and what its filter adds of the bytes left of it and above. */
  predicate ByteUndone(filter: byte, line: seq<byte>, above: seq<byte>, row: seq<byte>, x: nat, bpp: nat)
    requires 0 < bpp && x < |line| == |above| == |row|
  {
    var left: nat, up: nat, corner: nat :=
      if x < bpp then 0 else row[x - bpp], above[x], if x < bpp then 0 else above[x - bpp];
    var v: nat, was: nat := row[x], line[x];
    && (filter == 1 ==> v == (was + left) % 256)
    && (filter == 2 ==> v == (was + up) % 256)
    && (filter == 3 ==> v == (was + (left + up) / 2) % 256)
    && (filter == 4 ==> IsNearest((v - was) % 256, left, up, corner))
    && (filter == 0 || filter > 4 ==> v == was)
  }

  ghost predicate RowUndone(filter: byte, line: seq<byte>, above: seq<byte>, row: seq<byte>, bpp: nat)
    requires 0 < bpp
  {
    |line| == |above| == |row| && forall x :: 0 <= x < |row| ==> ByteUndone(filter, line, above, row, x, bpp)
  }

  /** Row after row, each behind its filter, the first as if below zeros. */
  ghost predicate RowsUndone(raw: seq<byte>, rows: seq<seq<byte>>, stride: nat, bpp: nat)
    requires 0 < bpp
  {
    && |raw| >= Times(stride + 1, |rows|)
    && forall y :: 0 <= y < |rows| ==> LineUndone(raw, rows, y, stride, bpp)
  }

  ghost predicate LineUndone(raw: seq<byte>, rows: seq<seq<byte>>, y: nat, stride: nat, bpp: nat)
    requires 0 < bpp && y < |rows|
  {
    var at := Times(stride + 1, y);
    at + 1 + stride <= |raw|
    && RowUndone(raw[at], raw[at + 1..at + 1 + stride], if y == 0 then seq(stride, _ => 0) else rows[y - 1], rows[y], bpp)
  }

  lemma PredictedIs(filter: byte, line: byte, a: byte, b: byte, c: byte)
    ensures var v := (line + Predict(filter, a, b, c)) % 256;
      && (filter == 1 ==> v == (line + a) % 256) && (filter == 2 ==> v == (line + b) % 256)
      && (filter == 3 ==> v == (line + (a + b) / 2) % 256)
      && (filter == 4 ==> IsNearest((v - line) % 256, a, b, c))
      && (filter == 0 || filter > 4 ==> v == line)
  {
    hide IsNearest, Paeth;
    if filter == 4 {
      PaethIsNearest(a, b, c);
      BackAndThere(line, Paeth(a, b, c));
    }
  }

  lemma PaethIsNearest(a: byte, b: byte, c: byte)
    ensures IsNearest(Paeth(a, b, c), a, b, c)
  {
  }

  lemma BackAndThere(x: byte, added: byte)
    ensures ((x + added) % 256 - x) % 256 == added
  {
  }

  lemma {:induction false} RestoredPrefix(filter: byte, line: seq<byte>, above: seq<byte>, bpp: nat, n: nat, m: nat)
    requires bpp > 0 && |line| == |above| && n <= m <= |line|
    ensures Restored(filter, line, above, bpp, n) == Restored(filter, line, above, bpp, m)[..n]
    decreases m - n
  {
    hide PredictAt;
    if n < m {
      RestoredPrefix(filter, line, above, bpp, n, m - 1);
    }
  }

  /** Restoring a row undoes its filter. */
  lemma RestoredIsUndone(filter: byte, line: seq<byte>, above: seq<byte>, bpp: nat)
    requires bpp > 0 && |line| == |above|
    ensures RowUndone(filter, line, above, Restored(filter, line, above, bpp, |line|), bpp)
  {
    hide ByteUndone, Restored;
    forall x | 0 <= x < |line|
      ensures ByteUndone(filter, line, above, Restored(filter, line, above, bpp, |line|), x, bpp)
    {
      ByteIsUndone(filter, line, above, x, bpp);
    }
  }

  lemma ByteIsUndone(filter: byte, line: seq<byte>, above: seq<byte>, x: nat, bpp: nat)
    requires bpp > 0 && x < |line| == |above|
    ensures ByteUndone(filter, line, above, Restored(filter, line, above, bpp, |line|), x, bpp)
  {
    hide Predict, IsNearest, Restored;
    var row := Restored(filter, line, above, bpp, |line|);
    RestoredPrefix(filter, line, above, bpp, x + 1, |line|);
    RestoredPrefix(filter, line, above, bpp, x, |line|);
    RestoredNext(filter, line, above, bpp, x);
    var left, corner := if x < bpp then 0 else row[x - bpp], if x < bpp then 0 else above[x - bpp];
    assert row[..x + 1][x] == row[x] && (x >= bpp ==> row[..x][x - bpp] == left);
    PredictedIs(filter, line[x], left, above[x], corner);
  }

  /** A row undone above others stays so. */
  lemma LinePrefix(raw: seq<byte>, before: seq<seq<byte>>, rows: seq<seq<byte>>, y: nat, stride: nat, bpp: nat)
    requires bpp > 0 && y < |before| <= |rows| && rows[..|before|] == before && LineUndone(raw, before, y, stride, bpp)
    ensures LineUndone(raw, rows, y, stride, bpp)
  {
    hide RowUndone;
    assert rows[y] == rows[..|before|][y] && (y > 0 ==> rows[y - 1] == rows[..|before|][y - 1]);
  }

  lemma LastLineUndone(raw: seq<byte>, rows: seq<seq<byte>>, stride: nat, bpp: nat)
    requires bpp > 0 && rows != [] && |raw| >= Times(stride + 1, |rows|) && IsImage(rows, stride)
    requires var y := |rows| - 1;
      var at := Times(stride + 1, y);
      rows[y] == Restored(raw[at], raw[at + 1..at + 1 + stride], Above(rows[..y], y, stride), bpp, stride)
    ensures LineUndone(raw, rows, |rows| - 1, stride, bpp)
  {
    hide Restored, RowUndone, Above;
    var y := |rows| - 1;
    var at := Times(stride + 1, y);
    AboveIs(rows[..y], y, stride);
    RestoredIsUndone(raw[at], raw[at + 1..at + 1 + stride], Above(rows[..y], y, stride), bpp);
    assert y > 0 ==> rows[y - 1] == rows[..y][y - 1];
  }

  lemma {:induction false} PixelsUndone(raw: seq<byte>, height: nat, stride: nat, bpp: nat)
    requires bpp > 0 && |raw| >= Times(stride + 1, height)
    ensures RowsUndone(raw, Pixels(raw, height, stride, bpp), stride, bpp)
  {
    hide *;
    if height == 0 {
      NoneUndone(raw, stride, bpp);
    } else {
      var y := height - 1;
      TimesGrows(stride + 1, y, height);
      PixelsUndone(raw, y, stride, bpp);
      PixelsMore(raw, y, stride, bpp);
      LastLineUndone(raw, Pixels(raw, height, stride, bpp), stride, bpp);
      RowsMore(raw, Pixels(raw, y, stride, bpp), Pixels(raw, height, stride, bpp), stride, bpp);
    }
  }

  lemma NoneUndone(raw: seq<byte>, stride: nat, bpp: nat)
    requires bpp > 0
    ensures RowsUndone(raw, [], stride, bpp)
  {
  }

  lemma RowsMore(raw: seq<byte>, before: seq<seq<byte>>, rows: seq<seq<byte>>, stride: nat, bpp: nat)
    requires bpp > 0 && |rows| == |before| + 1 && rows[..|before|] == before
    requires RowsUndone(raw, before, stride, bpp) && LineUndone(raw, rows, |before|, stride, bpp)
    requires |raw| >= Times(stride + 1, |rows|)
    ensures RowsUndone(raw, rows, stride, bpp)
  {
    hide LineUndone, Times;
    forall k | 0 <= k < |before|
      ensures LineUndone(raw, rows, k, stride, bpp)
    {
      LinePrefix(raw, before, rows, k, stride, bpp);
    }
  }

  lemma AboveIs(rows: seq<seq<byte>>, y: nat, stride: nat)
    requires y <= |rows| && IsImage(rows, stride)
    ensures Above(rows, y, stride) == (if y == 0 then seq(stride, _ => 0) else rows[y - 1]) && |Above(rows, y, stride)| == stride
  {
  }

  // In place.

  /** One row restored at `base`, behind the row above it if there is one. */
  method UnfilterRow(filter: byte, line: seq<byte>, out: array<byte>, base: nat, first: bool, bpp: nat)
    requires bpp > 0 && base + |line| <= out.Length && (!first ==> |line| <= base)
    modifies out
    ensures out[..base + |line|]
      == old(out[..base])
         + Restored(filter, line, if first then Black(|line|) else old(out[base - |line|..base]), bpp, |line|)
  {
    hide *;
    var stride := |line|;
    ghost var before := out[..base];
    ghost var above := if first then Black(stride) else out[base - stride..base];
    BlackIs(stride);
    for x := 0 to stride
      invariant out[..base] == before
      invariant out[base..base + x] == Restored(filter, line, above, bpp, x)
    {
      var a := if x >= bpp then out[base + x - bpp] else 0;
      var b := if first then 0 else out[base - stride + x];
      var c := if first || x < bpp then 0 else out[base - stride + x - bpp];
      ghost var row := out[base..base + x];
      RestoredNext(filter, line, above, bpp, x);
      assert x >= bpp ==> a == row[x - bpp];
      assert !first ==> above == before[base - stride..];
      assert b == above[x] && (x >= bpp ==> c == above[x - bpp]);
      out[base + x] := (line[x] + Predict(filter, a, b, c)) % 256;
      assert out[base..base + x + 1] == row + [out[base + x]];
    }
    TakeDrop(out[..], base, base + stride);
  }

  lemma TakeDrop<T>(s: seq<T>, from: nat, to: nat)
    requires from <= to <= |s|
    ensures s[..to] == s[..from] + s[from..to]
  {
  }

  lemma RestoredNext(filter: byte, line: seq<byte>, above: seq<byte>, bpp: nat, x: nat)
    requires bpp > 0 && |line| == |above| && x < |line|
    ensures var row := Restored(filter, line, above, bpp, x);
      var a, c := if x >= bpp then row[x - bpp] else 0, if x >= bpp then above[x - bpp] else 0;
      Restored(filter, line, above, bpp, x + 1) == row + [(line[x] + Predict(filter, a, above[x], c)) % 256]
  {
    hide Predict;
  }

  lemma BlackIs(stride: nat)
    ensures forall x :: 0 <= x < stride ==> Black(stride)[x] == 0
  {
  }

  lemma FlatOfMore(rows: seq<seq<byte>>, row: seq<byte>)
    ensures Flat(rows + [row]) == Flat(rows) + row
  {
    FlatBoth(rows, [row]);
    assert Flat([row]) == row + Flat<byte>([]);
  }

  lemma {:induction false} FlatEnd(rows: seq<seq<byte>>, stride: nat)
    requires IsImage(rows, stride)
    ensures |Flat(rows)| == Times(stride, |rows|)
    ensures rows != [] ==> Times(stride, |rows|) >= stride
    ensures rows != [] ==> Flat(rows)[Times(stride, |rows|) - stride..] == rows[|rows| - 1]
  {
    if rows == [] {
    } else {
      FlatEnd(rows[..|rows| - 1], stride);
      FlatOfMore(rows[..|rows| - 1], rows[|rows| - 1]);
      assert rows == rows[..|rows| - 1] + [rows[|rows| - 1]];
    }
  }

  lemma {:induction false} TimesGrows(a: nat, n: nat, m: nat)
    requires n <= m
    ensures Times(a, n) <= Times(a, m)
  {
    if n == m {
    } else {
      TimesGrows(a, n, m - 1);
    }
  }

  /** One row more. */
  lemma PixelsNext(raw: seq<byte>, y: nat, stride: nat, bpp: nat, flat: seq<byte>)
    requires bpp > 0 && |raw| >= Times(stride + 1, y + 1) && flat == Flat(Pixels(raw, y, stride, bpp))
    ensures Times(stride + 1, y + 1) == Times(stride + 1, y) + stride + 1 && Times(stride, y + 1) == Times(stride, y) + stride
    ensures |flat| == Times(stride, y) && (y > 0 ==> stride <= |flat|)
    ensures var at := Times(stride + 1, y);
      Flat(Pixels(raw, y + 1, stride, bpp))
      == flat + Restored(raw[at], raw[at + 1..at + 1 + stride],
                         if y == 0 then Black(stride) else flat[|flat| - stride..], bpp, stride)
  {
    hide Restored, Black, Pixels, Flat;
    PixelsMore(raw, y, stride, bpp);
    FlatEnd(Pixels(raw, y, stride, bpp), stride);
    var all := Pixels(raw, y + 1, stride, bpp);
    FlatOfMore(all[..y], all[y]);
    assert all == all[..y] + [all[y]];
  }

  /** The raw pixels of `height` scanlines of `width` pixels. */
  method Unfilter(raw: seq<byte>, width: nat, height: nat, bpp: nat) returns (out: array<byte>)
    requires bpp > 0 && |raw| >= Times(width * bpp + 1, height)
    ensures fresh(out) && out[..] == Flat(Pixels(raw, height, width * bpp, bpp))
    ensures RowsUndone(raw, Pixels(raw, height, width * bpp, bpp), width * bpp, bpp)
  {
    hide *;
    var stride := width * bpp;
    TimesIsProduct(stride, height);
    out := new byte[stride * height](_ => 0);
    NoRows(raw, stride, bpp);
    var pos, base := 0, 0;
    for y := 0 to height
      invariant pos == Times(stride + 1, y) && base == Times(stride, y) <= out.Length
      invariant Times(stride + 1, y) <= |raw|
      invariant out[..base] == Flat(Pixels(raw, y, stride, bpp))
    {
      TimesGrows(stride, y + 1, height);
      TimesGrows(stride + 1, y + 1, height);
      PixelsNext(raw, y, stride, bpp, out[..base]);
      ghost var before := out[..base];
      assert y > 0 ==> out[base - stride..base] == before[base - stride..];
      var filter, line := raw[pos], raw[pos + 1..pos + 1 + stride];
      UnfilterRow(filter, line, out, base, y == 0, bpp);
      pos, base := pos + 1 + stride, base + stride;
    }
    assert out[..base] == out[..];
    PixelsUndone(raw, height, stride, bpp);
  }

  lemma NoRows(raw: seq<byte>, stride: nat, bpp: nat)
    requires bpp > 0
    ensures Times(stride + 1, 0) == 0 && Times(stride, 0) == 0 && Flat(Pixels(raw, 0, stride, bpp)) == []
  {
  }
}

/** The preview conversion Yuv422iToYV12 of libcamera/cameraHal.cpp: interleaved 4:2:2 pixels are repacked
    into a full-size luma plane and two quarter-size chroma planes, in place in the window's buffer. */
module Yv12 {

  /** n luma bytes: every second byte from s on. */
  function Luma(src: seq<bv8>, s: nat, n: nat): (r: seq<bv8>)
    requires s + 2 * n <= |src|
    ensures |r| == n && forall c :: 0 <= c < n ==> r[c] == src[s + 2 * c]
  {
    seq(n, c requires 0 <= c < n => src[s + 2 * c])
  }

  /** n bytes of one chroma component: one of every four from s on. */
  function Chroma(src: seq<bv8>, s: nat, off: nat, n: nat): (r: seq<bv8>)
    requires s + 4 * n <= |src| && off < 4
    ensures |r| == n && forall c :: 0 <= c < n ==> r[c] == src[s + 4 * c + off]
  {
    seq(n, c requires 0 <= c < n => src[s + 4 * c + off])
  }

  // ---------------------------------------------------------------- planes

  /** k rows of a plane: row r is `row(r)` followed by what the buffer held there.  `rest` is the buffer
      from the plane's start on. */
  function Rows(row: nat -> seq<bv8>, width: nat, stride: nat, rest: seq<bv8>, k: nat): (p: seq<bv8>)
    requires forall r :: |row(r)| == width
    requires width <= stride && k * stride <= |rest|
    ensures |p| == k * stride
  {
    if k == 0 then []
    else
      RowEnd(k - 1, stride);
      Rows(row, width, stride, rest, k - 1) + row(k - 1) + rest[(k - 1) * stride + width..k * stride]
  }

  lemma RowEnd(k: nat, stride: nat)
    ensures (k + 1) * stride == k * stride + stride
  {
  }

  lemma RowBefore(r: nat, k: nat, stride: nat)
    requires r < k
    ensures (r + 1) * stride <= k * stride
  {
  }

  /** The plane in rows and columns: column c of row r comes from the row, or was there before. */
  lemma {:induction false} RowsAt(row: nat -> seq<bv8>, width: nat, stride: nat, rest: seq<bv8>, k: nat, r: nat, c: nat)
    requires forall r :: |row(r)| == width
    requires width <= stride && k * stride <= |rest| && r < k && c < stride
    ensures r * stride + c < k * stride
    ensures Rows(row, width, stride, rest, k)[r * stride + c] == if c < width then row(r)[c] else rest[r * stride + c]
  {
    RowEnd(k - 1, stride);
    RowEnd(r, stride);
    if r < k - 1 {
      RowBefore(r, k - 1, stride);
      RowsAt(row, width, stride, rest, k - 1, r, c);
    }
  }

  /** The two formats' parameters: all of them even, as the loops need. */
  datatype Shape = Shape(halfWidth: nat, halfHeight: nat, halfStride: nat) {
    function Width(): nat { 2 * halfWidth }
    function Height(): nat { 2 * halfHeight }
    function Stride(): nat { 2 * halfStride }
  }

  predicate Fits(g: Shape, src: seq<bv8>) {
    g.halfWidth <= g.halfStride && 2 * g.Width() * g.Height() <= |src|
  }

  lemma SourceRow(g: Shape, src: seq<bv8>, r: nat)
    requires Fits(g, src) && r < g.Height()
    ensures 2 * g.Width() * r + 2 * g.Width() <= |src|
  {
    RowBefore(r, g.Height(), 2 * g.Width());
    RowEnd(r, 2 * g.Width());
  }

  function LumaRow(g: Shape, src: seq<bv8>): (row: nat -> seq<bv8>)
    requires Fits(g, src)
    ensures forall r :: |row(r)| == g.Width()
  {
    (r: nat) => if r < g.Height() then SourceRow(g, src, r); Luma(src, 2 * g.Width() * r, g.Width())
                else seq(g.Width(), _ => 0)
  }

  function ChromaRow(g: Shape, src: seq<bv8>, off: nat): (row: nat -> seq<bv8>)
    requires Fits(g, src) && off < 4
    ensures forall r :: |row(r)| == g.halfWidth
  {
    (r: nat) =>
      if r < g.halfHeight then SourceRow(g, src, 2 * r); Chroma(src, 2 * g.Width() * (2 * r), off, g.halfWidth)
                else seq(g.halfWidth, _ => 0)
  }

  /** The sizes of the luma plane and of one chroma plane. */
  function LumaSize(g: Shape): nat { g.Height() * g.Stride() }
  function ChromaSize(g: Shape): nat { g.halfHeight * g.halfStride }

  lemma Sizes(g: Shape)
    ensures g.Stride() * g.Height() == LumaSize(g)
    ensures g.Stride() * g.Height() / 4 == ChromaSize(g)
    ensures LumaSize(g) + 2 * ChromaSize(g) == g.Stride() * g.Height() * 3 / 2
  {
    assert g.Stride() * g.Height() == 4 * (g.halfHeight * g.halfStride);
  }

  /** The buffer afterwards: luma, then the chroma bytes 1 of every group of four in the even rows, then
      the bytes 3; padding and everything behind the planes as before. */
  function Converted(g: Shape, src: seq<bv8>, old_: seq<bv8>): (r: seq<bv8>)
    requires Fits(g, src) && LumaSize(g) + 2 * ChromaSize(g) <= |old_|
    ensures |r| == |old_|
  {
    var y, c := LumaSize(g), ChromaSize(g);
    Rows(LumaRow(g, src), g.Width(), g.Stride(), old_, g.Height())
    + Rows(ChromaRow(g, src, 1), g.halfWidth, g.halfStride, old_[y..y + c], g.halfHeight)
    + Rows(ChromaRow(g, src, 3), g.halfWidth, g.halfStride, old_[y + c..y + 2 * c], g.halfHeight)
    + old_[y + 2 * c..]
  }

  /** Main theorem, sample by sample. */
  lemma LumaPlaced(g: Shape, src: seq<bv8>, old_: seq<bv8>, r: nat, c: nat, at: nat, s: nat)
    requires Fits(g, src) && LumaSize(g) + 2 * ChromaSize(g) <= |old_|
    requires r < g.Height() && c < g.Stride()
    requires at == r * g.Stride() + c && s == 2 * (r * g.Width() + c)
    ensures at < LumaSize(g)
    ensures c < g.Width() ==> s < |src| && Converted(g, src, old_)[at] == src[s]
    ensures c >= g.Width() ==> Converted(g, src, old_)[at] == old_[at]
  {
    hide Rows;
    RowsAt(LumaRow(g, src), g.Width(), g.Stride(), old_, g.Height(), r, c);
    SourceRow(g, src, r);
    assert 2 * g.Width() * r == 2 * (r * g.Width());
  }

  /** The first chroma plane starts behind luma, the second behind the first; sample i of both comes from
      the group at s. */
  lemma ChromaPlaced(g: Shape, src: seq<bv8>, old_: seq<bv8>, r: nat, c: nat, i: nat, s: nat, v: nat, u: nat)
    requires Fits(g, src) && LumaSize(g) + 2 * ChromaSize(g) <= |old_|
    requires r < g.halfHeight && c < g.halfStride
    requires i == r * g.halfStride + c && s == 2 * g.Width() * (2 * r) + 4 * c
    requires v == LumaSize(g) + i && u == LumaSize(g) + ChromaSize(g) + i
    ensures i < ChromaSize(g)
    ensures c < g.halfWidth ==>
              s + 3 < |src| && Converted(g, src, old_)[v] == src[s + 1] && Converted(g, src, old_)[u] == src[s + 3]
    ensures c >= g.halfWidth ==> Converted(g, src, old_)[v] == old_[v] && Converted(g, src, old_)[u] == old_[u]
  {
    hide Rows, ChromaSize, LumaSize;
    var y, q := LumaSize(g), ChromaSize(g);
    ChromaRowsFit(g);
    RowsAt(ChromaRow(g, src, 1), g.halfWidth, g.halfStride, old_[y..y + q], g.halfHeight, r, c);
    RowsAt(ChromaRow(g, src, 3), g.halfWidth, g.halfStride, old_[y + q..y + 2 * q], g.halfHeight, r, c);
    SourceRow(g, src, 2 * r);
  }

  lemma ChromaRowsFit(g: Shape)
    ensures g.halfHeight * g.halfStride == ChromaSize(g) && g.Height() * g.Stride() == LumaSize(g)
  {
  }

  lemma BehindUntouched(g: Shape, src: seq<bv8>, old_: seq<bv8>)
    requires Fits(g, src) && LumaSize(g) + 2 * ChromaSize(g) <= |old_|
    ensures var end := LumaSize(g) + 2 * ChromaSize(g);
            Converted(g, src, old_)[end..] == old_[end..]
  {
    hide Rows;
  }

  // ---------------------------------------------------------------- the loops

  method CopyLumaRow(dest: array<bv8>, d: nat, src: seq<bv8>, s: nat, halfWidth: nat)
    requires d + 2 * halfWidth <= dest.Length && s + 4 * halfWidth <= |src|
    modifies dest
    ensures dest[..] == old(dest[..d]) + Luma(src, s, 2 * halfWidth) + old(dest[d + 2 * halfWidth..])
  {
    ghost var before := dest[..];
    var p, q, j := d, s, 2 * halfWidth;
    while j != 0
      invariant 0 <= j <= 2 * halfWidth && j % 2 == 0
      invariant p == d + (2 * halfWidth - j) && q == s + 2 * (2 * halfWidth - j)
      invariant forall i :: 0 <= i < dest.Length ==>
                  dest[i] == if d <= i < p then src[s + 2 * (i - d)] else before[i]
    {
      dest[p] := src[q];
      p := p + 1;
      dest[p] := src[q + 2];
      p := p + 1;
      q := q + 4;
      j := j - 2;
    }
  }

  /** The buffer after k of the row's n groups. */
  ghost predicate GroupsDone(before: seq<bv8>, now: seq<bv8>, src: seq<bv8>, s: nat, v: nat, u: nat, k: nat, n: nat) {
    && k <= n && v + n <= u && u + n <= |before| && s + 4 * n <= |src|
    && now == before[..v] + Chroma(src, s, 1, k) + before[v + k..u] + Chroma(src, s, 3, k) + before[u + k..]
  }

  lemma NoGroupsDone(before: seq<bv8>, src: seq<bv8>, s: nat, v: nat, u: nat, n: nat)
    requires v + n <= u && u + n <= |before| && s + 4 * n <= |src|
    ensures GroupsDone(before, before, src, s, v, u, 0, n)
  {
    assert Chroma(src, s, 1, 0) == [] && Chroma(src, s, 3, 0) == [];
  }

  lemma GroupNext(before: seq<bv8>, now: seq<bv8>, src: seq<bv8>, s: nat, v: nat, u: nat, k: nat, n: nat)
    requires k < n && GroupsDone(before, now, src, s, v, u, k, n)
    ensures |now| == |before|
    ensures GroupsDone(before, now[u + k := src[s + 4 * k + 3]][v + k := src[s + 4 * k + 1]], src, s, v, u, k + 1, n)
  {
    var a, b, c, d := src[s + 4 * k + 1], src[s + 4 * k + 3], Chroma(src, s, 1, k), Chroma(src, s, 3, k);
    assert Chroma(src, s, 1, k + 1) == c + [a] && Chroma(src, s, 3, k + 1) == d + [b];
    Written(before[..v], c, before[v + k], before[v + k + 1..u], d, before[u + k], before[u + k + 1..], a, b);
    assert before[v + k..u] == [before[v + k]] + before[v + k + 1..u];
    assert before[u + k..] == [before[u + k]] + before[u + k + 1..];
  }

  /** Two elements of a sequence replaced. */
  lemma Written(w: seq<bv8>, c: seq<bv8>, x: bv8, y: seq<bv8>, d: seq<bv8>, z: bv8, t: seq<bv8>, a: bv8, b: bv8)
    ensures var s := w + c + ([x] + y) + d + ([z] + t);
            var i, j := |w| + |c|, |w| + |c| + 1 + |y| + |d|;
            s[j := b][i := a] == w + (c + [a]) + y + (d + [b]) + t
  {
  }

  /** The two chroma bytes of a group of four. */
  method CopyGroup(dest: array<bv8>, vp: nat, up: nat, v: bv8, u: bv8)
    requires vp < up < dest.Length
    modifies dest
    ensures dest[..] == old(dest[..])[up := u][vp := v]
  {
    dest[up] := u;
    dest[vp] := v;
  }

  lemma AllGroupsDone(before: seq<bv8>, now: seq<bv8>, src: seq<bv8>, s: nat, v: nat, u: nat, n: nat)
    requires GroupsDone(before, now, src, s, v, u, n, n)
    ensures v + n <= u && u + n <= |before| && s + 4 * n <= |src|
    ensures now == before[..v] + Chroma(src, s, 1, n) + before[v + n..u] + Chroma(src, s, 3, n) + before[u + n..]
  {
  }

  method CopyChromaRow(dest: array<bv8>, v: nat, u: nat, src: seq<bv8>, s: nat, n: nat)
    requires v + n <= u && u + n <= dest.Length && s + 4 * n <= |src|
    modifies dest
    ensures dest[..] == old(dest[..v]) + Chroma(src, s, 1, n) + old(dest[v + n..u])
                        + Chroma(src, s, 3, n) + old(dest[u + n..])
  {
    ghost var before := dest[..];
    var vp, up, q, j := v, u, s, 2 * n;
    ghost var k: nat := 0;
    NoGroupsDone(before, src, s, v, u, n);
    hide GroupsDone, Chroma;
    while j != 0
      invariant 0 <= k <= n && j == 2 * (n - k)
      invariant vp == v + k && up == u + k && q == s + 4 * k
      invariant GroupsDone(before, dest[..], src, s, v, u, k, n)
    {
      GroupNext(before, dest[..], src, s, v, u, k, n);
      CopyGroup(dest, vp, up, src[q + 1], src[q + 3]);
      up := up + 1;
      vp := vp + 1;
      q := q + 4;
      j := j - 2;
      k := k + 1;
    }
    AllGroupsDone(before, dest[..], src, s, v, u, n);
  }

  /** The buffer after k rows of luma. */
  ghost predicate LumaDone(g: Shape, src: seq<bv8>, old_: seq<bv8>, now: seq<bv8>, k: nat)
    requires Fits(g, src) && k * g.Stride() <= |old_|
  {
    now == Rows(LumaRow(g, src), g.Width(), g.Stride(), old_, k) + old_[k * g.Stride()..]
  }

  lemma LumaRowIs(g: Shape, src: seq<bv8>, old_: seq<bv8>, k: nat, d: nat, w: nat, e: nat)
    requires Fits(g, src) && k < g.Height() && w == g.Width() && d == k * g.Stride()
    requires e == (k + 1) * g.Stride() == d + g.Stride() <= |old_| && 2 * w * k + 2 * w <= |src|
    ensures Rows(LumaRow(g, src), w, g.Stride(), old_, k + 1)
         == Rows(LumaRow(g, src), w, g.Stride(), old_, k) + Luma(src, 2 * w * k, w) + old_[d + w..e]
  {
  }

  lemma RowReplaced(done: seq<bv8>, row: seq<bv8>, old_: seq<bv8>, d: nat, w: nat, e: nat, now: seq<bv8>,
                    next: seq<bv8>)
    requires |done| == d && |row| == w && d + w <= e <= |old_|
    requires now == done + old_[d..] && next == now[..d] + row + now[d + w..]
    ensures next == (done + row + old_[d + w..e]) + old_[e..]
  {
    assert old_[d + w..] == old_[d + w..e] + old_[e..];
  }

  lemma LumaNext(g: Shape, src: seq<bv8>, old_: seq<bv8>, now: seq<bv8>, next: seq<bv8>, k: nat)
    requires Fits(g, src) && k < g.Height() && (k + 1) * g.Stride() <= |old_| && k * g.Stride() <= |old_|
    requires LumaDone(g, src, old_, now, k)
    requires k * g.Stride() + g.Width() <= |now|
    requires 2 * g.Width() * k + 2 * g.Width() <= |src|
    requires next == now[..k * g.Stride()] + Luma(src, 2 * g.Width() * k, g.Width()) + now[k * g.Stride() + g.Width()..]
    ensures LumaDone(g, src, old_, next, k + 1)
  {
    var d, w, e := k * g.Stride(), g.Width(), (k + 1) * g.Stride();
    RowEnd(k, g.Stride());
    LumaRowIs(g, src, old_, k, d, w, e);
    hide Rows, LumaRow;
    RowReplaced(Rows(LumaRow(g, src), w, g.Stride(), old_, k), Luma(src, 2 * g.Width() * k, w), old_, d, w, e, now,
                next);
  }

  /** The buffer after k rows of both chroma planes: `rest1` and `rest3` are what it held in their places. */
  ghost predicate ChromaDone(luma: seq<bv8>, row1: nat -> seq<bv8>, row3: nat -> seq<bv8>, width: nat, stride: nat,
                             rest1: seq<bv8>, rest3: seq<bv8>, tail: seq<bv8>, now: seq<bv8>, k: nat)
    requires forall r :: |row1(r)| == width
    requires forall r :: |row3(r)| == width
    requires width <= stride && k * stride <= |rest1| == |rest3|
  {
    now == luma + (Rows(row1, width, stride, rest1, k) + rest1[k * stride..])
                + (Rows(row3, width, stride, rest3, k) + rest3[k * stride..]) + tail
  }

  lemma PlaneNext(row: nat -> seq<bv8>, width: nat, stride: nat, rest: seq<bv8>, k: nat, d: nat)
    requires forall r :: |row(r)| == width
    requires width <= stride && d == k * stride && d + stride == (k + 1) * stride <= |rest|
    ensures Rows(row, width, stride, rest, k + 1) + rest[d + stride..]
         == Rows(row, width, stride, rest, k) + row(k) + rest[d + width..]
  {
    assert rest[d + width..] == rest[d + width..d + stride] + rest[d + stride..];
    assert Rows(row, width, stride, rest, k + 1)
           == Rows(row, width, stride, rest, k) + row(k) + rest[d + width..d + stride];
    hide *;
  }

  lemma ReplaceTwo(luma: seq<bv8>, a: seq<bv8>, rest1: seq<bv8>, b: seq<bv8>, rest3: seq<bv8>, tail: seq<bv8>,
                   c1: seq<bv8>, c3: seq<bv8>, now: seq<bv8>, next: seq<bv8>, v: nat, u: nat, d: nat, w: nat)
    requires |rest1| == |rest3| && |a| == |b| == d && |c1| == |c3| == w && d + w <= |rest1|
    requires now == luma + (a + rest1[d..]) + (b + rest3[d..]) + tail
    requires v == |luma| + d && u == |luma| + |rest1| + d
    requires next == now[..v] + c1 + now[v + w..u] + c3 + now[u + w..]
    ensures next == luma + (a + c1 + rest1[d + w..]) + (b + c3 + rest3[d + w..]) + tail
  {
    var r1, r3 := rest1[d + w..], rest3[d + w..];
    assert rest1[d..] == rest1[d..d + w] + r1 && rest3[d..] == rest3[d..d + w] + r3;
    Pieces(luma, a, rest1[d..d + w], r1, b, rest3[d..d + w], r3, tail, now, v, u, w);
    Regroup(luma, a, c1, r1, b, c3, r3, tail);
  }

  lemma Pieces(luma: seq<bv8>, a: seq<bv8>, x: seq<bv8>, r1: seq<bv8>, b: seq<bv8>, y: seq<bv8>, r3: seq<bv8>,
               tail: seq<bv8>, now: seq<bv8>, v: nat, u: nat, w: nat)
    requires now == luma + (a + (x + r1)) + (b + (y + r3)) + tail && |x| == |y| == w
    requires v == |luma| + |a| && u == v + w + |r1| + |b|
    ensures now[..v] == luma + a && now[v + w..u] == r1 + b && now[u + w..] == r3 + tail
  {
    assert now == (luma + a) + x + (r1 + b) + y + (r3 + tail);
  }

  lemma Regroup(luma: seq<bv8>, a: seq<bv8>, c1: seq<bv8>, r1: seq<bv8>, b: seq<bv8>, c3: seq<bv8>, r3: seq<bv8>,
                tail: seq<bv8>)
    ensures (luma + a) + c1 + (r1 + b) + c3 + (r3 + tail) == luma + (a + c1 + r1) + (b + c3 + r3) + tail
  {
  }

  lemma Replaced(luma: seq<bv8>, x: seq<bv8>, y: seq<bv8>, x1: seq<bv8>, y1: seq<bv8>, tail: seq<bv8>)
    requires x == x1 && y == y1
    ensures luma + x + y + tail == luma + x1 + y1 + tail
  {
  }

  lemma ChromaNext(luma: seq<bv8>, row1: nat -> seq<bv8>, row3: nat -> seq<bv8>, width: nat, stride: nat,
                   rest1: seq<bv8>, rest3: seq<bv8>, tail: seq<bv8>, now: seq<bv8>, next: seq<bv8>,
                   k: nat, d: nat, v: nat, u: nat)
    requires forall r :: |row1(r)| == width
    requires forall r :: |row3(r)| == width
    requires width <= stride && d == k * stride && d + stride == (k + 1) * stride <= |rest1| == |rest3|
    requires ChromaDone(luma, row1, row3, width, stride, rest1, rest3, tail, now, k)
    requires v == |luma| + d && u == |luma| + |rest1| + d && u + width <= |now|
    requires next == now[..v] + row1(k) + now[v + width..u] + row3(k) + now[u + width..]
    ensures ChromaDone(luma, row1, row3, width, stride, rest1, rest3, tail, next, k + 1)
  {
    hide Rows;
    var a, b, a1, b1 := Rows(row1, width, stride, rest1, k), Rows(row3, width, stride, rest3, k),
                        Rows(row1, width, stride, rest1, k + 1), Rows(row3, width, stride, rest3, k + 1);
    PlaneNext(row1, width, stride, rest1, k, d);
    PlaneNext(row3, width, stride, rest3, k, d);
    ReplaceTwo(luma, a, rest1, b, rest3, tail, row1(k), row3(k), now, next, v, u, d, width);
    Replaced(luma, a + row1(k) + rest1[d + width..], b + row3(k) + rest3[d + width..],
             a1 + rest1[d + stride..], b1 + rest3[d + stride..], tail);
  }

  lemma ChromaStarts(luma: seq<bv8>, row1: nat -> seq<bv8>, row3: nat -> seq<bv8>, width: nat, stride: nat,
                     rest1: seq<bv8>, rest3: seq<bv8>, tail: seq<bv8>, now: seq<bv8>)
    requires forall r :: |row1(r)| == width
    requires forall r :: |row3(r)| == width
    requires width <= stride && |rest1| == |rest3| && now == luma + rest1 + rest3 + tail
    ensures ChromaDone(luma, row1, row3, width, stride, rest1, rest3, tail, now, 0)
  {
    assert Rows(row1, width, stride, rest1, 0) == [] && Rows(row3, width, stride, rest3, 0) == [];
    assert [] + rest1[0..] == rest1 && [] + rest3[0..] == rest3;
  }

  lemma ChromaEnds(luma: seq<bv8>, row1: nat -> seq<bv8>, row3: nat -> seq<bv8>, width: nat, stride: nat,
                   rest1: seq<bv8>, rest3: seq<bv8>, tail: seq<bv8>, now: seq<bv8>, k: nat)
    requires forall r :: |row1(r)| == width
    requires forall r :: |row3(r)| == width
    requires width <= stride && k * stride == |rest1| == |rest3|
    requires ChromaDone(luma, row1, row3, width, stride, rest1, rest3, tail, now, k)
    ensures now == luma + Rows(row1, width, stride, rest1, k) + Rows(row3, width, stride, rest3, k) + tail
  {
    hide Rows;
    assert rest1[k * stride..] == [] && rest3[k * stride..] == [];
  }

  /** One row of luma. */
  method LumaStep(dest: array<bv8>, d: nat, src: seq<bv8>, s: nat, halfWidth: nat, g: Shape, ghost before: seq<bv8>,
                  ghost k: nat)
    requires Fits(g, src) && k < g.Height() && halfWidth == g.halfWidth
    requires d == k * g.Stride() && s == 2 * g.Width() * k && s + 4 * halfWidth <= |src|
    requires d + g.Stride() == (k + 1) * g.Stride() <= |before| == dest.Length
    requires LumaDone(g, src, before, dest[..], k)
    modifies dest
    ensures LumaDone(g, src, before, dest[..], k + 1)
  {
    hide Rows, LumaRow, LumaDone;
    ghost var now := dest[..];
    CopyLumaRow(dest, d, src, s, halfWidth);
    LumaNext(g, src, before, now, dest[..], k);
  }

  /** Where the luma pointers are after k rows. */
  ghost predicate LumaAt(g: Shape, k: nat, d: nat, s: nat) {
    k <= g.Height() && d == k * g.Stride() <= LumaSize(g) && s == 2 * g.Width() * k
  }

  lemma LumaAtNext(g: Shape, src: seq<bv8>, k: nat, d: nat, s: nat)
    requires Fits(g, src) && LumaAt(g, k, d, s) && k < g.Height()
    ensures LumaAt(g, k + 1, d + g.Stride(), s + 2 * g.Width())
    ensures d == k * g.Stride() && d + g.Stride() == (k + 1) * g.Stride() <= LumaSize(g)
    ensures s == 2 * g.Width() * k && s + 4 * g.halfWidth <= |src|
  {
    RowBefore(k, g.Height(), g.Stride());
    RowEnd(k, g.Stride());
    RowEnd(k, 2 * g.Width());
    SourceRow(g, src, k);
  }

  /** The luma phase. */
  method CopyLuma(dest: array<bv8>, src: seq<bv8>, g: Shape) returns (d: nat)
    requires Fits(g, src) && LumaSize(g) <= dest.Length
    modifies dest
    ensures d == LumaSize(g)
    ensures dest[..] == Rows(LumaRow(g, src), g.Width(), g.Stride(), old(dest[..]), g.Height()) + old(dest[d..])
  {
    ghost var before := dest[..];
    NoRows(LumaRow(g, src), g.Width(), g.Stride(), before);
    ghost var k: nat := 0;
    d := 0;
    var paddingY := g.Stride() - g.Width();
    var i, s: nat := g.Height(), 0;
    assert LumaDone(g, src, before, dest[..], k);
    assert LumaAt(g, k, d, s);
    hide Rows, LumaRow, LumaDone, LumaSize, LumaAt;
    while i != 0
      invariant 0 <= k <= g.Height() && i == g.Height() - k
      invariant LumaAt(g, k, d, s)
      invariant k * g.Stride() <= dest.Length
      invariant LumaDone(g, src, before, dest[..], k)
    {
      LumaAtNext(g, src, k, d, s);
      LumaStep(dest, d, src, s, g.halfWidth, g, before, k);
      s := s + 2 * g.Width();
      d := d + g.Width() + paddingY;
      i := i - 1;
      k := k + 1;
    }
    LumaEnds(g, src, before, dest[..], k, d, s);
  }

  lemma LumaEnds(g: Shape, src: seq<bv8>, before: seq<bv8>, now: seq<bv8>, k: nat, d: nat, s: nat)
    requires Fits(g, src) && k == g.Height() && LumaAt(g, k, d, s) && LumaSize(g) <= |before|
    requires k * g.Stride() <= |before| && LumaDone(g, src, before, now, k)
    ensures d == LumaSize(g)
    ensures now == Rows(LumaRow(g, src), g.Width(), g.Stride(), before, g.Height()) + before[d..]
  {
    hide Rows, LumaRow;
  }

  lemma NoRows(row: nat -> seq<bv8>, width: nat, stride: nat, rest: seq<bv8>)
    requires forall r :: |row(r)| == width
    requires width <= stride
    ensures Rows(row, width, stride, rest, 0) == []
  {
  }

  /** Where the pointers are after k rows of chroma: d bytes into the planes at v and u, s in the source. */
  ghost predicate ChromaAt(g: Shape, y: nat, k: nat, d: nat, v: nat, u: nat, s: nat) {
    && k <= g.halfHeight && d == k * g.halfStride <= ChromaSize(g)
    && v == y + d && u == y + ChromaSize(g) + d && s == 2 * g.Width() * (2 * k)
  }

  lemma ChromaAtStart(g: Shape, y: nat)
    ensures ChromaAt(g, y, 0, 0, y, y + g.Stride() * g.Height() / 4, 0)
  {
    Sizes(g);
  }

  lemma ChromaAtNext(g: Shape, src: seq<bv8>, y: nat, k: nat, d: nat, v: nat, u: nat, s: nat)
    requires Fits(g, src) && ChromaAt(g, y, k, d, v, u, s) && k < g.halfHeight
    ensures ChromaAt(g, y, k + 1, d + g.halfStride, v + g.halfStride, u + g.halfStride,
                     s + 4 * g.halfWidth + 2 * g.Width())
    ensures v + g.halfWidth <= u && u + g.halfStride <= y + 2 * ChromaSize(g) && s + 4 * g.halfWidth <= |src|
    ensures d == k * g.halfStride && d + g.halfStride == (k + 1) * g.halfStride <= ChromaSize(g)
    ensures v == y + d && u == y + ChromaSize(g) + d
    ensures ChromaRow(g, src, 1)(k) == Chroma(src, s, 1, g.halfWidth)
    ensures ChromaRow(g, src, 3)(k) == Chroma(src, s, 3, g.halfWidth)
  {
    ChromaRowFits(g, src, k, s);
    RowEnd(k, g.halfStride);
    RowBefore(k, g.halfHeight, g.halfStride);
  }

  /** One row of both chroma planes, which are the rows `row1` and `row3` of the result. */
  method ChromaStep(dest: array<bv8>, v: nat, u: nat, src: seq<bv8>, s: nat, width: nat, ghost stride: nat,
                    ghost row1: nat -> seq<bv8>, ghost row3: nat -> seq<bv8>, ghost k: nat, ghost d: nat,
                    ghost luma: seq<bv8>, ghost rest1: seq<bv8>, ghost rest3: seq<bv8>, ghost tail: seq<bv8>)
    requires forall r :: |row1(r)| == width
    requires forall r :: |row3(r)| == width
    requires width <= stride && d == k * stride && d + stride == (k + 1) * stride <= |rest1| == |rest3|
    requires v == |luma| + d && u == |luma| + |rest1| + d && s + 4 * width <= |src|
    requires row1(k) == Chroma(src, s, 1, width) && row3(k) == Chroma(src, s, 3, width)
    requires dest.Length == |luma| + |rest1| + |rest3| + |tail|
    requires ChromaDone(luma, row1, row3, width, stride, rest1, rest3, tail, dest[..], k)
    modifies dest
    ensures ChromaDone(luma, row1, row3, width, stride, rest1, rest3, tail, dest[..], k + 1)
  {
    hide *;
    ghost var now := dest[..];
    CopyChromaRow(dest, v, u, src, s, width);
    ghost var c1, c3, next := row1(k), row3(k), dest[..];
    assert next == now[..v] + c1 + now[v + width..u] + c3 + now[u + width..];
    ChromaNext(luma, row1, row3, width, stride, rest1, rest3, tail, now, next, k, d, v, u);
  }

  /** The chroma loop: v and u run through the two planes side by side. */
  method ChromaLoop(dest: array<bv8>, y: nat, src: seq<bv8>, g: Shape, ghost luma: seq<bv8>,
                    ghost rest1: seq<bv8>, ghost rest3: seq<bv8>, ghost tail: seq<bv8>)
    requires Fits(g, src) && |luma| == y && |rest1| == |rest3| == ChromaSize(g)
    requires dest[..] == luma + rest1 + rest3 + tail
    modifies dest
    ensures ChromaDone(luma, ChromaRow(g, src, 1), ChromaRow(g, src, 3), g.halfWidth, g.halfStride,
                       rest1, rest3, tail, dest[..], g.halfHeight)
  {
    ghost var row1, row3 := ChromaRow(g, src, 1), ChromaRow(g, src, 3);
    ChromaStarts(luma, row1, row3, g.halfWidth, g.halfStride, rest1, rest3, tail, dest[..]);
    ChromaAtStart(g, y);
    ChromaRowsFit(g);
    hide ChromaAt, ChromaDone, ChromaRow, ChromaSize, Rows;
    var paddingC := g.halfStride - g.halfWidth;
    var v: nat := y;
    var u: nat := v + g.Stride() * g.Height() / 4;
    var i, s: nat := g.Height(), 0;
    ghost var k: nat, d: nat := 0, 0;
    while i != 0
      invariant 0 <= k <= g.halfHeight && i == 2 * (g.halfHeight - k)
      invariant ChromaAt(g, y, k, d, v, u, s)
      invariant k * g.halfStride <= ChromaSize(g) && dest.Length == y + 2 * ChromaSize(g) + |tail|
      invariant ChromaDone(luma, row1, row3, g.halfWidth, g.halfStride, rest1, rest3, tail, dest[..], k)
    {
      ChromaAtNext(g, src, y, k, d, v, u, s);
      ChromaStep(dest, v, u, src, s, g.halfWidth, g.halfStride, row1, row3, k, d, luma, rest1, rest3, tail);
      s := s + 4 * g.halfWidth + 2 * g.Width();
      u := u + g.halfWidth + paddingC;
      v := v + g.halfWidth + paddingC;
      i := i - 2;
      k := k + 1;
      d := d + g.halfStride;
    }
  }

  /** The chroma phase. */
  method CopyChroma(dest: array<bv8>, y: nat, src: seq<bv8>, g: Shape, ghost luma: seq<bv8>,
                    ghost rest1: seq<bv8>, ghost rest3: seq<bv8>, ghost tail: seq<bv8>)
    requires Fits(g, src) && |luma| == y && |rest1| == |rest3| == ChromaSize(g)
    requires dest[..] == luma + rest1 + rest3 + tail
    modifies dest
    ensures g.halfHeight * g.halfStride == ChromaSize(g)
    ensures dest[..] == luma + Rows(ChromaRow(g, src, 1), g.halfWidth, g.halfStride, rest1, g.halfHeight)
                             + Rows(ChromaRow(g, src, 3), g.halfWidth, g.halfStride, rest3, g.halfHeight) + tail
  {
    ChromaRowsFit(g);
    hide Rows, ChromaRow, ChromaDone;
    ChromaLoop(dest, y, src, g, luma, rest1, rest3, tail);
    ChromaEnds(luma, ChromaRow(g, src, 1), ChromaRow(g, src, 3), g.halfWidth, g.halfStride,
               rest1, rest3, tail, dest[..], g.halfHeight);
  }

  lemma ChromaRowFits(g: Shape, src: seq<bv8>, k: nat, s: nat)
    requires Fits(g, src) && k < g.halfHeight && s == 2 * g.Width() * (2 * k)
    ensures s + 4 * g.halfWidth <= |src|
    ensures ChromaRow(g, src, 1)(k) == Chroma(src, s, 1, g.halfWidth)
    ensures ChromaRow(g, src, 3)(k) == Chroma(src, s, 3, g.halfWidth)
    ensures s + 4 * g.halfWidth + 2 * g.Width() == 2 * g.Width() * (2 * (k + 1))
  {
    SourceRow(g, src, 2 * k);
  }

  lemma RestUnchanged(y: seq<bv8>, before: seq<bv8>, now: seq<bv8>, n: nat, q: nat)
    requires |before| >= n + 2 * q && |y| == n && now == y + before[n..]
    ensures now == y + before[n..n + q] + before[n + q..n + 2 * q] + before[n + 2 * q..]
  {
  }

  /** What the two phases leave, put together: `y1`, `c1` and `c3` are the planes, `b1`, `b3` and `tail`
      what the buffer held in the chroma planes and behind. */
  lemma Assembled(g: Shape, src: seq<bv8>, before: seq<bv8>, now: seq<bv8>, y1: seq<bv8>, b1: seq<bv8>, b3: seq<bv8>,
                  tail: seq<bv8>, y: nat, q: nat)
    requires Fits(g, src) && y == LumaSize(g) && q == ChromaSize(g) && y + 2 * q <= |before|
    requires y1 == Rows(LumaRow(g, src), g.Width(), g.Stride(), before, g.Height())
    requires b1 == before[y..y + q] && b3 == before[y + q..y + 2 * q] && tail == before[y + 2 * q..]
    requires now == y1 + Rows(ChromaRow(g, src, 1), g.halfWidth, g.halfStride, b1, g.halfHeight)
                       + Rows(ChromaRow(g, src, 3), g.halfWidth, g.halfStride, b3, g.halfHeight) + tail
    ensures now == Converted(g, src, before)
  {
    hide Rows, LumaRow, ChromaRow;
  }

  method Yuv422iToYV12(dest: array<bv8>, src: seq<bv8>, g: Shape)
    requires Fits(g, src) && LumaSize(g) + 2 * ChromaSize(g) <= dest.Length
    modifies dest
    ensures dest[..] == Converted(g, src, old(dest[..]))
  {
    ghost var before, q := dest[..], ChromaSize(g);
    ChromaRowsFit(g);
    var d := CopyLuma(dest, src, g);
    ghost var between := dest[..];
    ghost var y1 := Rows(LumaRow(g, src), g.Width(), g.Stride(), before, g.Height());
    ghost var b1, b3, tail := before[d..d + q], before[d + q..d + 2 * q], before[d + 2 * q..];
    hide *;
    RestUnchanged(y1, before, between, d, q);
    CopyChroma(dest, d, src, g, y1, b1, b3, tail);
    Assembled(g, src, before, dest[..], y1, b1, b3, tail, d, q);
  }
}

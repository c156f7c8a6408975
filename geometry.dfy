/** Integer rectangles, the search-window offsets of the non-local-means and
    regression loops, the clipped per-offset rectangle and row-major pixel order.
    Everything the CPU device computes around its opaque filter kernels is
    integer arithmetic on these. */
module Geometry {

  function Max(a: int, b: int): int { if a < b then b else a }
  function Min(a: int, b: int): int { if a < b then a else b }

  /** An int4 used as two corners: the half-open rectangle [x, z) × [y, w). */
  datatype Rect = Rect(x: int, y: int, z: int, w: int)

  /** An int4 used as origin and extent: [x, x + width) × [y, y + height). */
  datatype Area = Area(x: int, y: int, width: int, height: int)

  datatype Pixel = Pixel(x: int, y: int)

  /** One offset of a search window. */
  datatype Offset = Offset(dx: int, dy: int)

  predicate Contains(r: Rect, x: int, y: int) {
    r.x <= x < r.z && r.y <= y < r.w
  }

  predicate InArea(a: Area, x: int, y: int) {
    a.x <= x < a.x + a.width && a.y <= y < a.y + a.height
  }

  /** (x, y) lies in the frame [0, width) × [0, height). */
  predicate InFrame(x: int, y: int, width: int, height: int) {
    0 <= x < width && 0 <= y < height
  }

  // ---------------------------------------------------------------------
  // Division with remainder

  /** Dividing q*n + m by n, with 0 <= m < n, gives back q and m. */
  lemma DivModOf(q: int, m: int, n: int)
    requires n > 0 && 0 <= m < n
    ensures (q * n + m) / n == q && (q * n + m) % n == m
  {
    var i := q * n + m;
    var d := q - i / n;
    assert d * n == i % n - m;
    if d >= 1 {
      assert d * n >= n by { MulAtLeast(d, n); }
    } else if d <= -1 {
      assert (-d) * n >= n by { MulAtLeast(-d, n); }
    }
  }

  lemma MulAtLeast(d: int, n: int)
    requires d >= 1 && n > 0
    ensures d * n >= n
  {
    assert d * n == (d - 1) * n + n;
  }

  /** An index below n*n has a quotient below n. */
  lemma QuotientBelow(i: int, n: int, rows: int)
    requires n > 0 && 0 <= i < n * rows
    ensures 0 <= i / n < rows
  {
  }

  // ---------------------------------------------------------------------
  // Padded row width

  /** align_up(v, 4): the row width of every filter buffer, rounded up to a
      multiple of 4 as the power-of-two mask (v + 3) & ~3 does. */
  function AlignUp4(v: int): (r: int)
    ensures r % 4 == 0
    ensures v <= r < v + 4
  {
    (v + 3) / 4 * 4
  }

  // ---------------------------------------------------------------------
  // Search window offsets

  /** Number of offsets in a (2r+1) × (2r+1) window. */
  function WindowSize(r: nat): nat { (2 * r + 1) * (2 * r + 1) }

  predicate InWindow(o: Offset, r: nat) {
    0 <= o.dx + r <= 2 * r && 0 <= o.dy + r <= 2 * r
  }

  /** Position of an offset in the loop order: dy outer, dx inner. */
  function OffsetIndex(o: Offset, r: nat): int {
    (o.dy + r) * (2 * r + 1) + (o.dx + r)
  }

  /** The offset visited at iteration i of the window loop:
      dy = i / (2r+1) - r and dx = i % (2r+1) - r (i is never negative, so
      C's truncating division agrees with Dafny's). */
  function OffsetAt(i: int, r: nat): (o: Offset)
    requires 0 <= i < WindowSize(r)
    ensures InWindow(o, r)
    ensures OffsetIndex(o, r) == i
  {
    QuotientBelow(i, 2 * r + 1, 2 * r + 1);
    Offset(i % (2 * r + 1) - r, i / (2 * r + 1) - r)
  }

  /** Every offset of the window is visited, at iteration OffsetIndex(o, r);
      with OffsetAt's own contract this makes the loop a bijection between
      [0, WindowSize(r)) and the window. */
  lemma OffsetIndexVisits(o: Offset, r: nat)
    requires InWindow(o, r)
    ensures 0 <= OffsetIndex(o, r) < WindowSize(r)
    ensures OffsetAt(OffsetIndex(o, r), r) == o
  {
    var n := 2 * r + 1;
    var i := OffsetIndex(o, r);
    DivModOf(o.dy + r, o.dx + r, n);
    assert i < n * n by {
      assert i <= (n - 1) * n + (n - 1);
      assert (n - 1) * n + (n - 1) == n * n - 1;
    }
  }

  /** Two iterations of the window loop never visit the same offset. */
  lemma OffsetAtInjective(i: int, j: int, r: nat)
    requires 0 <= i < WindowSize(r) && 0 <= j < WindowSize(r)
    requires OffsetAt(i, r) == OffsetAt(j, r)
    ensures i == j
  {
  }

  /** The zero offset (the pixel compared with itself) is part of every window. */
  lemma ZeroOffsetVisited(r: nat)
    ensures 0 <= r * (2 * r + 1) + r < WindowSize(r)
    ensures OffsetAt(r * (2 * r + 1) + r, r) == Offset(0, 0)
  {
    OffsetIndexVisits(Offset(0, 0), r);
  }

  /** The window offsets in loop order. */
  function WindowOffsets(r: nat): (os: seq<Offset>)
    ensures |os| == WindowSize(r)
    ensures forall i :: 0 <= i < |os| ==> InWindow(os[i], r) && OffsetIndex(os[i], r) == i
  {
    seq(WindowSize(r), i requires 0 <= i < WindowSize(r) => OffsetAt(i, r))
  }

  // ---------------------------------------------------------------------
  // The rectangle clipped for one offset

  /** Both (x, y) and its neighbour (x + dx, y + dy) lie in the frame. */
  predicate PairInFrame(o: Offset, x: int, y: int, width: int, height: int) {
    InFrame(x, y, width, height) && InFrame(x + o.dx, y + o.dy, width, height)
  }

  /** local_rect for offset o over a width × height image:
      {max(0,-dx), max(0,-dy), width - max(0,dx), height - max(0,dy)}.
      It holds exactly the pixels whose shifted neighbour is also inside. */
  function LocalRect(o: Offset, width: int, height: int): (lr: Rect)
    ensures forall x, y :: Contains(lr, x, y) <==> PairInFrame(o, x, y, width, height)
  {
    Rect(Max(0, -o.dx), Max(0, -o.dy), width - Max(0, o.dx), height - Max(0, o.dy))
  }

  /** Row-major index into a buffer padded to AlignUp4(width) per row stays
      below the buffer size AlignUp4(width) * height. */
  lemma PaddedIndexInBounds(x: int, y: int, width: int, height: int)
    requires InFrame(x, y, width, height)
    ensures 0 <= y * AlignUp4(width) + x < AlignUp4(width) * height
  {
    DigitBound(y, x, AlignUp4(width), height);
  }

  /** A pixel of the clipped rectangle and its shifted neighbour both index
      inside the padded buffer. */
  lemma LocalRectIndicesInBounds(o: Offset, x: int, y: int, width: int, height: int)
    requires Contains(LocalRect(o, width, height), x, y)
    ensures 0 <= y * AlignUp4(width) + x < AlignUp4(width) * height
    ensures 0 <= (y + o.dy) * AlignUp4(width) + (x + o.dx) < AlignUp4(width) * height
  {
    PaddedIndexInBounds(x, y, width, height);
    PaddedIndexInBounds(x + o.dx, y + o.dy, width, height);
  }

  // ---------------------------------------------------------------------
  // Row-major pixel order

  /** One row of pixels: exactly the pixels of row y from x0 up to (not
      including) x0 + width, left to right, so each of them once. */
  function Row(x0: int, y: int, width: nat): (ps: seq<Pixel>)
    ensures |ps| == width
    ensures forall p: Pixel :: p in ps <==> p.y == y && x0 <= p.x < x0 + width
    ensures forall i, j | 0 <= i < j < |ps| :: ps[i].x < ps[j].x
  {
    var ps := seq(width, i => Pixel(x0 + i, y));
    assert forall p: Pixel | p.y == y && x0 <= p.x < x0 + width :: ps[p.x - x0] == p;
    ps
  }

  /** The pixels of [x0, x0+width) × [y0, y0+rows) in the order of the nested
      `for y { for x { … } }` loops. */
  function RowMajor(x0: int, y0: int, width: nat, rows: nat): (ps: seq<Pixel>)
    ensures |ps| == width * rows
  {
    if rows == 0 then []
    else
      var ps := RowMajor(x0, y0, width, rows - 1) + Row(x0, y0 + rows - 1, width);
      assert |ps| == width * (rows - 1) + width;
      ps
  }

  /** The k-th pixel of the row-major order is (x0 + k % width, y0 + k / width):
      the order agrees with the storage index y*width + x. */
  lemma {:induction false} RowMajorAt(x0: int, y0: int, width: nat, rows: nat, k: int)
    requires 0 <= k < width * rows
    ensures RowMajor(x0, y0, width, rows)[k] == Pixel(x0 + k % width, y0 + k / width)
  {
    var before := width * (rows - 1);
    assert width * rows == before + width;
    if k < before {
      RowMajorAt(x0, y0, width, rows - 1, k);
    } else {
      DivModOf(rows - 1, k - before, width);
      assert k == (rows - 1) * width + (k - before);
    }
  }

  /** Every pixel of the area occurs in the row-major order, at index
      (y - y0) * width + (x - x0). */
  lemma RowMajorIndexOf(x0: int, y0: int, width: nat, rows: nat, x: int, y: int)
    requires InFrame(x - x0, y - y0, width, rows)
    ensures 0 <= (y - y0) * width + (x - x0) < width * rows
    ensures RowMajor(x0, y0, width, rows)[(y - y0) * width + (x - x0)] == Pixel(x, y)
  {
    var k := (y - y0) * width + (x - x0);
    DigitBound(y - y0, x - x0, width, rows);
    DivModOf(y - y0, x - x0, width);
    RowMajorAt(x0, y0, width, rows, k);
  }

  /** A digit q < bound followed by a digit m < n is below bound * n. */
  lemma DigitBound(q: int, m: int, n: int, bound: int)
    requires n > 0 && 0 <= m < n && 0 <= q < bound
    ensures 0 <= q * n + m < bound * n
  {
    assert q * n <= (bound - 1) * n by {
      assert (bound - 1) * n - q * n == (bound - 1 - q) * n;
    }
  }

  /** The row-major order holds exactly the pixels of the area. */
  lemma RowMajorMembers(x0: int, y0: int, width: nat, rows: nat, x: int, y: int)
    ensures Pixel(x, y) in RowMajor(x0, y0, width, rows) <==> InFrame(x - x0, y - y0, width, rows)
  {
    var ps := RowMajor(x0, y0, width, rows);
    if InFrame(x - x0, y - y0, width, rows) {
      RowMajorIndexOf(x0, y0, width, rows, x, y);
    }
    if Pixel(x, y) in ps {
      var k :| 0 <= k < |ps| && ps[k] == Pixel(x, y);
      RowMajorAt(x0, y0, width, rows, k);
      QuotientBelow(k, width, rows);
    }
  }

  /** No pixel occurs twice in the row-major order. */
  lemma RowMajorDistinct(x0: int, y0: int, width: nat, rows: nat, i: int, j: int)
    requires 0 <= i < j < width * rows
    ensures RowMajor(x0, y0, width, rows)[i] != RowMajor(x0, y0, width, rows)[j]
  {
    RowMajorAt(x0, y0, width, rows, i);
    RowMajorAt(x0, y0, width, rows, j);
    if i / width == j / width && i % width == j % width {
      SameDigits(i, j, width);
    }
  }

  /** An index is determined by its quotient and remainder. */
  lemma SameDigits(i: int, j: int, n: int)
    requires n > 0 && i / n == j / n && i % n == j % n
    ensures i == j
  {
    assert i == n * (i / n) + i % n;
    assert j == n * (j / n) + j % n;
  }

  /** The pixels of an area, in row-major order. */
  function AreaPixels(a: Area): seq<Pixel>
    requires a.width >= 0 && a.height >= 0
  {
    RowMajor(a.x, a.y, a.width, a.height)
  }
}

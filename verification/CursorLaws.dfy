/** What the cursor measures promise: they ignore transparent padding, a
    mirror-symmetric drawing measures 1, and a mirrored drawing gets the mirrored cursor. */
module CursorLaws {
  import opened CursorGrid
  import opened CursorShape

  // --------------------------------------------------- counting samples

  lemma {:induction false} RowHitsMatch(a: Bitmap, b: Bitmap, xs: seq<int>, ys: seq<int>, p: int, q: int)
    requires |xs| == |ys|
    requires forall i :: 0 <= i < |xs| ==> (Opaque(a, xs[i], p) <==> Opaque(b, ys[i], q))
    ensures RowHits(a, xs, p) == RowHits(b, ys, q)
  {
    if xs != [] {
      RowHitsMatch(a, b, xs[..|xs| - 1], ys[..|ys| - 1], p, q);
    }
  }

  lemma {:induction false} HitsMatch(a: Bitmap, b: Bitmap, xs: seq<int>, us: seq<int>, ys: seq<int>, vs: seq<int>)
    requires |xs| == |us| && |ys| == |vs|
    requires forall i, j :: 0 <= i < |xs| && 0 <= j < |ys| ==> (Opaque(a, xs[i], ys[j]) <==> Opaque(b, us[i], vs[j]))
    ensures Hits(a, xs, ys) == Hits(b, us, vs)
  {
    if ys != [] {
      HitsMatch(a, b, xs, us, ys[..|ys| - 1], vs[..|vs| - 1]);
      RowHitsMatch(a, b, xs, us, ys[|ys| - 1], vs[|vs| - 1]);
    }
  }

  function Reversed(xs: seq<int>): (r: seq<int>)
    ensures |r| == |xs| && forall i :: 0 <= i < |xs| ==> r[i] == xs[|xs| - 1 - i]
  {
    if xs == [] then [] else [xs[|xs| - 1]] + Reversed(xs[..|xs| - 1])
  }

  lemma {:induction false} RowHitsFirst(b: Bitmap, xs: seq<int>, py: int)
    requires xs != []
    ensures RowHits(b, xs, py) == Hit(b, xs[0], py) + RowHits(b, xs[1..], py)
  {
    if |xs| > 1 {
      RowHitsFirst(b, xs[..|xs| - 1], py);
      assert xs[..|xs| - 1][1..] == xs[1..][..|xs| - 2];
    }
  }

  lemma {:induction false} RowHitsReversed(b: Bitmap, xs: seq<int>, py: int)
    ensures RowHits(b, Reversed(xs), py) == RowHits(b, xs, py)
  {
    if xs != [] {
      RowHitsFirst(b, Reversed(xs), py);
      RowHitsReversed(b, xs[..|xs| - 1], py);
    }
  }

  lemma {:induction false} HitsColumnsReversed(b: Bitmap, xs: seq<int>, ys: seq<int>)
    ensures Hits(b, Reversed(xs), ys) == Hits(b, xs, ys)
  {
    if ys != [] {
      HitsColumnsReversed(b, xs, ys[..|ys| - 1]);
      RowHitsReversed(b, xs, ys[|ys| - 1]);
    }
  }

  lemma {:induction false} HitsFirst(b: Bitmap, xs: seq<int>, ys: seq<int>)
    requires ys != []
    ensures Hits(b, xs, ys) == RowHits(b, xs, ys[0]) + Hits(b, xs, ys[1..])
  {
    if |ys| > 1 {
      HitsFirst(b, xs, ys[..|ys| - 1]);
      assert ys[..|ys| - 1][1..] == ys[1..][..|ys| - 2];
    }
  }

  lemma {:induction false} HitsLinesReversed(b: Bitmap, xs: seq<int>, ys: seq<int>)
    ensures Hits(b, xs, Reversed(ys)) == Hits(b, xs, ys)
  {
    if ys != [] {
      HitsFirst(b, xs, Reversed(ys));
      HitsLinesReversed(b, xs, ys[..|ys| - 1]);
    }
  }

  // --------------------------------------------- where the samples fall

  function Pow2(k: nat): nat {
    if k == 0 then 1 else 2 * Pow2(k - 1)
  }

  /** An odd factor cannot help a power of two divide a product. */
  lemma {:induction false} OddFactor(m: int, n: int, t: int, k: nat) returns (s: int)
    requires m % 2 == 1 && m * n == Pow2(k) * t
    ensures n == Pow2(k) * s
    decreases k
  {
    if k == 0 {
      s := n;
    } else {
      var q := Pow2(k - 1);
      assert m * n == 2 * (q * t);
      OddProduct(m, n);
      var h := n / 2;
      assert n == 2 * h;
      assert m * n == 2 * (m * h);
      s := OddFactor(m, h, t, k - 1);
      assert n == 2 * (q * s) == Pow2(k) * s;
    }
  }

  lemma OddProduct(m: int, n: int)
    requires m % 2 == 1 && (m * n) % 2 == 0
    ensures n % 2 == 0
  {
    if n % 2 == 1 {
      OddTimesOdd(m, n);
    }
  }

  lemma OddTimesOdd(m: int, n: int)
    requires m % 2 == 1 && n % 2 == 1
    ensures (m * n) % 2 == 1
  {
    var a, b := m / 2, n / 2;
    assert m * n == 2 * (2 * a * b + a + b) + 1;
  }

  lemma OnlyMultiples(i: int, n: int)
    requires ((2 * i + 1) * n) % 128 == 0
    ensures n % 128 == 0
  {
    var t := DividesOut((2 * i + 1) * n);
    assert Pow2(7) == 128;
    var s := OddFactor(2 * i + 1, n, t, 7);
  }

  lemma DividesOut(a: int) returns (t: int)
    requires a % 128 == 0
    ensures a == 128 * t
  {
    t := a / 128;
  }

  /** Samples i and 63 - i fall on mirrored pixels, because none falls on a
      boundary between pixels unless 128 divides the side. */
  lemma SampleReflects(i: int, n: int)
    requires 0 <= i < 64 && 0 < n && n % 128 != 0
    ensures Sample(63 - i, n) == n - 1 - Sample(i, n)
  {
    var a := (2 * i + 1) * n;
    var q, r := a / 128, a % 128;
    if r == 0 {
      OnlyMultiples(i, n);
    }
    assert (2 * (63 - i) + 1) * n == 128 * n - a;
    assert 128 * n - a == 128 * (n - 1 - q) + (128 - r);
  }

  lemma CoordsReflect(min: int, max: int, k: int)
    requires min <= max && (max - min + 1) % 128 != 0
    ensures forall i :: 0 <= i < 64 ==> Coords(k - max, k - min)[63 - i] == k - Coords(min, max)[i]
  {
    forall i | 0 <= i < 64
      ensures Coords(k - max, k - min)[63 - i] == k - Coords(min, max)[i]
    {
      SampleReflects(i, max - min + 1);
    }
  }

  /** us, read backwards, is xs reflected about k / 2. */
  ghost predicate Reflected(xs: seq<int>, us: seq<int>, k: int) {
    |us| == |xs| && forall i :: 0 <= i < |xs| ==> Reversed(us)[i] == k - xs[i]
  }

  /** The samples of cell 15 - g of the reflected side, read backwards, are the reflected samples of cell g. */
  lemma FourReflects(min: int, max: int, k: int, g: int)
    requires min <= max && (max - min + 1) % 128 != 0 && 0 <= g < 16
    ensures Reflected(Four(Coords(min, max), g), Four(Coords(k - max, k - min), 15 - g), k)
  {
    CoordsReflect(min, max, k);
    forall i | 0 <= i < 4
      ensures Reversed(Four(Coords(k - max, k - min), 15 - g))[i] == k - Four(Coords(min, max), g)[i]
    {
      assert Coords(k - max, k - min)[63 - (4 * g + i)] == k - Coords(min, max)[4 * g + i];
    }
  }

  // -------------------------------------------------- mirrored drawings

  /** b is a seen in a vertical mirror: column x of a is column k - x of b. */
  ghost predicate MirroredBy(a: Bitmap, b: Bitmap, k: int) {
    forall x, y, z :: x + z == k ==> (Opaque(a, x, y) <==> Opaque(b, z, y))
  }

  function MirrorBox(c: Caixa, k: int): Caixa {
    Caixa(k - c.maxX, c.minY, k - c.minX, c.maxY)
  }

  /** Samples at mirrored columns, taken in the opposite order. */
  lemma HitsMirrored(a: Bitmap, b: Bitmap, k: int, xs: seq<int>, us: seq<int>, ys: seq<int>)
    requires MirroredBy(a, b, k) && Reflected(xs, us, k)
    ensures Hits(b, us, ys) == Hits(a, xs, ys)
  {
    var rs := Reversed(us);
    forall i, j | 0 <= i < |xs| && 0 <= j < |ys|
      ensures Opaque(a, xs[i], ys[j]) <==> Opaque(b, rs[i], ys[j])
    {
      assert rs[i] == k - xs[i];
    }
    HitsMatch(a, b, xs, rs, ys, ys);
    HitsColumnsReversed(b, us, ys);
  }

  /** How many of a cell's sixteen samples are opaque. */
  function CellHits(b: Bitmap, c: Caixa, gx: int, gy: int): int
    requires c.minX <= c.maxX && c.minY <= c.maxY && 0 <= gx < 16 && 0 <= gy < 16
  {
    Hits(b, Four(Coords(c.minX, c.maxX), gx), Four(Coords(c.minY, c.maxY), gy))
  }

  lemma CellIs(b: Bitmap, c: Caixa, gx: int, gy: int)
    requires c.minX <= c.maxX && c.minY <= c.maxY && 0 <= gx < 16 && 0 <= gy < 16
    ensures Cell(GridOf(b, c), gx, gy) == CellHits(b, c, gx, gy) as real / 16.0
  {
  }

  lemma HitsOfMirroredCell(a: Bitmap, b: Bitmap, k: int, c: Caixa, gx: int, gy: int)
    requires MirroredBy(a, b, k) && c.minX <= c.maxX && c.minY <= c.maxY && c.Bw() % 128 != 0
    requires 0 <= gx < 16 && 0 <= gy < 16
    ensures CellHits(b, MirrorBox(c, k), 15 - gx, gy) == CellHits(a, c, gx, gy)
  {
    var d := MirrorBox(c, k);
    FourReflects(c.minX, c.maxX, k, gx);
    HitsMirrored(a, b, k, Four(Coords(c.minX, c.maxX), gx), Four(Coords(d.minX, d.maxX), 15 - gx),
                 Four(Coords(c.minY, c.maxY), gy));
  }

  lemma CellMirrored(a: Bitmap, b: Bitmap, k: int, c: Caixa, gx: int, gy: int)
    requires MirroredBy(a, b, k) && c.minX <= c.maxX && c.minY <= c.maxY && c.Bw() % 128 != 0
    requires 0 <= gx < 16 && 0 <= gy < 16
    ensures Cell(GridOf(b, MirrorBox(c, k)), 15 - gx, gy) == Cell(GridOf(a, c), gx, gy)
  {
    HitsOfMirroredCell(a, b, k, c, gx, gy);
    CellIs(a, c, gx, gy);
    CellIs(b, MirrorBox(c, k), 15 - gx, gy);
  }

  /** The grid of a mirrored drawing is the mirrored grid. */
  lemma GridMirrored(a: Bitmap, b: Bitmap, k: int, c: Caixa)
    requires MirroredBy(a, b, k) && c.minX <= c.maxX && c.minY <= c.maxY && c.Bw() % 128 != 0
    ensures GridOf(b, MirrorBox(c, k)) == Mirror(GridOf(a, c))
  {
    var g, m := GridOf(b, MirrorBox(c, k)), Mirror(GridOf(a, c));
    forall x, y | 0 <= x < 16 && 0 <= y < 16
      ensures Cell(g, x, y) == Cell(m, x, y)
    {
      CellMirrored(a, b, k, c, 15 - x, y);
    }
    SameCells(g, m);
  }

  /** The drawing is its own mirror image inside its box. */
  ghost predicate LeftRight(b: Bitmap, c: Caixa) {
    MirroredBy(b, b, c.minX + c.maxX)
  }

  ghost predicate TopBottom(b: Bitmap, c: Caixa) {
    forall x, y, z :: y + z == c.minY + c.maxY ==> (Opaque(b, x, y) <==> Opaque(b, x, z))
  }

  /** A left-right symmetric drawing measures simH exactly 1 when 128 does not divide its width. */
  lemma LeftRightMeasuresOne(b: Bitmap, c: Caixa)
    requires Bounds(b, c) && LeftRight(b, c) && c.Bw() % 128 != 0
    ensures MeasuresOne(b, c, SimH)
  {
    BoundsInside(b, c);
    GridMirrored(b, b, c.minX + c.maxX, c);
    assert MirrorBox(c, c.minX + c.maxX) == c;
    MirrorFixed(GridOf(b, c));
    SimilarityRange(GridOf(b, c), SimH);
  }

  lemma MirrorFixed(g: Grade)
    requires Mirror(g) == g
    ensures Symmetric(g, SimH)
  {
    forall x, y | 0 <= x < |g| && 0 <= y < |g|
      ensures Cell(g, x, y) == Partner(g, SimH, x, y)
    {
      assert Cell(Mirror(g), x, y) == Cell(g, |g| - 1 - x, y);
    }
  }

  lemma CellFlipped(b: Bitmap, c: Caixa, x: int, y: int)
    requires c.minX <= c.maxX && c.minY <= c.maxY && TopBottom(b, c) && c.Bh() % 128 != 0 && 0 <= x < 16 && 0 <= y < 16
    ensures Cell(GridOf(b, c), x, y) == Cell(GridOf(b, c), x, 15 - y)
  {
    var k := c.minY + c.maxY;
    var xs, ys := Four(Coords(c.minX, c.maxX), x), Four(Coords(c.minY, c.maxY), y);
    var vs := Four(Coords(c.minY, c.maxY), 15 - y);
    FourReflects(c.minY, c.maxY, k, y);
    assert k - c.maxY == c.minY && k - c.minY == c.maxY;
    HitsFlipped(b, c, xs, ys, vs);
  }

  lemma HitsFlipped(b: Bitmap, c: Caixa, xs: seq<int>, ys: seq<int>, vs: seq<int>)
    requires TopBottom(b, c) && |ys| == |vs|
    requires forall j :: 0 <= j < |ys| ==> Reversed(vs)[j] == c.minY + c.maxY - ys[j]
    ensures Hits(b, xs, vs) == Hits(b, xs, ys)
  {
    var rs := Reversed(vs);
    forall i, j | 0 <= i < |xs| && 0 <= j < |ys|
      ensures Opaque(b, xs[i], ys[j]) <==> Opaque(b, xs[i], rs[j])
    {
      assert rs[j] == c.minY + c.maxY - ys[j];
    }
    HitsMatch(b, b, xs, xs, ys, rs);
    HitsLinesReversed(b, xs, vs);
  }

  /** Likewise top to bottom, simV and the height. */
  lemma TopBottomMeasuresOne(b: Bitmap, c: Caixa)
    requires Bounds(b, c) && TopBottom(b, c) && c.Bh() % 128 != 0
    ensures MeasuresOne(b, c, SimV)
  {
    BoundsInside(b, c);
    var g := GridOf(b, c);
    forall x, y | 0 <= x < |g| && 0 <= y < |g|
      ensures Cell(g, x, y) == Partner(g, SimV, x, y)
    {
      CellFlipped(b, c, x, y);
    }
    SimilarityRange(g, SimV);
  }

  /** One line of 128 m pixels, opaque at both ends and at 127 m and its mirror image. */
  function Comb(m: nat): Bitmap
    requires 0 < m
  {
    Bitmap(128 * m, 1, seq(128 * m, i => if i == 0 || i == m - 1 || i == 127 * m || i == 128 * m - 1 then 255 else 0))
  }

  lemma CombOpaque(m: nat, x: int, y: int)
    requires 0 < m
    ensures Opaque(Comb(m), x, y) <==> y == 0 && (x == 0 || x == m - 1 || x == 127 * m || x == 128 * m - 1)
  {
  }

  /** When 128 divides the width a symmetric drawing can measure less than 1:
      the last sample is on an opaque pixel and the first samples are not. */
  lemma CombMeasuresLess(m: nat)
    requires 0 < m
    ensures var b, c := Comb(m), Caixa(0, 0, 128 * m - 1, 0);
            Bounds(b, c) && LeftRight(b, c) && c.Bw() == 128 * m && Semelhanca(GridOf(b, c), SimH) < 1.0
  {
    var g := GridOf(Comb(m), Caixa(0, 0, 128 * m - 1, 0));
    CombBounds(m);
    CombLeftRight(m);
    CombEnds(m);
    assert Cell(g, 0, 0) != Partner(g, SimH, 0, 0);
    SimilarityRange(g, SimH);
  }

  lemma CombLeftRight(m: nat)
    requires 0 < m
    ensures LeftRight(Comb(m), Caixa(0, 0, 128 * m - 1, 0))
  {
    forall x, y, z | x + z == 128 * m - 1
      ensures Opaque(Comb(m), x, y) <==> Opaque(Comb(m), z, y)
    {
      CombOpaque(m, x, y);
      CombOpaque(m, z, y);
    }
  }

  lemma CombBounds(m: nat)
    requires 0 < m
    ensures Bounds(Comb(m), Caixa(0, 0, 128 * m - 1, 0))
  {
    CombOpaque(m, 0, 0);
    CombOpaque(m, 128 * m - 1, 0);
    forall x, y | Opaque(Comb(m), x, y)
      ensures 0 <= x <= 128 * m - 1 && y == 0
    {
    }
  }

  lemma CombSamples(m: nat, i: int)
    requires 0 < m && 0 <= i < 64
    ensures Coords(0, 128 * m - 1)[i] == (2 * i + 1) * m && Coords(0, 0)[i] == 0
  {
    assert (2 * i + 1) * (128 * m) == 128 * ((2 * i + 1) * m);
  }

  lemma CombHole(m: nat, i: int, y: int)
    requires 0 < m && 0 <= i < 4
    ensures !Opaque(Comb(m), (2 * i + 1) * m, y)
  {
    CombOpaque(m, (2 * i + 1) * m, y);
    assert i == 0 || i == 1 || i == 2 || i == 3;
  }

  lemma CombFirst(m: nat)
    requires 0 < m
    ensures Hits(Comb(m), Four(Coords(0, 128 * m - 1), 0), Four(Coords(0, 0), 0)) == 0
  {
    var first, ys := Four(Coords(0, 128 * m - 1), 0), Four(Coords(0, 0), 0);
    forall i, j | 0 <= i < 4 && 0 <= j < 4
      ensures !Opaque(Comb(m), first[i], ys[j])
    {
      CombSamples(m, i);
      assert first[i] == (2 * i + 1) * m;
      CombHole(m, i, ys[j]);
    }
    NoHits(Comb(m), first, ys);
  }

  lemma CombLast(m: nat)
    requires 0 < m
    ensures Hits(Comb(m), Four(Coords(0, 128 * m - 1), 15), Four(Coords(0, 0), 0)) > 0
  {
    var last, ys := Four(Coords(0, 128 * m - 1), 15), Four(Coords(0, 0), 0);
    CombSamples(m, 63);
    CombSamples(m, 3);
    assert last[3] == 127 * m && ys[3] == 0;
    CombOpaque(m, last[3], ys[3]);
  }

  lemma CombEnds(m: nat)
    requires 0 < m
    ensures var g := GridOf(Comb(m), Caixa(0, 0, 128 * m - 1, 0)); Cell(g, 0, 0) == 0.0 && 0.0 < Cell(g, 15, 0)
  {
    CombFirst(m);
    CombLast(m);
  }

  lemma {:induction false} NoHits(b: Bitmap, xs: seq<int>, ys: seq<int>)
    requires forall i, j :: 0 <= i < |xs| && 0 <= j < |ys| ==> !Opaque(b, xs[i], ys[j])
    ensures Hits(b, xs, ys) == 0
  {
    if ys != [] {
      NoHits(b, xs, ys[..|ys| - 1]);
      NoRowHits(b, xs, ys[|ys| - 1]);
    }
  }

  lemma {:induction false} NoRowHits(b: Bitmap, xs: seq<int>, py: int)
    requires forall i :: 0 <= i < |xs| ==> !Opaque(b, xs[i], py)
    ensures RowHits(b, xs, py) == 0
  {
    if xs != [] {
      NoRowHits(b, xs[..|xs| - 1], py);
    }
  }

  ghost predicate MeasuresOne(b: Bitmap, c: Caixa, s: Simetria) {
    c.minX <= c.maxX && c.minY <= c.maxY && Semelhanca(GridOf(b, c), s) == 1.0
  }

  /** Every left-right symmetric drawing of a width measures 1 exactly when 128 does not divide the width. */
  lemma SymmetryIsSeen(bw: nat)
    requires 0 < bw
    ensures bw % 128 != 0 <==>
            forall b: Bitmap, c: Caixa :: Bounds(b, c) && LeftRight(b, c) && c.Bw() == bw ==> MeasuresOne(b, c, SimH)
  {
    if bw % 128 != 0 {
      forall b: Bitmap, c: Caixa | Bounds(b, c) && LeftRight(b, c) && c.Bw() == bw
        ensures MeasuresOne(b, c, SimH)
      {
        LeftRightMeasuresOne(b, c);
      }
    } else {
      CombFails(bw / 128);
    }
  }

  lemma CombFails(m: nat)
    requires 0 < m
    ensures exists b: Bitmap, c: Caixa ::
              Bounds(b, c) && LeftRight(b, c) && c.Bw() == 128 * m && !MeasuresOne(b, c, SimH)
  {
    CombMeasuresLess(m);
    var b, c := Comb(m), Caixa(0, 0, 128 * m - 1, 0);
    assert Bounds(b, c) && LeftRight(b, c) && c.Bw() == 128 * m && !MeasuresOne(b, c, SimH);
  }

  // ------------------------------------------- the comb on its side: heights

  /** The same 128 m pixels, one to a line. */
  function Ladder(m: nat): Bitmap
    requires 0 < m
  {
    Bitmap(1, 128 * m, Comb(m).mask)
  }

  lemma LadderOpaque(m: nat, x: int, y: int)
    requires 0 < m
    ensures Opaque(Ladder(m), x, y) <==> Opaque(Comb(m), y, x)
  {
  }

  lemma LadderBox(m: nat)
    requires 0 < m
    ensures Bounds(Ladder(m), Caixa(0, 0, 0, 128 * m - 1)) && TopBottom(Ladder(m), Caixa(0, 0, 0, 128 * m - 1))
  {
    LadderOpaque(m, 0, 0);
    LadderOpaque(m, 0, 128 * m - 1);
    forall x, y | Opaque(Ladder(m), x, y)
      ensures x == 0 && 0 <= y <= 128 * m - 1
    {
    }
    forall x, y, z | y + z == 128 * m - 1
      ensures Opaque(Ladder(m), x, y) <==> Opaque(Ladder(m), x, z)
    {
      LadderOpaque(m, x, y);
      LadderOpaque(m, x, z);
      CombOpaque(m, y, x);
      CombOpaque(m, z, x);
    }
  }

  lemma LadderFirst(m: nat)
    requires 0 < m
    ensures Hits(Ladder(m), Four(Coords(0, 0), 0), Four(Coords(0, 128 * m - 1), 0)) == 0
  {
    var xs, first := Four(Coords(0, 0), 0), Four(Coords(0, 128 * m - 1), 0);
    forall i, j | 0 <= i < 4 && 0 <= j < 4
      ensures !Opaque(Ladder(m), xs[i], first[j])
    {
      CombSamples(m, j);
      assert first[j] == (2 * j + 1) * m;
      CombHole(m, j, xs[i]);
      LadderOpaque(m, xs[i], first[j]);
    }
    NoHits(Ladder(m), xs, first);
  }

  lemma LadderLast(m: nat)
    requires 0 < m
    ensures Hits(Ladder(m), Four(Coords(0, 0), 0), Four(Coords(0, 128 * m - 1), 15)) > 0
  {
    var xs, last := Four(Coords(0, 0), 0), Four(Coords(0, 128 * m - 1), 15);
    CombSamples(m, 63);
    CombSamples(m, 3);
    assert last[3] == 127 * m && xs[3] == 0;
    CombOpaque(m, last[3], xs[3]);
    LadderOpaque(m, xs[3], last[3]);
  }

  /** When 128 divides the height a symmetric drawing can measure less than 1. */
  lemma LadderMeasuresLess(m: nat)
    requires 0 < m
    ensures var b, c := Ladder(m), Caixa(0, 0, 0, 128 * m - 1);
            Bounds(b, c) && TopBottom(b, c) && c.Bh() == 128 * m && Semelhanca(GridOf(b, c), SimV) < 1.0
  {
    var c := Caixa(0, 0, 0, 128 * m - 1);
    var g := GridOf(Ladder(m), c);
    LadderBox(m);
    LadderFirst(m);
    LadderLast(m);
    CellIs(Ladder(m), c, 0, 0);
    CellIs(Ladder(m), c, 0, 15);
    assert Cell(g, 0, 0) != Partner(g, SimV, 0, 0);
    SimilarityRange(g, SimV);
  }

  lemma LadderFails(m: nat)
    requires 0 < m
    ensures exists b: Bitmap, c: Caixa ::
              Bounds(b, c) && TopBottom(b, c) && c.Bh() == 128 * m && !MeasuresOne(b, c, SimV)
  {
    LadderMeasuresLess(m);
    var b, c := Ladder(m), Caixa(0, 0, 0, 128 * m - 1);
    assert Bounds(b, c) && TopBottom(b, c) && c.Bh() == 128 * m && !MeasuresOne(b, c, SimV);
  }

  /** Every top-bottom symmetric drawing of a height measures 1 exactly when 128 does not divide the height. */
  lemma UprightSymmetryIsSeen(bh: nat)
    requires 0 < bh
    ensures bh % 128 != 0 <==>
            forall b: Bitmap, c: Caixa :: Bounds(b, c) && TopBottom(b, c) && c.Bh() == bh ==> MeasuresOne(b, c, SimV)
  {
    if bh % 128 != 0 {
      forall b: Bitmap, c: Caixa | Bounds(b, c) && TopBottom(b, c) && c.Bh() == bh
        ensures MeasuresOne(b, c, SimV)
      {
        TopBottomMeasuresOne(b, c);
      }
    } else {
      LadderFails(bh / 128);
    }
  }

  // ---------------------------------------------------------------- padding

  /** p is b with transparent margins: l columns on the left, t lines on top, and any others. */
  ghost predicate Padded(b: Bitmap, p: Bitmap, l: int, t: int) {
    Usable(b) && Usable(p) && 0 <= l && 0 <= t && b.w + l <= p.w && b.h + t <= p.h
    && forall x, y, u, v :: u == x + l && v == y + t ==> (Opaque(b, x, y) <==> Opaque(p, u, v))
  }

  function MoveBox(c: Caixa, l: int, t: int): Caixa {
    Caixa(c.minX + l, c.minY + t, c.maxX + l, c.maxY + t)
  }

  lemma BoundsMove(b: Bitmap, p: Bitmap, l: int, t: int, c: Caixa)
    requires Padded(b, p, l, t) && Bounds(b, c)
    ensures Bounds(p, MoveBox(c, l, t))
  {
    var d := MoveBox(c, l, t);
    var y0 :| Opaque(b, c.minX, y0);
    var y1 :| Opaque(b, c.maxX, y1);
    var x0 :| Opaque(b, x0, c.minY);
    var x1 :| Opaque(b, x1, c.maxY);
    assert Opaque(p, d.minX, y0 + t) && Opaque(p, d.maxX, y1 + t);
    assert Opaque(p, x0 + l, d.minY) && Opaque(p, x1 + l, d.maxY);
    forall u, v | Opaque(p, u, v)
      ensures d.minX <= u <= d.maxX && d.minY <= v <= d.maxY
    {
      assert Opaque(b, u - l, v - t);
    }
  }

  ghost predicate Shifted(xs: seq<int>, us: seq<int>, l: int) {
    |us| == |xs| && forall i :: 0 <= i < |xs| ==> us[i] == xs[i] + l
  }

  lemma FourMoves(min: int, max: int, l: int, g: int)
    requires min <= max && 0 <= g < 16
    ensures Shifted(Four(Coords(min, max), g), Four(Coords(min + l, max + l), g), l)
  {
  }

  lemma CellMoves(b: Bitmap, p: Bitmap, l: int, t: int, c: Caixa, x: int, y: int)
    requires Padded(b, p, l, t) && c.minX <= c.maxX && c.minY <= c.maxY && 0 <= x < 16 && 0 <= y < 16
    ensures Cell(GridOf(p, MoveBox(c, l, t)), x, y) == Cell(GridOf(b, c), x, y)
  {
    var d := MoveBox(c, l, t);
    FourMoves(c.minX, c.maxX, l, x);
    FourMoves(c.minY, c.maxY, t, y);
    HitsMove(b, p, l, t, Four(Coords(c.minX, c.maxX), x), Four(Coords(d.minX, d.maxX), x),
             Four(Coords(c.minY, c.maxY), y), Four(Coords(d.minY, d.maxY), y));
    CellIs(b, c, x, y);
    CellIs(p, d, x, y);
  }

  lemma GridMoves(b: Bitmap, p: Bitmap, l: int, t: int, c: Caixa)
    requires Padded(b, p, l, t) && c.minX <= c.maxX && c.minY <= c.maxY
    ensures GridOf(p, MoveBox(c, l, t)) == GridOf(b, c)
  {
    var g, h := GridOf(b, c), GridOf(p, MoveBox(c, l, t));
    forall x, y | 0 <= x < 16 && 0 <= y < 16
      ensures Cell(g, x, y) == Cell(h, x, y)
    {
      CellMoves(b, p, l, t, c, x, y);
    }
    SameCells(g, h);
  }

  lemma SameCells(g: Grade, h: Grade)
    requires |g| == |h| && forall x, y :: 0 <= x < |g| && 0 <= y < |g| ==> Cell(g, x, y) == Cell(h, x, y)
    ensures g == h
  {
    forall y | 0 <= y < |g|
      ensures g[y] == h[y]
    {
      assert forall x :: 0 <= x < |g| ==> Cell(g, x, y) == Cell(h, x, y);
      assert forall x :: 0 <= x < |g| ==> g[y][x] == Cell(g, x, y) && h[y][x] == Cell(h, x, y);
    }
  }

  lemma HitsMove(b: Bitmap, p: Bitmap, l: int, t: int, xs: seq<int>, us: seq<int>, ys: seq<int>, vs: seq<int>)
    requires Padded(b, p, l, t) && Shifted(xs, us, l) && Shifted(ys, vs, t)
    ensures Hits(p, us, vs) == Hits(b, xs, ys)
  {
    HitsMatch(b, p, xs, us, ys, vs);
  }

  lemma {:induction false} FirstLineMoves(b: Bitmap, p: Bitmap, l: int, t: int, row: int, x0: int, n: nat)
    requires Padded(b, p, l, t)
    ensures Count(p, row + t, x0 + l, n) == Count(b, row, x0, n)
    ensures Reach(p, row + t, x0 + l, n) == Reach(b, row, x0, n)
  {
    if n > 0 {
      FirstLineMoves(b, p, l, t, row, x0, n - 1);
      assert Opaque(p, x0 + l + n - 1, row + t) <==> Opaque(b, x0 + n - 1, row);
    }
  }

  type Pixel = (int, int)

  /** there and back match the pixels of a and b one to one. */
  ghost predicate Matched(a: set<Pixel>, b: set<Pixel>, there: Pixel -> Pixel, back: Pixel -> Pixel) {
    (forall p :: p in a ==> there(p) in b && back(there(p)) == p)
    && (forall q :: q in b ==> back(q) in a && there(back(q)) == q)
  }

  lemma {:induction false} SameSize(a: set<Pixel>, b: set<Pixel>, there: Pixel -> Pixel, back: Pixel -> Pixel)
    requires Matched(a, b, there, back)
    ensures |a| == |b|
    decreases |a|
  {
    if a == {} {
      assert forall q :: q in b ==> back(q) in a;
      assert b == {};
    } else {
      var p :| p in a;
      SameSize(a - {p}, b - {there(p)}, there, back);
    }
  }

  function ShiftOf(q: Pixel, l: int, t: int): Pixel {
    (q.0 + l, q.1 + t)
  }

  function ShiftBy(l: int, t: int): Pixel -> Pixel {
    (q: Pixel) => ShiftOf(q, l, t)
  }

  function Moved(a: set<Pixel>, l: int, t: int): set<Pixel> {
    set q | q in a :: ShiftOf(q, l, t)
  }

  lemma ShiftMatches(a: set<Pixel>, l: int, t: int)
    ensures Matched(a, Moved(a, l, t), ShiftBy(l, t), ShiftBy(-l, -t))
  {
    forall p: Pixel
      ensures ShiftBy(l, t)(p) == ShiftOf(p, l, t) && ShiftBy(-l, -t)(p) == ShiftOf(p, -l, -t)
      ensures ShiftOf(ShiftOf(p, l, t), -l, -t) == p
    {
    }
  }

  lemma MovedSize(a: set<Pixel>, l: int, t: int)
    ensures |Moved(a, l, t)| == |a|
  {
    ShiftMatches(a, l, t);
    SameSize(a, Moved(a, l, t), ShiftBy(l, t), ShiftBy(-l, -t));
  }

  lemma AreaMoves(b: Bitmap, p: Bitmap, l: int, t: int)
    requires Padded(b, p, l, t)
    ensures |Pixels(p)| == |Pixels(b)|
  {
    forall x, y
      ensures (x, y) in Pixels(p) <==> (x, y) in Moved(Pixels(b), l, t)
    {
      PixelMoves(b, p, l, t, x - l, y - t);
      if (x, y) in Pixels(p) {
        var q := (x - l, y - t);
        assert q in Pixels(b) && (q.0 + l, q.1 + t) == (x, y);
      }
    }
    assert Pixels(p) == Moved(Pixels(b), l, t);
    MovedSize(Pixels(b), l, t);
  }

  lemma PixelMoves(b: Bitmap, p: Bitmap, l: int, t: int, x: int, y: int)
    requires Padded(b, p, l, t)
    ensures (x, y) in Pixels(b) <==> (x + l, y + t) in Pixels(p)
  {
    assert Opaque(b, x, y) <==> Opaque(p, x + l, y + t);
  }

  /** Transparent padding, with the hotspot moved along, changes no measure. */
  lemma PaddingKeepsMeasures(b: Bitmap, p: Bitmap, l: int, t: int, xhot: int, yhot: int, f: Forma, g: Forma)
    requires Padded(b, p, l, t) && Measured(b, xhot, yhot, f) && Measured(p, xhot + l, yhot + t, g)
    ensures g == Forma(p.w, p.h, MoveBox(f.caixa, l, t), f.opacos, f.hotX + l, f.hotY + t,
                       f.topoCentro, f.larguraTopo, f.grade)
  {
    BoundsMove(b, p, l, t, f.caixa);
    BoundsUnique(p, g.caixa, MoveBox(f.caixa, l, t));
    GridMoves(b, p, l, t, f.caixa);
    FirstLineMoves(b, p, l, t, f.caixa.minY, f.caixa.minX, f.caixa.Bw());
    AreaMoves(b, p, l, t);
  }

  lemma AreaGrows(w: int, h: int, u: int, v: int)
    requires 0 < w <= u && 0 < h <= v
    ensures w * h <= u * v
    ensures w * h == u * v <==> w == u && h == v
  {
    assert u * v == u * h + u * (v - h);
    assert u * h == w * h + (u - w) * h;
    if h < v {
      assert 0 < u * (v - h);
    }
    if w < u {
      assert 0 < (u - w) * h;
    }
  }

  /** The decision looks at nothing but box-relative measures. */
  lemma MovedForm(f: Forma, g: Forma, l: int, t: int)
    requires g == Forma(g.w, g.h, MoveBox(f.caixa, l, t), f.opacos, f.hotX + l, f.hotY + t,
                        f.topoCentro, f.larguraTopo, f.grade)
    ensures CursorDe(g) == CursorDe(f)
  {
    var c, d := f.caixa, g.caixa;
    assert d.Bw() == c.Bw() && d.Bh() == c.Bh();
    assert g.hotX - d.minX == f.hotX - c.minX && g.hotY - d.minY == f.hotY - c.minY;
    assert HotRel(g) == HotRel(f) && Aspecto(g) == Aspecto(f) && Preenchimento(g) == Preenchimento(f);
  }

  /** Padding keeps the classification, except that a wholly opaque mask, which
      counts as no information, becomes a drawing once it has a margin. */
  lemma PaddingKeepsCursor(b: Bitmap, p: Bitmap, l: int, t: int, xhot: int, yhot: int, f: Forma, g: Forma)
    requires Padded(b, p, l, t) && Measured(b, xhot, yhot, f) && Measured(p, xhot + l, yhot + t, g)
    ensures CursorDe(g) == CursorDe(f)
    ensures f.opacos < f.w * f.h ==> Decide(g) == Decide(f)
    ensures f.opacos == f.w * f.h && (b.w < p.w || b.h < p.h) ==>
              Decide(f) == Default && Decide(g) == (if f.opacos < 4 then Default else CursorDe(f))
  {
    PaddingKeepsMeasures(b, p, l, t, xhot, yhot, f, g);
    MovedForm(f, g, l, t);
    AreaGrows(f.w, f.h, g.w, g.h);
    assert g.opacos == f.opacos;
  }

  // ----------------------------------------------------- mirrored cursors

  lemma {:induction false} CountFirst(b: Bitmap, row: int, x0: int, n: nat)
    requires n > 0
    ensures Count(b, row, x0, n) == (if Opaque(b, x0, row) then 1 else 0) + Count(b, row, x0 + 1, n - 1)
  {
    if n > 1 {
      CountFirst(b, row, x0, n - 1);
    }
  }

  lemma {:induction false} CountMirrored(a: Bitmap, b: Bitmap, k: int, row: int, x0: int, n: nat)
    requires MirroredBy(a, b, k)
    ensures Count(b, row, k - (x0 + n - 1), n) == Count(a, row, x0, n)
  {
    if n > 0 {
      CountMirrored(a, b, k, row, x0, n - 1);
      CountFirst(b, row, k - (x0 + n - 1), n);
      assert Opaque(a, x0 + n - 1, row) <==> Opaque(b, k - (x0 + n - 1), row);
    }
  }

  lemma BoundsMirrored(a: Bitmap, b: Bitmap, k: int, c: Caixa)
    requires MirroredBy(a, b, k) && Bounds(a, c)
    ensures Bounds(b, MirrorBox(c, k))
  {
    var d := MirrorBox(c, k);
    var y0 :| Opaque(a, c.minX, y0);
    var y1 :| Opaque(a, c.maxX, y1);
    var x0 :| Opaque(a, x0, c.minY);
    var x1 :| Opaque(a, x1, c.maxY);
    assert Opaque(b, d.maxX, y0) && Opaque(b, d.minX, y1);
    assert Opaque(b, k - x0, d.minY) && Opaque(b, k - x1, d.maxY);
    forall u, v | Opaque(b, u, v)
      ensures d.minX <= u <= d.maxX && d.minY <= v <= d.maxY
    {
      assert Opaque(a, k - u, v);
    }
  }

  function FlipOf(q: Pixel, k: int): Pixel {
    (k - q.0, q.1)
  }

  function FlipAbout(k: int): Pixel -> Pixel {
    (q: Pixel) => FlipOf(q, k)
  }

  lemma PixelMirrored(a: Bitmap, b: Bitmap, k: int, q: Pixel)
    requires MirroredBy(a, b, k)
    ensures q in Pixels(a) <==> FlipOf(q, k) in Pixels(b)
  {
    assert Opaque(a, q.0, q.1) <==> Opaque(b, k - q.0, q.1);
  }

  lemma FlipMatches(a: set<Pixel>, b: set<Pixel>, k: int)
    requires forall q :: q in a ==> FlipOf(q, k) in b
    requires forall q :: q in b ==> FlipOf(q, k) in a
    ensures Matched(a, b, FlipAbout(k), FlipAbout(k))
  {
    var flip := FlipAbout(k);
    forall q | q in a
      ensures flip(q) in b && flip(flip(q)) == q
    {
      FlipTwice(q, k);
    }
    forall q | q in b
      ensures flip(q) in a && flip(flip(q)) == q
    {
      FlipTwice(q, k);
    }
  }

  lemma FlipTwice(q: Pixel, k: int)
    ensures FlipAbout(k)(q) == FlipOf(q, k) && FlipAbout(k)(FlipOf(q, k)) == q
  {
  }

  lemma AreaMirrored(a: Bitmap, b: Bitmap, k: int)
    requires MirroredBy(a, b, k)
    ensures |Pixels(b)| == |Pixels(a)|
  {
    forall q: Pixel
      ensures q in Pixels(a) ==> FlipOf(q, k) in Pixels(b)
      ensures q in Pixels(b) ==> FlipOf(q, k) in Pixels(a)
    {
      PixelMirrored(a, b, k, q);
      PixelMirrored(a, b, k, FlipOf(q, k));
    }
    FlipMatches(Pixels(a), Pixels(b), k);
    SameSize(Pixels(a), Pixels(b), FlipAbout(k), FlipAbout(k));
  }

  function Flip(c: Cursor): Cursor {
    match c
    case NorthWestSouthEast => NorthEastSouthWest
    case NorthEastSouthWest => NorthWestSouthEast
    case _ => c
  }

  /** What a mirrored form has in common with the form. */
  lemma MirroredForm(a: Bitmap, b: Bitmap, k: int, xa: int, ya: int, xb: int, yb: int, f: Forma, g: Forma)
    requires MirroredBy(a, b, k) && Measured(a, xa, ya, f) && Measured(b, xb, yb, g) && f.caixa.Bw() % 128 != 0
    ensures g.grade == Mirror(f.grade) && g.caixa == MirrorBox(f.caixa, k)
    ensures g.opacos == f.opacos && g.larguraTopo == f.larguraTopo
  {
    BoundsMirrored(a, b, k, f.caixa);
    BoundsUnique(b, g.caixa, MirrorBox(f.caixa, k));
    GridMirrored(a, b, k, f.caixa);
    AreaMirrored(a, b, k);
    CountMirrored(a, b, k, f.caixa.minY, f.caixa.minX, f.caixa.Bw());
  }

  lemma MirroredMeasures(g: Grade)
    requires Coverage(g)
    ensures Semelhanca(Mirror(g), SimH) == Semelhanca(g, SimH) && Semelhanca(Mirror(g), SimV) == Semelhanca(g, SimV)
    ensures Semelhanca(Mirror(g), SimDiag) == Semelhanca(g, SimAnti)
    ensures Semelhanca(Mirror(g), SimAnti) == Semelhanca(g, SimDiag)
    ensures Correlacao(Mirror(g)) == -Correlacao(g)
  {
    SimilarityMirrored(g, SimH);
    SimilarityMirrored(g, SimV);
    SimilarityMirrored(g, SimDiag);
    SimilarityMirrored(g, SimAnti);
    CorrelationMirrored(g);
  }

  lemma MirroredChoice(simH: real, simV: real, simD: real, simA: real, corr: real, asp: real, cheio: real, topo: real)
    ensures var c := Centrada(simH, simV, simD, simA, corr, asp, cheio, topo);
            Centrada(simH, simV, simA, simD, -corr, asp, cheio, topo) == if corr == 0.0 then c else Flip(c)
  {
  }

  lemma MirroredDecision(f: Forma, g: Forma, k: int)
    requires Coverage(f.grade) && g.grade == Mirror(f.grade) && g.caixa == MirrorBox(f.caixa, k)
    requires g.opacos == f.opacos && g.larguraTopo == f.larguraTopo
    ensures FamiliaCentrada(g) == (if Correlacao(f.grade) == 0.0 then FamiliaCentrada(f) else Flip(FamiliaCentrada(f)))
  {
    MirroredMeasures(f.grade);
    assert Aspecto(g) == Aspecto(f) && Preenchimento(g) == Preenchimento(f);
    MirroredChoice(Semelhanca(f.grade, SimH), Semelhanca(f.grade, SimV), Semelhanca(f.grade, SimDiag),
                   Semelhanca(f.grade, SimAnti), Correlacao(f.grade), Aspecto(f), Preenchimento(f), f.larguraTopo);
  }

  /** A centred cursor drawn in a mirror is the mirrored cursor: the two diagonal
      arrows change places and every other name stays, except that a drawing with
      no slant at all is called the same both ways. */
  lemma MirroredCursor(a: Bitmap, b: Bitmap, k: int, xa: int, ya: int, xb: int, yb: int, f: Forma, g: Forma)
    requires MirroredBy(a, b, k) && Measured(a, xa, ya, f) && Measured(b, xb, yb, g) && f.caixa.Bw() % 128 != 0
    ensures FamiliaCentrada(g) == (if Correlacao(f.grade) == 0.0 then FamiliaCentrada(f) else Flip(FamiliaCentrada(f)))
  {
    MirroredForm(a, b, k, xa, ya, xb, yb, f, g);
    MirroredDecision(f, g, k);
  }
}

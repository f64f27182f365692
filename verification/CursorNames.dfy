/** What the names of cursors stand for, in pixels and counts: the hotspot's place
    in the box, the box's proportion, its fill, and the symmetries
    (cmd/acessos/cursorforma.go). */
module CursorNames {
  import opened CursorGrid
  import opened CursorShape

  /** A pixel counts when it is there and its opacity is at least half. */
  lemma OpaqueMeans(b: Bitmap, x: int, y: int)
    requires 0 < b.w && 0 < b.h && b.w * b.h <= |b.mask| && 0 <= x < b.w && 0 <= y < b.h
    ensures 0 <= y * b.w + x < |b.mask|
    ensures Opaque(b, x, y) <==> b.mask[y * b.w + x] >= 128
  {
    IndexFits(b.w, b.h, x, y);
  }

  /** A quotient compared with a bound is a product compared with the dividend. */
  lemma Bound(a: real, b: real, t: real)
    requires 0.0 < b
    ensures (a / b >= t <==> a >= t * b) && (a / b <= t <==> a <= t * b)
  {
    var q := a / b;
    assert q * b == a;
    assert (q - t) * b == a - t * b;
    if q > t {
      Positive(q - t, b);
    } else if q < t {
      Positive(t - q, b);
      assert (t - q) * b == -((q - t) * b);
    }
  }

  lemma Positive(a: real, b: real)
    requires 0.0 < a && 0.0 < b
    ensures 0.0 < a * b
  {
  }

  /** A form with enough opaque pixels, and not all of them. */
  predicate Informative(f: Forma) {
    4 <= f.opacos < f.w * f.h && f.caixa.minX <= f.caixa.maxX && f.caixa.minY <= f.caixa.maxY
  }

  /** Few opaque pixels, or only opaque ones, are the default cursor. */
  lemma WithoutInformation(f: Forma)
    requires f.opacos < 4 || f.w * f.h <= f.opacos
    ensures Decide(f) == Default
  {
  }

  /** The hotspot d pixels into a side of n lies between lo and hi of the side. */
  predicate Between(d: int, n: int, lo: real, hi: real) {
    lo * (n - 1) as real <= d as real <= hi * (n - 1) as real
  }

  /** Which hotspots count, and where one that does is, without dividing. */
  lemma Places(f: Forma, t: real)
    requires f.caixa.minX < f.caixa.maxX && f.caixa.minY < f.caixa.maxY
    ensures var c := f.caixa;
            var bw, bh := c.maxX - c.minX + 1, c.maxY - c.minY + 1;
            var dx, dy := f.hotX - c.minX, f.hotY - c.minY;
            (HotRel(f).2 <==> Between(dx, bw, -0.2, 1.2) && Between(dy, bh, -0.2, 1.2))
            && (HotRel(f).2 ==>
                  (HotRel(f).0 <= t <==> dx as real <= t * (bw - 1) as real)
                  && (HotRel(f).1 <= t <==> dy as real <= t * (bh - 1) as real))
  {
    Side(f.hotX - f.caixa.minX, f.caixa.maxX - f.caixa.minX + 1, t);
    Side(f.hotY - f.caixa.minY, f.caixa.maxY - f.caixa.minY + 1, t);
  }

  lemma Side(d: int, n: int, t: real)
    requires 1 < n
    ensures var q := d as real / (n - 1) as real;
            (!(q < -0.2 || q > 1.2) <==> Between(d, n, -0.2, 1.2)) && (q <= t <==> d as real <= t * (n - 1) as real)
  {
    Bound(d as real, (n - 1) as real, -0.2);
    Bound(d as real, (n - 1) as real, 1.2);
    Bound(d as real, (n - 1) as real, t);
  }

  lemma Proportion(f: Forma, t: real)
    requires f.caixa.minX <= f.caixa.maxX && f.caixa.minY <= f.caixa.maxY
    ensures var bw, bh := f.caixa.maxX - f.caixa.minX + 1, f.caixa.maxY - f.caixa.minY + 1;
            (Aspecto(f) >= t <==> bw as real >= t * bh as real) && (Aspecto(f) <= t <==> bw as real <= t * bh as real)
  {
    var bw, bh := f.caixa.maxX - f.caixa.minX + 1, f.caixa.maxY - f.caixa.minY + 1;
    Bound(bw as real, bh as real, t);
  }

  lemma Wider(d: int, n: int, hi: real, top: real)
    requires 1 < n && hi <= top && d as real <= hi * (n - 1) as real
    ensures d as real <= top * (n - 1) as real
  {
    var m := (n - 1) as real;
    assert top * m - hi * m == (top - hi) * m;
    assert 0.0 <= (top - hi) * m;
  }

  /** The hotspot lies in the box or a fifth of it around, from the box's corner
      up to these shares of its sides. */
  predicate HotWithin(f: Forma, right: real, down: real) {
    var c := f.caixa;
    c.minX < c.maxX && c.minY < c.maxY
    && Between(f.hotX - c.minX, c.maxX - c.minX + 1, -0.2, right)
    && Between(f.hotY - c.minY, c.maxY - c.minY + 1, -0.2, down)
  }

  /** The box is at most t times as wide as it is high. */
  predicate AtMost(f: Forma, t: real) {
    (f.caixa.maxX - f.caixa.minX + 1) as real <= t * (f.caixa.maxY - f.caixa.minY + 1) as real
  }

  /** The three families. The tip in the upper left corner, or a beak on the left
      where the hotspot says nothing, is an arrow, plain while the box is narrower
      than the cut and with company from there on; the tip on top but inwards, in a
      box not too wide, is the hand; anything else is left to the symmetries. */
  lemma Families(f: Forma)
    requires Informative(f)
    ensures var corner := HotWithin(f, 0.28, 0.28);
            var beak := !HotWithin(f, 1.2, 1.2) && f.topoCentro <= 0.18 && AtMost(f, 1.1);
            var hand := HotWithin(f, 0.65, 0.35) && AtMost(f, 1.35)
                        && (f.hotX - f.caixa.minX) as real > 0.28 * (f.caixa.maxX - f.caixa.minX) as real;
            var wide := (f.caixa.maxX - f.caixa.minX + 1) as real
                        >= 0.78 * (f.caixa.maxY - f.caixa.minY + 1) as real;
            ((corner || beak) && wide ==> Decide(f) == Progress)
            && ((corner || beak) && !wide ==> Decide(f) == Default)
            && (hand ==> Decide(f) == Pointer)
            && (!corner && !beak && !hand ==> Decide(f) == FamiliaCentrada(f))
  {
    HotPlaces(f);
    Proportion(f, 0.78);
    Proportion(f, 1.1);
    Proportion(f, 1.35);
  }

  lemma HotPlaces(f: Forma)
    requires Informative(f)
    ensures HotRel(f).2 <==> HotWithin(f, 1.2, 1.2)
    ensures (HotRel(f).2 && HotRel(f).0 <= 0.28 && HotRel(f).1 <= 0.28) <==> HotWithin(f, 0.28, 0.28)
    ensures (HotRel(f).2 && HotRel(f).0 <= 0.65 && HotRel(f).1 <= 0.35) <==> HotWithin(f, 0.65, 0.35)
    ensures HotRel(f).2 ==>
              (HotRel(f).0 > 0.28 <==> (f.hotX - f.caixa.minX) as real > 0.28 * (f.caixa.maxX - f.caixa.minX) as real)
  {
    if f.caixa.minX < f.caixa.maxX && f.caixa.minY < f.caixa.maxY {
      Places(f, 0.28);
      Places(f, 0.35);
      Places(f, 0.65);
      if HotWithin(f, 0.28, 0.28) {
        Within(f, 0.28, 0.28);
      }
      if HotWithin(f, 0.65, 0.35) {
        Within(f, 0.65, 0.35);
      }
    }
  }

  lemma Within(f: Forma, right: real, down: real)
    requires HotWithin(f, right, down) && right <= 1.2 && down <= 1.2
    ensures HotWithin(f, 1.2, 1.2)
  {
    Wider(f.hotX - f.caixa.minX, f.caixa.maxX - f.caixa.minX + 1, right, 1.2);
    Wider(f.hotY - f.caixa.minY, f.caixa.maxY - f.caixa.minY + 1, down, 1.2);
  }

  /** The names of the centred family, by symmetries, slant, proportion, top line and fill. */
  lemma CentredNames(f: Forma)
    requires Informative(f)
    ensures NamedBy(f, Semelhanca(f.grade, SimH) >= 0.72, Semelhanca(f.grade, SimV) >= 0.72,
                    Semelhanca(f.grade, SimDiag) >= 0.72, Semelhanca(f.grade, SimAnti) >= 0.72,
                    Correlacao(f.grade) >= 0.0, FamiliaCentrada(f))
  {
    NamesOf(f, Semelhanca(f.grade, SimH), Semelhanca(f.grade, SimV), Semelhanca(f.grade, SimDiag),
            Semelhanca(f.grade, SimAnti), Correlacao(f.grade));
  }

  /** Given which symmetries hold and whether the slant goes down to the right, the name is the right one. */
  predicate NamedBy(f: Forma, h: bool, v: bool, d: bool, a: bool, down: bool, name: Cursor) {
    var bw, bh := (f.caixa.maxX - f.caixa.minX + 1) as real, (f.caixa.maxY - f.caixa.minY + 1) as real;
    var area := bw * bh;
    (!h && !v && d && a && down ==> name == NorthWestSouthEast)
    && (!h && !v && d && a && !down ==> name == NorthEastSouthWest)
    && (!h && !v && !(d && a) ==> name == Pointer)
    && (h != v ==> name == Pointer)
    && (h && v && bw >= 1.55 * bh ==> name == EastWest)
    && (h && v && bw <= 0.66 * bh && f.larguraTopo >= 0.6 ==> name == Text)
    && (h && v && bw <= 0.66 * bh && f.larguraTopo < 0.6 ==> name == NorthSouth)
    && (h && v && 0.66 * bh < bw < 1.55 * bh && !(d && a) ==> name == Wait)
    && (h && v && 0.66 * bh < bw < 1.55 * bh && d && a ==>
          (f.opacos as real >= 0.45 * area ==> name == Wait)
          && (f.opacos as real <= 0.24 * area ==> name == Crosshair)
          && (0.24 * area < f.opacos as real < 0.45 * area ==> name == AllScroll))
  }

  lemma NamesOf(f: Forma, h: real, v: real, d: real, a: real, corr: real)
    requires Informative(f)
    ensures NamedBy(f, h >= 0.72, v >= 0.72, d >= 0.72, a >= 0.72, corr >= 0.0,
                    Centrada(h, v, d, a, corr, Aspecto(f), Preenchimento(f), f.larguraTopo))
  {
    Proportion(f, 1.55);
    Proportion(f, 0.66);
    Fill(f, 0.45);
    Fill(f, 0.24);
  }

  lemma Fill(f: Forma, t: real)
    requires f.caixa.minX <= f.caixa.maxX && f.caixa.minY <= f.caixa.maxY
    ensures var bw, bh := (f.caixa.maxX - f.caixa.minX + 1) as real, (f.caixa.maxY - f.caixa.minY + 1) as real;
            (Preenchimento(f) >= t <==> f.opacos as real >= t * (bw * bh))
            && (Preenchimento(f) <= t <==> f.opacos as real <= t * (bw * bh))
  {
    var bw, bh := f.caixa.maxX - f.caixa.minX + 1, f.caixa.maxY - f.caixa.minY + 1;
    Area(bw, bh);
    Bound(f.opacos as real, (bw * bh) as real, t);
  }

  lemma Area(a: int, b: int)
    requires 0 < a && 0 < b
    ensures 0 < a * b && (a * b) as real == a as real * b as real
  {
  }

  // ------------------------------------------------------------- the top line

  /** In n pixels of a row, those from column u to column v are opaque. */
  ghost predicate Solid(b: Bitmap, row: int, x0: int, n: nat, u: int, v: int) {
    forall x :: x0 <= x < x0 + n ==> (Opaque(b, x, row) <==> u <= x <= v)
  }

  /** How many they are, and twice the sum of their places. */
  lemma {:induction false} SolidCounts(b: Bitmap, row: int, x0: int, n: nat, u: nat, v: nat)
    requires u <= v && Solid(b, row, x0, n, x0 + u, x0 + v)
    ensures var m := if n <= u then 0 else if v < n then v + 1 - u else n - u;
            Count(b, row, x0, n) == m && 2 * Reach(b, row, x0, n) == m * (2 * u + m - 1)
  {
    if n > 0 {
      SolidCounts(b, row, x0, n - 1, u, v);
      assert Opaque(b, x0 + n - 1, row) <==> x0 + u <= x0 + n - 1 <= x0 + v;
      OneMore(if n - 1 <= u then 0 else if v < n - 1 then v + 1 - u else n - 1 - u, u);
    }
  }

  lemma OneMore(m: int, u: int)
    ensures (m + 1) * (2 * u + (m + 1) - 1) == m * (2 * u + m - 1) + 2 * (u + m)
  {
  }

  lemma TopSums(b: Bitmap, c: Caixa, u: int, v: int)
    requires c.minX < c.maxX && c.minX <= u <= v <= c.maxX
    requires forall x :: c.minX <= x <= c.maxX ==> (Opaque(b, x, c.minY) <==> u <= x <= v)
    ensures var n, r := Count(b, c.minY, c.minX, c.Bw()), Reach(b, c.minY, c.minX, c.Bw());
            n == v - u + 1 && 2 * r == n * (u + v - 2 * c.minX)
  {
    var p := u - c.minX;
    SolidCounts(b, c.minY, c.minX, c.Bw(), p, v - c.minX);
    assert 2 * p + (v - u + 1) - 1 == u + v - 2 * c.minX;
  }

  /** A first line opaque from column u to column v has its centre halfway and its
      width's share of the box. */
  lemma SolidTop(b: Bitmap, c: Caixa, u: int, v: int)
    requires c.minX < c.maxX && c.minX <= u <= v <= c.maxX
    requires forall x :: c.minX <= x <= c.maxX ==> (Opaque(b, x, c.minY) <==> u <= x <= v)
    ensures FirstLine(b, c).0 * (c.maxX - c.minX) as real * 2.0 == (u + v - 2 * c.minX) as real
    ensures FirstLine(b, c).1 * (c.maxX - c.minX + 1) as real == (v - u + 1) as real
  {
    TopSums(b, c, u, v);
    TopFrom(b, c, Count(b, c.minY, c.minX, c.Bw()), Reach(b, c.minY, c.minX, c.Bw()), u + v - 2 * c.minX);
  }

  lemma TopFrom(b: Bitmap, c: Caixa, n: nat, r: nat, s: int)
    requires c.minX < c.maxX && n > 0 && 2 * r == n * s
    requires n == Count(b, c.minY, c.minX, c.Bw()) && r == Reach(b, c.minY, c.minX, c.Bw())
    ensures FirstLine(b, c).0 * (c.maxX - c.minX) as real * 2.0 == s as real
    ensures FirstLine(b, c).1 * (c.maxX - c.minX + 1) as real == n as real
  {
    FirstLineIs(b, c, n, r);
    var centre, width := FirstLine(b, c).0, FirstLine(b, c).1;
    Halfway(centre, r, n, s, c.maxX - c.minX);
    Share(width, n, c.maxX - c.minX + 1);
  }

  lemma FirstLineIs(b: Bitmap, c: Caixa, n: nat, r: nat)
    requires c.minX < c.maxX && n > 0
    requires n == Count(b, c.minY, c.minX, c.Bw()) && r == Reach(b, c.minY, c.minX, c.Bw())
    ensures FirstLine(b, c).0 == r as real / n as real / (c.maxX - c.minX) as real
    ensures FirstLine(b, c).1 == n as real / (c.maxX - c.minX + 1) as real
  {
  }

  lemma Share(x: real, n: int, d: int)
    requires d > 0 && x == n as real / d as real
    ensures x * d as real == n as real
  {
  }

  lemma Halfway(x: real, r: int, n: int, s: int, d: int)
    requires 0 < n && 0 < d && 2 * r == n * s && x == r as real / n as real / d as real
    ensures x * d as real * 2.0 == s as real
  {
    var a := r as real / n as real;
    assert a * n as real == r as real && x * d as real == a;
    assert (n * s) as real == n as real * s as real;
    assert (a * 2.0 - s as real) * n as real == 0.0;
    Zero(a * 2.0 - s as real, n as real);
  }

  lemma Zero(a: real, b: real)
    requires a * b == 0.0 && b != 0.0
    ensures a == 0.0
  {
  }

  // ---------------------------------------------------------------- the grid

  lemma {:induction false} AllRowHits(b: Bitmap, xs: seq<int>, py: int)
    requires forall i :: 0 <= i < |xs| ==> Opaque(b, xs[i], py)
    ensures RowHits(b, xs, py) == |xs|
  {
    if xs != [] {
      AllRowHits(b, xs[..|xs| - 1], py);
    }
  }

  lemma {:induction false} AllHits(b: Bitmap, xs: seq<int>, ys: seq<int>)
    requires forall i, j :: 0 <= i < |xs| && 0 <= j < |ys| ==> Opaque(b, xs[i], ys[j])
    ensures Hits(b, xs, ys) == |xs| * |ys|
  {
    if ys != [] {
      AllHits(b, xs, ys[..|ys| - 1]);
      AllRowHits(b, xs, ys[|ys| - 1]);
      assert |xs| * (|ys| - 1) + |xs| == |xs| * |ys|;
    }
  }

  lemma CoordInside(min: int, max: int, i: int)
    requires min <= max && 0 <= i < 64
    ensures min <= Coords(min, max)[i] <= max
  {
    SampleInside(i, max - min + 1);
  }

  /** A box that is opaque throughout covers every cell of the grid whole. */
  lemma SolidIsFull(b: Bitmap, c: Caixa, gx: int, gy: int)
    requires c.minX <= c.maxX && c.minY <= c.maxY && 0 <= gx < 16 && 0 <= gy < 16
    requires forall x, y :: c.minX <= x <= c.maxX && c.minY <= y <= c.maxY ==> Opaque(b, x, y)
    ensures Cell(GridOf(b, c), gx, gy) == 1.0
  {
    var xs, ys := Four(Coords(c.minX, c.maxX), gx), Four(Coords(c.minY, c.maxY), gy);
    forall i, j | 0 <= i < 4 && 0 <= j < 4
      ensures Opaque(b, xs[i], ys[j])
    {
      CoordInside(c.minX, c.maxX, 4 * gx + i);
      CoordInside(c.minY, c.maxY, 4 * gy + j);
    }
    AllHits(b, xs, ys);
    FullCell(b, c, gx, gy, Hits(b, xs, ys));
  }

  lemma FullCell(b: Bitmap, c: Caixa, gx: int, gy: int, n: int)
    requires c.minX <= c.maxX && c.minY <= c.maxY && 0 <= gx < 16 && 0 <= gy < 16 && n == 16
    requires n == Hits(b, Four(Coords(c.minX, c.maxX), gx), Four(Coords(c.minY, c.maxY), gy))
    ensures Cell(GridOf(b, c), gx, gy) == 1.0
  {
  }
}

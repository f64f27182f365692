/** From a cursor bitmap to a named cursor (cmd/acessos/cursorforma.go): bounding
    box, first line, coverage grid, and the decision. */
module CursorShape {
  import opened CursorGrid

  const ALFA_OPACO: int := 128
  const SETA_LARGA: real := 0.78

  /** The opacity mask, one byte per pixel, row by row. */
  datatype Bitmap = Bitmap(w: int, h: int, mask: seq<int>)

  predicate Usable(b: Bitmap) {
    0 < b.w && 0 < b.h && b.w * b.h <= |b.mask|
  }

  lemma IndexFits(w: int, h: int, x: int, y: int)
    requires 0 <= x < w && 0 <= y < h
    ensures 0 <= y * w + x < w * h
  {
    assert (y + 1) * w <= h * w;
  }

  function Alfa(b: Bitmap, x: int, y: int): int
    requires Usable(b) && 0 <= x < b.w && 0 <= y < b.h
  {
    IndexFits(b.w, b.h, x, y);
    b.mask[y * b.w + x]
  }

  predicate Opaque(b: Bitmap, x: int, y: int) {
    Usable(b) && 0 <= x < b.w && 0 <= y < b.h && Alfa(b, x, y) >= ALFA_OPACO
  }

  datatype Caixa = Caixa(minX: int, minY: int, maxX: int, maxY: int) {
    function Bw(): int {
      maxX - minX + 1
    }

    function Bh(): int {
      maxY - minY + 1
    }
  }

  datatype Forma = Forma(w: int, h: int, caixa: Caixa, opacos: int, hotX: int, hotY: int,
                         topoCentro: real, larguraTopo: real, grade: Grade)

  // -------------------------------------------------------------- the measures

  function Pixels(b: Bitmap): set<(int, int)> {
    set x, y | 0 <= x < b.w && 0 <= y < b.h && Opaque(b, x, y) :: (x, y)
  }

  /** The box holds every opaque pixel and each side touches one. */
  ghost predicate Bounds(b: Bitmap, c: Caixa) {
    (forall x, y :: Opaque(b, x, y) ==> c.minX <= x <= c.maxX && c.minY <= y <= c.maxY)
    && (exists y :: Opaque(b, c.minX, y)) && (exists y :: Opaque(b, c.maxX, y))
    && (exists x :: Opaque(b, x, c.minY)) && (exists x :: Opaque(b, x, c.maxY))
  }

  function Count(b: Bitmap, row: int, x0: int, n: nat): nat {
    if n == 0 then 0 else Count(b, row, x0, n - 1) + (if Opaque(b, x0 + n - 1, row) then 1 else 0)
  }

  function Reach(b: Bitmap, row: int, x0: int, n: nat): nat {
    if n == 0 then 0 else Reach(b, row, x0, n - 1) + (if Opaque(b, x0 + n - 1, row) then n - 1 else 0)
  }

  /** Centre and width of the first line, relative to the box. */
  function FirstLine(b: Bitmap, c: Caixa): (real, real) {
    if c.Bw() <= 1 then (0.0, 1.0)
    else
      var n := Count(b, c.minY, c.minX, c.Bw());
      if n == 0 then (0.0, 0.0)
      else (Reach(b, c.minY, c.minX, c.Bw()) as real / n as real / (c.Bw() - 1) as real, n as real / c.Bw() as real)
  }

  /** The pixel offset of sample i of the 64 across a box side of n pixels. */
  function Sample(i: int, n: int): int {
    (2 * i + 1) * n / 128
  }

  /** The 64 pixel coordinates sampled along one side of the box. */
  function Coords(min: int, max: int): (s: seq<int>)
    requires min <= max
    ensures |s| == 64
  {
    seq(64, i requires 0 <= i < 64 => min + Sample(i, max - min + 1))
  }

  function Hit(b: Bitmap, px: int, py: int): int {
    if Opaque(b, px, py) then 1 else 0
  }

  function RowHits(b: Bitmap, xs: seq<int>, py: int): (n: int)
    ensures 0 <= n <= |xs|
  {
    if xs == [] then 0 else RowHits(b, xs[..|xs| - 1], py) + Hit(b, xs[|xs| - 1], py)
  }

  /** How many of the samples at columns xs and rows ys are opaque. */
  function Hits(b: Bitmap, xs: seq<int>, ys: seq<int>): (n: int)
    ensures 0 <= n
  {
    if ys == [] then 0 else Hits(b, xs, ys[..|ys| - 1]) + RowHits(b, xs, ys[|ys| - 1])
  }

  /** The four coordinates sampled for cell g. */
  function Four(coords: seq<int>, g: int): (s: seq<int>)
    requires |coords| == 64 && 0 <= g < 16
    ensures |s| == 4
  {
    coords[4 * g..4 * g + 4]
  }

  function Resample(b: Bitmap, cols: seq<int>, rows: seq<int>): (g: Grade)
    requires |cols| == 64 && |rows| == 64
    ensures |g| == 16
    ensures forall x, y :: 0 <= x < 16 && 0 <= y < 16 ==>
              Cell(g, x, y) == Hits(b, Four(cols, x), Four(rows, y)) as real / 16.0
    ensures Coverage(g)
  {
    var g := seq(16, gy requires 0 <= gy < 16 =>
                   seq(16, gx requires 0 <= gx < 16 => Hits(b, Four(cols, gx), Four(rows, gy)) as real / 16.0));
    assert |g| == 16 && forall y :: 0 <= y < |g| ==> |g[y]| == |g|;
    g
  }

  function GridOf(b: Bitmap, c: Caixa): (g: Grade)
    requires c.minX <= c.maxX && c.minY <= c.maxY
    ensures |g| == 16 && Coverage(g)
  {
    Resample(b, Coords(c.minX, c.maxX), Coords(c.minY, c.maxY))
  }

  /** What medirForma promises about the form it returns. */
  ghost predicate Measured(b: Bitmap, xhot: int, yhot: int, f: Forma) {
    f.w == b.w && f.h == b.h && f.hotX == xhot && f.hotY == yhot
    && Bounds(b, f.caixa)
    && f.caixa.minX <= f.caixa.maxX && f.caixa.minY <= f.caixa.maxY
    && f.opacos == |Pixels(b)|
    && (f.topoCentro, f.larguraTopo) == FirstLine(b, f.caixa)
    && f.grade == GridOf(b, f.caixa)
  }

  // ------------------------------------------------------------- medirForma

  function Seen(b: Bitmap, y: int, x: int): set<(int, int)> {
    set px, py | 0 <= px < b.w && 0 <= py < b.h && (py < y || (py == y && px < x)) && Opaque(b, px, py) :: (px, py)
  }

  /** c is the bounding box of a set of pixels of a w by h bitmap. */
  ghost predicate BoxOfSet(s: set<(int, int)>, c: Caixa, w: int, h: int) {
    if s == {} then c == Caixa(w, h, -1, -1)
    else
      (forall p :: p in s ==> c.minX <= p.0 <= c.maxX && c.minY <= p.1 <= c.maxY)
      && (exists p :: p in s && p.0 == c.minX) && (exists p :: p in s && p.0 == c.maxX)
      && (exists p :: p in s && p.1 == c.minY) && (exists p :: p in s && p.1 == c.maxY)
  }

  function Widen(c: Caixa, x: int, y: int): Caixa {
    Caixa(if x < c.minX then x else c.minX, if y < c.minY then y else c.minY,
          if x > c.maxX then x else c.maxX, if y > c.maxY then y else c.maxY)
  }

  lemma BoxWidens(s: set<(int, int)>, c: Caixa, w: int, h: int, x: int, y: int)
    requires BoxOfSet(s, c, w, h) && 0 <= x < w && 0 <= y < h
    ensures BoxOfSet(s + {(x, y)}, Widen(c, x, y), w, h)
  {
    var t, d := s + {(x, y)}, Widen(c, x, y);
    assert (x, y) in t;
    if s != {} {
      var l :| l in s && l.0 == c.minX;
      var r :| r in s && r.0 == c.maxX;
      var u :| u in s && u.1 == c.minY;
      var v :| v in s && v.1 == c.maxY;
      assert l in t && r in t && u in t && v in t;
    }
  }

  /** Reading pixel (x, y): area and box of what has been seen. */
  lemma PixelStep(b: Bitmap, y: int, x: int, c: Caixa, n: int)
    requires Usable(b) && 0 <= x < b.w && 0 <= y < b.h
    requires n == |Seen(b, y, x)| && BoxOfSet(Seen(b, y, x), c, b.w, b.h)
    ensures !Opaque(b, x, y) ==> n == |Seen(b, y, x + 1)| && BoxOfSet(Seen(b, y, x + 1), c, b.w, b.h)
    ensures Opaque(b, x, y) ==>
              n + 1 == |Seen(b, y, x + 1)| && BoxOfSet(Seen(b, y, x + 1), Widen(c, x, y), b.w, b.h)
  {
    if Opaque(b, x, y) {
      assert Seen(b, y, x + 1) == Seen(b, y, x) + {(x, y)};
      assert (x, y) !in Seen(b, y, x);
      BoxWidens(Seen(b, y, x), c, b.w, b.h, x, y);
    } else {
      assert Seen(b, y, x + 1) == Seen(b, y, x);
    }
  }

  lemma BoxIsBounds(b: Bitmap, c: Caixa)
    requires Pixels(b) != {} && BoxOfSet(Pixels(b), c, b.w, b.h)
    ensures Bounds(b, c)
  {
    forall x, y | Opaque(b, x, y)
      ensures c.minX <= x <= c.maxX && c.minY <= y <= c.maxY
    {
      assert (x, y) in Pixels(b);
    }
    var l :| l in Pixels(b) && l.0 == c.minX;
    var r :| r in Pixels(b) && r.0 == c.maxX;
    var u :| u in Pixels(b) && u.1 == c.minY;
    var v :| v in Pixels(b) && v.1 == c.maxY;
    assert Opaque(b, l.0, l.1) && Opaque(b, r.0, r.1) && Opaque(b, u.0, u.1) && Opaque(b, v.0, v.1);
  }

  /** Box and area of the opaque part, by one pass over the mask. */
  method MedirCaixa(b: Bitmap) returns (c: Caixa, opacos: int)
    requires Usable(b)
    ensures opacos == |Pixels(b)|
    ensures opacos > 0 ==> Bounds(b, c)
    ensures opacos == 0 <==> forall x, y :: !Opaque(b, x, y)
  {
    c := Caixa(b.w, b.h, -1, -1);
    opacos := 0;
    for y := 0 to b.h
      invariant opacos == |Seen(b, y, 0)| && BoxOfSet(Seen(b, y, 0), c, b.w, b.h)
    {
      c, opacos := MedirLinha(b, y, c, opacos);
    }
    AllSeen(b);
    if opacos > 0 {
      BoxIsBounds(b, c);
    }
  }

  lemma AllSeen(b: Bitmap)
    requires Usable(b)
    ensures Seen(b, b.h, 0) == Pixels(b)
    ensures |Pixels(b)| == 0 <==> forall x, y :: !Opaque(b, x, y)
  {
    assert forall x, y :: Opaque(b, x, y) ==> (x, y) in Pixels(b);
    assert forall p :: p in Pixels(b) ==> Opaque(b, p.0, p.1);
  }

  lemma RowSeen(b: Bitmap, y: int)
    requires Usable(b)
    ensures Seen(b, y, b.w) == Seen(b, y + 1, 0)
  {
  }

  /** One row of that pass. */
  method MedirLinha(b: Bitmap, y: int, antes: Caixa, n: int) returns (c: Caixa, opacos: int)
    requires Usable(b) && 0 <= y < b.h
    requires n == |Seen(b, y, 0)| && BoxOfSet(Seen(b, y, 0), antes, b.w, b.h)
    ensures opacos == |Seen(b, y + 1, 0)| && BoxOfSet(Seen(b, y + 1, 0), c, b.w, b.h)
  {
    c, opacos := antes, n;
    for x := 0 to b.w
      invariant opacos == |Seen(b, y, x)| && BoxOfSet(Seen(b, y, x), c, b.w, b.h)
    {
      PixelStep(b, y, x, c, opacos);
      if Alfa(b, x, y) < ALFA_OPACO {
        continue;
      }
      opacos := opacos + 1;
      c := Widen(c, x, y);
    }
    RowSeen(b, y);
  }

  lemma BoundsInside(b: Bitmap, c: Caixa)
    requires Bounds(b, c)
    ensures Usable(b) && 0 <= c.minX <= c.maxX < b.w && 0 <= c.minY <= c.maxY < b.h
  {
    var y :| Opaque(b, c.minX, y);
    var x :| Opaque(b, x, c.minY);
    assert exists y :: Opaque(b, c.maxX, y);
    assert exists x :: Opaque(b, x, c.maxY);
  }

  /** medidasDaPrimeiraLinha */
  method MedidasDaPrimeiraLinha(b: Bitmap, c: Caixa) returns (centro: real, largura: real)
    requires Bounds(b, c)
    ensures (centro, largura) == FirstLine(b, c)
  {
    BoundsInside(b, c);
    var bw := c.Bw();
    if bw <= 1 {
      return 0.0, 1.0;
    }
    var soma, n := 0, 0;
    for x := c.minX to c.maxX + 1
      invariant soma == Reach(b, c.minY, c.minX, x - c.minX) && n == Count(b, c.minY, c.minX, x - c.minX)
    {
      if Alfa(b, x, c.minY) >= ALFA_OPACO {
        soma := soma + (x - c.minX);
        n := n + 1;
      }
    }
    if n == 0 {
      return 0.0, 0.0;
    }
    centro, largura := soma as real / n as real / (bw - 1) as real, n as real / bw as real;
  }

  lemma FloorDiv(m: int)
    ensures (m as real / 128.0).Floor == m / 128
  {
    var q, r := m / 128, m % 128;
    assert m as real == 128.0 * q as real + r as real;
    assert m as real / 128.0 == q as real + r as real / 128.0;
  }

  /** The source's real arithmetic lands on Sample, and inside the box. */
  lemma SampleExact(g: int, s: int, n: int)
    requires 0 <= g < 16 && 0 <= s < 4 && 0 < n
    ensures var u := (g as real + (s as real + 0.5) / 4.0) / 16.0;
            (u * n as real).Floor == Sample(4 * g + s, n)
    ensures 0 <= Sample(4 * g + s, n) < n
  {
    var k := 2 * (4 * g + s) + 1;
    var u := (g as real + (s as real + 0.5) / 4.0) / 16.0;
    assert u == k as real / 128.0;
    assert u * n as real == (k * n) as real / 128.0;
    FloorDiv(k * n);
    SampleInside(4 * g + s, n);
  }

  lemma Scales(a: int, b: int, n: int)
    requires a <= b && 0 < n
    ensures a * n <= b * n
  {
    assert 0 <= (b - a) * n;
  }

  lemma SampleInside(i: int, n: int)
    requires 0 <= i < 64 && 0 < n
    ensures 0 <= Sample(i, n) < n
  {
    Scales(2 * i + 1, 127, n);
    Scales(0, 2 * i + 1, n);
  }

  /** The pixel a sample falls on, kept inside the box. */
  method Coordenada(min: int, max: int, g: int, amostra: int, ghost coords: seq<int>) returns (p: int)
    requires min <= max && 0 <= g < 16 && 0 <= amostra < 4 && coords == Coords(min, max)
    ensures p == coords[4 * g + amostra] && min <= p <= max
  {
    SampleExact(g, amostra, max - min + 1);
    var u := (g as real + (amostra as real + 0.5) / 4.0) / 16.0;
    p := min + (u * (max - min + 1) as real).Floor;
    if p > max {
      p := max;
    }
  }

  /** The innermost loop of preencherGrade: four samples of one line. */
  method ContarLinha(b: Bitmap, c: Caixa, gx: int, py: int, ghost cols: seq<int>) returns (opacos: int)
    requires Usable(b) && 0 <= c.minX <= c.maxX < b.w && 0 <= py < b.h && 0 <= gx < 16
    requires cols == Coords(c.minX, c.maxX)
    ensures opacos == RowHits(b, Four(cols, gx), py)
  {
    ghost var xs := Four(cols, gx);
    opacos := 0;
    for sx := 0 to 4
      invariant opacos == RowHits(b, xs[..sx], py)
    {
      var px := Coordenada(c.minX, c.maxX, gx, sx, cols);
      if Alfa(b, px, py) >= ALFA_OPACO {
        opacos := opacos + 1;
      }
      assert xs[..sx + 1][..sx] == xs[..sx] && xs[sx] == px;
    }
    assert xs[..4] == xs;
  }

  /** The loop around it: one cell. */
  method ContarCelula(b: Bitmap, c: Caixa, gx: int, gy: int, ghost cols: seq<int>, ghost rows: seq<int>)
    returns (opacos: int)
    requires Usable(b) && 0 <= c.minX <= c.maxX < b.w && 0 <= c.minY <= c.maxY < b.h && 0 <= gx < 16 && 0 <= gy < 16
    requires cols == Coords(c.minX, c.maxX) && rows == Coords(c.minY, c.maxY)
    ensures opacos == Hits(b, Four(cols, gx), Four(rows, gy))
  {
    ghost var ys := Four(rows, gy);
    opacos := 0;
    for sy := 0 to 4
      invariant opacos == Hits(b, Four(cols, gx), ys[..sy])
    {
      var py := Coordenada(c.minY, c.maxY, gy, sy, rows);
      var linha := ContarLinha(b, c, gx, py, cols);
      assert ys[..sy + 1][..sy] == ys[..sy] && ys[sy] == py;
      opacos := opacos + linha;
    }
    assert ys[..4] == ys;
  }

  method PreencherGrade(b: Bitmap, c: Caixa) returns (grade: Grade)
    requires Bounds(b, c)
    ensures c.minX <= c.maxX && c.minY <= c.maxY && grade == GridOf(b, c)
  {
    BoundsInside(b, c);
    ghost var cols, rows := Coords(c.minX, c.maxX), Coords(c.minY, c.maxY);
    ghost var want := GridOf(b, c);
    var linhas: seq<seq<real>> := [];
    for gy := 0 to 16
      invariant |linhas| == gy && forall y :: 0 <= y < gy ==> linhas[y] == want[y]
    {
      var linha: seq<real> := [];
      for gx := 0 to 16
        invariant |linha| == gx && forall x :: 0 <= x < gx ==> linha[x] == Cell(want, x, gy)
      {
        var opacos := ContarCelula(b, c, gx, gy, cols, rows);
        linha := linha + [opacos as real / 16.0];
      }
      assert linha == want[gy];
      linhas := linhas + [linha];
    }
    assert linhas == want;
    grade := linhas;
  }

  /** medirForma: ok exactly when the mask is readable and has an opaque pixel. */
  method MedirForma(xhot: int, yhot: int, b: Bitmap) returns (f: Forma, ok: bool)
    ensures ok <==> exists x, y :: Opaque(b, x, y)
    ensures ok ==> Measured(b, xhot, yhot, f)
  {
    f := Forma(b.w, b.h, Caixa(b.w, b.h, -1, -1), 0, xhot, yhot, 0.0, 0.0, []);
    if b.w <= 0 || b.h <= 0 || |b.mask| < b.w * b.h {
      return f, false;
    }
    var c, opacos := MedirCaixa(b);
    if opacos == 0 {
      return f, false;
    }
    var centro, largura := MedidasDaPrimeiraLinha(b, c);
    var grade := PreencherGrade(b, c);
    f := Forma(b.w, b.h, c, opacos, xhot, yhot, centro, largura, grade);
    ok := true;
  }

  // ------------------------------------------------------------ the decision

  datatype Cursor =
    | Default | Progress | Pointer | EastWest | NorthSouth | Text | Wait | Crosshair | AllScroll
    | NorthWestSouthEast | NorthEastSouthWest

  function Aspecto(f: Forma): real {
    if f.caixa.Bh() <= 0 then 0.0 else f.caixa.Bw() as real / f.caixa.Bh() as real
  }

  function Preenchimento(f: Forma): real {
    var a := f.caixa.Bw() * f.caixa.Bh();
    if a <= 0 then 0.0 else f.opacos as real / a as real
  }

  /** The hotspot relative to the box; the third component is false when it falls well outside. */
  function HotRel(f: Forma): (real, real, bool) {
    var bw, bh := f.caixa.Bw(), f.caixa.Bh();
    if bw <= 1 || bh <= 1 then (0.0, 0.0, false)
    else
      var x := (f.hotX - f.caixa.minX) as real / (bw - 1) as real;
      var y := (f.hotY - f.caixa.minY) as real / (bh - 1) as real;
      if x < -0.2 || x > 1.2 || y < -0.2 || y > 1.2 then (0.0, 0.0, false) else (x, y, true)
  }

  function FamiliaSeta(f: Forma): Cursor {
    if Aspecto(f) >= SETA_LARGA then Progress else Default
  }

  /** Two mirrored, two crossed symmetries, proportion, fill and first line of a centred cursor. */
  function Centrada(simH: real, simV: real, simD: real, simA: real, corr: real,
                    asp: real, cheio: real, larguraTopo: real): Cursor
  {
    if simH < 0.72 && simV < 0.72 && simD >= 0.72 && simA >= 0.72 then
      if corr >= 0.0 then NorthWestSouthEast else NorthEastSouthWest
    else if simH >= 0.72 && simV >= 0.72 then
      if asp >= 1.55 then EastWest
      else if asp <= 0.66 then (if larguraTopo >= 0.6 then Text else NorthSouth)
      else if simD >= 0.72 && simA >= 0.72 then
        (if cheio >= 0.45 then Wait else if cheio <= 0.24 then Crosshair else AllScroll)
      else Wait
    else Pointer
  }

  function FamiliaCentrada(f: Forma): Cursor {
    Centrada(Semelhanca(f.grade, SimH), Semelhanca(f.grade, SimV), Semelhanca(f.grade, SimDiag),
             Semelhanca(f.grade, SimAnti), Correlacao(f.grade), Aspecto(f), Preenchimento(f), f.larguraTopo)
  }

  function CursorDe(f: Forma): Cursor {
    var (hx, hy, temHot) := HotRel(f);
    var naQuina := temHot && hx <= 0.28 && hy <= 0.28;
    var bicoNaEsquerda := f.topoCentro <= 0.18 && Aspecto(f) <= 1.1;
    if naQuina || (!temHot && bicoNaEsquerda) then FamiliaSeta(f)
    else if temHot && hy <= 0.35 && hx > 0.28 && hx <= 0.65 && Aspecto(f) <= 1.35 then Pointer
    else FamiliaCentrada(f)
  }

  /** A mask without information, all opaque or nearly empty, is the default cursor. */
  function Decide(f: Forma): Cursor {
    if f.opacos >= f.w * f.h || f.opacos < 4 then Default else CursorDe(f)
  }

  lemma BoundsUnique(b: Bitmap, c: Caixa, d: Caixa)
    requires Bounds(b, c) && Bounds(b, d)
    ensures c == d
  {
    var y0 :| Opaque(b, c.minX, y0);
    var y1 :| Opaque(b, c.maxX, y1);
    var x0 :| Opaque(b, x0, c.minY);
    var x1 :| Opaque(b, x1, c.maxY);
    var v0 :| Opaque(b, d.minX, v0);
    var v1 :| Opaque(b, d.maxX, v1);
    var u0 :| Opaque(b, u0, d.minY);
    var u1 :| Opaque(b, u1, d.maxY);
  }

  /** classificar: a drawing has one form, so one cursor, whatever came before it. */
  method Classificar(xhot: int, yhot: int, b: Bitmap) returns (c: Cursor)
    ensures (forall x, y :: !Opaque(b, x, y)) ==> c == Default
    ensures forall f :: Measured(b, xhot, yhot, f) ==> c == Decide(f)
  {
    var f, ok := MedirForma(xhot, yhot, b);
    if !ok {
      return Default;
    }
    forall g | Measured(b, xhot, yhot, g)
      ensures g == f
    {
      BoundsUnique(b, f.caixa, g.caixa);
    }
    if f.opacos >= f.w * f.h || f.opacos < 4 {
      return Default;
    }
    c := CursorDe(f);
  }
}

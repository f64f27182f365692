/** The measures taken on the square coverage grid of a cursor: four symmetries
    and a correlation (cmd/acessos/cursorforma.go), in exact reals. The source's
    grid is 16 by 16; nothing here depends on the side. */
module CursorGrid {
  import opened RealSums

  /** Rows of coverage per cell. */
  type Grade = g: seq<seq<real>> | forall y :: 0 <= y < |g| ==> |g[y]| == |g| witness []

  function Cell(g: Grade, x: int, y: int): real {
    if 0 <= x < |g| && 0 <= y < |g| then g[y][x] else 0.0
  }

  ghost predicate Coverage(g: Grade) {
    forall x, y :: 0 <= x < |g| && 0 <= y < |g| ==> 0.0 <= Cell(g, x, y)
  }

  /** The grid seen in a left-right mirror. */
  function Mirror(g: Grade): (m: Grade)
    ensures |m| == |g|
    ensures forall x, y :: 0 <= x < |g| && 0 <= y < |g| ==> Cell(m, x, y) == Cell(g, |g| - 1 - x, y)
  {
    seq(|g|, y requires 0 <= y < |g| => seq(|g|, x requires 0 <= x < |g| => g[y][|g| - 1 - x]))
  }

  // ------------------------------------------------------------ symmetries

  datatype Simetria = SimH | SimV | SimDiag | SimAnti

  function Trocar(n: nat, s: Simetria, x: int, y: int): (int, int) {
    match s
    case SimH => (n - 1 - x, y)
    case SimV => (x, n - 1 - y)
    case SimDiag => (y, x)
    case SimAnti => (n - 1 - y, n - 1 - x)
  }

  function Partner(g: Grade, s: Simetria, x: int, y: int): real {
    Cell(g, Trocar(|g|, s, x, y).0, Trocar(|g|, s, x, y).1)
  }

  function Abs(a: real): real {
    if a < 0.0 then -a else a
  }

  function DifAt(g: Grade, s: Simetria, x: int, y: int): real {
    Abs(Cell(g, x, y) - Partner(g, s, x, y))
  }

  function Dif(g: Grade, s: Simetria): Field {
    (x, y) => DifAt(g, s, x, y)
  }

  function SomaAt(g: Grade, s: Simetria, x: int, y: int): real {
    Cell(g, x, y) + Partner(g, s, x, y)
  }

  function Soma(g: Grade, s: Simetria): Field {
    (x, y) => SomaAt(g, s, x, y)
  }

  function Semelhanca(g: Grade, s: Simetria): real {
    var dif, soma := Total(Dif(g, s), |g|, |g|), Total(Soma(g, s), |g|, |g|);
    if soma == 0.0 then 1.0 else 1.0 - dif / soma
  }

  method MedirSemelhanca(g: Grade, s: Simetria) returns (r: real)
    ensures r == Semelhanca(g, s)
  {
    var dif, soma := 0.0, 0.0;
    for y := 0 to |g|
      invariant dif == Total(Dif(g, s), |g|, y) && soma == Total(Soma(g, s), |g|, y)
    {
      for x := 0 to |g|
        invariant dif == Total(Dif(g, s), |g|, y) + Row(Dif(g, s), y, x)
        invariant soma == Total(Soma(g, s), |g|, y) + Row(Soma(g, s), y, x)
      {
        var (tx, ty) := Trocar(|g|, s, x, y);
        var a, b := Cell(g, x, y), Cell(g, tx, ty);
        var d := a - b;
        if d < 0.0 {
          d := -d;
        }
        assert d == DifAt(g, s, x, y) && a + b == SomaAt(g, s, x, y);
        dif := dif + d;
        soma := soma + (a + b);
      }
    }
    if soma == 0.0 {
      return 1.0;
    }
    r := 1.0 - dif / soma;
  }

  /** Every cell equals its partner. */
  ghost predicate Symmetric(g: Grade, s: Simetria) {
    forall x, y :: 0 <= x < |g| && 0 <= y < |g| ==> Cell(g, x, y) == Partner(g, s, x, y)
  }

  lemma PartnerInside(g: Grade, s: Simetria, x: int, y: int)
    requires Coverage(g) && 0 <= x < |g| && 0 <= y < |g|
    ensures 0.0 <= Cell(g, x, y) && 0.0 <= Partner(g, s, x, y)
  {
  }

  lemma DifferenceAt(g: Grade, s: Simetria, x: int, y: int)
    requires Coverage(g) && 0 <= x < |g| && 0 <= y < |g|
    ensures 0.0 <= DifAt(g, s, x, y) <= SomaAt(g, s, x, y)
    ensures DifAt(g, s, x, y) == 0.0 <==> Cell(g, x, y) == Partner(g, s, x, y)
  {
    PartnerInside(g, s, x, y);
  }

  lemma DifferenceSums(g: Grade, s: Simetria)
    requires Coverage(g)
    ensures 0.0 <= Total(Dif(g, s), |g|, |g|) <= Total(Soma(g, s), |g|, |g|)
  {
    var d, t := Dif(g, s), Soma(g, s);
    forall x, y | 0 <= x < |g| && 0 <= y < |g|
      ensures 0.0 <= d(x, y) <= t(x, y)
    {
      DifferenceAt(g, s, x, y);
    }
    TotalNonNegative(d, |g|, |g|);
    TotalOrdered(d, t, |g|, |g|);
  }

  lemma NoDifference(g: Grade, s: Simetria)
    requires Coverage(g)
    ensures Total(Dif(g, s), |g|, |g|) == 0.0 <==> Symmetric(g, s)
  {
    var d := Dif(g, s);
    forall x, y | 0 <= x < |g| && 0 <= y < |g|
      ensures 0.0 <= d(x, y)
      ensures d(x, y) == 0.0 <==> Cell(g, x, y) == Partner(g, s, x, y)
    {
      DifferenceAt(g, s, x, y);
    }
    TotalNonNegative(d, |g|, |g|);
  }

  /** A similarity lies in [0, 1], and is 1 exactly for a symmetric grid. */
  lemma SimilarityRange(g: Grade, s: Simetria)
    requires Coverage(g)
    ensures 0.0 <= Semelhanca(g, s) <= 1.0
    ensures Semelhanca(g, s) == 1.0 <==> Symmetric(g, s)
  {
    DifferenceSums(g, s);
    NoDifference(g, s);
    var dif, soma := Total(Dif(g, s), |g|, |g|), Total(Soma(g, s), |g|, |g|);
    if soma != 0.0 {
      Ratio(dif, soma);
    }
  }

  lemma Ratio(a: real, b: real)
    requires 0.0 <= a <= b && 0.0 < b
    ensures 0.0 <= a / b <= 1.0
    ensures a / b == 0.0 <==> a == 0.0
  {
    assert a / b * b == a;
  }

  /** The symmetry a mirrored grid has where the grid has s. */
  function Seen(s: Simetria): Simetria {
    match s
    case SimH => SimH
    case SimV => SimV
    case SimDiag => SimAnti
    case SimAnti => SimDiag
  }

  lemma PartnerMirrored(g: Grade, s: Simetria, x: int, y: int)
    requires 0 <= x < |g| && 0 <= y < |g|
    ensures Cell(Mirror(g), x, y) == Cell(g, |g| - 1 - x, y)
    ensures Partner(Mirror(g), s, x, y) == Partner(g, Seen(s), |g| - 1 - x, y)
  {
  }

  lemma CellsMirrored(g: Grade, s: Simetria, x: int, y: int)
    requires 0 <= x < |g| && 0 <= y < |g|
    ensures DifAt(Mirror(g), s, x, y) == DifAt(g, Seen(s), |g| - 1 - x, y)
    ensures SomaAt(Mirror(g), s, x, y) == SomaAt(g, Seen(s), |g| - 1 - x, y)
  {
    PartnerMirrored(g, s, x, y);
  }

  lemma FieldsFlipped(g: Grade, s: Simetria)
    ensures Flipped(Dif(g, Seen(s)), Dif(Mirror(g), s), |g|)
    ensures Flipped(Soma(g, Seen(s)), Soma(Mirror(g), s), |g|)
  {
    forall x, y | 0 <= x < |g| && 0 <= y < |g|
      ensures Dif(Mirror(g), s)(x, y) == Dif(g, Seen(s))(|g| - 1 - x, y)
      ensures Soma(Mirror(g), s)(x, y) == Soma(g, Seen(s))(|g| - 1 - x, y)
    {
      CellsMirrored(g, s, x, y);
    }
  }

  /** In the mirror the upright symmetries stay and the two diagonals change places. */
  lemma SimilarityMirrored(g: Grade, s: Simetria)
    ensures Semelhanca(Mirror(g), s) == Semelhanca(g, Seen(s))
  {
    FieldsFlipped(g, s);
    TotalFlipped(Dif(g, Seen(s)), Dif(Mirror(g), s), |g|);
    TotalFlipped(Soma(g, Seen(s)), Soma(Mirror(g), s), |g|);
  }

  // ------------------------------------------------------------ square root

  function Step(v: real, x: real): real
    requires x != 0.0
  {
    (x + v / x) / 2.0
  }

  function Newton(v: real, x: real, n: nat): (r: real)
    requires 0.0 < v && 0.0 < x
    ensures 0.0 < r
    ensures 1 <= n ==> v <= r * r
  {
    if n == 0 then x
    else
      var before := Newton(v, x, n - 1);
      NewtonStep(v, before);
      Step(v, before)
  }

  /** The arithmetic mean of x and v/x is at least their geometric mean. */
  lemma NewtonStep(v: real, x: real)
    requires 0.0 < v && 0.0 < x
    ensures 0.0 < Step(v, x) && v <= Step(v, x) * Step(v, x)
  {
    var q := v / x;
    assert q * x == v;
    assert 0.0 < q;
    assert (x + q) * (x + q) - 4.0 * (q * x) == (x - q) * (x - q);
    var next := (x + q) / 2.0;
    Square(x - q);
    assert 4.0 * (next * next) == (x + q) * (x + q);
  }

  /** How far a step is from the root: its square misses v by the square of half
      the gap between x and v/x. */
  lemma StepMisses(v: real, x: real)
    requires 0.0 < v && 0.0 < x
    ensures Step(v, x) * Step(v, x) - v == (x - v / x) / 2.0 * ((x - v / x) / 2.0)
  {
    var q := v / x;
    assert q * x == v;
    var a, b := x / 2.0, q / 2.0;
    assert (a + b) * (a + b) - (a - b) * (a - b) == 4.0 * (a * b);
    assert 4.0 * (a * b) == q * x;
    assert (x + q) / 2.0 == a + b && (x - q) / 2.0 == a - b;
  }

  /** From above the root a step comes down, and at least halves the gap. */
  lemma StepCloses(v: real, x: real)
    requires 0.0 < v && 0.0 < x && v <= x * x
    ensures 0.0 < Step(v, x) <= x
    ensures 0.0 <= Step(v, x) - v / Step(v, x) <= (x - v / x) / 2.0
  {
    NewtonStep(v, x);
    var q, n := v / x, Step(v, x);
    assert q * x == v && 0.0 < q;
    QuotientOrder(v, x, x);
    QuotientOrder(v, n, n);
    QuotientAntitone(v, n, x);
  }

  lemma QuotientOrder(v: real, x: real, y: real)
    requires 0.0 < x && v <= y * x
    ensures v / x <= y
  {
    var q := v / x;
    assert q * x == v;
    if q > y {
      PositiveProduct(q - y, x);
    }
  }

  lemma QuotientAntitone(v: real, x: real, y: real)
    requires 0.0 < v && 0.0 < x <= y
    ensures v / y <= v / x
  {
    var q := v / x;
    assert q * x == v && 0.0 < q;
    ProductOrder(q, q, x, y);
    QuotientOrder(v, y, q);
  }

  function Halved(d: real, n: nat): real {
    if n == 0 then d else Halved(d, n - 1) / 2.0
  }

  /** The root lies between v/x and x, and n steps after the first the gap
      between them is at most the first one's halved n times. */
  lemma {:induction false} NewtonCloses(v: real, x: real, n: nat)
    requires 0.0 < v && 0.0 < x
    ensures var a, b := Newton(v, x, 1), Newton(v, x, n + 1);
            0.0 <= b - v / b <= Halved(a - v / a, n)
  {
    if n == 0 {
      var a := Newton(v, x, 1);
      QuotientOrder(v, a, a);
    } else {
      NewtonCloses(v, x, n - 1);
      StepCloses(v, Newton(v, x, n));
    }
  }

  /** The gap after the first step, which starts from v itself. */
  function FirstGap(v: real): real
    requires 0.0 < v
  {
    (v + 1.0) / 2.0 - v / ((v + 1.0) / 2.0)
  }

  lemma FirstStep(v: real)
    requires 0.0 < v
    ensures Newton(v, v, 1) == (v + 1.0) / 2.0
  {
    assert v / v == 1.0;
  }

  const PASSOS: nat := 20

  function SqrtOf(v: real): real {
    if v <= 0.0 then 0.0 else Newton(v, v, PASSOS)
  }

  /** Twenty Newton steps from v itself: never below the true root. */
  method Sqrt(v: real) returns (x: real)
    ensures x == SqrtOf(v)
    ensures v <= 0.0 ==> x == 0.0
    ensures 0.0 < v ==> 0.0 < x && v <= x * x
    ensures 0.0 < v ==> x - v / x <= Halved(FirstGap(v), 19)
  {
    if v <= 0.0 {
      return 0.0;
    }
    FirstStep(v);
    NewtonCloses(v, v, PASSOS - 1);
    x := v;
    for i := 0 to PASSOS
      invariant 0.0 < x && x == Newton(v, v, i)
    {
      x := Step(v, x);
    }
  }

  // ------------------------------------------------------------ correlation

  function Mass(g: Grade): Field {
    (x, y) => Cell(g, x, y)
  }

  function MassXAt(g: Grade, x: int, y: int): real {
    Cell(g, x, y) * (x as real)
  }

  function MassX(g: Grade): Field {
    (x, y) => MassXAt(g, x, y)
  }

  function MassYAt(g: Grade, x: int, y: int): real {
    Cell(g, x, y) * (y as real)
  }

  function MassY(g: Grade): Field {
    (x, y) => MassYAt(g, x, y)
  }

  function VarXYAt(g: Grade, mx: real, my: real, x: int, y: int): real {
    Cell(g, x, y) * (x as real - mx) * (y as real - my)
  }

  function VarXY(g: Grade, mx: real, my: real): Field {
    (x, y) => VarXYAt(g, mx, my, x, y)
  }

  function VarXXAt(g: Grade, mx: real, x: int, y: int): real {
    Cell(g, x, y) * (x as real - mx) * (x as real - mx)
  }

  function VarXX(g: Grade, mx: real): Field {
    (x, y) => VarXXAt(g, mx, x, y)
  }

  function VarYYAt(g: Grade, my: real, x: int, y: int): real {
    Cell(g, x, y) * (y as real - my) * (y as real - my)
  }

  function VarYY(g: Grade, my: real): Field {
    (x, y) => VarYYAt(g, my, x, y)
  }

  function Sum(f: Field, n: nat): real {
    Total(f, n, n)
  }

  function MeanX(g: Grade): real
    requires Sum(Mass(g), |g|) != 0.0
  {
    Sum(MassX(g), |g|) / Sum(Mass(g), |g|)
  }

  function MeanY(g: Grade): real
    requires Sum(Mass(g), |g|) != 0.0
  {
    Sum(MassY(g), |g|) / Sum(Mass(g), |g|)
  }

  function CorrelationAbout(g: Grade, mx: real, my: real): real {
    Quotient(Sum(VarXY(g, mx, my), |g|), Sum(VarXX(g, mx), |g|), Sum(VarYY(g, my), |g|))
  }

  function Correlacao(g: Grade): real {
    if Sum(Mass(g), |g|) == 0.0 then 0.0 else CorrelationAbout(g, MeanX(g), MeanY(g))
  }

  function Quotient(vxy: real, vxx: real, vyy: real): real {
    if vxx <= 0.0 || vyy <= 0.0 then 0.0
    else
      PositiveProduct(vxx, vyy);
      vxy / SqrtOf(vxx * vyy)
  }

  method MedirMomentos(g: Grade) returns (peso: real, somaX: real, somaY: real)
    ensures peso == Sum(Mass(g), |g|) && somaX == Sum(MassX(g), |g|) && somaY == Sum(MassY(g), |g|)
  {
    peso, somaX, somaY := 0.0, 0.0, 0.0;
    for y := 0 to |g|
      invariant peso == Total(Mass(g), |g|, y)
      invariant somaX == Total(MassX(g), |g|, y) && somaY == Total(MassY(g), |g|, y)
    {
      for x := 0 to |g|
        invariant peso == Total(Mass(g), |g|, y) + Row(Mass(g), y, x)
        invariant somaX == Total(MassX(g), |g|, y) + Row(MassX(g), y, x)
        invariant somaY == Total(MassY(g), |g|, y) + Row(MassY(g), y, x)
      {
        peso := peso + Cell(g, x, y);
        somaX := somaX + MassXAt(g, x, y);
        somaY := somaY + MassYAt(g, x, y);
      }
    }
  }

  method MedirVariancias(g: Grade, mx: real, my: real) returns (vxy: real, vxx: real, vyy: real)
    ensures vxy == Sum(VarXY(g, mx, my), |g|) && vxx == Sum(VarXX(g, mx), |g|) && vyy == Sum(VarYY(g, my), |g|)
  {
    vxy, vxx, vyy := 0.0, 0.0, 0.0;
    for y := 0 to |g|
      invariant vxy == Total(VarXY(g, mx, my), |g|, y)
      invariant vxx == Total(VarXX(g, mx), |g|, y) && vyy == Total(VarYY(g, my), |g|, y)
    {
      for x := 0 to |g|
        invariant vxy == Total(VarXY(g, mx, my), |g|, y) + Row(VarXY(g, mx, my), y, x)
        invariant vxx == Total(VarXX(g, mx), |g|, y) + Row(VarXX(g, mx), y, x)
        invariant vyy == Total(VarYY(g, my), |g|, y) + Row(VarYY(g, my), y, x)
      {
        vxy := vxy + VarXYAt(g, mx, my, x, y);
        vxx := vxx + VarXXAt(g, mx, x, y);
        vyy := vyy + VarYYAt(g, my, x, y);
      }
    }
  }

  method MedirCorrelacao(g: Grade) returns (r: real)
    ensures r == Correlacao(g)
  {
    var peso, somaX, somaY := MedirMomentos(g);
    if peso == 0.0 {
      return 0.0;
    }
    var mx, my := somaX / peso, somaY / peso;
    var vxy, vxx, vyy := MedirVariancias(g, mx, my);
    r := Dividir(vxy, vxx, vyy);
  }

  /** The last lines of correlacao. */
  method Dividir(vxy: real, vxx: real, vyy: real) returns (r: real)
    ensures r == Quotient(vxy, vxx, vyy)
  {
    if vxx <= 0.0 || vyy <= 0.0 {
      return 0.0;
    }
    PositiveProduct(vxx, vyy);
    var raiz := Sqrt(vxx * vyy);
    r := vxy / raiz;
  }

  lemma WeightedProduct(c: real, dx: real, dy: real)
    requires 0.0 <= c
    ensures Dominated(c * dx * dx, c * dy * dy, c * dx * dy)
  {
    Square(dx);
    Square(dy);
    assert c * dx * dx == c * (dx * dx) && c * dy * dy == c * (dy * dy);
    assert (c * dx * dy) * (c * dx * dy) == (c * dx * dx) * (c * dy * dy);
  }

  lemma Square(a: real)
    ensures 0.0 <= a * a
  {
  }

  lemma QuotientRange(vxy: real, vxx: real, vyy: real)
    requires Dominated(vxx, vyy, vxy)
    ensures -1.0 <= Quotient(vxy, vxx, vyy) <= 1.0
    ensures Quotient(-vxy, vxx, vyy) == -Quotient(vxy, vxx, vyy)
  {
    if vxx > 0.0 && vyy > 0.0 {
      PositiveProduct(vxx, vyy);
      var root := SqrtOf(vxx * vyy);
      SquareOrder(vxy, root);
      assert (-vxy) * (-vxy) == vxy * vxy;
      SquareOrder(-vxy, root);
      Fraction(vxy, root);
    }
  }

  /** The correlation has the sign of the covariance, and understates nothing but
      by the root's error: times the computed root it is the covariance. */
  lemma QuotientSign(vxy: real, vxx: real, vyy: real)
    requires 0.0 < vxx && 0.0 < vyy
    ensures 0.0 < SqrtOf(vxx * vyy) && Quotient(vxy, vxx, vyy) * SqrtOf(vxx * vyy) == vxy
    ensures (0.0 < Quotient(vxy, vxx, vyy) <==> 0.0 < vxy) && (Quotient(vxy, vxx, vyy) < 0.0 <==> vxy < 0.0)
  {
    PositiveProduct(vxx, vyy);
    var root, r := SqrtOf(vxx * vyy), Quotient(vxy, vxx, vyy);
    assert r * root == vxy;
    if 0.0 < r {
      PositiveProduct(r, root);
    } else if r < 0.0 {
      PositiveProduct(-r, root);
    }
  }

  lemma DivisionIs(a: real, b: real, q: real)
    requires b != 0.0 && q * b == a
    ensures a / b == q
  {
  }

  lemma Fraction(a: real, b: real)
    requires 0.0 < b && -b <= a <= b
    ensures -1.0 <= a / b <= 1.0 && (-a) / b == -(a / b)
  {
    var q := a / b;
    assert q * b == a;
    if q > 1.0 {
      PositiveProduct(q - 1.0, b);
    } else if q < -1.0 {
      PositiveProduct(-1.0 - q, b);
    }
    DivisionIs(-a, b, -q);
  }

  lemma VariancesDominate(g: Grade, mx: real, my: real)
    requires Coverage(g)
    ensures Dominated(Sum(VarXX(g, mx), |g|), Sum(VarYY(g, my), |g|), Sum(VarXY(g, mx, my), |g|))
  {
    forall x, y | 0 <= x < |g| && 0 <= y < |g|
      ensures Dominated(VarXX(g, mx)(x, y), VarYY(g, my)(x, y), VarXY(g, mx, my)(x, y))
    {
      WeightedProduct(Cell(g, x, y), x as real - mx, y as real - my);
    }
    CauchySchwarz(VarXX(g, mx), VarYY(g, my), VarXY(g, mx, my), |g|, |g|, |g|);
  }

  /** The correlation of any coverage grid lies in [-1, 1]. */
  lemma CorrelationRange(g: Grade)
    requires Coverage(g)
    ensures -1.0 <= Correlacao(g) <= 1.0
  {
    var peso := Sum(Mass(g), |g|);
    if peso != 0.0 {
      var mx, my := MeanX(g), MeanY(g);
      VariancesDominate(g, mx, my);
      QuotientRange(Sum(VarXY(g, mx, my), |g|), Sum(VarXX(g, mx), |g|), Sum(VarYY(g, my), |g|));
    }
  }

  /** The last column as a real coordinate. */
  function Last(g: Grade): real {
    (|g| - 1) as real
  }

  function BackAt(g: Grade, x: int, y: int): real {
    Cell(g, x, y) * (Last(g) - x as real)
  }

  /** Two fields whose combination the third is. */
  ghost predicate Linear(f: Field, g: Field, h: Field, a: real, b: real, n: nat) {
    forall x, y :: 0 <= x < n && 0 <= y < n ==> h(x, y) == a * f(x, y) + b * g(x, y)
  }

  lemma SumLinear(f: Field, g: Field, h: Field, a: real, b: real, n: nat)
    requires Linear(f, g, h, a, b, n)
    ensures Sum(h, n) == a * Sum(f, n) + b * Sum(g, n)
  {
    TotalLinear(f, g, h, a, b, n, n);
  }

  function Back(g: Grade): Field {
    (x, y) => BackAt(g, x, y)
  }

  lemma MassFlipped(g: Grade)
    ensures Flipped(Mass(g), Mass(Mirror(g)), |g|) && Flipped(MassY(g), MassY(Mirror(g)), |g|)
    ensures Flipped(Back(g), MassX(Mirror(g)), |g|)
    ensures Linear(Mass(g), MassX(g), Back(g), Last(g), -1.0, |g|)
  {
  }

  /** The first moments of a mirrored grid. */
  lemma MomentsMirrored(g: Grade)
    ensures Sum(Mass(Mirror(g)), |g|) == Sum(Mass(g), |g|) && Sum(MassY(Mirror(g)), |g|) == Sum(MassY(g), |g|)
    ensures Sum(MassX(Mirror(g)), |g|) == Last(g) * Sum(Mass(g), |g|) - Sum(MassX(g), |g|)
  {
    MassFlipped(g);
    TotalFlipped(Mass(g), Mass(Mirror(g)), |g|);
    TotalFlipped(MassY(g), MassY(Mirror(g)), |g|);
    TotalFlipped(Back(g), MassX(Mirror(g)), |g|);
    SumLinear(Mass(g), MassX(g), Back(g), Last(g), -1.0, |g|);
  }

  /** Deviations about a mirrored mean. */
  lemma DeviationsMirrored(g: Grade, mx: real, my: real, x: int, y: int)
    requires 0 <= x < |g| && 0 <= y < |g|
    ensures VarXXAt(Mirror(g), Last(g) - mx, x, y) == VarXXAt(g, mx, |g| - 1 - x, y)
    ensures VarYYAt(Mirror(g), my, x, y) == VarYYAt(g, my, |g| - 1 - x, y)
    ensures VarXYAt(Mirror(g), Last(g) - mx, my, x, y) == -VarXYAt(g, mx, my, |g| - 1 - x, y)
  {
    Opposite(Cell(Mirror(g), x, y), x as real - (Last(g) - mx), (|g| - 1 - x) as real - mx, y as real - my);
  }

  function Negated(f: Field): Field {
    (x, y) => -f(x, y)
  }

  lemma DeviationsFlipped(g: Grade, mx: real, my: real)
    ensures Flipped(VarXX(g, mx), VarXX(Mirror(g), Last(g) - mx), |g|)
    ensures Flipped(VarYY(g, my), VarYY(Mirror(g), my), |g|)
    ensures Flipped(Negated(VarXY(g, mx, my)), VarXY(Mirror(g), Last(g) - mx, my), |g|)
    ensures Linear(VarXY(g, mx, my), VarXY(g, mx, my), Negated(VarXY(g, mx, my)), -1.0, 0.0, |g|)
  {
    forall x, y | 0 <= x < |g| && 0 <= y < |g|
      ensures VarXX(Mirror(g), Last(g) - mx)(x, y) == VarXX(g, mx)(|g| - 1 - x, y)
      ensures VarYY(Mirror(g), my)(x, y) == VarYY(g, my)(|g| - 1 - x, y)
      ensures VarXY(Mirror(g), Last(g) - mx, my)(x, y) == Negated(VarXY(g, mx, my))(|g| - 1 - x, y)
    {
      DeviationsMirrored(g, mx, my, x, y);
    }
  }

  /** About a mirrored mean the variances stay and the covariance changes sign. */
  lemma VariancesMirrored(g: Grade, mx: real, my: real)
    ensures Sum(VarXX(Mirror(g), Last(g) - mx), |g|) == Sum(VarXX(g, mx), |g|)
    ensures Sum(VarYY(Mirror(g), my), |g|) == Sum(VarYY(g, my), |g|)
    ensures Sum(VarXY(Mirror(g), Last(g) - mx, my), |g|) == -Sum(VarXY(g, mx, my), |g|)
  {
    var xy := VarXY(g, mx, my);
    DeviationsFlipped(g, mx, my);
    TotalFlipped(VarXX(g, mx), VarXX(Mirror(g), Last(g) - mx), |g|);
    TotalFlipped(VarYY(g, my), VarYY(Mirror(g), my), |g|);
    TotalFlipped(Negated(xy), VarXY(Mirror(g), Last(g) - mx, my), |g|);
    SumLinear(xy, xy, Negated(xy), -1.0, 0.0, |g|);
  }

  lemma Opposite(c: real, d: real, e: real, f: real)
    requires d == -e
    ensures c * d * d == c * e * e && c * d * f == -(c * e * f)
  {
  }

  lemma QuotientMirrored(g: Grade, mx: real, my: real)
    requires Coverage(g)
    ensures CorrelationAbout(Mirror(g), Last(g) - mx, my) == -CorrelationAbout(g, mx, my)
  {
    VariancesMirrored(g, mx, my);
    VariancesDominate(g, mx, my);
    QuotientRange(Sum(VarXY(g, mx, my), |g|), Sum(VarXX(g, mx), |g|), Sum(VarYY(g, my), |g|));
  }

  lemma MeansMirrored(g: Grade)
    requires Sum(Mass(g), |g|) != 0.0
    ensures Sum(Mass(Mirror(g)), |g|) != 0.0
    ensures MeanX(Mirror(g)) == Last(g) - MeanX(g) && MeanY(Mirror(g)) == MeanY(g)
  {
    MomentsMirrored(g);
    MeanMirrored(Sum(MassX(g), |g|), Sum(Mass(g), |g|), Last(g));
  }

  /** Mirroring a grid left to right negates its correlation. */
  lemma CorrelationMirrored(g: Grade)
    requires Coverage(g)
    ensures Correlacao(Mirror(g)) == -Correlacao(g)
  {
    MomentsMirrored(g);
    if Sum(Mass(g), |g|) != 0.0 {
      MeansMirrored(g);
      QuotientMirrored(g, MeanX(g), MeanY(g));
    }
  }

  lemma MeanMirrored(s: real, peso: real, e: real)
    requires peso != 0.0
    ensures (e * peso - s) / peso == e - s / peso
  {
    var q := s / peso;
    assert q * peso == s;
    assert (e - q) * peso == e * peso - q * peso;
    DivisionIs(e * peso - s, peso, e - q);
  }

  // ------------------------------------------------ what the measures mean

  function OverlapAt(g: Grade, s: Simetria, x: int, y: int): real {
    2.0 * if Cell(g, x, y) < Partner(g, s, x, y) then Cell(g, x, y) else Partner(g, s, x, y)
  }

  function Overlap(g: Grade, s: Simetria): Field {
    (x, y) => OverlapAt(g, s, x, y)
  }

  /** A similarity is the share of the grid's mass and its image's that overlaps:
      twice the smaller of each pair of cells, over the sum of both. */
  lemma SimilarityIsOverlap(g: Grade, s: Simetria)
    requires Total(Soma(g, s), |g|, |g|) != 0.0
    ensures Semelhanca(g, s) * Total(Soma(g, s), |g|, |g|) == Total(Overlap(g, s), |g|, |g|)
  {
    OverlapLinear(g, s);
    SumLinear(Soma(g, s), Dif(g, s), Overlap(g, s), 1.0, -1.0, |g|);
    var dif, soma := Total(Dif(g, s), |g|, |g|), Total(Soma(g, s), |g|, |g|);
    assert dif / soma * soma == dif;
    assert (1.0 - dif / soma) * soma == soma - dif / soma * soma;
  }

  lemma OverlapLinear(g: Grade, s: Simetria)
    ensures Linear(Soma(g, s), Dif(g, s), Overlap(g, s), 1.0, -1.0, |g|)
  {
    forall x, y | 0 <= x < |g| && 0 <= y < |g|
      ensures Overlap(g, s)(x, y) == 1.0 * Soma(g, s)(x, y) + -1.0 * Dif(g, s)(x, y)
    {
      assert OverlapAt(g, s, x, y) == SomaAt(g, s, x, y) - DifAt(g, s, x, y);
    }
  }

  /** The four symmetries, cell by cell: left to right, top to bottom, about the
      main diagonal and about the other one. */
  lemma SymmetriesAre(g: Grade)
    requires Coverage(g)
    ensures Semelhanca(g, SimH) == 1.0 <==>
            forall x, y :: 0 <= x < |g| && 0 <= y < |g| ==> Cell(g, x, y) == Cell(g, |g| - 1 - x, y)
    ensures Semelhanca(g, SimV) == 1.0 <==>
            forall x, y :: 0 <= x < |g| && 0 <= y < |g| ==> Cell(g, x, y) == Cell(g, x, |g| - 1 - y)
    ensures Semelhanca(g, SimDiag) == 1.0 <==>
            forall x, y :: 0 <= x < |g| && 0 <= y < |g| ==> Cell(g, x, y) == Cell(g, y, x)
    ensures Semelhanca(g, SimAnti) == 1.0 <==>
            forall x, y :: 0 <= x < |g| && 0 <= y < |g| ==> Cell(g, x, y) == Cell(g, |g| - 1 - y, |g| - 1 - x)
  {
    SimilarityRange(g, SimH);
    SimilarityRange(g, SimV);
    SimilarityRange(g, SimDiag);
    SimilarityRange(g, SimAnti);
    SymmetricMeans(g);
  }

  lemma SymmetricMeans(g: Grade)
    ensures Symmetric(g, SimH) <==>
            forall x, y :: 0 <= x < |g| && 0 <= y < |g| ==> Cell(g, x, y) == Cell(g, |g| - 1 - x, y)
    ensures Symmetric(g, SimV) <==>
            forall x, y :: 0 <= x < |g| && 0 <= y < |g| ==> Cell(g, x, y) == Cell(g, x, |g| - 1 - y)
    ensures Symmetric(g, SimDiag) <==>
            forall x, y :: 0 <= x < |g| && 0 <= y < |g| ==> Cell(g, x, y) == Cell(g, y, x)
    ensures Symmetric(g, SimAnti) <==>
            forall x, y :: 0 <= x < |g| && 0 <= y < |g| ==> Cell(g, x, y) == Cell(g, |g| - 1 - y, |g| - 1 - x)
  {
    forall x, y
      ensures Partner(g, SimH, x, y) == Cell(g, |g| - 1 - x, y) && Partner(g, SimV, x, y) == Cell(g, x, |g| - 1 - y)
      ensures Partner(g, SimDiag, x, y) == Cell(g, y, x)
      ensures Partner(g, SimAnti, x, y) == Cell(g, |g| - 1 - y, |g| - 1 - x)
    {
    }
  }

  /** All the mass on the main diagonal. */
  ghost predicate Diagonal(g: Grade) {
    forall x, y :: 0 <= x < |g| && 0 <= y < |g| && x != y ==> Cell(g, x, y) == 0.0
  }

  ghost predicate SameField(f: Field, h: Field, n: nat) {
    forall x, y :: 0 <= x < n && 0 <= y < n ==> f(x, y) == h(x, y)
  }

  lemma SameSum(f: Field, h: Field, n: nat)
    requires SameField(f, h, n)
    ensures Sum(f, n) == Sum(h, n)
  {
    TotalSame(f, h, n, n);
  }

  lemma DiagonalFields(g: Grade, m: real)
    requires Diagonal(g)
    ensures SameField(MassX(g), MassY(g), |g|)
    ensures SameField(VarXY(g, m, m), VarXX(g, m), |g|) && SameField(VarYY(g, m), VarXX(g, m), |g|)
  {
  }

  ghost predicate NonNegative(f: Field, n: nat) {
    forall x, y :: 0 <= x < n && 0 <= y < n ==> 0.0 <= f(x, y)
  }

  /** A sum of non-negative terms one of which is positive. */
  lemma SumPositive(f: Field, n: nat, x: int, y: int)
    requires NonNegative(f, n) && 0 <= x < n && 0 <= y < n && 0.0 < f(x, y)
    ensures 0.0 < Sum(f, n)
  {
    TotalNonNegative(f, n, n);
  }

  lemma SpreadFields(g: Grade, m: real)
    requires Coverage(g)
    ensures NonNegative(Mass(g), |g|) && NonNegative(VarXX(g, m), |g|)
  {
    forall x, y | 0 <= x < |g| && 0 <= y < |g|
      ensures 0.0 <= VarXXAt(g, m, x, y)
    {
      WeightedProduct(Cell(g, x, y), x as real - m, x as real - m);
    }
  }

  lemma SpreadAt(c: real, d: real, s: real)
    requires 0.0 < c && d != 0.0 && s == c * d * d
    ensures 0.0 < s
  {
    var e := if d < 0.0 then -d else d;
    PositiveProduct(c, e);
    PositiveProduct(c * e, e);
    assert c * d * d == c * e * e;
  }

  /** Mass in two cells of the main diagonal and none off it correlates
      positively: that slant is what tells one diagonal arrow from the other. */
  lemma DiagonalIsPositive(g: Grade, a: int, b: int)
    requires Coverage(g) && Diagonal(g) && 0 <= a < b < |g|
    requires 0.0 < Cell(g, a, a) && 0.0 < Cell(g, b, b)
    ensures 0.0 < Correlacao(g)
  {
    DiagonalMeans(g, a);
    var m := MeanX(g);
    DiagonalFields(g, m);
    SameSum(VarXY(g, m, m), VarXX(g, m), |g|);
    SameSum(VarYY(g, m), VarXX(g, m), |g|);
    DiagonalSpreads(g, m, if m == a as real then b else a);
    QuotientSign(Sum(VarXY(g, m, m), |g|), Sum(VarXX(g, m), |g|), Sum(VarYY(g, m), |g|));
  }

  lemma DiagonalMeans(g: Grade, a: int)
    requires Coverage(g) && Diagonal(g) && 0 <= a < |g| && 0.0 < Cell(g, a, a)
    ensures 0.0 < Sum(Mass(g), |g|) && MeanX(g) == MeanY(g)
  {
    SpreadFields(g, 0.0);
    SumPositive(Mass(g), |g|, a, a);
    DiagonalFields(g, 0.0);
    SameSum(MassX(g), MassY(g), |g|);
  }

  lemma DiagonalSpreads(g: Grade, m: real, k: int)
    requires Coverage(g) && 0 <= k < |g| && 0.0 < Cell(g, k, k) && m != k as real
    ensures 0.0 < Sum(VarXX(g, m), |g|)
  {
    SpreadFields(g, m);
    var c, d := Cell(g, k, k), k as real - m;
    var f := VarXX(g, m);
    assert f(k, k) == VarXXAt(g, m, k, k);
    SpreadAt(c, d, f(k, k));
    SumPositive(f, |g|, k, k);
  }

  /** And on the other diagonal, negatively. */
  lemma AntidiagonalIsNegative(g: Grade, a: int, b: int)
    requires Coverage(g) && Diagonal(Mirror(g)) && 0 <= a < b < |g|
    requires 0.0 < Cell(Mirror(g), a, a) && 0.0 < Cell(Mirror(g), b, b)
    ensures Correlacao(g) < 0.0
  {
    forall x, y | 0 <= x < |g| && 0 <= y < |g|
      ensures 0.0 <= Cell(Mirror(g), x, y)
    {
    }
    DiagonalIsPositive(Mirror(g), a, b);
    CorrelationMirrored(g);
  }
}

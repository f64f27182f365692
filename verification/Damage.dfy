/** What changed on the remote screen since the last frame: one bounding box
    (danoTela, cmd/acessos/telaworker.go). */
module Damage {
  import opened Wrappers

  /** A rectangle as the screen library reports it. It may stick out of the screen or be empty. */
  datatype Rect = Rect(x: int, y: int, w: int, h: int) {
    predicate Has(px: int, py: int) {
      x <= px < x + w && y <= py < y + h
    }

    predicate Proper() {
      0 < w && 0 < h
    }
  }

  /** The accumulated box; x1 and y1 are exclusive. */
  datatype Box = Box(x0: int, y0: int, x1: int, y1: int)

  /** The side of the rectangle that stands for "everything, whatever the size". */
  const WHOLE_SIDE: int := 0x10_0000
  const WHOLE: Rect := Rect(0, 0, WHOLE_SIDE, WHOLE_SIDE)

  predicate Covers(d: Option<Box>, px: int, py: int) {
    d.Some? && d.value.x0 <= px < d.value.x1 && d.value.y0 <= py < d.value.y1
  }

  predicate ProperBox(d: Option<Box>) {
    d.Some? ==> d.value.x0 < d.value.x1 && d.value.y0 < d.value.y1
  }

  /** b contains a. */
  predicate Within(a: Option<Box>, b: Option<Box>) {
    a.Some? ==> b.Some? && b.value.x0 <= a.value.x0 && a.value.x1 <= b.value.x1
                && b.value.y0 <= a.value.y0 && a.value.y1 <= b.value.y1
  }

  function BoxOf(r: Rect): Box {
    Box(r.x, r.y, r.x + r.w, r.y + r.h)
  }

  function RectOf(b: Box): Rect {
    Rect(b.x0, b.y0, b.x1 - b.x0, b.y1 - b.y0)
  }

  /** The box after one more rectangle. Nothing that was dirty is forgotten. */
  function Join(d: Option<Box>, r: Rect): (j: Option<Box>)
    ensures ProperBox(d) ==> ProperBox(j)
    ensures forall px, py :: Covers(d, px, py) || r.Has(px, py) ==> Covers(j, px, py)
  {
    if !r.Proper() then d
    else if d.None? then Some(BoxOf(r))
    else
      Some(Box(Min(d.value.x0, r.x), Min(d.value.y0, r.y), Max(d.value.x1, r.x + r.w), Max(d.value.y1, r.y + r.h)))
  }

  /** Join adds nothing it does not have to: it is the least box over both. */
  lemma JoinIsLeast(d: Option<Box>, r: Rect, other: Option<Box>)
    requires Within(d, other)
    requires r.Proper() ==> Within(Some(BoxOf(r)), other)
    ensures Within(Join(d, r), other)
    ensures Within(d, Join(d, r))
    ensures r.Proper() ==> Within(Some(BoxOf(r)), Join(d, r))
  {
  }

  /** "Everything" is everything exactly for screens of at most 2^20 by 2^20. */
  lemma WholeCoversScreen(w: int, h: int)
    requires 0 < w && 0 < h
    ensures (forall px, py :: 0 <= px < w && 0 <= py < h ==> WHOLE.Has(px, py))
            <==> w <= WHOLE_SIDE && h <= WHOLE_SIDE
  {
    if w > WHOLE_SIDE {
      assert !WHOLE.Has(WHOLE_SIDE, 0);
    } else if h > WHOLE_SIDE {
      assert !WHOLE.Has(0, WHOLE_SIDE);
    }
  }

  /** danoTela: the same box held in fields and updated in place. */
  class DanoTela {
    var valido: bool
    var x0: int
    var y0: int
    var x1: int
    var y1: int

    function Caixa(): Option<Box>
      reads this
    {
      if valido then Some(Box(x0, y0, x1, y1)) else None
    }

    constructor ()
      ensures Caixa() == None
    {
      valido := false;
    }

    method Juntar(x: int, y: int, w: int, h: int)
      modifies this
      ensures Caixa() == Join(old(Caixa()), Rect(x, y, w, h))
      ensures w <= 0 || h <= 0 ==> Caixa() == old(Caixa())
      ensures 0 < w && 0 < h && !old(valido) ==> valido && (x0, y0, x1, y1) == (x, y, x + w, y + h)
    {
      if w <= 0 || h <= 0 {
        return;
      }
      if !valido {
        valido, x0, y0, x1, y1 := true, x, y, x + w, y + h;
        return;
      }
      x0 := Min(x0, x);
      y0 := Min(y0, y);
      x1 := Max(x1, x + w);
      y1 := Max(y1, y + h);
    }

    method Tudo()
      modifies this
      ensures Caixa() == Join(old(Caixa()), WHOLE)
    {
      Juntar(0, 0, WHOLE_SIDE, WHOLE_SIDE);
    }

    /** Hands out the box and leaves nothing behind. */
    method Tomar() returns (x: int, y: int, w: int, h: int, ok: bool)
      modifies this
      ensures Caixa() == None
      ensures ok == old(Caixa()).Some?
      ensures ok ==> Rect(x, y, w, h) == RectOf(old(Caixa()).value)
      ensures ok ==> x == old(x0) && y == old(y0) && x + w == old(x1) && y + h == old(y1)
    {
      if !valido {
        return 0, 0, 0, 0, false;
      }
      x, y, w, h := x0, y0, x1 - x0, y1 - y0;
      valido := false;
      ok := true;
    }
  }
}

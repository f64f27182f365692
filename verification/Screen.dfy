/** Images, frames, and the two ends of the pixel path: cropping a rectangle out
    of the framebuffer and pasting it into the accumulated screen. */
module Screen {
  import opened Wrappers
  import opened Damage

  newtype byte = x: int | 0 <= x < 256

  /** A framebuffer pixel; the fourth byte is unused. */
  datatype Bgrx = Bgrx(b: byte, g: byte, r: byte, unused: byte)
  datatype Rgba = Rgba(r: byte, g: byte, b: byte, a: byte)

  function Convert(p: Bgrx): Rgba {
    Rgba(p.r, p.g, p.b, 255)
  }

  datatype Image<+T> = Image(w: nat, h: nat, rows: seq<seq<T>>)

  predicate Formed<T>(img: Image<T>) {
    0 < img.w && 0 < img.h && |img.rows| == img.h && forall y :: 0 <= y < img.h ==> |img.rows[y]| == img.w
  }

  predicate Inside<T>(img: Image<T>, x: int, y: int) {
    0 <= x < img.w && 0 <= y < img.h
  }

  function At<T>(img: Image<T>, x: int, y: int): T
    requires Formed(img) && Inside(img, x, y)
  {
    img.rows[y][x]
  }

  /** The header of EvtQuadro and its pixels. */
  datatype Frame = Frame(area: Rect, totalW: int, totalH: int, pix: seq<seq<Rgba>>)

  predicate FrameFormed(f: Frame) {
    0 <= f.area.w && 0 <= f.area.h && |f.pix| == f.area.h
    && forall y :: 0 <= y < f.area.h ==> |f.pix[y]| == f.area.w
  }

  /** A taken rectangle cut down to the screen it is sent from (it can come out empty). */
  function Clip(r: Rect, w: int, h: int): (c: Rect)
    ensures forall px, py :: c.Has(px, py) <==> r.Has(px, py) && 0 <= px < w && 0 <= py < h
  {
    var x0, y0 := Max(r.x, 0), Max(r.y, 0);
    Rect(x0, y0, Min(r.x + r.w, w) - x0, Min(r.y + r.h, h) - y0)
  }

  /** The frame holding rectangle r of fb, converted. */
  function CropFrame(fb: Image<Bgrx>, r: Rect): (f: Frame)
    requires Formed(fb) && r.Proper() && 0 <= r.x && 0 <= r.y && r.x + r.w <= fb.w && r.y + r.h <= fb.h
    ensures FrameFormed(f) && f.area == r && f.totalW == fb.w && f.totalH == fb.h
  {
    Frame(r, fb.w, fb.h,
          seq(r.h, y requires 0 <= y < r.h => seq(r.w, x requires 0 <= x < r.w => Convert(fb.rows[r.y + y][r.x + x]))))
  }

  function Blank(w: nat, h: nat): (img: Image<Rgba>)
    requires 0 < w && 0 < h
    ensures Formed(img) && img.w == w && img.h == h
  {
    Image(w, h, seq(h, y => seq(w, x => Rgba(0, 0, 0, 0))))
  }

  /** The image a frame is pasted on: the accumulated one, or a blank one when there is none of that size. */
  function Canvas(acum: Option<Image<Rgba>>, w: nat, h: nat): (img: Image<Rgba>)
    requires 0 < w && 0 < h && (acum.Some? ==> Formed(acum.value))
    ensures Formed(img) && img.w == w && img.h == h
  {
    if acum.None? || acum.value.w != w || acum.value.h != h then Blank(w, h) else acum.value
  }

  predicate Fits(f: Frame) {
    0 <= f.area.x && 0 <= f.area.y && f.area.x + f.area.w <= f.totalW && f.area.y + f.area.h <= f.totalH
  }

  /** aplicarQuadro on values. */
  function Paste(acum: Option<Image<Rgba>>, f: Frame): (r: Option<Image<Rgba>>)
    requires (acum.Some? ==> Formed(acum.value)) && FrameFormed(f)
    ensures r.Some? ==> Formed(r.value)
  {
    if f.totalW <= 0 || f.totalH <= 0 then acum
    else
      var base := Canvas(acum, f.totalW, f.totalH);
      if !Fits(f) then Some(base)
      else Some(Image(base.w, base.h,
                      seq(base.h, y requires 0 <= y < base.h =>
                        seq(base.w, x requires 0 <= x < base.w =>
                          if f.area.Has(x, y) then f.pix[y - f.area.y][x - f.area.x] else base.rows[y][x]))))
  }

  /** A screen pixel the parent does not show yet: no image, another size, or another colour. */
  predicate StaleAt(shown: Option<Image<Rgba>>, fb: Image<Bgrx>, x: int, y: int)
    requires (shown.Some? ==> Formed(shown.value)) && Formed(fb) && Inside(fb, x, y)
  {
    shown.None? || shown.value.w != fb.w || shown.value.h != fb.h || At(shown.value, x, y) != Convert(At(fb, x, y))
  }

  /** Crop then paste is convert-all then copy: inside the sent rectangle every
      pixel is the framebuffer's with its channels named and opaque, and outside
      it nothing moves, except that a change of size starts from transparent black. */
  lemma CropThenPaste(shown: Option<Image<Rgba>>, fb: Image<Bgrx>, r: Rect, x: int, y: int)
    requires (shown.Some? ==> Formed(shown.value)) && Formed(fb) && Inside(fb, x, y)
    requires r.Proper() && 0 <= r.x && 0 <= r.y && r.x + r.w <= fb.w && r.y + r.h <= fb.h
    ensures var now := Paste(shown, CropFrame(fb, r));
            now.Some? && now.value.w == fb.w && now.value.h == fb.h
            && var p, q := At(now.value, x, y), At(fb, x, y);
               (r.Has(x, y) ==> p.r == q.r && p.g == q.g && p.b == q.b && p.a == 255)
               && (!r.Has(x, y) && shown.Some? && shown.value.w == fb.w && shown.value.h == fb.h ==>
                     p == At(shown.value, x, y))
               && (!r.Has(x, y) && (shown.None? || shown.value.w != fb.w || shown.value.h != fb.h) ==>
                     p.r == 0 && p.g == 0 && p.b == 0 && p.a == 0)
  {
    var f := CropFrame(fb, r);
    if r.Has(x, y) {
      assert f.pix[y - r.y][x - r.x] == Convert(fb.rows[y][x]);
    }
  }

  /** A frame that claims no screen changes nothing; one that sticks out of its
      screen only brings the image to that size. */
  lemma BadFrame(shown: Option<Image<Rgba>>, f: Frame)
    requires (shown.Some? ==> Formed(shown.value)) && FrameFormed(f)
    ensures f.totalW <= 0 || f.totalH <= 0 ==> Paste(shown, f) == shown
    ensures (0 < f.totalW && 0 < f.totalH && !Fits(f) && shown.Some?
             && shown.value.w == f.totalW && shown.value.h == f.totalH) ==> Paste(shown, f) == shown
  {
  }
}

/** The same pixel path on bytes: rows with a stride on one side, packed rows on
    the other, and buffers that are reused between frames. */
module PixelBytes {
  import opened Wrappers
  import opened Damage
  import opened Screen

  /** Offset of pixel i of row l in packed rows of w pixels. */
  function Off(w: nat, l: nat, i: nat): nat {
    (l * w + i) * 4
  }

  lemma RowBefore(w: nat, l: nat, k: nat)
    requires l < k
    ensures l * w + w <= k * w
  {
    assert (l + 1) * w <= k * w;
  }

  lemma OffFits(w: nat, h: nat, l: nat, i: nat)
    requires l < h && i < w
    ensures Off(w, l, i) + 4 <= w * h * 4
  {
    RowBefore(w, l, h);
  }

  /** Pixels of packed rows do not overlap. */
  lemma OffOrder(w: nat, l: nat, i: nat, k: nat, j: nat)
    requires i < w && j < w && (l < k || (l == k && i < j))
    ensures Off(w, l, i) + 4 <= Off(w, k, j)
  {
    if l < k {
      RowBefore(w, l, k);
    }
  }

  /** A framebuffer of rows of stride bytes really holds w by h pixels. */
  predicate Holds(len: nat, stride: nat, w: nat, h: nat) {
    w * 4 <= stride && stride * h <= len
  }

  lemma HoldsPixel(len: nat, stride: nat, w: nat, h: nat, x: nat, y: nat)
    requires Holds(len, stride, w, h) && x < w && y < h
    ensures y * stride + x * 4 + 4 <= len
  {
    assert (y + 1) * stride <= h * stride;
  }

  function BgrxAt(buf: seq<byte>, at: nat): Bgrx
    requires at + 4 <= |buf|
  {
    Bgrx(buf[at], buf[at + 1], buf[at + 2], buf[at + 3])
  }

  function RgbaAt(pix: seq<byte>, at: nat): Rgba
    requires at + 4 <= |pix|
  {
    Rgba(pix[at], pix[at + 1], pix[at + 2], pix[at + 3])
  }

  /** The captured bytes read as an image. */
  ghost function ImageOf(buf: seq<byte>, stride: nat, w: nat, h: nat): (img: Image<Bgrx>)
    requires 0 < w && 0 < h && Holds(|buf|, stride, w, h)
    ensures Formed(img) && img.w == w && img.h == h
  {
    Image(w, h, seq(h, y requires 0 <= y < h => seq(w, x requires 0 <= x < w =>
      (HoldsPixel(|buf|, stride, w, h, x, y); BgrxAt(buf, y * stride + x * 4)))))
  }

  /** Packed RGBA bytes read as rows of pixels. */
  ghost function Packed(pix: seq<byte>, w: nat, h: nat): (rows: seq<seq<Rgba>>)
    requires w * h * 4 <= |pix|
    ensures |rows| == h && forall y :: 0 <= y < h ==> |rows[y]| == w
  {
    seq(h, y requires 0 <= y < h => seq(w, x requires 0 <= x < w => (OffFits(w, h, y, x); RgbaAt(pix, Off(w, y, x)))))
  }

  /** recortarBGRXparaRGBA: the rectangle converted into packed rows, in the old
      buffer when it is large enough. Nothing of what the buffer held remains in
      the part handed out. */
  method RecortarBGRXparaRGBA(dst: array<byte>, buf: array<byte>, stride: nat, fw: nat, fh: nat, r: Rect)
    returns (saida: array<byte>)
    requires dst != buf && 0 < fw && 0 < fh && Holds(buf.Length, stride, fw, fh)
    requires r.Proper() && 0 <= r.x && 0 <= r.y && r.x + r.w <= fw && r.y + r.h <= fh
    modifies dst
    ensures saida == dst || fresh(saida)
    ensures saida == dst <==> r.w * r.h * 4 <= dst.Length
    ensures r.w * r.h * 4 <= saida.Length
    ensures Packed(saida[..r.w * r.h * 4], r.w, r.h) == CropFrame(ImageOf(old(buf[..]), stride, fw, fh), r).pix
    ensures forall l, i :: 0 <= l < r.h && 0 <= i < r.w ==> SwappedAt(saida[..], old(buf[..]), stride, r, l, i)
  {
    var x, y, w, h := r.x, r.y, r.w, r.h;
    var n := w * h * 4;
    saida := dst;
    if dst.Length < n {
      saida := new byte[n];
    }
    ghost var want := CropFrame(ImageOf(buf[..], stride, fw, fh), r).pix;
    var linha := 0;
    while linha < h
      invariant 0 <= linha <= h && saida != buf && n <= saida.Length
      invariant buf[..] == old(buf[..])
      invariant DoneUpTo(saida[..], n, w, h, linha, 0, want)
    {
      RowOf(buf, saida, stride, fw, fh, r, linha, want);
      linha := linha + 1;
    }
    AllDone(saida[..], n, w, h, want);
    assert saida[..][..n] == saida[..n];
    AllSwapped(saida[..], buf[..], stride, fw, fh, r);
  }

  /** Byte by byte: pixel i of row l handed out has red, green and blue from the
      third, second and first byte of its pixel of the framebuffer, and alpha 255. */
  ghost predicate SwappedAt(out: seq<byte>, buf: seq<byte>, stride: nat, r: Rect, l: int, i: int) {
    var o, s := (l * r.w + i) * 4, (r.y + l) * stride + (r.x + i) * 4;
    0 <= o && o + 4 <= |out| && 0 <= s && s + 4 <= |buf|
    && out[o] == buf[s + 2] && out[o + 1] == buf[s + 1] && out[o + 2] == buf[s] && out[o + 3] == 255
  }

  lemma AllSwapped(out: seq<byte>, buf: seq<byte>, stride: nat, fw: nat, fh: nat, r: Rect)
    requires 0 < fw && 0 < fh && Holds(|buf|, stride, fw, fh)
    requires r.Proper() && 0 <= r.x && 0 <= r.y && r.x + r.w <= fw && r.y + r.h <= fh
    requires DoneUpTo(out, r.w * r.h * 4, r.w, r.h, r.h, 0, CropFrame(ImageOf(buf, stride, fw, fh), r).pix)
    ensures forall l, i :: 0 <= l < r.h && 0 <= i < r.w ==> SwappedAt(out, buf, stride, r, l, i)
  {
    var want := CropFrame(ImageOf(buf, stride, fw, fh), r).pix;
    forall l, i | 0 <= l < r.h && 0 <= i < r.w
      ensures SwappedAt(out, buf, stride, r, l, i)
    {
      SourceFits(|buf|, stride, fw, fh, r, l, i);
      CropPixel(buf, stride, fw, fh, r, l, i);
      assert Done(out, r.w * r.h * 4, r.w, r.h, l, i, want);
      OneSwapped(out, buf, stride, r, l, i, (r.y + l) * stride + (r.x + i) * 4, want);
    }
  }

  lemma SourceFits(len: nat, stride: nat, fw: nat, fh: nat, r: Rect, l: nat, i: nat)
    requires Holds(len, stride, fw, fh) && l < r.h && i < r.w
    requires 0 <= r.x && 0 <= r.y && r.x + r.w <= fw && r.y + r.h <= fh
    ensures 0 <= (r.y + l) * stride + (r.x + i) * 4 && (r.y + l) * stride + (r.x + i) * 4 + 4 <= len
  {
    HoldsPixel(len, stride, fw, fh, r.x + i, r.y + l);
  }

  lemma OneSwapped(out: seq<byte>, buf: seq<byte>, stride: nat, r: Rect, l: nat, i: nat, s: nat, want: seq<seq<Rgba>>)
    requires 0 < r.w && 0 < r.h && l < r.h && i < r.w && r.w * r.h * 4 <= |out|
    requires |want| == r.h && forall y :: 0 <= y < r.h ==> |want[y]| == r.w
    requires s == (r.y + l) * stride + (r.x + i) * 4 && s + 4 <= |buf|
    requires Done(out, r.w * r.h * 4, r.w, r.h, l, i, want) && want[l][i] == Convert(BgrxAt(buf, s))
    ensures SwappedAt(out, buf, stride, r, l, i)
  {
    OffFits(r.w, r.h, l, i);
    SwappedPixel(out, buf, stride, r, l, i, Off(r.w, l, i), s);
  }

  lemma CropPixel(buf: seq<byte>, stride: nat, fw: nat, fh: nat, r: Rect, l: nat, i: nat)
    requires 0 < fw && 0 < fh && Holds(|buf|, stride, fw, fh) && l < r.h && i < r.w
    requires r.Proper() && 0 <= r.x && 0 <= r.y && r.x + r.w <= fw && r.y + r.h <= fh
    requires (r.y + l) * stride + (r.x + i) * 4 + 4 <= |buf|
    ensures CropFrame(ImageOf(buf, stride, fw, fh), r).pix[l][i]
            == Convert(BgrxAt(buf, (r.y + l) * stride + (r.x + i) * 4))
  {
    var img := ImageOf(buf, stride, fw, fh);
    assert CropFrame(img, r).pix[l][i] == Convert(img.rows[r.y + l][r.x + i]);
  }

  lemma SwappedPixel(out: seq<byte>, buf: seq<byte>, stride: nat, r: Rect, l: int, i: int, o: nat, s: nat)
    requires o + 4 <= |out| && s + 4 <= |buf| && RgbaAt(out, o) == Convert(BgrxAt(buf, s))
    requires o == (l * r.w + i) * 4 && s == (r.y + l) * stride + (r.x + i) * 4
    ensures SwappedAt(out, buf, stride, r, l, i)
  {
  }

  lemma AllDone(pix: seq<byte>, n: nat, w: nat, h: nat, want: seq<seq<Rgba>>)
    requires DoneUpTo(pix, n, w, h, h, 0, want)
    ensures Packed(pix[..n], w, h) == want
  {
    var got := Packed(pix[..n], w, h);
    forall l | 0 <= l < h
      ensures got[l] == want[l]
    {
      forall i | 0 <= i < w
        ensures got[l][i] == want[l][i]
      {
        OffFits(w, h, l, i);
        assert Done(pix, n, w, h, l, i, want);
      }
    }
  }

  /** Pixel i of row l is written. */
  ghost predicate Done(pix: seq<byte>, n: nat, w: nat, h: nat, l: int, i: int, want: seq<seq<Rgba>>)
    requires n == w * h * 4 && n <= |pix| && 0 <= l < h && 0 <= i < w
    requires |want| == h && forall y :: 0 <= y < h ==> |want[y]| == w
  {
    OffFits(w, h, l, i);
    RgbaAt(pix, Off(w, l, i)) == want[l][i]
  }

  /** The body of the inner loop: B and R trade places and the alpha is opaque. */
  method PutPixel(saida: array<byte>, at: nat, buf: array<byte>, from: nat)
    requires saida != buf && at + 4 <= saida.Length && from + 4 <= buf.Length
    modifies saida
    ensures saida[at] == buf[from + 2] && saida[at + 1] == buf[from + 1] && saida[at + 2] == buf[from]
    ensures saida[at + 3] == 255
    ensures forall k :: 0 <= k < saida.Length && !(at <= k < at + 4) ==> saida[k] == old(saida[k])
  {
    saida[at] := buf[from + 2];
    saida[at + 1] := buf[from + 1];
    saida[at + 2] := buf[from];
    saida[at + 3] := 255;
  }

  lemma StaysDone(before: seq<byte>, after: seq<byte>, n: nat, w: nat, h: nat, l: nat, j: nat, k: nat, i: nat,
                  want: seq<seq<Rgba>>)
    requires n == w * h * 4 && n <= |before| == |after| && l <= k < h && j < w && i < w && (l < k || j < i)
    requires |want| == h && forall y :: 0 <= y < h ==> |want[y]| == w
    requires Done(before, n, w, h, l, j, want)
    requires forall b :: 0 <= b < |after| && !(Off(w, k, i) <= b < Off(w, k, i) + 4) ==> after[b] == before[b]
    ensures Done(after, n, w, h, l, j, want)
  {
    OffFits(w, h, l, j);
    OffOrder(w, l, j, k, i);
  }

  /** The rows before linha are written, and the first i pixels of linha. */
  ghost predicate DoneUpTo(pix: seq<byte>, n: nat, w: nat, h: nat, linha: nat, i: nat, want: seq<seq<Rgba>>) {
    n == w * h * 4 && n <= |pix| && linha <= h && i <= w
    && |want| == h && (forall y :: 0 <= y < h ==> |want[y]| == w)
    && forall l, j :: 0 <= l <= linha && l < h && 0 <= j < w && (l < linha || j < i) ==> Done(pix, n, w, h, l, j, want)
  }

  lemma OneMoreDone(before: seq<byte>, after: seq<byte>, n: nat, w: nat, h: nat, k: nat, i: nat, want: seq<seq<Rgba>>)
    requires DoneUpTo(before, n, w, h, k, i, want) && k < h && i < w && |after| == |before|
    requires Done(after, n, w, h, k, i, want)
    requires forall b :: 0 <= b < |after| && !(Off(w, k, i) <= b < Off(w, k, i) + 4) ==> after[b] == before[b]
    ensures DoneUpTo(after, n, w, h, k, i + 1, want)
  {
    forall l, j | 0 <= l <= k && 0 <= j < w && (l < k || j < i + 1)
      ensures Done(after, n, w, h, l, j, want)
    {
      if l < k || j < i {
        StaysDone(before, after, n, w, h, l, j, k, i, want);
      }
    }
  }

  /** The inner loop: one row, leaving the rows before it alone. */
  method RowOf(buf: array<byte>, saida: array<byte>, stride: nat, fw: nat, fh: nat, r: Rect, linha: nat,
               ghost want: seq<seq<Rgba>>)
    requires saida != buf && 0 < fw && 0 < fh && Holds(buf.Length, stride, fw, fh)
    requires r.Proper() && 0 <= r.x && 0 <= r.y && r.x + r.w <= fw && r.y + r.h <= fh
    requires r.w * r.h * 4 <= saida.Length && linha < r.h
    requires want == CropFrame(ImageOf(buf[..], stride, fw, fh), r).pix
    requires DoneUpTo(saida[..], r.w * r.h * 4, r.w, r.h, linha, 0, want)
    modifies saida
    ensures DoneUpTo(saida[..], r.w * r.h * 4, r.w, r.h, linha + 1, 0, want)
  {
    var w, h := r.w, r.h;
    ghost var n := w * h * 4;
    var src := (r.y + linha) * stride + r.x * 4;
    var dst := linha * w * 4;
    var i := 0;
    while i < w
      invariant 0 <= i <= w && DoneUpTo(saida[..], n, w, h, linha, i, want)
    {
      OffFits(w, h, linha, i);
      HoldsPixel(buf.Length, stride, fw, fh, r.x + i, r.y + linha);
      assert dst + i * 4 == Off(w, linha, i);
      ghost var before := saida[..];
      PutPixel(saida, dst + i * 4, buf, src + i * 4);
      assert RgbaAt(saida[..], dst + i * 4) == Convert(BgrxAt(buf[..], src + i * 4));
      assert Done(saida[..], n, w, h, linha, i, want);
      OneMoreDone(before, saida[..], n, w, h, linha, i, want);
      i := i + 1;
    }
  }

  /** The parent's accumulated image: packed RGBA, so its stride is w * 4. */
  class TelaRGBA {
    const w: nat
    const h: nat
    const pix: array<byte>

    ghost predicate Valid()
      reads this
    {
      0 < w && 0 < h && pix.Length == w * h * 4
    }

    ghost function View(): (img: Image<Rgba>)
      requires Valid()
      reads this, pix
      ensures Formed(img) && img.w == w && img.h == h
    {
      Image(w, h, Packed(pix[..], w, h))
    }

    /** image.NewRGBA: all bytes zero. */
    constructor (w: nat, h: nat)
      requires 0 < w && 0 < h
      ensures Valid() && fresh(pix) && this.w == w && this.h == h && View() == Blank(w, h)
    {
      this.w, this.h := w, h;
      pix := new byte[w * h * 4](_ => 0);
      new;
      forall y, x | 0 <= y < h && 0 <= x < w
        ensures View().rows[y][x] == Rgba(0, 0, 0, 0)
      {
        OffFits(w, h, y, x);
      }
      forall y | 0 <= y < h
        ensures View().rows[y] == Blank(w, h).rows[y]
      {
      }
      assert View().rows == Blank(w, h).rows;
    }
  }

  ghost function ViewOf(acum: TelaRGBA?): (img: Option<Image<Rgba>>)
    requires acum != null ==> acum.Valid()
    reads acum, if acum == null then {} else {acum.pix}
    ensures img.Some? ==> Formed(img.value)
  {
    if acum == null then None else Some(acum.View())
  }

  /** The header fields and the pixel bytes as one frame. */
  ghost function FrameOf(q: Rect, totalW: int, totalH: int, pix: seq<byte>): (f: Frame)
    requires 0 <= q.w && 0 <= q.h && |pix| == q.w * q.h * 4
    ensures FrameFormed(f)
  {
    Frame(q, totalW, totalH, Packed(pix, q.w, q.h))
  }

  /** Pixel (x, y) of a half-pasted image: the frame's in the rows already copied, the old one elsewhere. */
  ghost predicate HalfPasted(now: seq<byte>, base: Image<Rgba>, f: Frame, linha: int, x: int, y: int)
    requires Formed(base) && FrameFormed(f) && |now| == base.w * base.h * 4 && Inside(base, x, y)
  {
    OffFits(base.w, base.h, y, x);
    RgbaAt(now, Off(base.w, y, x)) ==
    (if f.area.Has(x, y) && y < f.area.y + linha then f.pix[y - f.area.y][x - f.area.x] else base.rows[y][x])
  }

  /** The whole image with the first linha rows of the frame pasted. */
  ghost predicate RowsPasted(now: seq<byte>, base: Image<Rgba>, f: Frame, linha: int)
    requires Formed(base) && FrameFormed(f) && |now| == base.w * base.h * 4
  {
    forall x, y :: Inside(base, x, y) ==> HalfPasted(now, base, f, linha, x, y)
  }

  /** Row linha of a packed w by h rectangle, copied to (x0, y0 + linha) of a packed image of wide by high. */
  ghost predicate RowCopied(before: seq<byte>, now: seq<byte>, pix: seq<byte>, at: nat, from: nat, n: nat) {
    |before| == |now| && from + n <= |pix|
    && forall k :: 0 <= k < |now| ==> now[k] == if at <= k < at + n then pix[from + (k - at)] else before[k]
  }

  lemma RowFits(wide: nat, high: nat, q: Rect, linha: nat)
    requires 0 <= q.x && 0 <= q.y && 0 <= q.w && q.x + q.w <= wide && q.y + q.h <= high && linha < q.h
    ensures Off(wide, q.y + linha, q.x) + q.w * 4 <= wide * high * 4
    ensures linha * q.w * 4 + q.w * 4 <= q.w * q.h * 4
  {
    RowBefore(wide, q.y + linha, high);
    RowBefore(q.w, linha, q.h);
  }

  /** Where pixel (x, y) lies with respect to the copied row. */
  lemma RowPlace(wide: nat, q: Rect, linha: nat, x: nat, y: nat)
    requires 0 <= q.x && 0 <= q.y && 0 <= q.w && q.x + q.w <= wide && x < wide
    ensures var at, here := Off(wide, q.y + linha, q.x), Off(wide, y, x);
            if y == q.y + linha && q.x <= x < q.x + q.w then
              here == at + (x - q.x) * 4 && here + 4 <= at + q.w * 4
              && linha * q.w * 4 + (here - at) == Off(q.w, linha, x - q.x)
            else here + 4 <= at || at + q.w * 4 <= here
  {
    var row := q.y + linha;
    if y < row {
      RowBefore(wide, y, row);
    } else if y > row {
      RowBefore(wide, row, y);
    }
  }

  lemma CopiedPixel(before: seq<byte>, now: seq<byte>, pix: seq<byte>, at: nat, from: nat, n: nat, here: nat)
    requires RowCopied(before, now, pix, at, from, n) && here + 4 <= |now|
    requires (at <= here && here + 4 <= at + n) || here + 4 <= at || at + n <= here
    ensures RgbaAt(now, here) ==
            if at <= here && here + 4 <= at + n then RgbaAt(pix, from + (here - at)) else RgbaAt(before, here)
  {
  }

  /** After copying one row, pixel (x, y) is the row's pixel or the one it was. */
  lemma RowPixel(before: seq<byte>, now: seq<byte>, pix: seq<byte>, wide: nat, high: nat, q: Rect, linha: nat,
                 at: nat, from: nat, x: nat, y: nat)
    requires 0 <= q.x && 0 <= q.y && 0 <= q.w && q.x + q.w <= wide && linha < q.h && x < wide && y < high
    requires |before| == wide * high * 4 && |pix| == q.w * q.h * 4
    requires at == Off(wide, q.y + linha, q.x) && from == linha * q.w * 4
    requires RowCopied(before, now, pix, at, from, q.w * 4)
    ensures Off(wide, y, x) + 4 <= |now|
    ensures y == q.y + linha && q.x <= x < q.x + q.w ==>
              Off(q.w, linha, x - q.x) + 4 <= |pix|
              && RgbaAt(now, Off(wide, y, x)) == RgbaAt(pix, Off(q.w, linha, x - q.x))
    ensures !(y == q.y + linha && q.x <= x < q.x + q.w) ==>
              RgbaAt(now, Off(wide, y, x)) == RgbaAt(before, Off(wide, y, x))
  {
    OffFits(wide, high, y, x);
    RowPlace(wide, q, linha, x, y);
    CopiedPixel(before, now, pix, at, from, q.w * 4, Off(wide, y, x));
  }

  lemma PackedPixel(pix: seq<byte>, w: nat, h: nat, l: nat, i: nat)
    requires |pix| == w * h * 4 && l < h && i < w
    ensures Off(w, l, i) + 4 <= |pix|
    ensures Packed(pix, w, h)[l][i] == RgbaAt(pix, Off(w, l, i))
  {
    OffFits(w, h, l, i);
  }

  /** copy(dst[at:at+n], src[from:]) */
  method CopyBytes(dst: array<byte>, at: nat, src: array<byte>, from: nat, n: nat)
    requires dst != src && at + n <= dst.Length && from + n <= src.Length
    modifies dst
    ensures forall k :: 0 <= k < dst.Length ==>
              dst[k] == if at <= k < at + n then src[from + (k - at)] else old(dst[k])
  {
    forall k | 0 <= k < n {
      dst[at + k] := src[from + k];
    }
  }

  /** aplicarQuadro: pastes in place, on a fresh blank image when the remote size changed. */
  method AplicarQuadro(acum: TelaRGBA?, q: Rect, totalW: int, totalH: int, pix: array<byte>)
    returns (tela: TelaRGBA?)
    requires acum != null ==> acum.Valid() && acum.pix != pix
    requires 0 <= q.w && 0 <= q.h && pix.Length == q.w * q.h * 4
    modifies if acum == null then {} else {acum.pix}
    ensures tela == acum || (fresh(tela) && fresh(tela.pix))
    ensures tela != null ==> tela.Valid()
    ensures ViewOf(tela) == Paste(old(ViewOf(acum)), FrameOf(q, totalW, totalH, old(pix[..])))
  {
    tela := acum;
    if totalW <= 0 || totalH <= 0 {
      return;
    }
    if acum == null || acum.w != totalW || acum.h != totalH {
      tela := new TelaRGBA(totalW, totalH);
    }
    ghost var base := tela.View();
    ghost var f := FrameOf(q, totalW, totalH, pix[..]);
    if q.x < 0 || q.y < 0 || q.x + q.w > totalW || q.y + q.h > totalH {
      return;
    }
    forall x, y | Inside(base, x, y)
      ensures HalfPasted(tela.pix[..], base, f, 0, x, y)
    {
    }
    PasteRows(tela, q, pix, base, f);
    SameView(tela.pix[..], base, f);
    assert tela.View().rows == Paste(old(ViewOf(acum)), f).value.rows;
  }

  method PasteRows(tela: TelaRGBA, q: Rect, pix: array<byte>, ghost base: Image<Rgba>, ghost f: Frame)
    requires tela.Valid() && tela.pix != pix && base == tela.View()
    requires 0 <= q.x && 0 <= q.y && 0 <= q.w && 0 <= q.h && q.x + q.w <= tela.w && q.y + q.h <= tela.h
    requires pix.Length == q.w * q.h * 4 && f == FrameOf(q, tela.w, tela.h, pix[..])
    requires RowsPasted(tela.pix[..], base, f, 0)
    modifies tela.pix
    ensures RowsPasted(tela.pix[..], base, f, q.h)
  {
    var linha := 0;
    while linha < q.h
      invariant 0 <= linha <= q.h && pix[..] == old(pix[..])
      invariant RowsPasted(tela.pix[..], base, f, linha)
    {
      ghost var before := tela.pix[..];
      RowFits(tela.w, tela.h, q, linha);
      CopyBytes(tela.pix, Off(tela.w, q.y + linha, q.x), pix, linha * q.w * 4, q.w * 4);
      OneMoreRow(before, tela.pix[..], pix[..], q, linha, Off(tela.w, q.y + linha, q.x), linha * q.w * 4, base, f);
      linha := linha + 1;
    }
  }

  lemma OneMoreRow(before: seq<byte>, now: seq<byte>, pix: seq<byte>, q: Rect, linha: nat, at: nat, from: nat,
                   base: Image<Rgba>, f: Frame)
    requires Formed(base) && |before| == |now| == base.w * base.h * 4
    requires 0 <= q.x && 0 <= q.y && 0 <= q.w && linha < q.h && q.x + q.w <= base.w && q.y + q.h <= base.h
    requires |pix| == q.w * q.h * 4 && f == FrameOf(q, base.w, base.h, pix)
    requires at == Off(base.w, q.y + linha, q.x) && from == linha * q.w * 4
    requires RowCopied(before, now, pix, at, from, q.w * 4)
    requires RowsPasted(before, base, f, linha)
    ensures RowsPasted(now, base, f, linha + 1)
  {
    forall x, y | Inside(base, x, y)
      ensures HalfPasted(now, base, f, linha + 1, x, y)
    {
      OneMoreRowAt(before, now, pix, q, linha, at, from, base, f, x, y);
    }
  }

  lemma OneMoreRowAt(before: seq<byte>, now: seq<byte>, pix: seq<byte>, q: Rect, linha: nat, at: nat, from: nat,
                     base: Image<Rgba>, f: Frame, x: int, y: int)
    requires Formed(base) && |before| == |now| == base.w * base.h * 4 && Inside(base, x, y)
    requires 0 <= q.x && 0 <= q.y && 0 <= q.w && linha < q.h && q.x + q.w <= base.w && q.y + q.h <= base.h
    requires |pix| == q.w * q.h * 4 && f == FrameOf(q, base.w, base.h, pix)
    requires at == Off(base.w, q.y + linha, q.x) && from == linha * q.w * 4
    requires RowCopied(before, now, pix, at, from, q.w * 4)
    requires HalfPasted(before, base, f, linha, x, y)
    ensures HalfPasted(now, base, f, linha + 1, x, y)
  {
    RowPixel(before, now, pix, base.w, base.h, q, linha, at, from, x, y);
    if y == q.y + linha && q.x <= x < q.x + q.w {
      PackedPixel(pix, q.w, q.h, linha, x - q.x);
    }
  }

  lemma SameView(now: seq<byte>, base: Image<Rgba>, f: Frame)
    requires Formed(base) && FrameFormed(f) && |now| == base.w * base.h * 4
    requires f.totalW == base.w && f.totalH == base.h && Fits(f)
    requires RowsPasted(now, base, f, f.area.h)
    ensures Packed(now, base.w, base.h) == Paste(Some(base), f).value.rows
  {
    var got, want := Packed(now, base.w, base.h), Paste(Some(base), f).value.rows;
    forall y | 0 <= y < base.h
      ensures got[y] == want[y]
    {
      forall x | 0 <= x < base.w
        ensures got[y][x] == want[y][x]
      {
        assert HalfPasted(now, base, f, f.area.h, x, y);
      }
    }
  }

  /** Byte by byte: pixel (x, y) of an image of wide by high bytes is the frame's. */
  ghost predicate ShownAt(now: seq<byte>, wide: nat, q: Rect, pix: seq<byte>, x: int, y: int) {
    var o, s := (y * wide + x) * 4, ((y - q.y) * q.w + (x - q.x)) * 4;
    0 <= o && o + 4 <= |now| && 0 <= s && s + 4 <= |pix|
    && now[o] == pix[s] && now[o + 1] == pix[s + 1] && now[o + 2] == pix[s + 2] && now[o + 3] == pix[s + 3]
  }

  /** Byte by byte: pixel (x, y) is as before. */
  ghost predicate KeptAt(now: seq<byte>, before: seq<byte>, wide: nat, x: int, y: int) {
    var o := (y * wide + x) * 4;
    0 <= o && o + 4 <= |now| && o + 4 <= |before|
    && now[o] == before[o] && now[o + 1] == before[o + 1] && now[o + 2] == before[o + 2] && now[o + 3] == before[o + 3]
  }

  lemma PastedBytes(now: seq<byte>, wide: nat, high: nat, acum: Option<Image<Rgba>>, q: Rect, pix: seq<byte>,
                    x: nat, y: nat)
    requires 0 < wide && 0 < high && |now| == wide * high * 4 && (acum.Some? ==> Formed(acum.value))
    requires 0 <= q.w && 0 <= q.h && |pix| == q.w * q.h * 4 && x < wide && y < high
    requires 0 <= q.x && 0 <= q.y && q.x + q.w <= wide && q.y + q.h <= high
    requires Paste(acum, FrameOf(q, wide, high, pix)) == Some(Image(wide, high, Packed(now, wide, high)))
    ensures q.Has(x, y) ==> ShownAt(now, wide, q, pix, x, y)
    ensures !q.Has(x, y) ==>
              forall before | |before| == |now| && acum == Some(Image(wide, high, Packed(before, wide, high))) ::
                KeptAt(now, before, wide, x, y)
  {
    PackedPixel(now, wide, high, y, x);
    if q.Has(x, y) {
      PackedPixel(pix, q.w, q.h, y - q.y, x - q.x);
    } else {
      forall before | |before| == |now| && acum == Some(Image(wide, high, Packed(before, wide, high)))
        ensures KeptAt(now, before, wide, x, y)
      {
        PackedPixel(before, wide, high, y, x);
      }
    }
  }

  lemma AllShown(now: seq<byte>, wide: nat, high: nat, acum: Option<Image<Rgba>>, q: Rect, pix: seq<byte>)
    requires 0 < wide && 0 < high && |now| == wide * high * 4 && (acum.Some? ==> Formed(acum.value))
    requires 0 <= q.w && 0 <= q.h && |pix| == q.w * q.h * 4
    requires 0 <= q.x && 0 <= q.y && q.x + q.w <= wide && q.y + q.h <= high
    requires Paste(acum, FrameOf(q, wide, high, pix)) == Some(Image(wide, high, Packed(now, wide, high)))
    ensures forall x, y :: q.Has(x, y) ==> ShownAt(now, wide, q, pix, x, y)
  {
    forall x, y | q.Has(x, y)
      ensures ShownAt(now, wide, q, pix, x, y)
    {
      PastedBytes(now, wide, high, acum, q, pix, x, y);
    }
  }

  /** From the captured framebuffer to the published image, in bytes: over the
      sent rectangle red, green and blue are the third, second and first byte of
      the framebuffer's pixel, and alpha is 255. */
  lemma FramebufferShown(now: seq<byte>, wide: nat, r: Rect, pix: seq<byte>, out: seq<byte>, buf: seq<byte>,
                         stride: nat, x: int, y: int)
    requires r.Has(x, y) && pix <= out
    requires ShownAt(now, wide, r, pix, x, y) && SwappedAt(out, buf, stride, r, y - r.y, x - r.x)
    ensures var o, s := (y * wide + x) * 4, y * stride + x * 4;
            0 <= o && o + 4 <= |now| && 0 <= s && s + 4 <= |buf|
            && now[o] == buf[s + 2] && now[o + 1] == buf[s + 1] && now[o + 2] == buf[s] && now[o + 3] == 255
  {
    assert r.y + (y - r.y) == y && r.x + (x - r.x) == x;
  }

  /** publicarTela: a copy nobody writes to again. */
  method PublicarTela(acum: TelaRGBA) returns (pub: TelaRGBA)
    requires acum.Valid()
    ensures fresh(pub) && fresh(pub.pix) && pub.Valid() && pub.View() == acum.View()
  {
    pub := new TelaRGBA(acum.w, acum.h);
    CopyBytes(pub.pix, 0, acum.pix, 0, acum.pix.Length);
    assert pub.pix[..] == acum.pix[..];
  }

  /** The tab's side of lacoEventos: the accumulator it keeps to itself and the
      last image it published. */
  class TelaDaAba {
    var acum: TelaRGBA?
    var tela: TelaRGBA?
    ghost var publicadas: set<TelaRGBA>

    ghost predicate Valid()
      reads this, acum, publicadas
    {
      (acum != null ==> acum.Valid() && forall p :: p in publicadas ==> p != acum && p.pix != acum.pix)
      && (tela != null ==> tela in publicadas)
      && forall p :: p in publicadas ==> p.Valid()
    }

    constructor ()
      ensures Valid() && acum == null && publicadas == {}
    {
      acum, tela, publicadas := null, null, {};
    }

    /** EvtQuadro: paste, then publish a copy. The published image is the pasted
        screen, and no image published before changes. */
    method ReceberQuadro(q: Rect, totalW: int, totalH: int, pix: array<byte>)
      requires Valid() && 0 <= q.w && 0 <= q.h && pix.Length == q.w * q.h * 4
      requires acum != null ==> acum.pix != pix
      modifies this, if acum == null then {} else {acum.pix}
      ensures Valid() && old(publicadas) <= publicadas
      ensures ViewOf(acum) == Paste(old(ViewOf(acum)), FrameOf(q, totalW, totalH, old(pix[..])))
      ensures acum != null ==> tela != null && fresh(tela) && ViewOf(tela) == ViewOf(acum)
      ensures 0 < totalW && 0 < totalH && 0 <= q.x && 0 <= q.y && q.x + q.w <= totalW && q.y + q.h <= totalH ==>
                tela != null && tela.w == totalW && tela.h == totalH
                && forall x, y :: q.Has(x, y) ==> ShownAt(tela.pix[..], totalW, q, old(pix[..]), x, y)
      ensures forall p :: p in old(publicadas) ==> p.View() == old(p.View())
    {
      ghost var before, bytes := ViewOf(acum), pix[..];
      acum := AplicarQuadro(acum, q, totalW, totalH, pix);
      if acum != null {
        tela := PublicarTela(acum);
        publicadas := publicadas + {tela};
      }
      if 0 < totalW && 0 < totalH && 0 <= q.x && 0 <= q.y && q.x + q.w <= totalW && q.y + q.h <= totalH {
        AllShown(tela.pix[..], totalW, totalH, before, q, bytes);
      }
    }
  }
}

/** How one row of the terminal is drawn in runs instead of cell by cell
    (cmd/acessos/sshtab.go). */
module TerminalRow {
  import opened Wrappers

  type Cor = int

  /** One cell: its character, its two colour codes and the attributes drawing
      looks at. A wide character is followed by a shadow cell. */
  datatype Glyph = Glyph(letra: int, fg: int, bg: int, negrito: bool, sublinhado: bool, largo: bool, sombra: bool)

  const ESPACO: int := 0x20

  /** What colour codes and the monospaced font mean. */
  datatype Estilo = Estilo(corDeFundo: int -> Option<Cor>, corDeTexto: int -> Cor, naFonte: int -> bool,
                           larguraDupla: int -> bool)

  predicate GlifoNaGrade(e: Estilo, c: int) {
    if c < 0x80 then c >= 0x20
    else if e.larguraDupla(c) then false
    else e.naFonte(c)
  }

  function FundoDe(e: Estilo, g: Glyph): Option<Cor> {
    e.corDeFundo(g.bg)
  }

  function TintaDe(e: Estilo, g: Glyph): Cor {
    e.corDeTexto(g.fg)
  }

  function CharOf(g: Glyph): int {
    if g.letra == 0 then ESPACO else g.letra
  }

  // ------------------------------------------------- bands and their columns

  /** A coloured band over the columns de up to but not including ate. */
  datatype Faixa = Faixa(de: nat, ate: nat, cor: Cor)

  predicate Covers(f: Faixa, x: nat) {
    f.de <= x < f.ate
  }

  /** The colours painted over column x, in order. */
  function BandsAt(fs: seq<Faixa>, x: nat): seq<Cor> {
    if fs == [] then []
    else BandsAt(fs[..|fs| - 1], x) + if Covers(fs[|fs| - 1], x) then [fs[|fs| - 1].cor] else []
  }

  lemma BandsNext(fs: seq<Faixa>, f: Faixa, x: nat)
    ensures BandsAt(fs + [f], x) == BandsAt(fs, x) + if Covers(f, x) then [f.cor] else []
  {
    assert (fs + [f])[..|fs|] == fs;
  }

  // -------------------------------------------------------- the backgrounds

  function OwnBackground(e: Estilo, g: Glyph): seq<Cor> {
    match FundoDe(e, g)
    case None => []
    case Some(c) => [c]
  }

  /** The first x columns hold what their cells ask for, and the others nothing. */
  ghost predicate Painted(e: Estilo, cells: seq<Glyph>, fs: seq<Faixa>, x: nat)
    requires x <= |cells|
  {
    (forall y :: 0 <= y < x ==> BandsAt(fs, y) == OwnBackground(e, cells[y]))
    && forall y :: y >= x ==> BandsAt(fs, y) == []
  }

  /** No two neighbouring bands could have been one. */
  ghost predicate Separate(fs: seq<Faixa>) {
    forall i, j :: 0 <= i && j == i + 1 && j < |fs| ==>
      fs[i].ate < fs[j].de || (fs[i].ate == fs[j].de && fs[i].cor != fs[j].cor)
  }

  /** The last band ends by x, and before x unless cell x breaks it off. */
  ghost predicate LastEnds(e: Estilo, cells: seq<Glyph>, fs: seq<Faixa>, x: nat) {
    fs != [] ==>
      var f := fs[|fs| - 1];
      f.ate <= x && (f.ate == x < |cells| ==> FundoDe(e, cells[x]) != Some(f.cor))
  }

  /** Cells de up to ate all have this background. */
  ghost predicate SameBackground(e: Estilo, cells: seq<Glyph>, f: Faixa) {
    f.ate <= |cells| && forall y :: f.de <= y < f.ate ==> FundoDe(e, cells[y]) == Some(f.cor)
  }

  lemma PaintRun(e: Estilo, cells: seq<Glyph>, fs: seq<Faixa>, x: nat, f: Faixa)
    requires x == f.de < f.ate <= |cells| && Painted(e, cells, fs, x) && SameBackground(e, cells, f)
    ensures Painted(e, cells, fs + [f], f.ate)
  {
    forall y | 0 <= y < f.ate
      ensures BandsAt(fs + [f], y) == OwnBackground(e, cells[y])
    {
      BandsNext(fs, f, y);
    }
    forall y | y >= f.ate
      ensures BandsAt(fs + [f], y) == []
    {
      BandsNext(fs, f, y);
    }
  }

  lemma StaySeparate(e: Estilo, cells: seq<Glyph>, fs: seq<Faixa>, x: nat, f: Faixa)
    requires Separate(fs) && LastEnds(e, cells, fs, x)
    requires f.de == x < |cells| && FundoDe(e, cells[x]) == Some(f.cor)
    ensures Separate(fs + [f])
  {
    var v := fs + [f];
    forall i, j | 0 <= i && j == i + 1 && j < |v|
      ensures v[i].ate < v[j].de || (v[i].ate == v[j].de && v[i].cor != v[j].cor)
    {
      if j < |fs| {
        assert v[i] == fs[i] && v[j] == fs[j];
      } else {
        assert v[i] == fs[|fs| - 1] && v[j] == f;
      }
    }
  }

  /** The band that starts at x: as many cells as share its background. */
  method LerFaixa(e: Estilo, cells: seq<Glyph>, x: nat) returns (f: Faixa)
    requires x < |cells| && FundoDe(e, cells[x]).Some?
    ensures f.de == x < f.ate && SameBackground(e, cells, f)
    ensures f.ate < |cells| ==> FundoDe(e, cells[f.ate]) != Some(f.cor)
  {
    var bg := FundoDe(e, cells[x]);
    var fim := x + 1;
    while fim < |cells| && FundoDe(e, cells[fim]) == bg
      invariant x < fim && SameBackground(e, cells, Faixa(x, fim, bg.value))
    {
      fim := fim + 1;
    }
    f := Faixa(x, fim, bg.value);
  }

  /** The state of painting the first x columns. */
  ghost predicate Drawn(e: Estilo, cells: seq<Glyph>, fs: seq<Faixa>, x: nat) {
    x <= |cells| && Painted(e, cells, fs, x) && Separate(fs) && LastEnds(e, cells, fs, x)
  }

  lemma DrawNone(e: Estilo, cells: seq<Glyph>)
    ensures Drawn(e, cells, [], 0)
  {
  }

  lemma SkipCell(e: Estilo, cells: seq<Glyph>, fs: seq<Faixa>, x: nat)
    requires Drawn(e, cells, fs, x) && x < |cells| && FundoDe(e, cells[x]).None?
    ensures Drawn(e, cells, fs, x + 1)
  {
    assert BandsAt(fs, x) == [] == OwnBackground(e, cells[x]);
  }

  lemma AddBand(e: Estilo, cells: seq<Glyph>, fs: seq<Faixa>, f: Faixa)
    requires Drawn(e, cells, fs, f.de) && f.de < f.ate && SameBackground(e, cells, f)
    requires f.ate < |cells| ==> FundoDe(e, cells[f.ate]) != Some(f.cor)
    ensures Drawn(e, cells, fs + [f], f.ate)
  {
    PaintRun(e, cells, fs, f.de, f);
    StaySeparate(e, cells, fs, f.de, f);
  }

  /** The background bands of a row: every cell is painted once with its own
      colour or not at all, and no two touching bands could have been one. */
  method FundosDaLinha(e: Estilo, cells: seq<Glyph>) returns (fs: seq<Faixa>)
    ensures Painted(e, cells, fs, |cells|) && Separate(fs)
  {
    fs := [];
    var x := 0;
    DrawNone(e, cells);
    while x < |cells|
      invariant Drawn(e, cells, fs, x)
    {
      if FundoDe(e, cells[x]).None? {
        SkipCell(e, cells, fs, x);
        x := x + 1;
        continue;
      }
      var f := LerFaixa(e, cells, x);
      AddBand(e, cells, fs, f);
      fs := fs + [f];
      x := f.ate;
    }
  }

  // --------------------------------------------------------------- the text

  /** One run of text, its trailing spaces gone; recorte is how many cells it is
      clipped to, when it is. */
  datatype Trecho = Trecho(inicio: nat, fim: nat, texto: seq<int>, cor: Cor, negrito: bool, sublinhado: bool,
                           recorte: Option<nat>)

  /** A glyph as one cell shows it. */
  datatype Desenho = Desenho(letra: int, cor: Cor, negrito: bool, recorte: Option<nat>)

  /** What a cell shows when it is drawn alone: nothing for a blank or for the
      shadow of a wide character, and a clip for what the font's grid cannot hold. */
  function OwnGlyph(e: Estilo, g: Glyph): seq<Desenho> {
    if g.sombra || CharOf(g) == ESPACO then []
    else [Desenho(CharOf(g), TintaDe(e, g), g.negrito, OwnClip(e, g))]
  }

  function OwnClip(e: Estilo, g: Glyph): Option<nat> {
    if g.largo then Some(2) else if GlifoNaGrade(e, CharOf(g)) then None else Some(1)
  }

  function OwnUnderline(e: Estilo, g: Glyph): seq<Cor> {
    if g.sublinhado && !g.sombra then [TintaDe(e, g)] else []
  }

  /** The glyph a run puts on column x, its text advancing one cell a character. */
  function GlyphOf(t: Trecho, x: nat): seq<Desenho> {
    if t.inicio <= x < t.inicio + |t.texto| && t.texto[x - t.inicio] != ESPACO
    then [Desenho(t.texto[x - t.inicio], t.cor, t.negrito, t.recorte)]
    else []
  }

  function GlyphsAt(ts: seq<Trecho>, x: nat): seq<Desenho> {
    if ts == [] then [] else GlyphsAt(ts[..|ts| - 1], x) + GlyphOf(ts[|ts| - 1], x)
  }

  function UnderlinesAt(ts: seq<Trecho>, x: nat): seq<Cor> {
    if ts == [] then []
    else
      var t := ts[|ts| - 1];
      UnderlinesAt(ts[..|ts| - 1], x) + if t.sublinhado && t.inicio <= x < t.fim then [t.cor] else []
  }

  /** How many runs hold column x. */
  function RunsAt(ts: seq<Trecho>, x: nat): nat {
    if ts == [] then 0
    else RunsAt(ts[..|ts| - 1], x) + if ts[|ts| - 1].inicio <= x < ts[|ts| - 1].fim then 1 else 0
  }

  lemma RunNext(ts: seq<Trecho>, t: Trecho, x: nat)
    ensures GlyphsAt(ts + [t], x) == GlyphsAt(ts, x) + GlyphOf(t, x)
    ensures UnderlinesAt(ts + [t], x)
            == UnderlinesAt(ts, x) + if t.sublinhado && t.inicio <= x < t.fim then [t.cor] else []
    ensures RunsAt(ts + [t], x) == RunsAt(ts, x) + if t.inicio <= x < t.fim then 1 else 0
  {
    assert (ts + [t])[..|ts|] == ts;
  }

  /** Without its trailing spaces. */
  function TrimRight(s: seq<int>): (r: seq<int>)
    ensures r <= s
    ensures forall k :: |r| <= k < |s| ==> s[k] == ESPACO
    ensures r != [] ==> r[|r| - 1] != ESPACO
  {
    if s != [] && s[|s| - 1] == ESPACO then TrimRight(s[..|s| - 1]) else s
  }

  /** Cell g may be drawn in the run cell h starts. */
  predicate SameStyle(e: Estilo, g: Glyph, h: Glyph) {
    !g.sombra && TintaDe(e, g) == TintaDe(e, h) && g.negrito == h.negrito && g.sublinhado == h.sublinhado
  }

  predicate Alone(e: Estilo, g: Glyph) {
    g.largo || !GlifoNaGrade(e, CharOf(g))
  }

  /** The run that starts at inicio: one cell by itself if the grid cannot hold
      it, and otherwise as many cells as share its colour and style. */
  method LerTrecho(e: Estilo, cells: seq<Glyph>, inicio: nat)
    returns (x: nat, sb: seq<int>, sozinho: bool, largo: bool)
    requires inicio < |cells| && !cells[inicio].sombra
    ensures inicio < x <= |cells| && |sb| == x - inicio
    ensures forall k :: 0 <= k < |sb| ==> sb[k] == CharOf(cells[inicio + k])
    ensures forall y :: inicio <= y < x ==> SameStyle(e, cells[y], cells[inicio])
    ensures sozinho ==> x == inicio + 1 && Alone(e, cells[inicio]) && largo == cells[inicio].largo
    ensures !sozinho ==> forall y :: inicio <= y < x ==> !Alone(e, cells[y])
    ensures x < |cells| && !sozinho ==> !SameStyle(e, cells[x], cells[inicio]) || Alone(e, cells[x])
  {
    x, sb, sozinho, largo := inicio, [], false, false;
    while x < |cells|
      invariant inicio <= x <= |cells| && |sb| == x - inicio && !sozinho
      invariant forall k :: 0 <= k < |sb| ==> sb[k] == CharOf(cells[inicio + k])
      invariant forall y :: inicio <= y < x ==> SameStyle(e, cells[y], cells[inicio]) && !Alone(e, cells[y])
      decreases |cells| - x
    {
      var g := cells[x];
      if !SameStyle(e, g, cells[inicio]) {
        break;
      }
      var c := CharOf(g);
      if g.largo || !GlifoNaGrade(e, c) {
        if x > inicio {
          break;
        }
        sb := sb + [c];
        x := x + 1;
        sozinho, largo := true, g.largo;
        break;
      }
      sb := sb + [c];
      x := x + 1;
    }
  }

  /** A run drawn is each of its cells drawn. */
  lemma RunIsItsCells(e: Estilo, cells: seq<Glyph>, t: Trecho, sb: seq<int>, y: nat)
    requires t.inicio <= y < t.fim <= |cells| && |sb| == t.fim - t.inicio
    requires forall k :: 0 <= k < |sb| ==> sb[k] == CharOf(cells[t.inicio + k])
    requires SameStyle(e, cells[y], cells[t.inicio])
    requires t.texto == TrimRight(sb) && t.cor == TintaDe(e, cells[t.inicio])
    requires t.negrito == cells[t.inicio].negrito && t.sublinhado == cells[t.inicio].sublinhado
    requires t.recorte == OwnClip(e, cells[y])
    ensures GlyphOf(t, y) == OwnGlyph(e, cells[y])
    ensures (if t.sublinhado then [t.cor] else []) == OwnUnderline(e, cells[y])
  {
    assert sb[y - t.inicio] == CharOf(cells[y]);
  }

  /** What the runs show on column y is what its cell would show alone. */
  ghost predicate Shows(e: Estilo, g: Glyph, ts: seq<Trecho>, y: nat) {
    GlyphsAt(ts, y) == OwnGlyph(e, g)
    && UnderlinesAt(ts, y) == OwnUnderline(e, g)
    && RunsAt(ts, y) == (if g.sombra then 0 else 1)
  }

  ghost predicate Blank(ts: seq<Trecho>, y: nat) {
    GlyphsAt(ts, y) == [] && UnderlinesAt(ts, y) == [] && RunsAt(ts, y) == 0
  }

  /** The first x columns show what their cells ask for, and the others nothing. */
  ghost predicate Written(e: Estilo, cells: seq<Glyph>, ts: seq<Trecho>, x: nat)
    requires x <= |cells|
  {
    (forall y :: 0 <= y < x ==> Shows(e, cells[y], ts, y))
    && forall y :: y >= x ==> Blank(ts, y)
  }

  /** A run of several cells holds nothing the font's grid cannot. */
  ghost predicate OnGrid(e: Estilo, cells: seq<Glyph>, t: Trecho) {
    t.inicio < t.fim <= |cells| && |t.texto| <= t.fim - t.inicio
    && (t.fim > t.inicio + 1 ==> forall y :: t.inicio <= y < t.fim ==> !Alone(e, cells[y]))
  }

  /** On column y the run shows what the cell would show alone. */
  ghost predicate RunShows(e: Estilo, g: Glyph, t: Trecho, y: nat) {
    !g.sombra && GlyphOf(t, y) == OwnGlyph(e, g) && (if t.sublinhado then [t.cor] else []) == OwnUnderline(e, g)
  }

  lemma WriteRun(e: Estilo, cells: seq<Glyph>, ts: seq<Trecho>, t: Trecho)
    requires t.inicio < t.fim <= |cells| && |t.texto| <= t.fim - t.inicio && Written(e, cells, ts, t.inicio)
    requires forall y :: t.inicio <= y < t.fim ==> RunShows(e, cells[y], t, y)
    ensures Written(e, cells, ts + [t], t.fim)
  {
    forall y | 0 <= y < t.fim
      ensures Shows(e, cells[y], ts + [t], y)
    {
      if y < t.inicio {
        assert Shows(e, cells[y], ts, y);
        OutsideRun(ts, t, y);
      } else {
        assert Blank(ts, y) && RunShows(e, cells[y], t, y);
        RunNext(ts, t, y);
      }
    }
    forall y | y >= t.fim
      ensures Blank(ts + [t], y)
    {
      assert Blank(ts, y);
      OutsideRun(ts, t, y);
    }
  }

  lemma OutsideRun(ts: seq<Trecho>, t: Trecho, y: nat)
    requires |t.texto| <= t.fim - t.inicio && !(t.inicio <= y < t.fim)
    ensures GlyphsAt(ts + [t], y) == GlyphsAt(ts, y) && UnderlinesAt(ts + [t], y) == UnderlinesAt(ts, y)
    ensures RunsAt(ts + [t], y) == RunsAt(ts, y)
  {
    RunNext(ts, t, y);
  }

  /** The characters read for the run over cells inicio up to fim. */
  ghost predicate Read(e: Estilo, cells: seq<Glyph>, t: Trecho, sb: seq<int>) {
    t.inicio < t.fim <= |cells| && |sb| == t.fim - t.inicio
    && (forall k :: 0 <= k < |sb| ==> sb[k] == CharOf(cells[t.inicio + k]))
    && (forall y :: t.inicio <= y < t.fim ==>
          SameStyle(e, cells[y], cells[t.inicio]) && t.recorte == OwnClip(e, cells[y]))
    && t.texto == TrimRight(sb) && t.cor == TintaDe(e, cells[t.inicio])
    && t.negrito == cells[t.inicio].negrito && t.sublinhado == cells[t.inicio].sublinhado
  }

  lemma ReadShows(e: Estilo, cells: seq<Glyph>, t: Trecho, sb: seq<int>)
    requires Read(e, cells, t, sb)
    ensures forall y :: t.inicio <= y < t.fim ==> RunShows(e, cells[y], t, y)
  {
    forall y | t.inicio <= y < t.fim
      ensures RunShows(e, cells[y], t, y)
    {
      RunIsItsCells(e, cells, t, sb, y);
    }
  }

  lemma ClipShared(e: Estilo, cells: seq<Glyph>, inicio: nat, fim: nat, sozinho: bool, largo: bool,
                   recorte: Option<nat>)
    requires inicio < fim <= |cells| && recorte == if sozinho then Some(if largo then 2 else 1) else None
    requires sozinho ==> fim == inicio + 1 && Alone(e, cells[inicio]) && largo == cells[inicio].largo
    requires !sozinho ==> forall y :: inicio <= y < fim ==> !Alone(e, cells[y])
    ensures forall y :: inicio <= y < fim ==> recorte == OwnClip(e, cells[y])
  {
  }

  /** The run could not have gone on: the next cell is a shadow, of another colour
      or style, or the run or the next cell stands alone. */
  ghost predicate BreaksOff(e: Estilo, cells: seq<Glyph>, t: Trecho) {
    t.inicio < t.fim < |cells| ==>
      !SameStyle(e, cells[t.fim], cells[t.inicio]) || Alone(e, cells[t.fim]) || Alone(e, cells[t.inicio])
  }

  /** One run, read and turned into what is drawn for it. */
  method Desenhar(e: Estilo, cells: seq<Glyph>, inicio: nat) returns (t: Trecho)
    requires inicio < |cells| && !cells[inicio].sombra
    ensures t.inicio == inicio && OnGrid(e, cells, t) && BreaksOff(e, cells, t)
    ensures forall y :: inicio <= y < t.fim ==> RunShows(e, cells[y], t, y)
  {
    var g := cells[inicio];
    var fim, sb, sozinho, largo := LerTrecho(e, cells, inicio);
    t := Trecho(inicio, fim, TrimRight(sb), TintaDe(e, g), g.negrito, g.sublinhado,
                if sozinho then Some(if largo then 2 else 1) else None);
    ClipShared(e, cells, inicio, fim, sozinho, largo, t.recorte);
    assert Read(e, cells, t, sb);
    ReadShows(e, cells, t, sb);
  }

  /** The text runs of a row: every cell but the shadows lies in exactly one, and
      shows what it would alone; runs of several cells hold nothing the font's
      grid cannot, so each glyph keeps its own column. */
  method TextosDaLinha(e: Estilo, cells: seq<Glyph>) returns (ts: seq<Trecho>)
    ensures Written(e, cells, ts, |cells|)
    ensures forall t :: t in ts ==> OnGrid(e, cells, t) && BreaksOff(e, cells, t)
  {
    ts := [];
    var x := 0;
    while x < |cells|
      invariant x <= |cells| && Written(e, cells, ts, x)
      invariant forall t :: t in ts ==> OnGrid(e, cells, t) && BreaksOff(e, cells, t)
    {
      if cells[x].sombra {
        assert Blank(ts, x);
        x := x + 1;
        continue;
      }
      var t := Desenhar(e, cells, x);
      WriteRun(e, cells, ts, t);
      ts := ts + [t];
      x := t.fim;
    }
  }

  /** What a written row shows, cell by cell and attribute by attribute: nothing
      for shadows and blanks; a plain character in its colour and weight, unclipped
      where the font's grid holds it, clipped to its cell where it does not, and to
      two cells where it is wide; and a stroke under every underlined cell. */
  lemma RowMeans(e: Estilo, cells: seq<Glyph>, ts: seq<Trecho>, y: nat)
    requires y < |cells| && Written(e, cells, ts, |cells|)
    ensures var g, drawn, strokes := cells[y], GlyphsAt(ts, y), UnderlinesAt(ts, y);
            var cor, c := e.corDeTexto(g.fg), g.letra;
            var noGrid := (c < 0x80 && c < 0x20) || (c >= 0x80 && (e.larguraDupla(c) || !e.naFonte(c)));
            (g.sombra || c == 0 || c == 0x20 ==> drawn == [])
            && (!g.sombra && c != 0 && c != 0x20 && g.largo ==> drawn == [Desenho(c, cor, g.negrito, Some(2))])
            && (!g.sombra && c != 0 && c != 0x20 && !g.largo && noGrid ==>
                  drawn == [Desenho(c, cor, g.negrito, Some(1))])
            && (!g.sombra && c != 0 && c != 0x20 && !g.largo && !noGrid ==>
                  drawn == [Desenho(c, cor, g.negrito, None)])
            && (g.sublinhado && !g.sombra ==> strokes == [cor]) && (!g.sublinhado || g.sombra ==> strokes == [])
  {
    assert Shows(e, cells[y], ts, y);
  }

  /** And what a painted row shows behind them. */
  lemma BackgroundMeans(e: Estilo, cells: seq<Glyph>, fs: seq<Faixa>, y: nat)
    requires y < |cells| && Painted(e, cells, fs, |cells|)
    ensures e.corDeFundo(cells[y].bg).Some? ==> BandsAt(fs, y) == [e.corDeFundo(cells[y].bg).value]
    ensures e.corDeFundo(cells[y].bg).None? ==> BandsAt(fs, y) == []
  {
  }

  // ---------------------------------------------------------------- pixels

  /** Where a column starts, in whole pixels: the real advance, rounded. */
  function Px(avanco: real, col: nat): int {
    (col as real * avanco + 0.5).Floor
  }

  lemma PxMonotone(avanco: real, a: nat, b: nat)
    requires avanco >= 0.0 && a <= b
    ensures Px(avanco, a) <= Px(avanco, b)
  {
    assert a as real * avanco <= b as real * avanco;
  }

  /** The colours painted over pixel p, in order. */
  function PixelBands(avanco: real, fs: seq<Faixa>, p: int): seq<Cor> {
    if fs == [] then []
    else
      var f := fs[|fs| - 1];
      PixelBands(avanco, fs[..|fs| - 1], p) + if Px(avanco, f.de) <= p < Px(avanco, f.ate) then [f.cor] else []
  }

  /** However the advance rounds, a pixel of a column gets what the column gets:
      bands neither bleed into a neighbour nor leave a seam. */
  lemma {:induction false} PixelIsColumn(avanco: real, fs: seq<Faixa>, x: nat, p: int)
    requires avanco >= 0.0 && Px(avanco, x) <= p < Px(avanco, x + 1)
    ensures PixelBands(avanco, fs, p) == BandsAt(fs, x)
  {
    if fs != [] {
      var f := fs[|fs| - 1];
      PixelIsColumn(avanco, fs[..|fs| - 1], x, p);
      if x < f.de {
        PxMonotone(avanco, x + 1, f.de);
      } else {
        PxMonotone(avanco, f.de, x);
      }
      if x < f.ate {
        PxMonotone(avanco, x + 1, f.ate);
      } else {
        PxMonotone(avanco, f.ate, x);
      }
    }
  }
}

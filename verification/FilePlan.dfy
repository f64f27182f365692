/** Planning a merge-copy: which file goes where, and which directories are made
    on the way (planejar, cmd/acessos/sftptab.go). */
module FilePlan {
  import opened FileTree
  import opened FileOps

  datatype ArquivoPlano = ArquivoPlano(origem: Path, destino: Path, rel: Path)

  /** The items not skipped by name. */
  function Kept(itens: seq<Entry>, pular: set<string>): seq<Entry> {
    if itens == [] then []
    else
      var it := itens[|itens| - 1];
      Kept(itens[..|itens| - 1], pular) + if it.nome in pular then [] else [it]
  }

  lemma {:induction false} KeptFrom(itens: seq<Entry>, pular: set<string>)
    ensures forall it :: it in Kept(itens, pular) <==> it in itens && it.nome !in pular
    ensures (forall i, j :: 0 <= i < j < |itens| ==> itens[i].nome != itens[j].nome) ==>
              forall i, j :: 0 <= i < j < |Kept(itens, pular)| ==>
                Kept(itens, pular)[i].nome != Kept(itens, pular)[j].nome
  {
    if itens != [] {
      var rest := itens[..|itens| - 1];
      KeptFrom(rest, pular);
      forall it
        ensures it in itens <==> it in rest || it == itens[|itens| - 1]
      {
        assert itens == rest + [itens[|itens| - 1]];
      }
      var k := Kept(rest, pular);
      forall i | 0 <= i < |k| && forall a, b :: 0 <= a < b < |itens| ==> itens[a].nome != itens[b].nome
        ensures k[i].nome != itens[|itens| - 1].nome
      {
        assert k[i] in rest;
        var j :| 0 <= j < |rest| && rest[j] == k[i];
        assert itens[j] == rest[j];
      }
    }
  }

  // ------------------------------------------------- from source to destination

  /** Where a path under the source base goes. */
  function Dest(origem: Path, destino: Path, q: Path): Path
    requires origem <= q
  {
    destino + q[|origem|..]
  }

  ghost function Dests(origem: Path, destino: Path, S: set<Path>): set<Path> {
    set q | q in S && origem <= q :: Dest(origem, destino, q)
  }

  /** The directories that making the destinations of S asks for: those, and
      everything on the way to them. */
  ghost function Made(origem: Path, destino: Path, S: set<Path>): set<Path> {
    set q, d | q in S && origem <= q && d in Prefixes(Dest(origem, destino, q)) :: d
  }

  lemma MadeJoin(origem: Path, destino: Path, A: set<Path>, B: set<Path>)
    ensures Made(origem, destino, A + B) == Made(origem, destino, A) + Made(origem, destino, B)
  {
  }

  /** The plan holds each file of S once, and says where it comes from and goes. */
  ghost predicate Covers(plano: seq<ArquivoPlano>, origem: Path, destino: Path, S: set<Path>) {
    (forall a :: a in plano ==> a.origem in S && a.origem == origem + a.rel && a.destino == destino + a.rel)
    && (forall i, j :: 0 <= i < j < |plano| ==> plano[i].origem != plano[j].origem)
    && (forall q :: q in S ==> exists i :: 0 <= i < |plano| && plano[i].origem == q)
  }

  lemma CoversJoin(p1: seq<ArquivoPlano>, p2: seq<ArquivoPlano>, origem: Path, destino: Path,
                   S1: set<Path>, S2: set<Path>)
    requires Covers(p1, origem, destino, S1) && Covers(p2, origem, destino, S2) && S1 !! S2
    ensures Covers(p1 + p2, origem, destino, S1 + S2)
  {
    var p := p1 + p2;
    forall q | q in S1 + S2
      ensures exists i :: 0 <= i < |p| && p[i].origem == q
    {
      if q in S1 {
        var i :| 0 <= i < |p1| && p1[i].origem == q;
        assert p[i].origem == q;
      } else {
        var i :| 0 <= i < |p2| && p2[i].origem == q;
        assert p[|p1| + i].origem == q;
      }
    }
    forall i, j | 0 <= i < j < |p|
      ensures p[i].origem != p[j].origem
    {
      assert p[i] == if i < |p1| then p1[i] else p2[i - |p1|];
      assert p[j] == if j < |p1| then p1[j] else p2[j - |p1|];
    }
  }

  /** Two files never land on the same place. */
  lemma DestinationsDistinct(plano: seq<ArquivoPlano>, origem: Path, destino: Path, S: set<Path>, i: nat, j: nat)
    requires Covers(plano, origem, destino, S) && i < j < |plano|
    ensures plano[i].destino != plano[j].destino
  {
    assert plano[i] in plano && plano[j] in plano;
    assert plano[i].rel == plano[i].destino[|destino|..];
    assert plano[j].rel == plano[j].destino[|destino|..];
  }

  // ---------------------------------------------------------------- planning

  /** What one more item adds to the files and directories of a selection. */
  lemma NextItem(s: Nodes, origem: Path, base: Path, destino: Path, itens: seq<Entry>)
    requires WellFormed(s) && Selection(s, base, itens) && itens != [] && origem <= base
    ensures var rest, it := itens[..|itens| - 1], itens[|itens| - 1];
            var p := base + [it.nome];
            p in s && s[p].Dir? == it.dir
            && Part(s, base, itens, false) == Part(s, base, rest, false) + FilesUnder(s, p)
            && Part(s, base, rest, false) !! FilesUnder(s, p)
            && Made(origem, destino, Part(s, base, itens, true))
               == Made(origem, destino, Part(s, base, rest, true)) + Made(origem, destino, DirsUnder(s, p))
            && (!it.dir ==> FilesUnder(s, p) == {p} && DirsUnder(s, p) == {})
  {
    var rest, it := itens[..|itens| - 1], itens[|itens| - 1];
    var p := base + [it.nome];
    assert it in itens;
    PartSplit(s, base, itens);
    MadeJoin(origem, destino, Part(s, base, rest, true), DirsUnder(s, p));
    if !it.dir {
      FileAlone(s, p);
    }
  }

  /** A directory's files and directories, from its children's. */
  lemma WholeDirectory(s: Nodes, origem: Path, destino: Path, p: Path, ents: seq<Entry>)
    requires WellFormed(s) && p in s && s[p].Dir? && Lists(s, p, ents) && origem <= p
    ensures FilesUnder(s, p) == Part(s, p, ents, false)
    ensures Made(origem, destino, DirsUnder(s, p))
            == Prefixes(Dest(origem, destino, p)) + Made(origem, destino, Part(s, p, ents, true))
  {
    ListingParts(s, p, ents);
    MadeJoin(origem, destino, {p}, Part(s, p, ents, true));
    assert Made(origem, destino, {p}) == Prefixes(Dest(origem, destino, p));
  }

  lemma CoversOne(origem: Path, destino: Path, rel: Path)
    ensures Covers([ArquivoPlano(origem + rel, destino + rel, rel)], origem, destino, {origem + rel})
  {
    assert [ArquivoPlano(origem + rel, destino + rel, rel)][0].origem == origem + rel;
  }

  /** The state of planning the first items of base: t is the destination
      before any of them, made what else was to be made first. */
  ghost predicate Planned(s: Nodes, t: Nodes, u: Nodes, origem: Path, base: Path, destino: Path,
                          itens: seq<Entry>, made: set<Path>, plano: seq<ArquivoPlano>)
  {
    Covers(plano, origem, destino, Part(s, base, itens, false))
    && u == WithDirs(t, made + Made(origem, destino, Part(s, base, itens, true)))
  }

  lemma PlannedNext(s: Nodes, t: Nodes, u: Nodes, v: Nodes, origem: Path, base: Path, destino: Path,
                    itens: seq<Entry>, made: set<Path>, plano: seq<ArquivoPlano>, parte: seq<ArquivoPlano>)
    requires WellFormed(s) && Selection(s, base, itens) && itens != [] && origem <= base
    requires Planned(s, t, u, origem, base, destino, itens[..|itens| - 1], made, plano)
    requires Covers(parte, origem, destino, FilesUnder(s, base + [itens[|itens| - 1].nome]))
    requires v == WithDirs(u, Made(origem, destino, DirsUnder(s, base + [itens[|itens| - 1].nome])))
    ensures Planned(s, t, v, origem, base, destino, itens, made, plano + parte)
  {
    var rest, p := itens[..|itens| - 1], base + [itens[|itens| - 1].nome];
    var D := made + Made(origem, destino, Part(s, base, rest, true));
    var E := Made(origem, destino, DirsUnder(s, p));
    NextItem(s, origem, base, destino, itens);
    CoversJoin(plano, parte, origem, destino, Part(s, base, rest, false), FilesUnder(s, p));
    WithDirsTwice(t, D, E);
    assert D + E == made + Made(origem, destino, Part(s, base, itens, true));
  }

  lemma PlannedNone(s: Nodes, t: Nodes, origem: Path, base: Path, destino: Path, made: set<Path>)
    ensures Planned(s, t, WithDirs(t, made), origem, base, destino, [], made, [])
  {
    assert Part(s, base, [], true) == {} && Part(s, base, [], false) == {};
    assert made + Made(origem, destino, {}) == made;
  }

  /** Plans one item: a file by itself, or a directory with all it holds. */
  method PlanejarItem(src: Arvore, dst: Arvore, o: Path, d: Path, rel: Path, dir: bool,
                      ghost origem: Path, ghost destino: Path) returns (parte: seq<ArquivoPlano>)
    requires src != dst && WellFormed(src.nodes) && WellFormed(dst.nodes)
    requires o == origem + rel && d == destino + rel
    requires o in src.nodes && src.nodes[o].Dir? == dir
    modifies dst
    ensures WellFormed(dst.nodes)
    ensures Covers(parte, origem, destino, FilesUnder(src.nodes, o))
    ensures dst.nodes == WithDirs(old(dst.nodes), Made(origem, destino, DirsUnder(src.nodes, o)))
    decreases |Under(src.nodes, o)|, 1
  {
    if dir {
      parte := AndaPlano(src, dst, o, d, rel, origem, destino);
    } else {
      FileAlone(src.nodes, o);
      CoversOne(origem, destino, rel);
      parte := [ArquivoPlano(o, d, rel)];
    }
  }

  /** What a child needs before it is planned. */
  lemma BeforeChild(s: Nodes, origem: Path, destino: Path, rel: Path, ents: seq<Entry>, i: nat)
    requires Selection(s, origem + rel, ents) && i < |ents|
    ensures var n := ents[i].nome;
            origem + rel + [n] == origem + (rel + [n]) && destino + rel + [n] == destino + (rel + [n])
            && origem + rel + [n] in s && s[origem + rel + [n]].Dir? == ents[i].dir
    ensures ents[..i + 1][..i] == ents[..i] && Selection(s, origem + rel, ents[..i + 1])
  {
    assert ents[i] in ents;
  }

  /** Plans one directory, making it and every directory below it on the way.
      A file in the way of a directory is left there, silently. */
  method AndaPlano(src: Arvore, dst: Arvore, orig: Path, dest: Path, rel: Path,
                   ghost origem: Path, ghost destino: Path) returns (plano: seq<ArquivoPlano>)
    requires src != dst && WellFormed(src.nodes) && WellFormed(dst.nodes)
    requires orig == origem + rel && dest == destino + rel
    requires orig in src.nodes && src.nodes[orig].Dir?
    modifies dst
    ensures WellFormed(dst.nodes)
    ensures Covers(plano, origem, destino, FilesUnder(src.nodes, orig))
    ensures dst.nodes == WithDirs(old(dst.nodes), Made(origem, destino, DirsUnder(src.nodes, orig)))
    decreases |Under(src.nodes, orig)|, 0
  {
    ghost var s, t := src.nodes, dst.nodes;
    plano := [];
    dst.MkdirAll(dest);
    var ents, ok := src.ReadDir(orig);
    ListedIsSelection(s, orig, ents);
    PlannedNone(s, t, origem, orig, destino, Prefixes(dest));
    assert ents[..0] == [];
    for i := 0 to |ents|
      invariant WellFormed(dst.nodes)
      invariant Planned(s, t, dst.nodes, origem, orig, destino, ents[..i], Prefixes(dest), plano)
    {
      var it := ents[i];
      ghost var u := dst.nodes;
      var o, d, r := orig + [it.nome], dest + [it.nome], rel + [it.nome];
      BeforeChild(s, origem, destino, rel, ents, i);
      ChildSmaller(s, s, orig, it.nome);
      var parte := PlanejarItem(src, dst, o, d, r, it.dir, origem, destino);
      PlannedNext(s, t, u, dst.nodes, origem, orig, destino, ents[..i + 1], Prefixes(dest), plano, parte);
      plano := plano + parte;
    }
    assert ents[..|ents|] == ents;
    WholeDirectory(s, origem, destino, orig, ents);
  }

  lemma KeptNext(s: Nodes, origem: Path, itens: seq<Entry>, i: nat, pular: set<string>)
    requires Selection(s, origem, itens) && i < |itens|
    ensures var k := Kept(itens[..i + 1], pular);
            if itens[i].nome in pular then k == Kept(itens[..i], pular)
            else k != [] && k[..|k| - 1] == Kept(itens[..i], pular) && k[|k| - 1] == itens[i]
                 && Selection(s, origem, k) && itens[i] in itens
  {
    assert itens[..i + 1][..i] == itens[..i];
    KeptFrom(itens[..i + 1], pular);
    assert forall it :: it in itens[..i + 1] ==> it in itens;
  }

  /** Plans the whole selection but the names to skip, and makes its directories. */
  method Planejar(src: Arvore, dst: Arvore, origem: Path, destino: Path, itens: seq<Entry>, pular: set<string>)
    returns (plano: seq<ArquivoPlano>)
    requires src != dst && WellFormed(src.nodes) && WellFormed(dst.nodes)
    requires Selection(src.nodes, origem, itens)
    modifies dst
    ensures WellFormed(dst.nodes)
    ensures Covers(plano, origem, destino, Part(src.nodes, origem, Kept(itens, pular), false))
    ensures dst.nodes == WithDirs(old(dst.nodes),
                                  Made(origem, destino, Part(src.nodes, origem, Kept(itens, pular), true)))
  {
    ghost var s, t := src.nodes, dst.nodes;
    plano := [];
    PlannedNone(s, t, origem, origem, destino, {});
    assert WithDirs(t, {}) == t;
    for i := 0 to |itens|
      invariant WellFormed(dst.nodes)
      invariant Planned(s, t, dst.nodes, origem, origem, destino, Kept(itens[..i], pular), {}, plano)
    {
      var it := itens[i];
      KeptNext(s, origem, itens, i, pular);
      if it.nome in pular {
        continue;
      }
      ghost var u := dst.nodes;
      ghost var k := Kept(itens[..i + 1], pular);
      var parte := PlanejarItem(src, dst, origem + [it.nome], destino + [it.nome], [it.nome], it.dir, origem, destino);
      PlannedNext(s, t, u, dst.nodes, origem, origem, destino, k, {}, plano, parte);
      plano := plano + parte;
    }
    assert itens[..|itens|] == itens;
    assert {} + Made(origem, destino, Part(s, origem, Kept(itens, pular), true))
        == Made(origem, destino, Part(s, origem, Kept(itens, pular), true));
  }
}

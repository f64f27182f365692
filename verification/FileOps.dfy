/** The SFTP tab's operations on whole selections: counting, deleting, and
    merge-copying trees (cmd/acessos/sftptab.go). */
module FileOps {
  import opened FileTree

  /** The selection as the panel listed it. */
  ghost predicate Selection(t: Nodes, base: Path, itens: seq<Entry>) {
    (forall i, j :: 0 <= i < j < |itens| ==> itens[i].nome != itens[j].nome)
    && forall it :: it in itens ==> base + [it.nome] in t && t[base + [it.nome]].Dir? == it.dir
  }

  ghost predicate Selected(base: Path, itens: seq<Entry>, q: Path) {
    exists i :: 0 <= i < |itens| && base + [itens[i].nome] <= q
  }

  ghost function FileTotal(t: Nodes, base: Path, itens: seq<Entry>): nat {
    if itens == [] then 0
    else FileTotal(t, base, itens[..|itens| - 1]) + |FilesUnder(t, base + [itens[|itens| - 1].nome])|
  }

  ghost function DirTotal(t: Nodes, base: Path, itens: seq<Entry>): nat {
    if itens == [] then 0
    else DirTotal(t, base, itens[..|itens| - 1]) + |DirsUnder(t, base + [itens[|itens| - 1].nome])|
  }

  /** The tree without the subtrees of the selection. */
  ghost function WithoutSelected(t: Nodes, base: Path, itens: seq<Entry>): Nodes {
    map q | q in t && !Selected(base, itens, q) :: t[q]
  }

  // -------------------------------------------- subtrees and their children

  /** The files, or the directories, under some children of p. */
  ghost function Part(t: Nodes, p: Path, ents: seq<Entry>, dir: bool): set<Path> {
    set q | q in t && Selected(p, ents, q) && t[q].Dir? == dir
  }

  lemma ChildOf(p: Path, q: Path, n: string)
    requires p <= q && |p| < |q| && q[|p|] == n
    ensures p + [n] <= q
  {
    assert q[..|p| + 1] == p + [n];
  }

  /** A full listing of a directory accounts for everything strictly under it. */
  lemma ListingCovers(t: Nodes, p: Path, ents: seq<Entry>, q: Path)
    requires WellFormed(t) && p in t && Lists(t, p, ents) && q in t
    ensures Selected(p, ents, q) <==> p <= q && p != q
  {
    if p <= q && p != q {
      var n := q[|p|];
      ChildOf(p, q, n);
      if |q| > |p| + 1 {
        AncestorIn(t, q, |p| + 1);
      }
      assert q[..|p| + 1] == p + [n];
      assert |q| == |p| + 1 ==> q == p + [n];
      var i :| 0 <= i < |ents| && ents[i] == Entry(n, t[p + [n]].Dir?);
      assert p + [ents[i].nome] <= q;
    }
    if Selected(p, ents, q) {
      var i :| 0 <= i < |ents| && p + [ents[i].nome] <= q;
      assert p <= p + [ents[i].nome] <= q;
    }
  }

  /** A file has nothing under it but itself. */
  lemma FileAlone(t: Nodes, p: Path)
    requires WellFormed(t) && p in t && t[p].File?
    ensures Under(t, p) == {p} && FilesUnder(t, p) == {p} && DirsUnder(t, p) == {}
  {
    forall q | q in t && p <= q
      ensures q == p
    {
      assert q[..|p|] == p;
      if |p| < |q| {
        AncestorIn(t, q, |p|);
      }
    }
  }

  /** The counts of a directory are its children's and itself. */
  lemma DirCounts(t: Nodes, p: Path, ents: seq<Entry>)
    requires WellFormed(t) && p in t && t[p].Dir? && Lists(t, p, ents)
    ensures |FilesUnder(t, p)| == FileTotal(t, p, ents)
    ensures |DirsUnder(t, p)| == DirTotal(t, p, ents) + 1
  {
    TotalsAreSets(t, p, ents);
    ListingParts(t, p, ents);
  }

  lemma ListingParts(t: Nodes, p: Path, ents: seq<Entry>)
    requires WellFormed(t) && p in t && t[p].Dir? && Lists(t, p, ents)
    ensures FilesUnder(t, p) == Part(t, p, ents, false)
    ensures DirsUnder(t, p) == {p} + Part(t, p, ents, true) && p !in Part(t, p, ents, true)
  {
    forall q | q in t
      ensures Selected(p, ents, q) <==> p <= q && p != q
    {
      ListingCovers(t, p, ents, q);
    }
  }

  lemma SelectedSplit(base: Path, itens: seq<Entry>, q: Path)
    requires itens != []
    ensures Selected(base, itens, q) <==>
            Selected(base, itens[..|itens| - 1], q) || base + [itens[|itens| - 1].nome] <= q
  {
    if Selected(base, itens, q) {
      var i :| 0 <= i < |itens| && base + [itens[i].nome] <= q;
      if i < |itens| - 1 {
        assert itens[..|itens| - 1][i] == itens[i];
      }
    }
    if Selected(base, itens[..|itens| - 1], q) {
      var i :| 0 <= i < |itens| - 1 && base + [itens[..|itens| - 1][i].nome] <= q;
      assert itens[i] == itens[..|itens| - 1][i];
    }
    if base + [itens[|itens| - 1].nome] <= q {
      assert base + [itens[|itens| - 1].nome] <= q;
    }
  }

  /** Two different items never select the same path. */
  lemma SelectedOnce(base: Path, itens: seq<Entry>, q: Path)
    requires itens != [] && forall i, j :: 0 <= i < j < |itens| ==> itens[i].nome != itens[j].nome
    requires base + [itens[|itens| - 1].nome] <= q
    ensures !Selected(base, itens[..|itens| - 1], q)
  {
    if Selected(base, itens[..|itens| - 1], q) {
      var i :| 0 <= i < |itens| - 1 && base + [itens[..|itens| - 1][i].nome] <= q;
      SiblingsApart(base, itens[i].nome, itens[|itens| - 1].nome);
      ApartUnder(base + [itens[i].nome], base + [itens[|itens| - 1].nome], q);
    }
  }

  /** The last item's share, and that it is nobody else's. */
  lemma PartSplit(t: Nodes, base: Path, itens: seq<Entry>)
    requires itens != [] && forall i, j :: 0 <= i < j < |itens| ==> itens[i].nome != itens[j].nome
    ensures var rest, p := itens[..|itens| - 1], base + [itens[|itens| - 1].nome];
            Part(t, base, itens, false) == Part(t, base, rest, false) + FilesUnder(t, p)
            && Part(t, base, itens, true) == Part(t, base, rest, true) + DirsUnder(t, p)
            && Part(t, base, rest, false) !! FilesUnder(t, p) && Part(t, base, rest, true) !! DirsUnder(t, p)
  {
    var rest, p := itens[..|itens| - 1], base + [itens[|itens| - 1].nome];
    forall q | q in t
      ensures Selected(base, itens, q) <==> Selected(base, rest, q) || p <= q
      ensures p <= q ==> !Selected(base, rest, q)
    {
      SelectedSplit(base, itens, q);
      if p <= q {
        SelectedOnce(base, itens, q);
      }
    }
  }

  lemma {:induction false} TotalsAreSets(t: Nodes, base: Path, itens: seq<Entry>)
    requires forall i, j :: 0 <= i < j < |itens| ==> itens[i].nome != itens[j].nome
    ensures FileTotal(t, base, itens) == |Part(t, base, itens, false)|
    ensures DirTotal(t, base, itens) == |Part(t, base, itens, true)|
  {
    if itens == [] {
      assert Part(t, base, itens, false) == {} && Part(t, base, itens, true) == {};
    } else {
      TotalsAreSets(t, base, itens[..|itens| - 1]);
      PartSplit(t, base, itens);
    }
  }

  // --------------------------------------------------------- the subtree size

  /** The measure of every recursion below: a child's subtree is smaller. */
  lemma ChildSmaller(t: Nodes, u: Nodes, p: Path, n: string)
    requires p in t && u.Keys <= t.Keys
    ensures |Under(u, p + [n])| < |Under(t, p)|
  {
    assert p in Under(t, p) && p !in Under(u, p + [n]);
    SubsetSize(Under(u, p + [n]), Under(t, p) - {p});
  }

  lemma {:induction false} SubsetSize<T>(a: set<T>, b: set<T>)
    requires a <= b
    ensures |a| <= |b|
  {
    assert b == a + (b - a);
  }

  // ---------------------------------------------------------------- counting

  /** The counts after the first k items. */
  ghost predicate Counted(t: Nodes, base: Path, itens: seq<Entry>, k: nat, arquivos: int, pastas: int) {
    k <= |itens| && arquivos == FileTotal(t, base, itens[..k]) && pastas == DirTotal(t, base, itens[..k])
  }

  /** One more item: a file counts itself, a directory itself and what it holds. */
  lemma CountNext(t: Nodes, base: Path, itens: seq<Entry>, k: nat, arquivos: int, pastas: int)
    requires WellFormed(t) && Selection(t, base, itens) && k < |itens| && Counted(t, base, itens, k, arquivos, pastas)
    ensures var it, p := itens[k], base + [itens[k].nome];
            p in t && t[p].Dir? == it.dir
            && Counted(t, base, itens, k + 1, arquivos + |FilesUnder(t, p)|, pastas + |DirsUnder(t, p)|)
            && (!it.dir ==> |FilesUnder(t, p)| == 1 && |DirsUnder(t, p)| == 0)
  {
    assert itens[..k + 1][..k] == itens[..k] && itens[k] in itens;
    if !itens[k].dir {
      FileAlone(t, base + [itens[k].nome]);
    }
  }

  /** What is under a directory, itself left out. */
  method Anda(arv: Arvore, p: Path) returns (arquivos: nat, pastas: nat)
    requires WellFormed(arv.nodes)
    ensures p in arv.nodes && arv.nodes[p].Dir? ==>
              arquivos == |FilesUnder(arv.nodes, p)| && pastas + 1 == |DirsUnder(arv.nodes, p)|
    ensures !(p in arv.nodes && arv.nodes[p].Dir?) ==> arquivos == 0 && pastas == 0
    decreases |Under(arv.nodes, p)|
  {
    arquivos, pastas := 0, 0;
    var ents, ok := arv.ReadDir(p);
    if !ok {
      return;
    }
    ListedIsSelection(arv.nodes, p, ents);
    for i := 0 to |ents|
      invariant Counted(arv.nodes, p, ents, i, arquivos, pastas)
    {
      var e := ents[i];
      CountNext(arv.nodes, p, ents, i, arquivos, pastas);
      if e.dir {
        ChildSmaller(arv.nodes, arv.nodes, p, e.nome);
        var a, d := Anda(arv, p + [e.nome]);
        arquivos, pastas := arquivos + a, pastas + 1 + d;
      } else {
        arquivos := arquivos + 1;
      }
    }
    assert ents[..|ents|] == ents;
    DirCounts(arv.nodes, p, ents);
  }

  /** The two numbers the delete confirmation shows. */
  method Levantar(arv: Arvore, base: Path, itens: seq<Entry>) returns (arquivos: nat, pastas: nat)
    requires WellFormed(arv.nodes) && Selection(arv.nodes, base, itens)
    ensures arquivos == |Part(arv.nodes, base, itens, false)|
    ensures pastas == |Part(arv.nodes, base, itens, true)|
  {
    arquivos, pastas := 0, 0;
    for i := 0 to |itens|
      invariant Counted(arv.nodes, base, itens, i, arquivos, pastas)
    {
      var it := itens[i];
      CountNext(arv.nodes, base, itens, i, arquivos, pastas);
      if it.dir {
        var a, d := Anda(arv, base + [it.nome]);
        arquivos, pastas := arquivos + a, pastas + 1 + d;
      } else {
        arquivos := arquivos + 1;
      }
    }
    assert itens[..|itens|] == itens;
    TotalsAreSets(arv.nodes, base, itens);
  }

  // ---------------------------------------------------------------- deleting

  /** One more item pruned from what the previous ones left. */
  lemma PruneNext(t: Nodes, base: Path, itens: seq<Entry>)
    requires itens != []
    ensures Pruned(WithoutSelected(t, base, itens[..|itens| - 1]), base + [itens[|itens| - 1].nome])
            == WithoutSelected(t, base, itens)
  {
    forall q | q in t
      ensures Selected(base, itens, q) <==>
              Selected(base, itens[..|itens| - 1], q) || base + [itens[|itens| - 1].nome] <= q
    {
      SelectedSplit(base, itens, q);
    }
  }

  /** The previous items' removal did not touch this one's subtree. */
  lemma StillWhole(t: Nodes, base: Path, itens: seq<Entry>)
    requires itens != [] && forall i, j :: 0 <= i < j < |itens| ==> itens[i].nome != itens[j].nome
    ensures var u, p := WithoutSelected(t, base, itens[..|itens| - 1]), base + [itens[|itens| - 1].nome];
            FilesUnder(u, p) == FilesUnder(t, p) && DirsUnder(u, p) == DirsUnder(t, p)
            && (p in t ==> p in u && u[p] == t[p])
  {
    var p := base + [itens[|itens| - 1].nome];
    forall q | q in t && p <= q
      ensures !Selected(base, itens[..|itens| - 1], q)
    {
      SelectedOnce(base, itens, q);
    }
  }

  /** A directory whose children are gone is all that is left of its subtree. */
  lemma Emptied(t: Nodes, p: Path, ents: seq<Entry>)
    requires WellFormed(t) && p in t && t[p].Dir? && Lists(t, p, ents)
    ensures Under(WithoutSelected(t, p, ents), p) == {p}
    ensures WithoutSelected(t, p, ents) - {p} == Pruned(t, p)
  {
    forall q | q in t
      ensures Selected(p, ents, q) <==> p <= q && p != q
    {
      ListingCovers(t, p, ents, q);
    }
    assert p in WithoutSelected(t, p, ents);
  }

  lemma ListedIsSelection(t: Nodes, p: Path, ents: seq<Entry>)
    requires Lists(t, p, ents)
    ensures Selection(t, p, ents)
  {
  }

  /** Removes a directory from the bottom up: every RemoveDirectory it makes
      succeeds, so each met an empty directory. */
  method ApagarArvore(arv: Arvore, p: Path) returns (ok: bool)
    requires WellFormed(arv.nodes) && p != []
    modifies arv
    ensures WellFormed(arv.nodes)
    ensures ok <==> p in old(arv.nodes) && old(arv.nodes)[p].Dir?
    ensures arv.nodes == if ok then Pruned(old(arv.nodes), p) else old(arv.nodes)
    ensures arv.arquivosRemovidos == old(arv.arquivosRemovidos)
                                     + if ok then |FilesUnder(old(arv.nodes), p)| else 0
    ensures arv.pastasRemovidas == old(arv.pastasRemovidas)
                                   + if ok then |DirsUnder(old(arv.nodes), p)| else 0
    decreases |Under(arv.nodes, p)|, 0
  {
    ghost var t := arv.nodes;
    var ents;
    ents, ok := arv.ReadDir(p);
    if !ok {
      return;
    }
    ListedIsSelection(t, p, ents);
    for i := 0 to |ents|
      invariant WellFormed(arv.nodes)
      invariant arv.nodes == WithoutSelected(t, p, ents[..i])
      invariant arv.arquivosRemovidos == old(arv.arquivosRemovidos) + FileTotal(t, p, ents[..i])
      invariant arv.pastasRemovidas == old(arv.pastasRemovidas) + DirTotal(t, p, ents[..i])
    {
      var e := ents[i];
      var alvo := p + [e.nome];
      ExcluirAte(t, p, ents, i);
      ChildSmaller(t, arv.nodes, p, e.nome);
      ok := ExcluirItem(arv, alvo, e.dir);
      if !ok {
        return;
      }
    }
    assert ents[..|ents|] == ents;
    Emptied(t, p, ents);
    DirCounts(t, p, ents);
    PrunedWellFormed(t, p);
    ok := arv.RemoveDirectory(p);
  }

  /** Whether an item is still there with the kind it was listed with. */
  ghost predicate Matches(t: Nodes, base: Path, it: Entry) {
    base + [it.nome] in t && t[base + [it.nome]].Dir? == it.dir
  }

  /** What deleting an item takes: a directory for one listed as such, and
      otherwise a file, or a directory that has become empty. */
  ghost predicate Removable(t: Nodes, alvo: Path, dir: bool) {
    alvo in t && if dir then t[alvo].Dir? else t[alvo].File? || Under(t, alvo) == {alvo}
  }

  /** Deletes one item of the listing, by the kind it was listed with. */
  method ExcluirItem(arv: Arvore, alvo: Path, dir: bool) returns (ok: bool)
    requires WellFormed(arv.nodes) && alvo != []
    modifies arv
    ensures WellFormed(arv.nodes)
    ensures ok <==> Removable(old(arv.nodes), alvo, dir)
    ensures arv.nodes == if ok then Pruned(old(arv.nodes), alvo) else old(arv.nodes)
    ensures arv.arquivosRemovidos == old(arv.arquivosRemovidos)
                                     + if ok then |FilesUnder(old(arv.nodes), alvo)| else 0
    ensures arv.pastasRemovidas == old(arv.pastasRemovidas)
                                   + if ok then |DirsUnder(old(arv.nodes), alvo)| else 0
    decreases |Under(arv.nodes, alvo)|, 1
  {
    if dir {
      ok := ApagarArvore(arv, alvo);
    } else {
      OnlyItself(arv.nodes, alvo);
      PrunedWellFormed(arv.nodes, alvo);
      ok := arv.Remove(alvo);
    }
  }

  /** The first k items gone, counted if the selection is as it was listed. */
  ghost predicate Deleted(arv: Arvore, t: Nodes, base: Path, itens: seq<Entry>, k: nat, files: int, dirs: int)
    reads arv
  {
    k <= |itens| && WellFormed(arv.nodes) && arv.nodes == WithoutSelected(t, base, itens[..k])
    && (Selection(t, base, itens) ==>
          arv.arquivosRemovidos == files + FileTotal(t, base, itens[..k])
          && arv.pastasRemovidas == dirs + DirTotal(t, base, itens[..k]))
  }

  /** Deletes item by item and stops at the first that can no longer be. Only
      the subtrees of the items before it are gone. */
  method ExcluirRemoto(arv: Arvore, base: Path, itens: seq<Entry>) returns (feitos: nat)
    requires WellFormed(arv.nodes)
    modifies arv
    ensures WellFormed(arv.nodes)
    ensures feitos <= |itens|
    ensures arv.nodes == WithoutSelected(old(arv.nodes), base, itens[..feitos])
    ensures feitos < |itens| ==> !Removable(arv.nodes, base + [itens[feitos].nome], itens[feitos].dir)
    ensures Selection(old(arv.nodes), base, itens) ==>
              feitos == |itens|
              && arv.nodes == WithoutSelected(old(arv.nodes), base, itens)
              && arv.arquivosRemovidos == old(arv.arquivosRemovidos)
                                          + |Part(old(arv.nodes), base, itens, false)|
              && arv.pastasRemovidas == old(arv.pastasRemovidas)
                                        + |Part(old(arv.nodes), base, itens, true)|
  {
    ghost var t, files, dirs := arv.nodes, arv.arquivosRemovidos, arv.pastasRemovidas;
    feitos := 0;
    var ok := true;
    while ok && feitos < |itens|
      invariant Deleted(arv, t, base, itens, feitos, files, dirs)
      invariant !ok ==> feitos < |itens| && !Removable(arv.nodes, base + [itens[feitos].nome], itens[feitos].dir)
      decreases |itens| - feitos, ok
    {
      ExcluirAte(t, base, itens, feitos);
      ok := ExcluirItem(arv, base + [itens[feitos].nome], itens[feitos].dir);
      if ok {
        feitos := feitos + 1;
      }
    }
    AllDeleted(arv, t, base, itens, feitos, files, dirs);
  }

  lemma AllDeleted(arv: Arvore, t: Nodes, base: Path, itens: seq<Entry>, k: nat, files: int, dirs: int)
    requires Deleted(arv, t, base, itens, k, files, dirs)
    requires k < |itens| ==> !Removable(arv.nodes, base + [itens[k].nome], itens[k].dir)
    ensures Selection(t, base, itens) ==>
              k == |itens|
              && arv.nodes == WithoutSelected(t, base, itens)
              && arv.arquivosRemovidos == files + |Part(t, base, itens, false)|
              && arv.pastasRemovidas == dirs + |Part(t, base, itens, true)|
  {
    assert itens[..|itens|] == itens;
    if Selection(t, base, itens) {
      if k < |itens| {
        ExcluirAte(t, base, itens, k);
      }
      TotalsAreSets(t, base, itens);
    }
  }

  /** A file, or an empty directory, is the whole of its subtree. */
  lemma OnlyItself(t: Nodes, p: Path)
    requires WellFormed(t)
    ensures Removable(t, p, false) ==>
              Pruned(t, p) == t - {p}
              && |FilesUnder(t, p)| == (if t[p].File? then 1 else 0)
              && |DirsUnder(t, p)| == (if t[p].Dir? then 1 else 0)
  {
    if Removable(t, p, false) {
      if t[p].File? {
        FileAlone(t, p);
      }
      forall q | q in t && p <= q
        ensures q == p
      {
        assert q in Under(t, p);
      }
      assert FilesUnder(t, p) == if t[p].File? then {p} else {};
      assert DirsUnder(t, p) == if t[p].Dir? then {p} else {};
    }
  }

  /** The state before item k: what pruning it leaves, and its counts. */
  lemma ExcluirAte(t: Nodes, base: Path, itens: seq<Entry>, k: nat)
    requires k < |itens|
    ensures var u, p := WithoutSelected(t, base, itens[..k]), base + [itens[k].nome];
            Pruned(u, p) == WithoutSelected(t, base, itens[..k + 1])
            && (Selection(t, base, itens) ==>
                  Matches(u, base, itens[k])
                  && FileTotal(t, base, itens[..k + 1]) == FileTotal(t, base, itens[..k]) + |FilesUnder(u, p)|
                  && DirTotal(t, base, itens[..k + 1]) == DirTotal(t, base, itens[..k]) + |DirsUnder(u, p)|)
  {
    assert itens[..k + 1][..k] == itens[..k];
    PruneNext(t, base, itens[..k + 1]);
    if Selection(t, base, itens) {
      StillWhole(t, base, itens[..k + 1]);
      assert itens[k] in itens;
    }
  }
}

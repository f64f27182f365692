/** A tree of files and directories as a map from paths, with the handful of
    operations the SFTP tab uses on either side. */
module FileTree {
  type Path = seq<string>

  datatype Node = File(dados: int) | Dir
  type Nodes = map<Path, Node>

  function Parent(p: Path): Path
    requires p != []
  {
    p[..|p| - 1]
  }

  /** The root is a directory and everything else hangs from one. */
  ghost predicate WellFormed(t: Nodes) {
    [] in t && t[[]].Dir?
    && forall p :: p in t && p != [] ==> Parent(p) in t && t[Parent(p)].Dir?
  }

  ghost function Under(t: Nodes, p: Path): set<Path> {
    set q | q in t && p <= q
  }

  ghost function FilesUnder(t: Nodes, p: Path): set<Path> {
    set q | q in t && p <= q && t[q].File?
  }

  ghost function DirsUnder(t: Nodes, p: Path): set<Path> {
    set q | q in t && p <= q && t[q].Dir?
  }

  /** Everything under p gone. */
  ghost function Pruned(t: Nodes, p: Path): Nodes {
    map q | q in t && !(p <= q) :: t[q]
  }

  /** Neither path lies under the other. */
  predicate Apart(p: Path, q: Path) {
    !(p <= q) && !(q <= p)
  }

  lemma SiblingsApart(p: Path, a: string, b: string)
    requires a != b
    ensures Apart(p + [a], p + [b])
  {
    assert (p + [a])[|p|] == a && (p + [b])[|p|] == b;
  }

  lemma ApartUnder(p: Path, q: Path, r: Path)
    requires Apart(p, q) && p <= r
    ensures !(q <= r)
  {
    assert p == r[..|p|];
    assert q <= r && |p| <= |q| ==> p <= q;
    assert q <= r && |q| <= |p| ==> q <= p;
  }

  /** Ancestors of anything in the tree are in the tree. */
  lemma {:induction false} AncestorIn(t: Nodes, q: Path, n: nat)
    requires WellFormed(t) && q in t && n < |q|
    ensures q[..n] in t && t[q[..n]].Dir?
    decreases |q|
  {
    if n < |q| - 1 {
      AncestorIn(t, Parent(q), n);
      assert Parent(q)[..n] == q[..n];
    }
  }

  lemma PrunedWellFormed(t: Nodes, p: Path)
    requires WellFormed(t) && p != []
    ensures WellFormed(Pruned(t, p))
  {
    forall q | q in Pruned(t, p) && q != []
      ensures Parent(q) in Pruned(t, p)
    {
      assert p <= Parent(q) ==> p <= q;
    }
  }

  // ------------------------------------------------- making directories

  /** A file stands at p or on the way to it. */
  ghost predicate Blocked(t: Nodes, p: Path) {
    exists n :: 0 <= n <= |p| && p[..n] in t && t[p[..n]].File?
  }

  /** t with the directories of D that no file stands in the way of. */
  ghost function WithDirs(t: Nodes, D: set<Path>): Nodes {
    map p | p in t.Keys + D && (p in t || !Blocked(t, p)) :: if p in t then t[p] else Dir
  }

  ghost function Prefixes(p: Path): set<Path> {
    set n | 0 <= n <= |p| :: p[..n]
  }

  lemma SameBlocked(t: Nodes, D: set<Path>, p: Path)
    ensures Blocked(WithDirs(t, D), p) <==> Blocked(t, p)
  {
    if Blocked(t, p) {
      var n :| 0 <= n <= |p| && p[..n] in t && t[p[..n]].File?;
      assert p[..n] in WithDirs(t, D) && WithDirs(t, D)[p[..n]].File?;
    }
  }

  /** Making directories in two goes is making them all at once. */
  lemma WithDirsTwice(t: Nodes, D: set<Path>, E: set<Path>)
    ensures WithDirs(WithDirs(t, D), E) == WithDirs(t, D + E)
  {
    forall p
      ensures p in WithDirs(WithDirs(t, D), E) <==> p in WithDirs(t, D + E)
    {
      SameBlocked(t, D, p);
    }
  }

  /** Nothing stands in the way of what is a directory already. */
  lemma DirUnblocked(t: Nodes, p: Path)
    requires WellFormed(t) && p in t && t[p].Dir?
    ensures !Blocked(t, p)
  {
    forall n | 0 <= n < |p|
      ensures p[..n] in t && t[p[..n]].Dir?
    {
      AncestorIn(t, p, n);
    }
    assert p[..|p|] == p;
  }

  lemma PrefixesIn(t: Nodes, p: Path)
    requires WellFormed(t) && p in t
    ensures WithDirs(t, Prefixes(p)) == t
  {
    forall n | 0 <= n <= |p|
      ensures p[..n] in t
    {
      if n < |p| {
        AncestorIn(t, p, n);
      } else {
        assert p[..n] == p;
      }
    }
  }

  lemma BlockedAbove(t: Nodes, p: Path)
    requires p != [] && p !in t
    ensures Blocked(t, p) <==> Blocked(t, Parent(p))
  {
    forall n | 0 <= n < |p|
      ensures Parent(p)[..n] == p[..n]
    {
    }
    assert p[..|p|] == p;
    if Blocked(t, p) {
      var n :| 0 <= n <= |p| && p[..n] in t && t[p[..n]].File?;
      assert Parent(p)[..n] in t;
    }
  }

  /** With its parents made, p itself is made unless its parent is no directory. */
  lemma MakeLast(t: Nodes, p: Path)
    requires WellFormed(t) && p != [] && p !in t
    ensures var u := WithDirs(t, Prefixes(Parent(p)));
            p !in u
            && WithDirs(t, Prefixes(p)) ==
               if Parent(p) in u && u[Parent(p)].Dir? then u[p := Dir] else u
  {
    var u := WithDirs(t, Prefixes(Parent(p)));
    BlockedAbove(t, p);
    forall n | 0 <= n < |p|
      ensures Parent(p)[..n] == p[..n] && p[..n] != p
    {
    }
    assert p[..|p|] == p && Parent(p)[..|p| - 1] == Parent(p);
    assert Prefixes(p) == Prefixes(Parent(p)) + {p};
    assert Parent(p) in Prefixes(Parent(p));
    if Parent(p) in t {
      if t[Parent(p)].Dir? {
        DirUnblocked(t, Parent(p));
      } else {
        assert Parent(p)[..|p| - 1] in t;
      }
    }
  }

  datatype Entry = Entry(nome: string, dir: bool)

  /** The listing of directory p: every child once, with its kind. */
  ghost predicate Lists(t: Nodes, p: Path, ents: seq<Entry>) {
    (forall i, j :: 0 <= i < j < |ents| ==> ents[i].nome != ents[j].nome)
    && (forall e :: e in ents ==> p + [e.nome] in t && t[p + [e.nome]].Dir? == e.dir)
    && (forall n :: p + [n] in t ==> Entry(n, t[p + [n]].Dir?) in ents)
  }

  class Arvore {
    var nodes: Nodes
    var arquivosRemovidos: nat
    var pastasRemovidas: nat

    constructor (nodes: Nodes)
      ensures this.nodes == nodes && arquivosRemovidos == 0 && pastasRemovidas == 0
    {
      this.nodes, arquivosRemovidos, pastasRemovidas := nodes, 0, 0;
    }

    /** Lists a directory in no particular order; fails on anything else. */
    method ReadDir(p: Path) returns (ents: seq<Entry>, ok: bool)
      ensures ok <==> p in nodes && nodes[p].Dir?
      ensures ok ==> Lists(nodes, p, ents)
    {
      ents := [];
      if p !in nodes || !nodes[p].Dir? {
        return ents, false;
      }
      var left := set q | q in nodes && q != [] && Parent(q) == p;
      ghost var done: set<Path> := {};
      while left != {}
        invariant forall q :: q in left ==> q in nodes && q != [] && Parent(q) == p && q !in done
        invariant forall n :: p + [n] in nodes ==> p + [n] in left || p + [n] in done
        invariant forall i, j :: 0 <= i < j < |ents| ==> ents[i].nome != ents[j].nome
        invariant forall e :: e in ents ==> p + [e.nome] in done && p + [e.nome] in nodes
                                            && nodes[p + [e.nome]].Dir? == e.dir
        invariant forall n :: p + [n] in done ==> p + [n] in nodes && Entry(n, nodes[p + [n]].Dir?) in ents
      {
        var q :| q in left;
        assert q == p + [q[|p|]];
        ents := ents + [Entry(q[|p|], nodes[q].Dir?)];
        left, done := left - {q}, done + {q};
      }
      ok := true;
    }

    /** Removes a file, or else an empty directory: the SFTP library tries both. */
    method Remove(p: Path) returns (ok: bool)
      modifies this
      ensures ok <==> p in old(nodes) && (old(nodes)[p].File? || (p != [] && Under(old(nodes), p) == {p}))
      ensures nodes == if ok then old(nodes) - {p} else old(nodes)
      ensures arquivosRemovidos == old(arquivosRemovidos) + if ok && old(nodes)[p].File? then 1 else 0
      ensures pastasRemovidas == old(pastasRemovidas) + if ok && old(nodes)[p].Dir? then 1 else 0
    {
      if p in nodes && nodes[p].File? {
        nodes := nodes - {p};
        arquivosRemovidos := arquivosRemovidos + 1;
        return true;
      }
      ok := RemoveDirectory(p);
    }

    /** Removes an EMPTY directory, and nothing else. */
    method RemoveDirectory(p: Path) returns (ok: bool)
      modifies this
      ensures ok <==> p != [] && p in old(nodes) && old(nodes)[p].Dir? && Under(old(nodes), p) == {p}
      ensures ok ==> nodes == old(nodes) - {p} && pastasRemovidas == old(pastasRemovidas) + 1
      ensures !ok ==> nodes == old(nodes) && pastasRemovidas == old(pastasRemovidas)
      ensures arquivosRemovidos == old(arquivosRemovidos)
    {
      var abaixo := set q | q in nodes && p <= q && q != p;
      assert forall q :: q in abaixo ==> q in Under(nodes, p);
      if p == [] || p !in nodes || !nodes[p].Dir? || abaixo != {} {
        return false;
      }
      assert Under(nodes, p) == {p};
      nodes := nodes - {p};
      pastasRemovidas := pastasRemovidas + 1;
      ok := true;
    }

    /** Creates the directories missing on the way to p; a file in the way stops it. */
    method MkdirAll(p: Path)
      requires WellFormed(nodes)
      modifies this
      ensures WellFormed(nodes)
      ensures arquivosRemovidos == old(arquivosRemovidos) && pastasRemovidas == old(pastasRemovidas)
      ensures nodes == WithDirs(old(nodes), Prefixes(p))
      decreases |p|
    {
      if p in nodes {
        PrefixesIn(nodes, p);
        return;
      }
      MkdirAll(Parent(p));
      MakeLast(old(nodes), p);
      if Parent(p) in nodes && nodes[Parent(p)].Dir? {
        nodes := nodes[p := Dir];
      }
    }

    /** Creates or truncates a file; fails on a directory or without a parent directory. */
    method Create(p: Path, dados: int) returns (ok: bool)
      requires WellFormed(nodes)
      modifies this
      ensures WellFormed(nodes)
      ensures ok <==> p != [] && Parent(p) in old(nodes) && old(nodes)[Parent(p)].Dir?
                      && (p in old(nodes) ==> old(nodes)[p].File?)
      ensures nodes == if ok then old(nodes)[p := File(dados)] else old(nodes)
      ensures arquivosRemovidos == old(arquivosRemovidos) && pastasRemovidas == old(pastasRemovidas)
    {
      if p == [] || Parent(p) !in nodes || !nodes[Parent(p)].Dir? || (p in nodes && nodes[p].Dir?) {
        return false;
      }
      nodes := nodes[p := File(dados)];
      ok := true;
    }
  }
}

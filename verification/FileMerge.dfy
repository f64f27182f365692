/** Merge-copying a selection from one tree into another, what it leaves, and
    what is asked beforehand (transferir, conflitos, iniciarTransferencia;
    cmd/acessos/sftptab.go). */
module FileMerge {
  import opened FileTree
  import opened FileOps
  import opened FilePlan

  // ------------------------------------------------------------ destinations

  /** Where a path under the destination base comes from. */
  function Back(origem: Path, destino: Path, p: Path): Path {
    if |destino| <= |p| then origem + p[|destino|..] else origem
  }

  lemma BackDest(origem: Path, destino: Path, q: Path)
    requires origem <= q
    ensures Back(origem, destino, Dest(origem, destino, q)) == q
  {
    assert Dest(origem, destino, q)[|destino|..] == q[|origem|..];
  }

  lemma DestsJoin(origem: Path, destino: Path, A: set<Path>, B: set<Path>)
    ensures Dests(origem, destino, A + B) == Dests(origem, destino, A) + Dests(origem, destino, B)
  {
  }

  lemma DestsExact(origem: Path, destino: Path, S: set<Path>, q: Path)
    requires origem <= q
    ensures Dest(origem, destino, q) in Dests(origem, destino, S) <==> q in S
  {
    if Dest(origem, destino, q) in Dests(origem, destino, S) {
      var r :| r in S && origem <= r && Dest(origem, destino, q) == Dest(origem, destino, r);
      BackDest(origem, destino, q);
      BackDest(origem, destino, r);
    }
  }

  lemma PrefixesAre(d: Path, p: Path)
    ensures p in Prefixes(d) <==> p <= d
  {
    if p <= d {
      assert d[..|p|] == p;
    }
  }

  /** Selected paths lie strictly below the base, under selected directories. */
  lemma SelectedParent(s: Nodes, origem: Path, itens: seq<Entry>, q: Path)
    requires WellFormed(s) && q in s && Selected(origem, itens, q)
    ensures origem <= q && |origem| < |q|
    ensures Parent(q) == origem || Parent(q) in Part(s, origem, itens, true)
  {
    var i :| 0 <= i < |itens| && origem + [itens[i].nome] <= q;
    assert origem <= origem + [itens[i].nome];
    if |q| > |origem| + 1 {
      assert origem + [itens[i].nome] <= Parent(q);
    } else {
      assert Parent(q) == origem;
    }
  }

  /** Above the base, what lies over a selected path is selected and a directory. */
  lemma SelectedAbove(s: Nodes, origem: Path, itens: seq<Entry>, q: Path, n: nat)
    requires WellFormed(s) && q in s && Selected(origem, itens, q) && |origem| < n < |q|
    ensures q[..n] in Part(s, origem, itens, true)
  {
    var i :| 0 <= i < |itens| && origem + [itens[i].nome] <= q;
    AncestorIn(s, q, n);
    assert origem + [itens[i].nome] <= q[..n];
  }

  /** What is made lies on the way to the base, or is a selected directory's place. */
  lemma MadeShape(s: Nodes, origem: Path, destino: Path, itens: seq<Entry>, p: Path)
    requires WellFormed(s) && p in Made(origem, destino, Part(s, origem, itens, true))
    ensures p <= destino || (destino <= p && Back(origem, destino, p) in Part(s, origem, itens, true))
  {
    var q, d :| q in Part(s, origem, itens, true) && origem <= q && d in Prefixes(Dest(origem, destino, q)) && d == p;
    PrefixesAre(Dest(origem, destino, q), p);
    SelectedParent(s, origem, itens, q);
    if |p| > |destino| {
      var n := |origem| + |p| - |destino|;
      assert Back(origem, destino, p) == q[..n];
      if n < |q| {
        SelectedAbove(s, origem, itens, q, n);
      } else {
        assert q[..n] == q;
      }
    }
  }

  /** A selected directory's place is asked for, and the base with it; a file's never is. */
  lemma MadeHolds(s: Nodes, origem: Path, destino: Path, itens: seq<Entry>, q: Path)
    requires WellFormed(s) && q in s && Selected(origem, itens, q) && origem <= q && |origem| < |q|
    ensures Dest(origem, destino, q) in Made(origem, destino, Part(s, origem, itens, true)) <==> s[q].Dir?
    ensures s[q].Dir? ==> destino in Made(origem, destino, Part(s, origem, itens, true))
  {
    var dirs := Part(s, origem, itens, true);
    var d := Dest(origem, destino, q);
    PrefixesAre(d, d);
    PrefixesAre(d, destino);
    if s[q].Dir? {
      assert q in dirs && d in Prefixes(Dest(origem, destino, q)) && destino in Prefixes(Dest(origem, destino, q));
    } else if d in Made(origem, destino, dirs) {
      MadeShape(s, origem, destino, itens, d);
      BackDest(origem, destino, q);
    }
  }

  /** With a selected directory the base itself is asked for. */
  lemma BaseMade(s: Nodes, origem: Path, destino: Path, itens: seq<Entry>)
    requires WellFormed(s)
    ensures Part(s, origem, itens, true) == {} ==> Made(origem, destino, Part(s, origem, itens, true)) == {}
    ensures Part(s, origem, itens, true) != {} ==> destino in Made(origem, destino, Part(s, origem, itens, true))
  {
    if Part(s, origem, itens, true) != {} {
      var q :| q in Part(s, origem, itens, true);
      SelectedParent(s, origem, itens, q);
      MadeHolds(s, origem, destino, itens, q);
    }
  }

  // ----------------------------------------------------------------- copying

  /** The contents of the source files W written over t. */
  ghost function Wrote(t: Nodes, s: Nodes, origem: Path, destino: Path, W: set<Path>): Nodes {
    var ds := Dests(origem, destino, W);
    map p | p in t.Keys + ds && (p in ds ==> Back(origem, destino, p) in s)
      :: if p in ds then s[Back(origem, destino, p)] else t[p]
  }

  /** The destination t once the directories of a selection were made and its
      files W copied. */
  ghost function Transferred(t: Nodes, s: Nodes, origem: Path, destino: Path, itens: seq<Entry>, W: set<Path>): Nodes {
    Wrote(WithDirs(t, Made(origem, destino, Part(s, origem, itens, true))), s, origem, destino, W)
  }

  lemma WroteOne(t: Nodes, s: Nodes, origem: Path, destino: Path, W: set<Path>, q: Path)
    requires origem <= q && q in s && W <= s.Keys
    ensures Wrote(t, s, origem, destino, W + {q}) == Wrote(t, s, origem, destino, W)[Dest(origem, destino, q) := s[q]]
  {
    DestsJoin(origem, destino, W, {q});
    assert Dests(origem, destino, {q}) == {Dest(origem, destino, q)};
    BackDest(origem, destino, q);
    assert Dests(origem, destino, W + {q}) == Dests(origem, destino, W) + {Dest(origem, destino, q)};
    forall r | r in W && origem <= r
      ensures Back(origem, destino, Dest(origem, destino, r)) == r
    {
      BackDest(origem, destino, r);
    }
  }

  /** The base is a directory, or some selected directory has it made. */
  ghost predicate BaseServed(t: Nodes, s: Nodes, origem: Path, destino: Path, itens: seq<Entry>) {
    !Blocked(t, destino) && (destino in t || Part(s, origem, itens, true) != {})
  }

  /** A selected file can be written: the base serves, no file stands on the way
      and no directory in its place. */
  ghost predicate Room(t: Nodes, s: Nodes, origem: Path, destino: Path, itens: seq<Entry>, q: Path)
    requires origem <= q && |origem| < |q|
  {
    var d := Dest(origem, destino, q);
    BaseServed(t, s, origem, destino, itens) && !Blocked(t, Parent(d)) && !(d in t && t[d].Dir?)
  }

  ghost predicate AllRoom(t: Nodes, s: Nodes, origem: Path, destino: Path, itens: seq<Entry>) {
    forall q | q in Part(s, origem, itens, false) && origem <= q && |origem| < |q| ::
      Room(t, s, origem, destino, itens, q)
  }

  lemma BlockedBelow(t: Nodes, p: Path, d: Path)
    requires Blocked(t, p) && p <= d
    ensures Blocked(t, d)
  {
    var n :| 0 <= n <= |p| && p[..n] in t && t[p[..n]].File?;
    assert d[..n] == p[..n];
  }

  /** A directory asked for is there exactly if no file is in its way. */
  lemma SettledDir(t: Nodes, D: set<Path>, p: Path)
    requires WellFormed(t)
    ensures (p in WithDirs(t, D) && WithDirs(t, D)[p].Dir?) <==> !Blocked(t, p) && (p in t || p in D)
  {
    assert p[..|p|] == p;
    if p in t && t[p].Dir? {
      DirUnblocked(t, p);
    }
  }

  /** During the copy a file can be created exactly where the destination, as
      it was before anything started, had room for it. */
  lemma CreateFree(t: Nodes, s: Nodes, origem: Path, destino: Path, itens: seq<Entry>, W: set<Path>, q: Path)
    requires WellFormed(t) && WellFormed(s)
    requires q in Part(s, origem, itens, false) && W <= Part(s, origem, itens, false) && q !in W
    requires origem <= q && |origem| < |q|
    ensures var v := Transferred(t, s, origem, destino, itens, W);
            var d := Dest(origem, destino, q);
            (Parent(d) in v && v[Parent(d)].Dir? && (d in v ==> v[d].File?)) <==> Room(t, s, origem, destino, itens, q)
  {
    var dirs := Part(s, origem, itens, true);
    var d := Dest(origem, destino, q);
    var u := WithDirs(t, Made(origem, destino, dirs));
    assert Parent(d) == Dest(origem, destino, Parent(q));
    DestsExact(origem, destino, W, q);
    DestsExact(origem, destino, W, Parent(q));
    NotSelectedFile(s, origem, itens, q);
    MadeHolds(s, origem, destino, itens, q);
    SettledDir(t, Made(origem, destino, dirs), Parent(d));
    ParentServed(t, s, origem, destino, itens, q);
  }

  lemma NotSelectedFile(s: Nodes, origem: Path, itens: seq<Entry>, q: Path)
    requires WellFormed(s) && q in Part(s, origem, itens, false) && q != []
    ensures Parent(q) !in Part(s, origem, itens, false)
  {
  }

  /** The directory a file goes into is there or asked for exactly if the base serves. */
  lemma ParentServed(t: Nodes, s: Nodes, origem: Path, destino: Path, itens: seq<Entry>, q: Path)
    requires WellFormed(t) && WellFormed(s) && q in Part(s, origem, itens, false)
    requires origem <= q && |origem| < |q|
    ensures var up := Parent(Dest(origem, destino, q));
            !Blocked(t, up) && (up in t || up in Made(origem, destino, Part(s, origem, itens, true)))
            <==> BaseServed(t, s, origem, destino, itens) && !Blocked(t, up)
  {
    var up := Parent(Dest(origem, destino, q));
    assert up == Dest(origem, destino, Parent(q)) && destino <= up;
    SelectedParent(s, origem, itens, q);
    BaseMade(s, origem, destino, itens);
    if Blocked(t, destino) {
      BlockedBelow(t, destino, up);
    }
    if Parent(q) == origem {
      assert up == destino;
    } else {
      MadeHolds(s, origem, destino, itens, Parent(q));
    }
  }

  /** Copies a selection over the destination, file by file in the order
      planned, and stops at the first that cannot be written. */
  method Transferir(src: Arvore, dst: Arvore, origem: Path, destino: Path, itens: seq<Entry>, pular: set<string>)
    returns (enviados: nat, ok: bool, ghost copiados: set<Path>)
    requires src != dst && WellFormed(src.nodes) && WellFormed(dst.nodes)
    requires Selection(src.nodes, origem, itens)
    modifies dst
    ensures WellFormed(dst.nodes)
    ensures var k := Kept(itens, pular);
            copiados <= Part(src.nodes, origem, k, false) && enviados == |copiados|
            && dst.nodes == Transferred(old(dst.nodes), src.nodes, origem, destino, k, copiados)
            && (ok <==> copiados == Part(src.nodes, origem, k, false))
            && (ok <==> AllRoom(old(dst.nodes), src.nodes, origem, destino, k))
            && (ok && dst.nodes == Overlaid(old(dst.nodes), src.nodes, origem, destino, k)
                <==> NoClash(old(dst.nodes), src.nodes, origem, destino, k))
  {
    ghost var t, k := dst.nodes, Kept(itens, pular);
    var plano := Planejar(src, dst, origem, destino, itens, pular);
    enviados, ok, copiados := CopiarPlano(src, dst, plano, t, origem, destino, k);
    MergeExact(t, src.nodes, origem, destino, k);
  }

  /** The copying loop; t is the destination before anything was made there. */
  method CopiarPlano(src: Arvore, dst: Arvore, plano: seq<ArquivoPlano>, ghost t: Nodes,
                     ghost origem: Path, ghost destino: Path, ghost itens: seq<Entry>)
    returns (enviados: nat, ok: bool, ghost copiados: set<Path>)
    requires src != dst && WellFormed(src.nodes) && WellFormed(dst.nodes) && WellFormed(t)
    requires Covers(plano, origem, destino, Part(src.nodes, origem, itens, false))
    requires dst.nodes == WithDirs(t, Made(origem, destino, Part(src.nodes, origem, itens, true)))
    modifies dst
    ensures WellFormed(dst.nodes)
    ensures copiados <= Part(src.nodes, origem, itens, false) && enviados == |copiados|
    ensures dst.nodes == Transferred(t, src.nodes, origem, destino, itens, copiados)
    ensures ok <==> copiados == Part(src.nodes, origem, itens, false)
    ensures ok <==> AllRoom(t, src.nodes, origem, destino, itens)
  {
    ghost var s := src.nodes;
    enviados, ok, copiados := 0, true, {};
    CopyNone(t, s, origem, destino, itens, plano);
    while enviados < |plano|
      invariant WellFormed(dst.nodes) && enviados <= |plano| && enviados == |copiados|
      invariant Copying(t, s, origem, destino, itens, plano, enviados, copiados)
      invariant dst.nodes == Transferred(t, s, origem, destino, itens, copiados)
    {
      var a := plano[enviados];
      CopyNext(t, s, origem, destino, itens, plano, enviados, copiados);
      ok := dst.Create(a.destino, src.nodes[a.origem].dados);
      if !ok {
        return;
      }
      copiados := copiados + {a.origem};
      enviados := enviados + 1;
    }
    AllCopied(t, s, origem, destino, itens, plano, copiados);
  }

  /** The first n files of the plan were copied, and there was room for each. */
  ghost predicate Copying(t: Nodes, s: Nodes, origem: Path, destino: Path, itens: seq<Entry>,
                          plano: seq<ArquivoPlano>, n: nat, W: set<Path>)
  {
    W <= Part(s, origem, itens, false)
    && (forall i :: 0 <= i < |plano| ==> (plano[i].origem in W <==> i < n))
    && (forall q | q in W && origem <= q && |origem| < |q| :: Room(t, s, origem, destino, itens, q))
  }

  lemma CopyNone(t: Nodes, s: Nodes, origem: Path, destino: Path, itens: seq<Entry>, plano: seq<ArquivoPlano>)
    ensures Copying(t, s, origem, destino, itens, plano, 0, {})
    ensures Transferred(t, s, origem, destino, itens, {}) ==
            WithDirs(t, Made(origem, destino, Part(s, origem, itens, true)))
  {
  }

  lemma CopyNext(t: Nodes, s: Nodes, origem: Path, destino: Path, itens: seq<Entry>,
                 plano: seq<ArquivoPlano>, n: nat, W: set<Path>)
    requires WellFormed(t) && WellFormed(s)
    requires Covers(plano, origem, destino, Part(s, origem, itens, false)) && n < |plano|
    requires Copying(t, s, origem, destino, itens, plano, n, W)
    ensures var a, v := plano[n], Transferred(t, s, origem, destino, itens, W);
            a.origem in Part(s, origem, itens, false) && a.origem !in W
            && origem <= a.origem && |origem| < |a.origem|
            && a.destino != [] && a.destino == Dest(origem, destino, a.origem)
            && ((Parent(a.destino) in v && v[Parent(a.destino)].Dir? && (a.destino in v ==> v[a.destino].File?))
                <==> Room(t, s, origem, destino, itens, a.origem))
            && (Room(t, s, origem, destino, itens, a.origem) ==>
                  Copying(t, s, origem, destino, itens, plano, n + 1, W + {a.origem}))
            && Transferred(t, s, origem, destino, itens, W + {a.origem}) == v[a.destino := s[a.origem]]
  {
    var a := plano[n];
    assert a in plano;
    SelectedParent(s, origem, itens, a.origem);
    assert a.destino == Dest(origem, destino, a.origem);
    CreateFree(t, s, origem, destino, itens, W, a.origem);
    WroteOne(WithDirs(t, Made(origem, destino, Part(s, origem, itens, true))), s, origem, destino, W, a.origem);
    if Room(t, s, origem, destino, itens, a.origem) {
      CopyingNext(t, s, origem, destino, itens, plano, n, W);
    }
  }

  lemma CopyingNext(t: Nodes, s: Nodes, origem: Path, destino: Path, itens: seq<Entry>,
                    plano: seq<ArquivoPlano>, n: nat, W: set<Path>)
    requires Covers(plano, origem, destino, Part(s, origem, itens, false)) && n < |plano|
    requires Copying(t, s, origem, destino, itens, plano, n, W)
    requires origem <= plano[n].origem && |origem| < |plano[n].origem|
    requires Room(t, s, origem, destino, itens, plano[n].origem)
    ensures Copying(t, s, origem, destino, itens, plano, n + 1, W + {plano[n].origem})
  {
    var a := plano[n];
    assert a in plano;
    forall i | 0 <= i < |plano|
      ensures plano[i].origem in W + {a.origem} <==> i < n + 1
    {
      if i != n {
        assert plano[i].origem != a.origem;
      }
    }
  }

  /** With the whole plan copied, every selected file is. */
  lemma AllCopied(t: Nodes, s: Nodes, origem: Path, destino: Path, itens: seq<Entry>,
                  plano: seq<ArquivoPlano>, W: set<Path>)
    requires Covers(plano, origem, destino, Part(s, origem, itens, false))
    requires Copying(t, s, origem, destino, itens, plano, |plano|, W)
    ensures W == Part(s, origem, itens, false)
  {
    forall q | q in Part(s, origem, itens, false)
      ensures q in W
    {
      var i :| 0 <= i < |plano| && plano[i].origem == q;
    }
  }

  /** However far a transfer got, it wrote only over the files it copied, and
      made only directories it was asked for. */
  lemma NothingElseChanges(t: Nodes, s: Nodes, origem: Path, destino: Path, itens: seq<Entry>, W: set<Path>, p: Path)
    requires W <= Part(s, origem, itens, false)
    ensures var v := Transferred(t, s, origem, destino, itens, W);
            (p in t && p !in Dests(origem, destino, W) ==> p in v && v[p] == t[p])
            && (p in v && p !in t && p !in Dests(origem, destino, W) ==>
                  v[p].Dir? && p in Made(origem, destino, Part(s, origem, itens, true)))
  {
  }

  // ------------------------------------------------------- without a clash

  /** What is on both sides is a file on both or a directory on both, and the
      base serves if anything goes there. */
  ghost predicate NoClash(t: Nodes, s: Nodes, origem: Path, destino: Path, itens: seq<Entry>) {
    forall q :: q in s && Selected(origem, itens, q) && origem <= q ==>
      BaseServed(t, s, origem, destino, itens)
      && (Dest(origem, destino, q) in t ==> t[Dest(origem, destino, q)].Dir? == s[q].Dir?)
  }

  /** The old tree with the selected source trees laid over it, and the base
      made if it was missing. */
  ghost function Overlaid(t: Nodes, s: Nodes, origem: Path, destino: Path, itens: seq<Entry>): Nodes {
    map p | p in t.Keys + Dests(origem, destino, Part(s, origem, itens, false))
                 + Made(origem, destino, Part(s, origem, itens, true))
      :: if destino <= p && Back(origem, destino, p) in s && Selected(origem, itens, Back(origem, destino, p))
         then s[Back(origem, destino, p)] else if p in t then t[p] else Dir
  }

  /** In the overlay whatever lies at or under item n of the selection stands at the
      same place under the destination, as it is in the source. */
  lemma OverlayMeans(t: Nodes, s: Nodes, origem: Path, destino: Path, itens: seq<Entry>, i: nat, rel: Path)
    requires WellFormed(s) && i < |itens| && origem + [itens[i].nome] + rel in s
    ensures var p, v := destino + [itens[i].nome] + rel, Overlaid(t, s, origem, destino, itens);
            p in v && v[p] == s[origem + [itens[i].nome] + rel]
  {
    var q, p := origem + [itens[i].nome] + rel, destino + [itens[i].nome] + rel;
    assert q[|origem|..] == [itens[i].nome] + rel == p[|destino|..];
    assert origem + [itens[i].nome] <= q && Dest(origem, destino, q) == p;
    assert Back(origem, destino, p) == q && Selected(origem, itens, q);
    DestsExact(origem, destino, Part(s, origem, itens, false), q);
    MadeHolds(s, origem, destino, itens, q);
  }

  /** And whatever else was there is there as it was. */
  lemma OverlayKeeps(t: Nodes, s: Nodes, origem: Path, destino: Path, itens: seq<Entry>, p: Path)
    requires p in t
    requires forall i, rel :: 0 <= i < |itens| && p == destino + [itens[i].nome] + rel ==>
               origem + [itens[i].nome] + rel !in s
    ensures p in Overlaid(t, s, origem, destino, itens) && Overlaid(t, s, origem, destino, itens)[p] == t[p]
  {
    var q := Back(origem, destino, p);
    forall i | 0 <= i < |itens| && destino <= p && origem + [itens[i].nome] <= q
      ensures p == destino + [itens[i].nome] + q[|origem| + 1..]
      ensures q == origem + [itens[i].nome] + q[|origem| + 1..]
    {
      assert q[|origem|..] == p[|destino|..] && q[|origem|] == itens[i].nome;
    }
  }

  lemma Unblocked(t: Nodes, s: Nodes, origem: Path, destino: Path, itens: seq<Entry>, q: Path)
    requires WellFormed(t) && WellFormed(s) && NoClash(t, s, origem, destino, itens)
    requires q in s && Selected(origem, itens, q) && origem <= q && |origem| < |q|
    ensures !Blocked(t, Parent(Dest(origem, destino, q)))
    ensures s[q].Dir? ==> !Blocked(t, Dest(origem, destino, q))
    decreases |q|
  {
    SelectedParent(s, origem, itens, q);
    var d := Dest(origem, destino, q);
    assert Parent(d) == Dest(origem, destino, Parent(q));
    if Parent(q) == origem {
      assert Parent(d) == destino;
    } else {
      SelectedParent(s, origem, itens, Parent(q));
      Unblocked(t, s, origem, destino, itens, Parent(q));
    }
    if s[q].Dir? {
      if d in t {
        DirUnblocked(t, d);
      } else {
        BlockedAbove(t, d);
      }
    }
  }

  lemma MapsEqual<K, V>(m: map<K, V>, n: map<K, V>)
    requires forall k :: k in m <==> k in n
    requires forall k :: k in m ==> m[k] == n[k]
    ensures m == n
  {
  }

  /** A transfer finds room for every file and leaves the old tree overlaid by
      the selection, nothing else changed, exactly where nothing clashes. */
  lemma MergeExact(t: Nodes, s: Nodes, origem: Path, destino: Path, itens: seq<Entry>)
    requires WellFormed(t) && WellFormed(s)
    ensures AllRoom(t, s, origem, destino, itens)
            && Transferred(t, s, origem, destino, itens, Part(s, origem, itens, false))
               == Overlaid(t, s, origem, destino, itens)
            <==> NoClash(t, s, origem, destino, itens)
  {
    var files := Part(s, origem, itens, false);
    if NoClash(t, s, origem, destino, itens) {
      MergeWithoutClash(t, s, origem, destino, itens);
    }
    if AllRoom(t, s, origem, destino, itens)
       && Transferred(t, s, origem, destino, itens, files) == Overlaid(t, s, origem, destino, itens)
    {
      forall q | q in s && Selected(origem, itens, q) && origem <= q
        ensures BaseServed(t, s, origem, destino, itens)
        ensures Dest(origem, destino, q) in t ==> t[Dest(origem, destino, q)].Dir? == s[q].Dir?
      {
        OverlaidAgrees(t, s, origem, destino, itens, q);
      }
    }
  }

  lemma MergeWithoutClash(t: Nodes, s: Nodes, origem: Path, destino: Path, itens: seq<Entry>)
    requires WellFormed(t) && WellFormed(s) && NoClash(t, s, origem, destino, itens)
    ensures AllRoom(t, s, origem, destino, itens)
    ensures Transferred(t, s, origem, destino, itens, Part(s, origem, itens, false))
            == Overlaid(t, s, origem, destino, itens)
  {
    var files := Part(s, origem, itens, false);
    forall q | q in files && origem <= q && |origem| < |q|
      ensures Room(t, s, origem, destino, itens, q)
    {
      Unblocked(t, s, origem, destino, itens, q);
    }
    var got := Transferred(t, s, origem, destino, itens, files);
    var want := Overlaid(t, s, origem, destino, itens);
    forall p
      ensures (p in got <==> p in want) && (p in got ==> got[p] == want[p])
    {
      OverlaidAt(t, s, origem, destino, itens, p);
    }
    MapsEqual(got, want);
  }

  lemma OverlaidAt(t: Nodes, s: Nodes, origem: Path, destino: Path, itens: seq<Entry>, p: Path)
    requires WellFormed(t) && WellFormed(s) && NoClash(t, s, origem, destino, itens)
    ensures var got := Transferred(t, s, origem, destino, itens, Part(s, origem, itens, false));
            var want := Overlaid(t, s, origem, destino, itens);
            (p in got <==> p in want) && (p in got ==> got[p] == want[p])
  {
    var files, dirs := Part(s, origem, itens, false), Part(s, origem, itens, true);
    var q := Back(origem, destino, p);
    if p in Made(origem, destino, dirs) {
      MadeUnblocked(t, s, origem, destino, itens, p);
    }
    if destino <= p {
      assert Dest(origem, destino, q) == p;
      DestsExact(origem, destino, files, q);
      if q in s && Selected(origem, itens, q) {
        SelectedParent(s, origem, itens, q);
        MadeHolds(s, origem, destino, itens, q);
      }
    }
  }

  /** Without a clash every directory asked for can be made. */
  lemma MadeUnblocked(t: Nodes, s: Nodes, origem: Path, destino: Path, itens: seq<Entry>, p: Path)
    requires WellFormed(t) && WellFormed(s) && NoClash(t, s, origem, destino, itens)
    requires p in Made(origem, destino, Part(s, origem, itens, true))
    ensures !Blocked(t, p)
  {
    var dirs := Part(s, origem, itens, true);
    assert dirs != {};
    var r :| r in dirs;
    SelectedParent(s, origem, itens, r);
    MadeShape(s, origem, destino, itens, p);
    if p <= destino {
      if Blocked(t, p) {
        BlockedBelow(t, p, destino);
      }
    } else {
      var q := Back(origem, destino, p);
      assert Dest(origem, destino, q) == p;
      SelectedParent(s, origem, itens, q);
      Unblocked(t, s, origem, destino, itens, q);
    }
  }

  /** Where the overlay came about, the two sides agreed on q. */
  lemma OverlaidAgrees(t: Nodes, s: Nodes, origem: Path, destino: Path, itens: seq<Entry>, q: Path)
    requires WellFormed(t) && WellFormed(s) && AllRoom(t, s, origem, destino, itens)
    requires Transferred(t, s, origem, destino, itens, Part(s, origem, itens, false))
             == Overlaid(t, s, origem, destino, itens)
    requires q in s && Selected(origem, itens, q) && origem <= q
    ensures BaseServed(t, s, origem, destino, itens)
    ensures Dest(origem, destino, q) in t ==> t[Dest(origem, destino, q)].Dir? == s[q].Dir?
  {
    SelectedParent(s, origem, itens, q);
    if s[q].File? {
      assert Room(t, s, origem, destino, itens, q);
    } else {
      var d := Dest(origem, destino, q);
      var made := Made(origem, destino, Part(s, origem, itens, true));
      BackDest(origem, destino, q);
      DestsExact(origem, destino, Part(s, origem, itens, false), q);
      MadeHolds(s, origem, destino, itens, q);
      assert d in Overlaid(t, s, origem, destino, itens);
      SettledDir(t, made, d);
      if Blocked(t, destino) {
        BlockedBelow(t, destino, d);
      }
    }
  }

  /** Success can hide a clash: an empty directory selected where the destination
      has a file of its name leaves no file to copy, so the transfer reports
      success having merged nothing. */
  lemma EmptyOntoFile(t: Nodes, s: Nodes, origem: Path, destino: Path, n: string)
    requires WellFormed(t) && WellFormed(s)
    requires origem + [n] in s && s[origem + [n]].Dir? && Under(s, origem + [n]) == {origem + [n]}
    requires destino + [n] in t && t[destino + [n]].File?
    ensures var itens := [Entry(n, true)];
            Part(s, origem, itens, false) == {} && AllRoom(t, s, origem, destino, itens)
            && Transferred(t, s, origem, destino, itens, {}) == t
            && !NoClash(t, s, origem, destino, itens) && Overlaid(t, s, origem, destino, itens) != t
  {
    var itens, q, d := [Entry(n, true)], origem + [n], destino + [n];
    OnlyItem(s, origem, n);
    assert Dest(origem, destino, q) == d && origem <= q;
    ClashAt(t, s, origem, destino, itens, q);
    NothingToMake(t, origem, destino, n);
    CopyNone(t, s, origem, destino, itens, []);
    MergeExact(t, s, origem, destino, itens);
  }

  lemma ClashAt(t: Nodes, s: Nodes, origem: Path, destino: Path, itens: seq<Entry>, q: Path)
    requires q in s && Selected(origem, itens, q) && origem <= q && Dest(origem, destino, q) in t
    requires t[Dest(origem, destino, q)].Dir? != s[q].Dir?
    ensures !NoClash(t, s, origem, destino, itens)
  {
  }

  lemma OnlyItem(s: Nodes, origem: Path, n: string)
    requires origem + [n] in s && s[origem + [n]].Dir? && Under(s, origem + [n]) == {origem + [n]}
    ensures var itens := [Entry(n, true)];
            Selected(origem, itens, origem + [n])
            && Part(s, origem, itens, false) == {} && Part(s, origem, itens, true) == {origem + [n]}
  {
    var itens := [Entry(n, true)];
    assert itens[0].nome == n;
    forall q | q in s
      ensures Selected(origem, itens, q) <==> q == origem + [n]
    {
      assert q in Under(s, origem + [n]) <==> origem + [n] <= q;
    }
  }

  lemma NothingToMake(t: Nodes, origem: Path, destino: Path, n: string)
    requires WellFormed(t) && destino + [n] in t
    ensures WithDirs(t, Made(origem, destino, {origem + [n]})) == t
  {
    var d := destino + [n];
    assert Dest(origem, destino, origem + [n]) == d;
    assert Made(origem, destino, {origem + [n]}) == Prefixes(d);
    PrefixesIn(t, d);
  }

  /** The smallest such pair of trees. */
  lemma SilentClash() returns (s: Nodes, t: Nodes, itens: seq<Entry>)
    ensures WellFormed(s) && WellFormed(t) && Selection(s, [], itens) && itens != []
    ensures AllRoom(t, s, [], [], itens) && Part(s, [], itens, false) == {}
    ensures Transferred(t, s, [], [], itens, {}) == t && Overlaid(t, s, [], [], itens) != t
  {
    s, t, itens := map[[] := Dir, ["a"] := Dir], map[[] := Dir, ["a"] := File(0)], [Entry("a", true)];
    var a: Path := ["a"];
    assert [] + [itens[0].nome] == a;
    assert Under(s, a) == {a};
    EmptyOntoFile(t, s, [], [], "a");
  }

  // -------------------------------------------------- asking before copying

  /** The names of the selected top-level files that exist at the destination. */
  function ConflictNames(t: Nodes, itens: seq<Entry>, destino: Path): set<string> {
    set it | it in itens && !it.dir && destino + [it.nome] in t :: it.nome
  }

  /** The names the confirmation lists, in the order of the panel. */
  method Conflitos(dst: Arvore, itens: seq<Entry>, destino: Path) returns (nomes: seq<string>)
    ensures forall n :: n in nomes <==> n in ConflictNames(dst.nodes, itens, destino)
    ensures |nomes| <= |itens|
  {
    nomes := [];
    for i := 0 to |itens|
      invariant forall n :: n in nomes <==>
                  exists j :: 0 <= j < i && !itens[j].dir && itens[j].nome == n && destino + [n] in dst.nodes
      invariant |nomes| <= i
    {
      var it := itens[i];
      if it.dir {
        continue;
      }
      if destino + [it.nome] in dst.nodes {
        nomes := nomes + [it.nome];
      }
    }
  }

  /** A file whose destination exists is announced exactly if it is an item of
      the selection itself: those inside a selected directory never are. */
  lemma OverwriteAnnounced(t: Nodes, s: Nodes, origem: Path, destino: Path, itens: seq<Entry>, q: Path)
    requires WellFormed(s) && Selection(s, origem, itens)
    requires q in Part(s, origem, itens, false) && origem <= q && |origem| < |q| && Dest(origem, destino, q) in t
    ensures q[|origem|] in ConflictNames(t, itens, destino) <==> |q| == |origem| + 1
  {
    var n := q[|origem|];
    ChildOf(origem, q, n);
    assert q in Under(s, origem + [n]);
    if |q| == |origem| + 1 {
      assert q == origem + [n] && Dest(origem, destino, q) == destino + [n];
      var i :| 0 <= i < |itens| && origem + [itens[i].nome] <= q;
      assert itens[i] in itens && itens[i].nome == n;
    } else if it :| it in itens && !it.dir && it.nome == n {
      FileAlone(s, origem + [n]);
    }
  }

  /** Every file of t is in v as it was. */
  ghost predicate OldFilesKept(t: Nodes, v: Nodes) {
    forall p :: p in t && t[p].File? ==> p in v && v[p] == t[p]
  }

  /** No file inside a selected directory goes over an existing file. */
  ghost predicate NothingInside(t: Nodes, s: Nodes, origem: Path, destino: Path, itens: seq<Entry>) {
    forall q :: q in Part(s, origem, itens, false) && origem <= q && |origem| + 1 < |q| ==>
      !(Dest(origem, destino, q) in t && t[Dest(origem, destino, q)].File?)
  }

  /** Or, if one does, with the very contents that are there. */
  ghost predicate NothingNewInside(t: Nodes, s: Nodes, origem: Path, destino: Path, itens: seq<Entry>) {
    forall q :: q in Part(s, origem, itens, false) && origem <= q && |origem| + 1 < |q|
                && Dest(origem, destino, q) in t && t[Dest(origem, destino, q)].File? ==>
      t[Dest(origem, destino, q)] == s[q]
  }

  /** A selected file outside any selected directory that is kept when the
      announced names are skipped has nothing at its destination. */
  lemma KeptItemsAreNew(t: Nodes, s: Nodes, origem: Path, destino: Path, itens: seq<Entry>, q: Path)
    requires WellFormed(s) && Selection(s, origem, itens)
    requires q in Part(s, origem, Kept(itens, ConflictNames(t, itens, destino)), false)
    requires origem <= q && |q| == |origem| + 1
    ensures Dest(origem, destino, q) !in t
  {
    var names := ConflictNames(t, itens, destino);
    var k := Kept(itens, names);
    KeptFrom(itens, names);
    var i :| 0 <= i < |k| && origem + [k[i].nome] <= q;
    assert k[i] in k && k[i] in itens;
    assert q == origem + [k[i].nome];
    assert Dest(origem, destino, q) == destino + [k[i].nome];
  }

  /** With the announced names skipped, a whole transfer leaves every old file as
      it was exactly where what lies inside the selected directories brings
      nothing new over an old file; and it writes over none at all exactly where
      nothing inside them goes over one. */
  lemma SkippingProtects(t: Nodes, s: Nodes, origem: Path, destino: Path, itens: seq<Entry>)
    requires WellFormed(t) && WellFormed(s) && Selection(s, origem, itens)
    ensures var k := Kept(itens, ConflictNames(t, itens, destino));
            var files := Part(s, origem, k, false);
            (OldFilesKept(t, Transferred(t, s, origem, destino, k, files))
             <==> NothingNewInside(t, s, origem, destino, k))
            && ((forall p :: p in Dests(origem, destino, files) ==> !(p in t && t[p].File?))
                <==> NothingInside(t, s, origem, destino, k))
  {
    var k := Kept(itens, ConflictNames(t, itens, destino));
    var files := Part(s, origem, k, false);
    var v := Transferred(t, s, origem, destino, k, files);
    forall q | q in files && origem <= q && Dest(origem, destino, q) in t
      ensures |origem| + 1 < |q|
      ensures Dest(origem, destino, q) in v && v[Dest(origem, destino, q)] == s[q]
    {
      SelectedParent(s, origem, k, q);
      if |q| == |origem| + 1 {
        KeptItemsAreNew(t, s, origem, destino, itens, q);
      }
      BackDest(origem, destino, q);
      DestsExact(origem, destino, files, q);
    }
    if NothingNewInside(t, s, origem, destino, k) {
      forall p | p in t && t[p].File?
        ensures p in v && v[p] == t[p]
      {
        NothingElseChanges(t, s, origem, destino, k, files, p);
        if p in Dests(origem, destino, files) {
          var q :| q in files && origem <= q && Dest(origem, destino, q) == p;
        }
      }
    }
  }

  datatype Resposta = Sobrescrever | Pular | Cancelar

  /** Asks about the conflicts, if there are any, and transfers as answered.
      Where the user skipped what was announced, or nothing was, a transfer that
      completes still writes over the old files inside selected directories. */
  method IniciarTransferencia(src: Arvore, dst: Arvore, origem: Path, destino: Path, itens: seq<Entry>,
                              resposta: Resposta)
    returns (nomes: seq<string>, ok: bool)
    requires src != dst && WellFormed(src.nodes) && WellFormed(dst.nodes)
    requires Selection(src.nodes, origem, itens)
    modifies dst
    ensures WellFormed(dst.nodes)
    ensures forall n :: n in nomes <==> n in ConflictNames(old(dst.nodes), itens, destino)
    ensures nomes != [] && resposta == Cancelar ==> dst.nodes == old(dst.nodes) && !ok
    ensures !(nomes != [] && resposta == Cancelar) ==>
              var skip := if nomes != [] && resposta == Pular
                          then ConflictNames(old(dst.nodes), itens, destino) else {};
              var k := Kept(itens, skip);
              (ok <==> AllRoom(old(dst.nodes), src.nodes, origem, destino, k))
              && (ok && dst.nodes == Overlaid(old(dst.nodes), src.nodes, origem, destino, k)
                  <==> NoClash(old(dst.nodes), src.nodes, origem, destino, k))
    ensures (nomes == [] || resposta == Pular) && ok ==>
              (OldFilesKept(old(dst.nodes), dst.nodes)
               <==> NothingNewInside(old(dst.nodes), src.nodes, origem, destino,
                                     Kept(itens, ConflictNames(old(dst.nodes), itens, destino))))
  {
    ghost var t := dst.nodes;
    ghost var copiados: set<Path>;
    ok := false;
    nomes := Conflitos(dst, itens, destino);
    var pular: set<string> := {};
    if nomes != [] {
      if resposta == Cancelar {
        return;
      }
      if resposta == Pular {
        pular := set n | n in nomes;
      }
    }
    assert nomes == [] || resposta == Pular ==> pular == ConflictNames(t, itens, destino);
    var enviados;
    enviados, ok, copiados := Transferir(src, dst, origem, destino, itens, pular);
    SkippingProtects(t, src.nodes, origem, destino, itens);
  }

  /** A file nobody was asked about, written over: the selection is one directory,
      no name is announced, nothing clashes, and the old contents are gone. */
  lemma UnannouncedOverwrite() returns (s: Nodes, t: Nodes, itens: seq<Entry>, p: Path)
    ensures WellFormed(s) && WellFormed(t) && Selection(s, [], itens)
    ensures ConflictNames(t, itens, []) == {} && NoClash(t, s, [], [], itens)
    ensures p in t && t[p] == File(2)
    ensures var v := Transferred(t, s, [], [], itens, Part(s, [], itens, false));
            p in v && v[p] == File(1)
  {
    var d: Path := ["d"];
    p := ["d", "f"];
    s := map[[] := Dir, d := Dir, p := File(1)];
    t := map[[] := Dir, d := Dir, p := File(2)];
    itens := [Entry("d", true)];
    assert Parent(p) == d && Parent(d) == [];
    assert [] + [itens[0].nome] == d <= p && Selected([], itens, p);
    assert Dest([], [], p) == p;
    DestsExact([], [], Part(s, [], itens, false), p);
    BackDest([], [], p);
    SameKinds(t, s, itens);
  }

  /** At equal bases, trees of one shape do not clash. */
  lemma SameKinds(t: Nodes, s: Nodes, itens: seq<Entry>)
    requires WellFormed(t) && WellFormed(s)
    requires forall q :: q in s && q in t ==> s[q].Dir? == t[q].Dir?
    ensures NoClash(t, s, [], [], itens)
  {
    DirUnblocked(t, []);
    forall q: Path | q in s
      ensures Dest([], [], q) == q
    {
    }
  }
}

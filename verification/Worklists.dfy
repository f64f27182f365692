/** The packages and the DLLs a Windows build has to bring along
    (scripts/sysroot-msys2.py and scripts/dlls-windows.py). */
module Worklists {
  import opened Wrappers
  import opened Reach

  // ---------------------------------------------------- packages and providers

  datatype Pacote = Pacote(arquivo: string, deps: seq<string>)

  /** The package database: packages by name, and who provides a virtual name.
      corte is the length of the repository's name prefix. */
  datatype Banco = Banco(pacotes: map<string, Pacote>, provedores: map<string, string>, corte: nat)

  const SEM_CADEIA: set<string> := {"crt", "headers"}

  /** The name past the repository prefix; empty if it is not longer. */
  function SemPrefixo(b: Banco, nome: string): string {
    if b.corte <= |nome| then nome[b.corte..] else ""
  }

  /** The package a dependency stands for: by name, or else by its provider,
      and never one of the toolchain's. */
  function Alvo(b: Banco, nome: string): (r: Option<string>)
    ensures r.Some? ==> r.value in b.pacotes && SemPrefixo(b, r.value) !in SEM_CADEIA
  {
    var n := if nome in b.pacotes then nome else if nome in b.provedores then b.provedores[nome] else nome;
    if n in b.pacotes && SemPrefixo(b, n) !in SEM_CADEIA then Some(n) else None
  }

  function Alvos(b: Banco, nomes: seq<string>): set<string> {
    set d | d in nomes && Alvo(b, d).Some? :: Alvo(b, d).value
  }

  function Seguintes(b: Banco): string -> set<string> {
    n => if n in b.pacotes then Alvos(b, b.pacotes[n].deps) else {}
  }

  ghost predicate Needed(b: Banco, raizes: seq<string>, x: string) {
    Reached(Alvos(b, raizes), Seguintes(b), x)
  }

  /** Name d was asked for: as a root, or by a package already visited. */
  ghost predicate Asked(b: Banco, raizes: seq<string>, vistos: set<string>, d: string) {
    d in raizes || exists v :: v in vistos && v in b.pacotes && d in b.pacotes[v].deps
  }

  lemma AskedNeeded(b: Banco, raizes: seq<string>, vistos: set<string>, d: string)
    requires Asked(b, raizes, vistos, d) && Alvo(b, d).Some?
    requires forall v :: v in vistos ==> Needed(b, raizes, v)
    ensures Needed(b, raizes, Alvo(b, d).value)
  {
    var x := Alvo(b, d).value;
    if d in raizes {
      assert x in Alvos(b, raizes);
      StartReached(Alvos(b, raizes), Seguintes(b), x);
    } else {
      var v :| v in vistos && v in b.pacotes && d in b.pacotes[v].deps;
      assert x in Seguintes(b)(v);
      NextReached(Alvos(b, raizes), Seguintes(b), v, x);
    }
  }

  /** What was visited is needed. */
  ghost predicate Visited(b: Banco, raizes: seq<string>, vistos: set<string>) {
    vistos <= b.pacotes.Keys && forall v :: v in vistos ==> Needed(b, raizes, v) && Alvo(b, v) == Some(v)
  }

  /** What waits was asked for, and whatever was asked for and stands for a
      package was visited or waits. */
  ghost predicate Waiting(b: Banco, raizes: seq<string>, vistos: set<string>, fila: seq<string>) {
    (forall d :: d in fila ==> Asked(b, raizes, vistos, d))
    && (forall d :: Asked(b, raizes, vistos, d) && Alvo(b, d).Some? ==> Alvo(b, d).value in vistos || d in fila)
  }

  /** A name that stands for nothing new is dropped. */
  lemma DropLast(b: Banco, raizes: seq<string>, vistos: set<string>, fila: seq<string>)
    requires fila != [] && Waiting(b, raizes, vistos, fila)
    requires Alvo(b, fila[|fila| - 1]).Some? ==> Alvo(b, fila[|fila| - 1]).value in vistos
    ensures Waiting(b, raizes, vistos, fila[..|fila| - 1])
  {
    assert fila == fila[..|fila| - 1] + [fila[|fila| - 1]];
  }

  /** A new package is visited and its dependencies wait. */
  lemma VisitLast(b: Banco, raizes: seq<string>, vistos: set<string>, fila: seq<string>, x: string)
    requires fila != [] && Visited(b, raizes, vistos) && Waiting(b, raizes, vistos, fila)
    requires Alvo(b, fila[|fila| - 1]) == Some(x) && x !in vistos
    ensures Visited(b, raizes, vistos + {x})
    ensures Waiting(b, raizes, vistos + {x}, fila[..|fila| - 1] + b.pacotes[x].deps)
    ensures |b.pacotes.Keys - (vistos + {x})| < |b.pacotes.Keys - vistos|
  {
    AskedNeeded(b, raizes, vistos, fila[|fila| - 1]);
    WaitNext(b, raizes, vistos, fila, x);
    SmallerSet(b.pacotes.Keys - (vistos + {x}), b.pacotes.Keys - vistos);
  }

  lemma WaitNext(b: Banco, raizes: seq<string>, vistos: set<string>, fila: seq<string>, x: string)
    requires fila != [] && Waiting(b, raizes, vistos, fila) && Alvo(b, fila[|fila| - 1]) == Some(x)
    ensures Waiting(b, raizes, vistos + {x}, fila[..|fila| - 1] + b.pacotes[x].deps)
  {
    assert fila == fila[..|fila| - 1] + [fila[|fila| - 1]];
    VisitAsks(b, raizes, vistos, x);
  }

  lemma VisitAsks(b: Banco, raizes: seq<string>, vistos: set<string>, x: string)
    requires x in b.pacotes
    ensures forall d :: Asked(b, raizes, vistos + {x}, d) <==> Asked(b, raizes, vistos, d) || d in b.pacotes[x].deps
  {
    forall d
      ensures Asked(b, raizes, vistos + {x}, d) <==> Asked(b, raizes, vistos, d) || d in b.pacotes[x].deps
    {
      assert x in vistos + {x};
    }
  }

  /** The transitive closure of the roots' dependencies: exactly the packages
      reached from them. */
  method Fecho(b: Banco, raizes: seq<string>) returns (vistos: set<string>)
    ensures forall x :: x in vistos <==> Needed(b, raizes, x)
  {
    vistos := {};
    var fila := raizes;
    while fila != []
      invariant Visited(b, raizes, vistos) && Waiting(b, raizes, vistos, fila)
      decreases |b.pacotes.Keys - vistos|, |fila|
    {
      var nome := fila[|fila| - 1];
      var novo := Novo(b, raizes, vistos, nome);
      if novo.None? {
        DropLast(b, raizes, vistos, fila);
        fila := fila[..|fila| - 1];
      } else {
        VisitLast(b, raizes, vistos, fila, novo.value);
        vistos := vistos + {novo.value};
        fila := fila[..|fila| - 1] + b.pacotes[novo.value].deps;
      }
    }
    SettledClosed(b, raizes, vistos);
    forall x | Needed(b, raizes, x)
      ensures x in vistos
    {
      ClosedHolds(Alvos(b, raizes), Seguintes(b), vistos, x);
    }
  }

  /** The tests of one turn: the package a name newly brings in, if any. */
  method Novo(b: Banco, ghost raizes: seq<string>, vistos: set<string>, pedido: string) returns (novo: Option<string>)
    requires Visited(b, raizes, vistos)
    ensures novo.Some? ==> Alvo(b, pedido) == novo && novo.value !in vistos
    ensures novo.None? && Alvo(b, pedido).Some? ==> Alvo(b, pedido).value in vistos
  {
    var nome := pedido;
    if nome in vistos {
      return None;
    }
    if nome !in b.pacotes {
      nome := if nome in b.provedores then b.provedores[nome] else nome;
      if nome !in b.pacotes || nome in vistos {
        return None;
      }
    }
    if SemPrefixo(b, nome) in SEM_CADEIA {
      return None;
    }
    novo := Some(nome);
  }

  lemma SmallerSet<T>(a: set<T>, b: set<T>)
    requires a < b
    ensures |a| < |b|
  {
    assert |b| == |a| + |b - a|;
  }

  /** With nothing left to look at, the visited packages are closed. */
  lemma SettledClosed(b: Banco, raizes: seq<string>, vistos: set<string>)
    requires vistos <= b.pacotes.Keys
    requires forall d :: Asked(b, raizes, vistos, d) && Alvo(b, d).Some? ==> Alvo(b, d).value in vistos
    ensures Alvos(b, raizes) <= vistos
    ensures forall y :: y in vistos ==> Seguintes(b)(y) <= vistos
  {
    forall d | d in raizes && Alvo(b, d).Some?
      ensures Alvo(b, d).value in vistos
    {
      assert Asked(b, raizes, vistos, d);
    }
    forall y, d | y in vistos && d in b.pacotes[y].deps && Alvo(b, d).Some?
      ensures Alvo(b, d).value in vistos
    {
      assert Asked(b, raizes, vistos, d);
    }
  }

  /** The name past the prefix is one the cross toolchain already has. */
  predicate Toolchain(b: Banco, n: string) {
    b.corte <= |n| && (n[b.corte..] == "crt" || n[b.corte..] == "headers")
  }

  /** S holds every package asked for by name, and for a name that is no package
      the package its provider is; toolchain packages are not asked for. */
  ghost predicate Closed(b: Banco, raizes: seq<string>, s: set<string>) {
    forall d :: Asked(b, raizes, s, d) ==>
      (d in b.pacotes && !Toolchain(b, d) ==> d in s)
      && (d !in b.pacotes && d in b.provedores && b.provedores[d] in b.pacotes && !Toolchain(b, b.provedores[d]) ==>
            b.provedores[d] in s)
  }

  lemma AlvoMeans(b: Banco, d: string)
    ensures Alvo(b, d) ==
            if d in b.pacotes then (if Toolchain(b, d) then None else Some(d))
            else if d in b.provedores && b.provedores[d] in b.pacotes && !Toolchain(b, b.provedores[d])
            then Some(b.provedores[d]) else None
  {
  }

  /** The closure is the least closed set. */
  lemma ClosureIsLeast(b: Banco, raizes: seq<string>, vistos: set<string>, s: set<string>)
    requires forall x :: x in vistos <==> Needed(b, raizes, x)
    ensures Closed(b, raizes, vistos)
    ensures Closed(b, raizes, s) ==> vistos <= s
  {
    forall d | Asked(b, raizes, vistos, d) && Alvo(b, d).Some?
      ensures Alvo(b, d).value in vistos
    {
      AskedNeeded(b, raizes, vistos, d);
    }
    forall d
      ensures Alvo(b, d) == if d in b.pacotes then (if Toolchain(b, d) then None else Some(d))
                            else if d in b.provedores && b.provedores[d] in b.pacotes && !Toolchain(b, b.provedores[d])
                            then Some(b.provedores[d]) else None
    {
      AlvoMeans(b, d);
    }
    if Closed(b, raizes, s) {
      LeastInside(b, raizes, vistos, s);
    }
  }

  lemma LeastInside(b: Banco, raizes: seq<string>, vistos: set<string>, s: set<string>)
    requires forall x :: x in vistos <==> Needed(b, raizes, x)
    requires Closed(b, raizes, s)
    ensures vistos <= s
  {
    forall d | Asked(b, raizes, s, d) && Alvo(b, d).Some?
      ensures Alvo(b, d).value in s
    {
      AlvoMeans(b, d);
    }
    forall d | d in raizes && Alvo(b, d).Some?
      ensures Alvo(b, d).value in s
    {
      assert Asked(b, raizes, s, d);
    }
    forall y, z | y in s && z in Seguintes(b)(y)
      ensures z in s
    {
      var d :| d in b.pacotes[y].deps && Alvo(b, d).Some? && Alvo(b, d).value == z;
      assert Asked(b, raizes, s, d);
    }
    forall x | x in vistos
      ensures x in s
    {
      ClosedHolds(Alvos(b, raizes), Seguintes(b), s, x);
    }
  }

  /** The closure holds no toolchain package, and taking the closure of a
      closure adds nothing. */
  lemma ClosureSettles(b: Banco, raizes: seq<string>, fecho: seq<string>, x: string)
    requires forall y :: y in fecho <==> Needed(b, raizes, y)
    ensures Needed(b, fecho, x) <==> x in fecho
    ensures x in fecho ==> x in b.pacotes && SemPrefixo(b, x) !in SEM_CADEIA
  {
    var s := set y | y in fecho;
    forall y | y in fecho
      ensures Alvo(b, y) == Some(y)
    {
      OnlyPackages(b, raizes, y);
    }
    assert Alvos(b, fecho) == s by {
      forall y | y in fecho ensures y in Alvos(b, fecho) { assert Alvo(b, y).Some?; }
    }
    if x in fecho {
      StartReached(Alvos(b, fecho), Seguintes(b), x);
    }
    if Needed(b, fecho, x) {
      forall y, z | y in s && z in Seguintes(b)(y)
        ensures z in s
      {
        NextReached(Alvos(b, raizes), Seguintes(b), y, z);
        assert Needed(b, raizes, z);
      }
      ClosedHolds(Alvos(b, fecho), Seguintes(b), s, x);
    }
  }

  lemma OnlyPackages(b: Banco, raizes: seq<string>, x: string)
    requires Needed(b, raizes, x)
    ensures Alvo(b, x) == Some(x)
  {
    var w: seq<string> :| Walk(Alvos(b, raizes), Seguintes(b), w) && w[|w| - 1] == x;
    if |w| == 1 {
      var d :| d in raizes && Alvo(b, d).Some? && Alvo(b, d).value == x;
    } else {
      var y := w[|w| - 2];
      assert x in Seguintes(b)(y);
      var d :| d in b.pacotes[y].deps && Alvo(b, d).Some? && Alvo(b, d).value == x;
    }
  }

  // ------------------------------------------------------------------- DLLs

  datatype ItemBin = ItemBin(nome: string, arquivo: bool)

  /** The sysroot's bin directory: its listing, what each file imports, how names
      are folded to lower case, and which DLLs Windows itself has. */
  datatype Sysroot = Sysroot(itens: seq<ItemBin>, imports: string -> seq<string>, lower: string -> string,
                             sistema: set<string>)

  predicate DllDoWindows(s: Sysroot, nome: string) {
    var baixo := s.lower(nome);
    "api-ms-win-" <= baixo || baixo in s.sistema
  }

  /** The files by lower-cased name; of two that fold alike the last one stands. */
  function Disponiveis(s: Sysroot, itens: seq<ItemBin>): map<string, string> {
    if itens == [] then map[]
    else
      var it := itens[|itens| - 1];
      var m := Disponiveis(s, itens[..|itens| - 1]);
      if it.arquivo then m[s.lower(it.nome) := it.nome] else m
  }

  /** Item i is a file whose folded name is k. */
  ghost predicate FileAt(s: Sysroot, itens: seq<ItemBin>, k: string, i: int) {
    0 <= i < |itens| && itens[i].arquivo && s.lower(itens[i].nome) == k
  }

  /** And no later item is. */
  ghost predicate LastFile(s: Sysroot, itens: seq<ItemBin>, k: string, i: int) {
    FileAt(s, itens, k, i) && forall j :: i < j ==> !FileAt(s, itens, k, j)
  }

  /** A folded name is in the index exactly if some file has it, and stands for
      the last such file. */
  lemma IndexHolds(s: Sysroot, itens: seq<ItemBin>, k: string)
    ensures k in Disponiveis(s, itens) <==> exists i :: FileAt(s, itens, k, i)
    ensures forall i :: LastFile(s, itens, k, i) ==>
              k in Disponiveis(s, itens) && Disponiveis(s, itens)[k] == itens[i].nome
  {
    IndexHas(s, itens, k);
    forall i | LastFile(s, itens, k, i)
      ensures k in Disponiveis(s, itens) && Disponiveis(s, itens)[k] == itens[i].nome
    {
      IndexStands(s, itens, k, i);
    }
  }

  lemma {:induction false} IndexHas(s: Sysroot, itens: seq<ItemBin>, k: string)
    ensures k in Disponiveis(s, itens) <==> exists i :: FileAt(s, itens, k, i)
  {
    if itens != [] {
      var rest, last := itens[..|itens| - 1], |itens| - 1;
      IndexHas(s, rest, k);
      assert FileAt(s, itens, k, last) <==> itens[last].arquivo && s.lower(itens[last].nome) == k;
      if i :| FileAt(s, rest, k, i) {
        assert FileAt(s, itens, k, i);
      } else if i :| FileAt(s, itens, k, i) {
        assert i < last ==> FileAt(s, rest, k, i);
      }
    }
  }

  lemma {:induction false} IndexStands(s: Sysroot, itens: seq<ItemBin>, k: string, i: int)
    requires LastFile(s, itens, k, i)
    ensures k in Disponiveis(s, itens) && Disponiveis(s, itens)[k] == itens[i].nome
  {
    var rest, last := itens[..|itens| - 1], |itens| - 1;
    if i < last {
      assert !FileAt(s, itens, k, last);
      forall j | i < j
        ensures !FileAt(s, rest, k, j)
      {
        assert FileAt(s, rest, k, j) ==> FileAt(s, itens, k, j);
      }
      IndexStands(s, rest, k, i);
    }
  }

  function Importados(s: Sysroot): string -> set<string> {
    n => var disp := Disponiveis(s, s.itens);
         if s.lower(n) in disp then set d | d in s.imports(disp[s.lower(n)]) else {}
  }

  /** The program loads n, directly or through DLLs the sysroot holds. */
  ghost predicate Loaded(s: Sysroot, exe: seq<string>, n: string) {
    Reached((set d | d in exe), Importados(s), n)
  }

  ghost predicate InSysroot(s: Sysroot, n: string) {
    s.lower(n) in Disponiveis(s, s.itens)
  }

  datatype Resolucao = Resolvidas(pares: set<(string, string)>) | Faltam(nomes: set<string>)

  /** Every name the queue can ever hold. */
  ghost function Universe(s: Sysroot, exe: seq<string>): set<string> {
    (set d | d in exe) + (set f, d | f in Disponiveis(s, s.itens).Values && d in s.imports(f) :: d)
  }

  ghost predicate Within(s: Sysroot, exe: seq<string>, vistas: set<string>, fila: seq<string>) {
    vistas <= Universe(s, exe) && forall d :: d in fila ==> d in Universe(s, exe)
  }

  /** A name newly seen uses up one of the finitely many there are. */
  lemma StillWithin(s: Sysroot, exe: seq<string>, vistas: set<string>, fila: seq<string>)
    requires fila != [] && Within(s, exe, vistas, fila) && InSysroot(s, fila[0]) && fila[0] !in vistas
    ensures Within(s, exe, vistas + {fila[0]}, fila[1..] + s.imports(Disponiveis(s, s.itens)[s.lower(fila[0])]))
    ensures |Universe(s, exe) - (vistas + {fila[0]})| < |Universe(s, exe) - vistas|
  {
    assert Disponiveis(s, s.itens)[s.lower(fila[0])] in Disponiveis(s, s.itens).Values;
    SmallerSet(Universe(s, exe) - (vistas + {fila[0]}), Universe(s, exe) - vistas);
  }

  method MontarDisponiveis(s: Sysroot) returns (disp: map<string, string>)
    ensures disp == Disponiveis(s, s.itens)
    ensures forall k :: k in disp <==> exists i :: FileAt(s, s.itens, k, i)
    ensures forall k, i :: LastFile(s, s.itens, k, i) ==> k in disp && disp[k] == s.itens[i].nome
  {
    disp := map[];
    for i := 0 to |s.itens|
      invariant disp == Disponiveis(s, s.itens[..i])
    {
      assert s.itens[..i + 1][..i] == s.itens[..i];
      if s.itens[i].arquivo {
        disp := disp[s.lower(s.itens[i].nome) := s.itens[i].nome];
      }
    }
    assert s.itens[..|s.itens|] == s.itens;
    forall k
      ensures k in disp <==> exists i :: FileAt(s, s.itens, k, i)
      ensures forall i :: LastFile(s, s.itens, k, i) ==> k in disp && disp[k] == s.itens[i].nome
    {
      IndexHolds(s, s.itens, k);
    }
  }

  /** Name d was imported by the program or by a DLL already seen. */
  ghost predicate Imported(s: Sysroot, exe: seq<string>, vistas: set<string>, d: string) {
    d in exe || exists v :: v in vistas && d in Importados(s)(v)
  }

  lemma ImportedLoaded(s: Sysroot, exe: seq<string>, vistas: set<string>, d: string)
    requires Imported(s, exe, vistas, d)
    requires forall v :: v in vistas ==> Loaded(s, exe, v)
    ensures Loaded(s, exe, d)
  {
    var start := set e | e in exe;
    if d in exe {
      StartReached(start, Importados(s), d);
    } else {
      var v :| v in vistas && d in Importados(s)(v);
      NextReached(start, Importados(s), v, d);
    }
  }

  lemma SeeOne(s: Sysroot, exe: seq<string>, vistas: set<string>, nome: string)
    requires InSysroot(s, nome)
    ensures forall d :: Imported(s, exe, vistas + {nome}, d) <==>
                        Imported(s, exe, vistas, d) || d in s.imports(Disponiveis(s, s.itens)[s.lower(nome)])
  {
    forall d
      ensures Imported(s, exe, vistas + {nome}, d) <==>
              Imported(s, exe, vistas, d) || d in s.imports(Disponiveis(s, s.itens)[s.lower(nome)])
    {
      if d in Importados(s)(nome) {
        assert nome in vistas + {nome};
      }
    }
  }

  /** With nothing left in the queue, what is loaded has all been looked at. */
  lemma AllLoadedSeen(s: Sysroot, exe: seq<string>, vistas: set<string>, fora: set<string>, n: string)
    requires forall d :: Imported(s, exe, vistas, d) ==> d in vistas || d in fora
    requires forall d :: d in fora ==> !InSysroot(s, d)
    requires Loaded(s, exe, n)
    ensures n in vistas || n in fora
  {
    var start := set e | e in exe;
    forall d | d in start
      ensures d in vistas + fora
    {
      assert Imported(s, exe, vistas, d);
    }
    forall y, d | y in vistas + fora && d in Importados(s)(y)
      ensures d in vistas + fora
    {
      assert y in vistas;
      assert Imported(s, exe, vistas, d);
    }
    ClosedHolds(start, Importados(s), vistas + fora, n);
  }

  /** Names seen are loaded sysroot files, names set aside are loaded and not
      there, and whatever was imported was seen, set aside, or waits. */
  ghost predicate Looking(s: Sysroot, exe: seq<string>, vistas: set<string>, fora: set<string>, fila: seq<string>) {
    (forall v :: v in vistas ==> Loaded(s, exe, v) && InSysroot(s, v))
    && (forall v :: v in fora ==> Loaded(s, exe, v) && !InSysroot(s, v))
    && (forall d :: d in fila ==> Imported(s, exe, vistas, d))
    && (forall d :: Imported(s, exe, vistas, d) ==> d in vistas || d in fora || d in fila)
  }

  lemma SkipFirst(s: Sysroot, exe: seq<string>, vistas: set<string>, fora: set<string>, fila: seq<string>)
    requires fila != [] && Looking(s, exe, vistas, fora, fila) && fila[0] in vistas
    ensures Looking(s, exe, vistas, fora, fila[1..])
  {
    assert fila == [fila[0]] + fila[1..];
  }

  lemma SetAside(s: Sysroot, exe: seq<string>, vistas: set<string>, fora: set<string>, fila: seq<string>)
    requires fila != [] && Looking(s, exe, vistas, fora, fila) && !InSysroot(s, fila[0])
    ensures Looking(s, exe, vistas, fora + {fila[0]}, fila[1..])
  {
    assert fila == [fila[0]] + fila[1..];
    ImportedLoaded(s, exe, vistas, fila[0]);
  }

  lemma SeeFirst(s: Sysroot, exe: seq<string>, vistas: set<string>, fora: set<string>, fila: seq<string>)
    requires fila != [] && Looking(s, exe, vistas, fora, fila) && InSysroot(s, fila[0])
    ensures Looking(s, exe, vistas + {fila[0]}, fora,
                    fila[1..] + s.imports(Disponiveis(s, s.itens)[s.lower(fila[0])]))
  {
    assert fila == [fila[0]] + fila[1..];
    ImportedLoaded(s, exe, vistas, fila[0]);
    SeeOne(s, exe, vistas, fila[0]);
  }

  /** Succeeds exactly if everything loaded is in the sysroot or is Windows's
      own, and then names exactly the loaded sysroot files; otherwise names
      exactly what is missing. */
  method Resolver(s: Sysroot, exe: seq<string>) returns (r: Resolucao)
    ensures r.Resolvidas? <==>
              forall n :: Loaded(s, exe, n) ==>
                InSysroot(s, n) || "api-ms-win-" <= s.lower(n) || s.lower(n) in s.sistema
    ensures r.Resolvidas? ==>
              forall n, f :: (n, f) in r.pares <==>
                Loaded(s, exe, n) && InSysroot(s, n) && f == Disponiveis(s, s.itens)[s.lower(n)]
    ensures r.Faltam? ==>
              forall n :: n in r.nomes <==>
                Loaded(s, exe, n) && !InSysroot(s, n) && !("api-ms-win-" <= s.lower(n)) && s.lower(n) !in s.sistema
  {
    var disp := MontarDisponiveis(s);
    var vistas, faltando := Percorrer(s, exe, disp);
    if faltando != {} {
      var x :| x in faltando;
      return Faltam(faltando);
    }
    r := Resolvidas(set n | n in vistas :: (n, disp[s.lower(n)]));
  }

  /** The loop of resolver. */
  method Percorrer(s: Sysroot, exe: seq<string>, disp: map<string, string>)
    returns (vistas: set<string>, faltando: set<string>)
    requires disp == Disponiveis(s, s.itens)
    ensures forall n :: n in vistas <==> Loaded(s, exe, n) && InSysroot(s, n)
    ensures forall n :: n in faltando <==> Loaded(s, exe, n) && !InSysroot(s, n) && !DllDoWindows(s, n)
  {
    vistas, faltando := {}, {};
    var fila := exe;
    ghost var fora: set<string> := {};
    while fila != []
      invariant Looking(s, exe, vistas, fora, fila) && Within(s, exe, vistas, fila)
      invariant forall v :: v in faltando <==> v in fora && !DllDoWindows(s, v)
      decreases |Universe(s, exe) - vistas|, |fila|
    {
      var nome := fila[0];
      ghost var antes := fila;
      fila := fila[1..];
      if nome in vistas {
        SkipFirst(s, exe, vistas, fora, antes);
        continue;
      }
      if s.lower(nome) !in disp {
        SetAside(s, exe, vistas, fora, antes);
        fora := fora + {nome};
        if !DllDoWindows(s, nome) {
          faltando := faltando + {nome};
        }
        continue;
      }
      SeeFirst(s, exe, vistas, fora, antes);
      StillWithin(s, exe, vistas, antes);
      vistas := vistas + {nome};
      fila := fila + s.imports(disp[s.lower(nome)]);
    }
    forall n | Loaded(s, exe, n)
      ensures n in vistas || n in fora
    {
      AllLoadedSeen(s, exe, vistas, fora, n);
    }
  }

  /** What is copied is complete: whatever a copied DLL imports is copied too
      or comes with Windows. */
  lemma CopiedIsComplete(s: Sysroot, exe: seq<string>, pares: set<(string, string)>, n: string, f: string, d: string)
    requires forall m :: Loaded(s, exe, m) ==> InSysroot(s, m) || DllDoWindows(s, m)
    requires forall m, g :: (m, g) in pares <==>
               Loaded(s, exe, m) && InSysroot(s, m) && g == Disponiveis(s, s.itens)[s.lower(m)]
    requires (n, f) in pares && d in s.imports(f)
    ensures (exists g :: (d, g) in pares) || DllDoWindows(s, d)
  {
    assert d in Importados(s)(n);
    NextReached((set e | e in exe), Importados(s), n, d);
    assert Loaded(s, exe, d);
    if InSysroot(s, d) {
      assert (d, Disponiveis(s, s.itens)[s.lower(d)]) in pares;
    }
  }
}

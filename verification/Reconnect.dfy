/** The reconnect loop the remote tabs share (cmd/acessos/telatab.go): what a
    run of it may look like, whatever the sessions and the operator do. */
module Reconnect {
  import opened Wrappers

  datatype Fim = FimParar | FimReligar | FimCaiu | FimFalhou

  /** What the watcher noted before the end was decided. */
  datatype Pedido = PediuParar | PediuReligar

  /** One session as the environment plays it: whether the child process
      started, whether the connection could be asked for, whether the event loop
      reported a failed connection, and what the watcher had noted by then. */
  datatype Sessao = Sessao(iniciou: bool, pediu: bool, falhou: bool, vigia: Option<Pedido>)

  /** Why a session ended. A failed connection outweighs what the watcher noted,
      except that the tab was closed. */
  function RodarSessao(s: Sessao): (fim: Fim)
    ensures fim == FimParar <==> s.iniciou && s.vigia == Some(PediuParar)
    ensures fim == FimFalhou <==> s.iniciou && s.pediu && s.falhou && s.vigia != Some(PediuParar)
    ensures fim == FimReligar <==> s.iniciou && !(s.pediu && s.falhou) && s.vigia == Some(PediuReligar)
  {
    if !s.iniciou then FimCaiu
    else if !s.pediu then Anotado(s.vigia)
    else if s.falhou then (if Anotado(s.vigia) == FimParar then FimParar else FimFalhou)
    else Anotado(s.vigia)
  }

  function Anotado(vigia: Option<Pedido>): Fim {
    match vigia
    case None => FimCaiu
    case Some(PediuParar) => FimParar
    case Some(PediuReligar) => FimReligar
  }

  datatype Evento = TempoPassou | CliqueReligar | AbaFechou

  /** One turn of the environment: the session, the automatic switch when it is
      read, and what each of the two waits would see first. */
  datatype Rodada = Rodada(sessao: Sessao, auto: bool, clicou: bool, evento: Evento)

  datatype Passo =
    | Tentou(sessao: Sessao, fim: Fim)
    | LeuAuto(ligada: bool)
    | Esperou(prazo: nat)
    | Passou
    | Religou
    | Parou

  // ----------------------------------------------------------- legal traces

  /** What stands between a trace and its next attempt. */
  datatype Trava = Solta | PorTempo | PorClique

  function TravaApos(antes: Trava, p: Passo): Trava {
    match p
    case Tentou(_, fim) =>
      (match fim case FimFalhou => PorClique case FimCaiu => PorTempo case _ => Solta)
    case LeuAuto(ligada) => if ligada then antes else PorClique
    case Esperou(_) => antes
    case Passou => if antes == PorTempo then Solta else antes
    case Religou => Solta
    case Parou => antes
  }

  function TravaDe(tr: seq<Passo>): Trava {
    if tr == [] then Solta else TravaApos(TravaDe(tr[..|tr| - 1]), tr[|tr| - 1])
  }

  /** A click took effect: the backoff starts over. */
  predicate Zera(p: Passo) {
    p == Religou || (p.Tentou? && p.fim == FimReligar)
  }

  predicate Encerra(p: Passo) {
    p == Parou || (p.Tentou? && p.fim == FimParar)
  }

  /** Automatic waits since the backoff last started over. */
  function Automaticas(tr: seq<Passo>): nat {
    if tr == [] then 0
    else if Zera(tr[|tr| - 1]) then 0
    else Automaticas(tr[..|tr| - 1]) + if tr[|tr| - 1].Esperou? then 1 else 0
  }

  /** Which step comes after which. */
  predicate Follows(p: Passo, q: Passo) {
    match p
    case Tentou(_, FimParar) => false
    case Tentou(_, FimReligar) => q.Tentou?
    case Tentou(_, FimFalhou) => q == Religou || q == Parou
    case Tentou(_, FimCaiu) => q.LeuAuto?
    case LeuAuto(ligada) => if ligada then q.Esperou? else q == Religou || q == Parou
    case Esperou(_) => q == Passou || q == Religou || q == Parou
    case Passou => q.Tentou?
    case Religou => q.Tentou?
    case Parou => false
  }

  predicate Allowed(prazos: seq<nat>, tr: seq<Passo>, p: Passo)
    requires prazos != []
  {
    (if tr == [] then p.Tentou? else Follows(tr[|tr| - 1], p))
    && (p.Tentou? ==> TravaDe(tr) == Solta && p.fim == RodarSessao(p.sessao))
    && (p.Esperou? ==> p.prazo == prazos[Min(Automaticas(tr), |prazos| - 1)])
  }

  predicate Legal(prazos: seq<nat>, tr: seq<Passo>)
    requires prazos != []
  {
    tr == [] || (Legal(prazos, tr[..|tr| - 1]) && Allowed(prazos, tr[..|tr| - 1], tr[|tr| - 1]))
  }

  /** Every step of a legal trace is allowed where it stands. */
  lemma {:induction false} LegalAt(prazos: seq<nat>, tr: seq<Passo>, k: nat)
    requires prazos != [] && Legal(prazos, tr) && k < |tr|
    ensures Allowed(prazos, tr[..k], tr[k])
  {
    if k < |tr| - 1 {
      LegalAt(prazos, tr[..|tr| - 1], k);
      assert tr[..|tr| - 1][..k] == tr[..k];
    }
  }

  /** The sessions a trace tried, in order. */
  function Tentativas(tr: seq<Passo>): seq<Sessao> {
    if tr == [] then []
    else Tentativas(tr[..|tr| - 1]) + if tr[|tr| - 1].Tentou? then [tr[|tr| - 1].sessao] else []
  }

  function Sessoes(r: seq<Rodada>): seq<Sessao> {
    if r == [] then [] else Sessoes(r[..|r| - 1]) + [r[|r| - 1].sessao]
  }

  function AposClique(clicou: bool): Passo {
    if clicou then Religou else Parou
  }

  function AposPrazo(evento: Evento): Passo {
    match evento
    case TempoPassou => Passou
    case CliqueReligar => Religou
    case AbaFechou => Parou
  }

  /** What a turn adds after its session. */
  function Resto(prazos: seq<nat>, n: nat, r: Rodada, fim: Fim): seq<Passo>
    requires prazos != []
  {
    match fim
    case FimParar => []
    case FimReligar => []
    case FimFalhou => [AposClique(r.clicou)]
    case FimCaiu =>
      if !r.auto then [LeuAuto(false), AposClique(r.clicou)]
      else [LeuAuto(true), Esperou(prazos[Min(n, |prazos| - 1)]), AposPrazo(r.evento)]
  }

  /** The steps of one turn, n automatic waits after the last click. */
  function Giro(prazos: seq<nat>, n: nat, r: Rodada): seq<Passo>
    requires prazos != []
  {
    [Tentou(r.sessao, RodarSessao(r.sessao))] + Resto(prazos, n, r, RodarSessao(r.sessao))
  }

  /** The trace a whole environment leaves. */
  function Traco(prazos: seq<nat>, r: seq<Rodada>): seq<Passo>
    requires prazos != []
  {
    if r == [] then []
    else
      var antes := Traco(prazos, r[..|r| - 1]);
      antes + Giro(prazos, Automaticas(antes), r[|r| - 1])
  }

  /** Whether a turn is followed by another: what the operator and the clock say. */
  predicate GoesOn(r: Rodada) {
    match RodarSessao(r.sessao)
    case FimParar => false
    case FimReligar => true
    case FimFalhou => r.clicou
    case FimCaiu => if r.auto then r.evento != AbaFechou else r.clicou
  }

  /** Between two turns: nothing holds the next attempt back, and attempt
      counts the automatic waits the schedule goes by. */
  ghost predicate Pronta(prazos: seq<nat>, tr: seq<Passo>, attempt: nat)
    requires prazos != []
  {
    Legal(prazos, tr) && TravaDe(tr) == Solta && attempt == Automaticas(tr)
    && (tr != [] ==> tr[|tr| - 1].Passou? || Zera(tr[|tr| - 1]))
  }

  /** Whether a turn ended ready for the next one or with the loop stopped. */
  ghost predicate Virou(prazos: seq<nat>, tr: seq<Passo>, attempt: nat, segue: bool)
    requires prazos != []
  {
    if segue then Pronta(prazos, tr, attempt) else Legal(prazos, tr) && tr != [] && Encerra(tr[|tr| - 1])
  }

  /** Appends a step and says how it moves what the next step depends on. */
  method Anotar(prazos: seq<nat>, antes: seq<Passo>, p: Passo) returns (tr: seq<Passo>)
    requires prazos != [] && Legal(prazos, antes) && Allowed(prazos, antes, p)
    ensures tr == antes + [p] && Legal(prazos, tr)
    ensures tr[|tr| - 1] == p && tr[..|tr| - 1] == antes
    ensures TravaDe(tr) == TravaApos(TravaDe(antes), p)
    ensures Automaticas(tr) == if Zera(p) then 0 else Automaticas(antes) + if p.Esperou? then 1 else 0
  {
    tr := antes + [p];
    assert tr[..|tr| - 1] == antes;
  }

  /** Waits for a click or the closing of the tab, with no time limit. */
  method AguardarClique(prazos: seq<nat>, antes: seq<Passo>, clicou: bool)
    returns (tr: seq<Passo>, attempt: nat, segue: bool)
    requires prazos != [] && Legal(prazos, antes)
    requires antes != [] && Follows(antes[|antes| - 1], Religou) && Follows(antes[|antes| - 1], Parou)
    ensures Virou(prazos, tr, attempt, segue)
    ensures tr == antes + [AposClique(clicou)]
    ensures segue == clicou && attempt == 0
  {
    attempt, segue := 0, clicou;
    tr := Anotar(prazos, antes, if clicou then Religou else Parou);
  }

  /** Waits the time the schedule says, unless a click or the closing comes first. */
  method AguardarPrazo(prazos: seq<nat>, antes: seq<Passo>, attempt0: nat, evento: Evento)
    returns (tr: seq<Passo>, attempt: nat, segue: bool)
    requires prazos != [] && Legal(prazos, antes)
    requires antes != [] && antes[|antes| - 1] == LeuAuto(true)
    requires TravaDe(antes) == PorTempo && attempt0 == Automaticas(antes)
    ensures Virou(prazos, tr, attempt, segue)
    ensures tr == antes + [Esperou(prazos[Min(attempt0, |prazos| - 1)]), AposPrazo(evento)]
    ensures segue == (evento != AbaFechou)
    ensures evento != AbaFechou ==> attempt == if evento == CliqueReligar then 0 else attempt0 + 1
  {
    attempt, segue := attempt0, true;
    var wait := prazos[Min(attempt, |prazos| - 1)];
    attempt := attempt + 1;
    var espera := Anotar(prazos, antes, Esperou(wait));
    var visto: Passo;
    match evento {
      case TempoPassou =>
        visto := Passou;
      case CliqueReligar =>
        visto, attempt := Religou, 0;
      case AbaFechou =>
        visto, segue := Parou, false;
    }
    tr := Anotar(prazos, espera, visto);
  }

  /** What follows a session that fell. */
  method AposQueda(prazos: seq<nat>, antes: seq<Passo>, attempt0: nat, r: Rodada)
    returns (tr: seq<Passo>, attempt: nat, segue: bool)
    requires prazos != [] && Legal(prazos, antes)
    requires antes != [] && antes[|antes| - 1] == Tentou(r.sessao, FimCaiu)
    requires TravaDe(antes) == PorTempo && attempt0 == Automaticas(antes)
    ensures Virou(prazos, tr, attempt, segue)
    ensures tr == antes + Resto(prazos, attempt0, r, FimCaiu)
    ensures segue == if r.auto then r.evento != AbaFechou else r.clicou
    ensures segue ==> attempt == if r.auto && r.evento == TempoPassou then attempt0 + 1 else 0
  {
    var lido := Anotar(prazos, antes, LeuAuto(r.auto));
    if !r.auto {
      tr, attempt, segue := AguardarClique(prazos, lido, r.clicou);
    } else {
      tr, attempt, segue := AguardarPrazo(prazos, lido, attempt0, r.evento);
    }
  }

  /** One turn: a session, and what its end calls for. */
  method Volta(prazos: seq<nat>, antes: seq<Passo>, attempt0: nat, r: Rodada)
    returns (tr: seq<Passo>, attempt: nat, segue: bool)
    requires prazos != [] && Pronta(prazos, antes, attempt0)
    ensures Virou(prazos, tr, attempt, segue)
    ensures tr == antes + Giro(prazos, attempt0, r)
    ensures segue == GoesOn(r)
  {
    var fim := RodarSessao(r.sessao);
    var feito := Anotar(prazos, antes, Tentou(r.sessao, fim));
    tr, attempt, segue := AposSessao(prazos, feito, attempt0, r, fim);
  }

  /** What follows a session, by the reason it ended. */
  method AposSessao(prazos: seq<nat>, antes: seq<Passo>, attempt0: nat, r: Rodada, fim: Fim)
    returns (tr: seq<Passo>, attempt: nat, segue: bool)
    requires prazos != [] && Legal(prazos, antes) && antes != [] && antes[|antes| - 1] == Tentou(r.sessao, fim)
    requires TravaDe(antes) == TravaApos(Solta, Tentou(r.sessao, fim))
    requires fim == FimCaiu ==> attempt0 == Automaticas(antes)
    ensures Virou(prazos, tr, attempt, segue) && tr == antes + Resto(prazos, attempt0, r, fim)
    ensures fim == RodarSessao(r.sessao) ==> segue == GoesOn(r)
  {
    tr, attempt, segue := antes, attempt0, true;
    match fim {
      case FimParar =>
        segue := false;
      case FimReligar =>
        attempt := 0;
      case FimFalhou =>
        tr, attempt, segue := AguardarClique(prazos, tr, r.clicou);
      case FimCaiu =>
        tr, attempt, segue := AposQueda(prazos, tr, attempt, r);
    }
  }

  /** The loop, against as long an environment as one likes. It gives up early
      only when told to stop. A session that failed to connect, or one that fell
      with the switch off, is followed by another exactly if the operator clicked;
      one that fell with the switch on, unless the tab closed during the wait. */
  method GerenciarSessaoRemota(prazos: seq<nat>, roteiro: seq<Rodada>)
    returns (tr: seq<Passo>, feitas: nat)
    requires prazos != []
    ensures feitas <= |roteiro| && tr == Traco(prazos, roteiro[..feitas])
    ensures Legal(prazos, tr)
    ensures feitas < |roteiro| ==> tr != [] && Encerra(tr[|tr| - 1])
    ensures roteiro != [] ==> 0 < feitas
    ensures forall i | 0 <= i < feitas && i < |roteiro| - 1 ::
              (RodarSessao(roteiro[i].sessao) == FimParar ==> i == feitas - 1)
              && (RodarSessao(roteiro[i].sessao) == FimReligar ==> i < feitas - 1)
              && (RodarSessao(roteiro[i].sessao) == FimFalhou ==> (i < feitas - 1 <==> roteiro[i].clicou))
              && (RodarSessao(roteiro[i].sessao) == FimCaiu && !roteiro[i].auto ==>
                    (i < feitas - 1 <==> roteiro[i].clicou))
              && (RodarSessao(roteiro[i].sessao) == FimCaiu && roteiro[i].auto ==>
                    (i < feitas - 1 <==> roteiro[i].evento != AbaFechou))
  {
    tr, feitas := Laco(prazos, roteiro);
  }

  /** Of the turns taken all but the last were to be followed by another, and the
      last was not, unless the environment ended there. */
  ghost predicate Followed(roteiro: seq<Rodada>, feitas: nat) {
    feitas <= |roteiro|
    && forall i | 0 <= i < feitas && i < |roteiro| - 1 :: i < feitas - 1 <==> GoesOn(roteiro[i])
  }

  method Laco(prazos: seq<nat>, roteiro: seq<Rodada>) returns (tr: seq<Passo>, feitas: nat)
    requires prazos != []
    ensures Followed(roteiro, feitas) && tr == Traco(prazos, roteiro[..feitas])
    ensures Legal(prazos, tr)
    ensures feitas < |roteiro| ==> tr != [] && Encerra(tr[|tr| - 1])
    ensures roteiro != [] ==> 0 < feitas
  {
    tr, feitas := [], 0;
    var attempt, segue := 0, true;
    while segue && feitas < |roteiro|
      invariant feitas <= |roteiro| && Virou(prazos, tr, attempt, segue)
      invariant tr == Traco(prazos, roteiro[..feitas])
      invariant feitas == 0 ==> segue
      invariant forall i | 0 <= i < feitas :: GoesOn(roteiro[i]) <==> i < feitas - 1 || segue
      decreases |roteiro| - feitas
    {
      assert roteiro[..feitas + 1][..feitas] == roteiro[..feitas];
      tr, attempt, segue := Volta(prazos, tr, attempt, roteiro[feitas]);
      feitas := feitas + 1;
    }
  }

  /** The steps of a turn say what happened: a click where the operator clicked,
      the end of the wait where time ran out, and the stop where the tab closed. */
  lemma StepsMean(prazos: seq<nat>, n: nat, r: Rodada)
    requires prazos != []
    ensures var g, fim := Giro(prazos, n, r), RodarSessao(r.sessao);
            g[0] == Tentou(r.sessao, fim)
            && (fim == FimParar || fim == FimReligar ==> |g| == 1)
            && (fim == FimFalhou ==> |g| == 2 && g[1] == if r.clicou then Religou else Parou)
            && (fim == FimCaiu && !r.auto ==>
                  |g| == 3 && g[1] == LeuAuto(false) && g[2] == if r.clicou then Religou else Parou)
            && (fim == FimCaiu && r.auto ==>
                  |g| == 4 && g[1] == LeuAuto(true) && g[2] == Esperou(prazos[Min(n, |prazos| - 1)])
                  && (g[3] == Passou <==> r.evento == TempoPassou)
                  && (g[3] == Religou <==> r.evento == CliqueReligar)
                  && (g[3] == Parou <==> r.evento == AbaFechou))
  {
  }

  /** The session fell with the switch on. */
  predicate FellWaiting(r: Rodada) {
    RodarSessao(r.sessao) == FimCaiu && r.auto
  }

  /** The operator clicked: during the session, or while the loop waited. */
  predicate Clicked(r: Rodada) {
    match RodarSessao(r.sessao)
    case FimParar => false
    case FimReligar => true
    case FimFalhou => r.clicou
    case FimCaiu => if r.auto then r.evento == CliqueReligar else r.clicou
  }

  lemma AppendCounts(tr: seq<Passo>, p: Passo)
    ensures Automaticas(tr + [p]) == if Zera(p) then 0 else Automaticas(tr) + if p.Esperou? then 1 else 0
  {
    assert (tr + [p])[..|tr|] == tr;
  }

  /** A click starts the count over; a wait that ran out adds one to it. */
  lemma TurnCounts(prazos: seq<nat>, antes: seq<Passo>, n: nat, r: Rodada)
    requires prazos != []
    ensures Clicked(r) ==> Automaticas(antes + Giro(prazos, n, r)) == 0
    ensures FellWaiting(r) && r.evento == TempoPassou ==>
              Automaticas(antes + Giro(prazos, n, r)) == Automaticas(antes) + 1
  {
    var g := Giro(prazos, n, r);
    var rest, last := antes + g[..|g| - 1], g[|g| - 1];
    assert rest + [last] == antes + g;
    AppendCounts(rest, last);
    if FellWaiting(r) {
      assert g[..3] == [g[0], g[1], g[2]];
      AppendCounts(antes, g[0]);
      AppendCounts(antes + [g[0]], g[1]);
      AppendCounts(antes + [g[0]] + [g[1]], g[2]);
      assert antes + [g[0]] + [g[1]] + [g[2]] == rest;
    }
  }

  lemma {:induction false} CountSince(prazos: seq<nat>, r: seq<Rodada>, j: nat, i: nat)
    requires prazos != [] && j <= i <= |r| && (j > 0 ==> Clicked(r[j - 1]))
    requires forall k :: j <= k < i ==> FellWaiting(r[k]) && r[k].evento == TempoPassou
    ensures Automaticas(Traco(prazos, r[..i])) == i - j
    decreases i
  {
    if i > 0 {
      assert r[..i][..i - 1] == r[..i - 1];
      var antes := Traco(prazos, r[..i - 1]);
      TurnCounts(prazos, antes, Automaticas(antes), r[i - 1]);
      if i > j {
        CountSince(prazos, r, j, i - 1);
      }
    }
  }

  /** In the environment's terms: the i - j th fall in a row after a click, or
      after the start, waits for the schedule's entry of that rank, the last one
      serving from there on. */
  lemma WaitsByEnvironment(prazos: seq<nat>, r: seq<Rodada>, j: nat, i: nat)
    requires prazos != [] && j <= i < |r| && (j > 0 ==> Clicked(r[j - 1])) && FellWaiting(r[i])
    requires forall k :: j <= k < i ==> FellWaiting(r[k]) && r[k].evento == TempoPassou
    ensures var antes, tr := Traco(prazos, r[..i]), Traco(prazos, r[..i + 1]);
            |tr| == |antes| + 4 && tr[|antes| + 2] == Esperou(prazos[Min(i - j, |prazos| - 1)])
  {
    assert r[..i + 1][..i] == r[..i];
    CountSince(prazos, r, j, i);
    StepsMean(prazos, i - j, r[i]);
  }

  lemma {:induction false} TriesAppend(a: seq<Passo>, b: seq<Passo>)
    ensures Tentativas(a + b) == Tentativas(a) + Tentativas(b)
  {
    if b == [] {
      assert a + b == a;
    } else {
      TriesAppend(a, b[..|b| - 1]);
      assert (a + b)[..|a + b| - 1] == a + b[..|b| - 1];
    }
  }

  lemma TurnTriesOnce(prazos: seq<nat>, n: nat, r: Rodada)
    requires prazos != []
    ensures Tentativas(Giro(prazos, n, r)) == [r.sessao]
  {
    var t, rest := [Tentou(r.sessao, RodarSessao(r.sessao))], Resto(prazos, n, r, RodarSessao(r.sessao));
    TriesAppend(t, rest);
    assert t[..0] == [];
    NoTries(rest);
  }

  lemma {:induction false} NoTries(tr: seq<Passo>)
    requires forall k :: 0 <= k < |tr| ==> !tr[k].Tentou?
    ensures Tentativas(tr) == []
  {
    if tr != [] {
      NoTries(tr[..|tr| - 1]);
    }
  }

  /** The loop tries the sessions it is given, in order and each once. */
  lemma {:induction false} TriesInOrder(prazos: seq<nat>, r: seq<Rodada>)
    requires prazos != []
    ensures Tentativas(Traco(prazos, r)) == Sessoes(r)
  {
    if r != [] {
      var antes := Traco(prazos, r[..|r| - 1]);
      var giro := Giro(prazos, Automaticas(antes), r[|r| - 1]);
      TriesInOrder(prazos, r[..|r| - 1]);
      TurnTriesOnce(prazos, Automaticas(antes), r[|r| - 1]);
      TriesAppend(antes, giro);
    }
  }

  // ------------------------------------------------- what legal traces promise

  /** The lock a step left stays until a click, or the end of a timed wait, opens it. */
  lemma {:induction false} LockHolds(tr: seq<Passo>, i: nat, j: nat)
    requires i < j <= |tr|
    requires TravaDe(tr[..i + 1]) != Solta
    requires forall k :: i < k < j ==> !tr[k].Tentou? && tr[k] != Religou
    requires TravaDe(tr[..i + 1]) == PorTempo ==> forall k :: i < k < j ==> tr[k] != Passou
    ensures TravaDe(tr[..j]) == TravaDe(tr[..i + 1]) || TravaDe(tr[..j]) == PorClique
  {
    if j > i + 1 {
      LockHolds(tr, i, j - 1);
      assert tr[..j][..j - 1] == tr[..j - 1];
    }
  }

  /** The first attempt after position i. */
  lemma {:induction false} NextAttempt(tr: seq<Passo>, i: nat, j: nat) returns (m: nat)
    requires i < j < |tr| && tr[j].Tentou?
    ensures i < m <= j && tr[m].Tentou? && forall k :: i < k < m ==> !tr[k].Tentou?
    decreases j - i
  {
    if tr[i + 1].Tentou? {
      m := i + 1;
    } else {
      m := NextAttempt(tr, i + 1, j);
    }
  }

  /** After a failed connection nothing is tried again before a click. */
  lemma FailureNeedsClick(prazos: seq<nat>, tr: seq<Passo>, i: nat, j: nat)
    requires prazos != [] && Legal(prazos, tr)
    requires i < j < |tr| && tr[j].Tentou? && tr[i].Tentou? && tr[i].fim == FimFalhou
    ensures exists k :: i < k < j && tr[k] == Religou
  {
    ClickNeeded(prazos, tr, i, j);
  }

  /** Nor after the automatic switch was found off. */
  lemma SwitchedOffNeedsClick(prazos: seq<nat>, tr: seq<Passo>, i: nat, j: nat)
    requires prazos != [] && Legal(prazos, tr)
    requires i < j < |tr| && tr[j].Tentou? && tr[i] == LeuAuto(false)
    ensures exists k :: i < k < j && tr[k] == Religou
  {
    ClickNeeded(prazos, tr, i, j);
  }

  lemma ClickNeeded(prazos: seq<nat>, tr: seq<Passo>, i: nat, j: nat)
    requires prazos != [] && Legal(prazos, tr)
    requires i < j < |tr| && tr[j].Tentou? && TravaDe(tr[..i + 1]) == PorClique
    ensures exists k :: i < k < j && tr[k] == Religou
  {
    var m := NextAttempt(tr, i, j);
    LegalAt(prazos, tr, m);
    if forall k :: i < k < m ==> tr[k] != Religou {
      LockHolds(tr, i, m);
    }
  }

  /** After a session that fell the next attempt waits for a click or for a
      timed wait to run out. */
  lemma FallWaits(prazos: seq<nat>, tr: seq<Passo>, i: nat, j: nat)
    requires prazos != [] && Legal(prazos, tr)
    requires i < j < |tr| && tr[j].Tentou? && tr[i].Tentou? && tr[i].fim == FimCaiu
    ensures exists k :: i < k < j && (tr[k] == Religou || tr[k] == Passou)
  {
    assert tr[..i + 1][i] == tr[i];
    var m := NextAttempt(tr, i, j);
    LegalAt(prazos, tr, m);
    if forall k :: i < k < m ==> tr[k] != Religou && tr[k] != Passou {
      LockHolds(tr, i, m);
    }
  }

  /** A timed wait starts right after the switch was read as on, after a fall,
      and only then: a fall with the switch on is always waited out. */
  lemma WaitsOnlyWhenOn(prazos: seq<nat>, tr: seq<Passo>, k: nat)
    requires prazos != [] && Legal(prazos, tr) && 0 < k < |tr|
    ensures tr[k].Esperou? <==> tr[k - 1] == LeuAuto(true)
    ensures tr[k].Esperou? ==> k > 1 && tr[k - 2].Tentou? && tr[k - 2].fim == FimCaiu
  {
    LegalAt(prazos, tr, k);
    if tr[k].Esperou? {
      LegalAt(prazos, tr, k - 1);
    }
  }

  function Waits(tr: seq<Passo>): nat {
    if tr == [] then 0 else Waits(tr[..|tr| - 1]) + if tr[|tr| - 1].Esperou? then 1 else 0
  }

  lemma {:induction false} WaitsSince(tr: seq<Passo>, r: nat, k: nat)
    requires r <= k <= |tr| && (r > 0 ==> Zera(tr[r - 1]))
    requires forall i :: r <= i < k ==> !Zera(tr[i])
    ensures Automaticas(tr[..k]) == Waits(tr[r..k])
    decreases k
  {
    if k > r {
      WaitsSince(tr, r, k - 1);
      assert tr[..k][..k - 1] == tr[..k - 1] && tr[r..k][..k - r - 1] == tr[r..k - 1];
    }
  }

  /** The i-th automatic wait since the last click took effect is the i-th of the
      schedule, and the last of it from there on. */
  lemma ScheduleFollowed(prazos: seq<nat>, tr: seq<Passo>, r: nat, k: nat)
    requires prazos != [] && Legal(prazos, tr)
    requires r <= k < |tr| && tr[k].Esperou? && (r > 0 ==> Zera(tr[r - 1]))
    requires forall i :: r <= i < k ==> !Zera(tr[i])
    ensures tr[k].prazo == prazos[Min(Waits(tr[r..k]), |prazos| - 1)]
  {
    LegalAt(prazos, tr, k);
    WaitsSince(tr, r, k);
  }

  /** A step that ends the loop is the last of its trace. */
  lemma NothingAfterStop(prazos: seq<nat>, tr: seq<Passo>, i: nat)
    requires prazos != [] && Legal(prazos, tr) && i + 1 < |tr|
    ensures !Encerra(tr[i])
  {
    LegalAt(prazos, tr, i + 1);
  }
}

/** servico and canal with their fields, one method per critical section, tied
    to the slot functions of ServiceSlot. */
module Service {
  import opened Wrappers
  import opened ServiceSlot

  /** A connection whose writes are serialized; log is what reached the socket. */
  class Canal {
    const id: nat
    var log: seq<Msg>
    var fechado: bool

    constructor (id: nat)
      ensures this.id == id && log == [] && !fechado
    {
      this.id := id;
      log, fechado := [], false;
    }

    method Enviar(m: Msg, falha: bool) returns (erro: bool)
      modifies this
      ensures erro == (falha || old(fechado)) && fechado == old(fechado)
      ensures log == if erro then old(log) else old(log) + [m]
    {
      if falha || fechado {
        return true;
      }
      log := log + [m];
      erro := false;
    }

    method Fechar()
      modifies this
      ensures fechado && log == old(log)
    {
      fechado := true;
    }
  }

  /** The channel whose closing says the app is ready. */
  class Aviso {
    const id: nat
    var fechado: bool

    constructor (id: nat)
      ensures this.id == id && !fechado
    {
      this.id := id;
      fechado := false;
    }
  }

  class Servico {
    var app: Canal?
    var appPronto: bool
    var appProntoCh: Aviso?
    var gatilho: string
    var gatilhoSabido: bool
    var vez: nat                    // how many triggers were stored, the rank of the stored one
    var chegouApp: bool             // channel of one place
    var avisos: nat                 // how many readiness channels were made
    ghost var canais: set<Canal>    // every connection accepted so far

    ghost predicate Valid()
      reads this, canais
    {
      (app != null ==> app in canais && appProntoCh != null)
      && (appPronto ==> app != null && Ok in app.log)
    }

    function Vaga(): Slot
      reads this
    {
      Slot(if app == null then None else Some(app.id), appPronto,
           if appProntoCh == null then None else Some(appProntoCh.id), gatilhoSabido, gatilho, vez)
    }

    constructor ()
      ensures Valid() && Vaga() == Slot(None, false, None, false, "", 0) && canais == {} && avisos == 0 && !chegouApp
    {
      app, appPronto, appProntoCh := null, false, null;
      vez, chegouApp := 0, false;
      gatilho, gatilhoSabido, avisos, canais := "", false, 0, {};
    }

    /** msgOlaApp takes the slot, or finds it taken. */
    method TomarVaga(k: Canal) returns (ocupado: bool)
      requires Valid() && k in canais
      modifies this
      ensures Valid() && canais == old(canais)
      ensures ocupado == (old(app) != null) && chegouApp == old(chegouApp)
      ensures Vaga() == Claim(old(Vaga()), k.id, old(avisos))
      ensures !ocupado ==> app == k && !appPronto && fresh(appProntoCh) && !appProntoCh.fechado
      ensures ocupado ==> app == old(app) && appPronto == old(appPronto) && appProntoCh == old(appProntoCh)
    {
      ocupado := app != null;
      if !ocupado {
        app, appPronto := k, false;
        appProntoCh := new Aviso(avisos);
        avisos := avisos + 1;
      }
    }

    /** The channel may now be pushed to; reads the trigger in the same section. */
    method MarcarPronto() returns (sabido: bool, tecla: string, qual: nat)
      requires Valid() && app != null && Ok in app.log
      modifies this
      ensures Valid() && canais == old(canais) && app == old(app) && appProntoCh == old(appProntoCh)
      ensures Vaga() == MarkReady(old(Vaga())) 
      ensures appPronto && gatilhoSabido == old(gatilhoSabido) && gatilho == old(gatilho) && vez == old(vez)
      ensures sabido == gatilhoSabido && tecla == gatilho && qual == vez && chegouApp == old(chegouApp)
    {
      appPronto := true;
      sabido, tecla, qual := gatilhoSabido, gatilho, vez;
    }

    /** The deferred cleanup of a conversation that held the slot. */
    method SoltarVaga(k: Canal)
      requires Valid() && (app != null && app.id == k.id ==> app == k)
      modifies this
      ensures Valid() && canais == old(canais) && Vaga() == Release(old(Vaga()), k.id)
      ensures old(app) != k ==> app == old(app) && appPronto == old(appPronto) && appProntoCh == old(appProntoCh)
      ensures old(app) == k ==> app == null && !appPronto && appProntoCh == null
    {
      if app == k {
        app, appPronto, appProntoCh := null, false, null;
      }
    }

    method GuardarTecla(tecla: string)
      requires Valid()
      modifies this
      ensures Valid() && canais == old(canais) && app == old(app) && appProntoCh == old(appProntoCh)
      ensures Vaga() == Store(old(Vaga()), tecla)
      ensures gatilhoSabido && gatilho == tecla && vez == old(vez) + 1
      ensures appPronto == old(appPronto) && chegouApp == old(chegouApp) && avisos == old(avisos)
    {
      gatilho, gatilhoSabido, vez := tecla, true, vez + 1;
    }

    /** The msgOlaApp branch of conversa: claim, answer, become ready, wake the
        waiting pushers, hand over the known trigger. False: the conversation ends. */
    method OlaApp(k: Canal, falhaResposta: bool, falhaCopia: bool) returns (segue: bool)
      requires Valid() && k in canais
      modifies this, k
      ensures Valid() && canais == old(canais)
      ensures old(app) != null ==>
                Vaga() == old(Vaga()) && segue == !(falhaResposta || old(k.fechado))
                && k.log == old(k.log) + (if segue then [Busy] else []) && chegouApp == old(chegouApp)
      ensures old(app) == null && (falhaResposta || old(k.fechado)) ==>
                !segue && k.log == old(k.log) && chegouApp == old(chegouApp)
                && Vaga() == Claim(old(Vaga()), k.id, old(avisos))
      ensures gatilhoSabido == old(gatilhoSabido) && gatilho == old(gatilho) && vez == old(vez)
      ensures old(app) == null && !falhaResposta && !old(k.fechado) ==>
                app == k && appPronto && Vaga() == MarkReady(Claim(old(Vaga()), k.id, old(avisos)))
                && appProntoCh.fechado && chegouApp
                && segue == !(old(gatilhoSabido) && falhaCopia)
                && k.log == old(k.log) + [Ok]
                            + (if old(gatilhoSabido) && segue then [Notice(old(gatilho), old(vez))] else [])
    {
      var ocupado := TomarVaga(k);
      if ocupado {
        var erro := k.Enviar(Busy, falhaResposta);
        return !erro;
      }
      var pronto := appProntoCh;
      var erro := k.Enviar(Ok, falhaResposta);
      if erro {
        return false;
      }
      assert k.log[|k.log| - 1] == Ok;
      var sabido, tecla, qual := MarcarPronto();
      pronto.fechado := true;
      if !chegouApp {
        chegouApp := true;
      }
      segue := true;
      if sabido {
        erro := k.Enviar(Notice(tecla, qual), falhaCopia);
        segue := !erro;
      }
    }

    /** What the other goroutines may do while this one waits: anything that keeps
        the slot consistent. outro and pronto are what they leave in the slot; they
        may write to outro's socket but leave it up or down. */
    method OutrosRodam(outro: Canal?, pronto: bool)
      requires Valid() && (outro != null && pronto ==> Ok in outro.log) && (pronto ==> outro != null)
      modifies this, canais, {outro}
      ensures Valid() && app == outro && appPronto == pronto
      ensures outro != null ==> outro.fechado == old(outro.fechado)
    {
      app, appPronto := outro, pronto;
      if outro != null {
        canais := canais + {outro};
        if appProntoCh == null {
          appProntoCh := new Aviso(avisos);
          avisos := avisos + 1;
        }
      }
    }

    /** mandarParaApp: waits through a handshake under way, looks again, and writes
        only to an app that is ready at that moment. What it delivers lands after
        that app's msgOK, and what can be delivered is. */
    method MandarParaApp(m: Msg, prazoEsgota: bool, outro: Canal?, pronto: bool, falha: bool)
      returns (enviado: bool)
      requires Valid() && m.Pushed()
      requires (outro != null && pronto ==> Ok in outro.log) && (pronto ==> outro != null)
      modifies this, canais, {outro}
      ensures Valid()
      ensures old(app == null || appPronto) || prazoEsgota ==>
                Vaga() == old(Vaga()) && app == old(app) && appPronto == old(appPronto)
                && appProntoCh == old(appProntoCh) && canais == old(canais) && chegouApp == old(chegouApp)
                && avisos == old(avisos)
      ensures old(app == null || appPronto) || prazoEsgota ==>
                forall c :: c in canais && c != app ==> c.log == old(c.log) && c.fechado == old(c.fechado)
      ensures old(app) == null ==> !enviado
      ensures old(app != null && appPronto) ==>
                enviado == !(falha || old(app.fechado)) && app.fechado == !enviado
                && app.log == old(app.log) + if enviado then [m] else []
      ensures old(app != null && !appPronto) && prazoEsgota ==> !enviado
      ensures old(app != null && !appPronto) && !prazoEsgota ==>
                app == outro && appPronto == pronto
                && (enviado <==> outro != null && pronto && !falha && !old(outro.fechado))
      ensures enviado ==> app != null && appPronto && |app.log| > 0 && app.log[|app.log| - 1] == m
                          && Ok in app.log[..|app.log| - 1]
    {
      var k, agora := app, appPronto;
      if k == null {
        return false;
      }
      if !agora {
        if prazoEsgota {
          return false;
        }
        OutrosRodam(outro, pronto);
        k, agora := app, appPronto;
        if k == null || !agora {
          return false;
        }
      }
      ghost var before := k.log;
      var erro := k.Enviar(m, falha);
      if erro {
        k.Fechar();
        return false;
      }
      assert k.log[..|k.log| - 1] == before;
      enviado := true;
    }

    /** guardarGatilho: stores the trigger and only then pushes it, so an app that
        takes the slot in between is told in its handshake. */
    method GuardarGatilho(tecla: string, prazoEsgota: bool, outro: Canal?, pronto: bool, falha: bool)
      returns (enviado: bool)
      requires Valid() && (outro != null && pronto ==> Ok in outro.log) && (pronto ==> outro != null)
      modifies this, canais, {outro}
      ensures Valid()
      ensures old(app == null || appPronto) || prazoEsgota ==>
                gatilhoSabido && gatilho == tecla && vez == old(vez) + 1
                && Vaga() == Store(old(Vaga()), tecla) && app == old(app) && canais == old(canais)
      ensures old(app == null || appPronto) || prazoEsgota ==>
                forall c :: c in canais && c != app ==> c.log == old(c.log) && c.fechado == old(c.fechado)
      ensures old(app) == null ==> !enviado
      ensures old(app != null && appPronto) ==>
                enviado == !(falha || old(app.fechado))
                && app.log == old(app.log) + if enviado then [Notice(tecla, vez)] else []
      ensures old(app != null && !appPronto) && !prazoEsgota ==>
                (enviado <==> outro != null && pronto && !falha && !old(outro.fechado))
      ensures enviado ==> app != null && appPronto && |app.log| > 0
                          && app.log[|app.log| - 1] == Notice(tecla, old(vez) + 1)
                          && Ok in app.log[..|app.log| - 1]
    {
      GuardarTecla(tecla);
      enviado := MandarParaApp(Notice(tecla, vez), prazoEsgota, outro, pronto, falha);
    }
  }

  /** A trigger registered before the window opens: the app that then introduces
      itself reads msgOK and the trigger, in that order. */
  method RegistradoAntes(s: Servico, k: Canal, tecla: string) returns (segue: bool)
    requires s.Valid() && s.app == null && k in s.canais && !k.fechado
    modifies s, s.canais, k
    ensures s.Valid() && segue && s.app == k && s.appPronto
    ensures k.log == old(k.log) + [Ok, Notice(tecla, s.vez)]
  {
    var enviado := s.GuardarGatilho(tecla, false, null, false, false);
    segue := s.OlaApp(k, false, false);
  }
}

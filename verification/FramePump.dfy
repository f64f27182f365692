/** bombaTela: the child's end of the pixel path with its fields and its reused
    buffer, tied to the steps of ScreenStream. */
module FramePump {
  import opened Wrappers
  import opened Damage
  import opened Screen
  import opened ScreenStream
  import opened PixelBytes

  class BombaTela {
    const dano: DanoTela
    var sujo: bool          // channel of one place
    var creditos: bool      // channel of one place
    var parada: bool        // channel parar is closed
    var saida: array<byte>

    constructor ()
      ensures dano.Caixa() == None && !sujo && !creditos && !parada
    {
      dano := new DanoTela();
      sujo, creditos, parada := false, false, false;
      saida := new byte[0];
    }

    method Sinalizar()
      modifies this
      ensures sujo && creditos == old(creditos) && parada == old(parada) && saida == old(saida)
    {
      if !sujo {
        sujo := true;
      }
    }

    method Creditar()
      modifies this
      ensures creditos && sujo == old(sujo) && parada == old(parada) && saida == old(saida)
    {
      if !creditos {
        creditos := true;
      }
    }

    method Encerrar()
      modifies this
      ensures parada && sujo == old(sujo) && creditos == old(creditos) && saida == old(saida)
    {
      parada := true;
    }

    /** The captured bytes as the screen they stand for, if there is one. */
    ghost function Shot(buf: array<byte>, fw: nat, fh: nat, stride: nat): (shot: Option<Image<Bgrx>>)
      requires buf.Length > 0 && 0 < fw && 0 < fh ==> Holds(buf.Length, stride, fw, fh)
      reads buf
      ensures shot.Some? ==> Formed(shot.value)
    {
      if buf.Length == 0 || fw == 0 || fh == 0 then None else Some(ImageOf(buf[..], stride, fw, fh))
    }

    /** enviarQuadro: take, capture (buf, fw, fh, stride), crop, send. The frame
        handed to the socket and the damage left behind are those of the steps
        TakeDamage, Capture and Finish; a failed write closes the pump. */
    method EnviarQuadro(buf: array<byte>, fw: nat, fh: nat, stride: nat, escritaFalha: bool)
      returns (enviado: bool, q: Rect, totalW: nat, totalH: nat)
      requires buf != saida && (buf.Length > 0 && 0 < fw && 0 < fh ==> Holds(buf.Length, stride, fw, fh))
      requires ProperBox(dano.Caixa())
      modifies this, dano, saida
      ensures sujo == old(sujo) && creditos == old(creditos)
      ensures saida == old(saida) || fresh(saida)
      ensures old(dano.Caixa()).None? ==> !enviado && dano.Caixa() == None
      ensures old(dano.Caixa()).Some? ==>
                var rect, shot := RectOf(old(dano.Caixa()).value), old(Shot(buf, fw, fh, stride));
                dano.Caixa() == DamageAfter(None, rect, shot)
                && enviado == FrameFor(rect, shot).Some?
                && (enviado ==>
                      0 <= q.w && 0 <= q.h && q.w * q.h * 4 <= saida.Length
                      && FrameFor(rect, shot).value == FrameOf(q, totalW, totalH, saida[..q.w * q.h * 4]))
      ensures parada == (old(parada) || (enviado && escritaFalha))
      ensures old(dano.Caixa()).Some? && (buf.Length == 0 || fw == 0 || fh == 0) ==>
                !enviado && dano.Caixa() == old(dano.Caixa())
      ensures old(dano.Caixa()).Some? && buf.Length > 0 && 0 < fw && 0 < fh ==>
                var b := old(dano.Caixa()).value;
                (enviado <==> Max(b.x0, 0) < Min(b.x1, fw) && Max(b.y0, 0) < Min(b.y1, fh))
                && (enviado ==>
                      q.x == Max(b.x0, 0) && q.y == Max(b.y0, 0) && q.x + q.w == Min(b.x1, fw)
                      && q.y + q.h == Min(b.y1, fh) && totalW == fw && totalH == fh && dano.Caixa() == None
                      && forall l, i :: 0 <= l < q.h && 0 <= i < q.w ==>
                           SwappedAt(saida[..], old(buf[..]), stride, q, l, i))
                && (!enviado ==> dano.Caixa() == Some(Box(0, 0, 0x10_0000, 0x10_0000)))
    {
      q, totalW, totalH := Rect(0, 0, 0, 0), fw, fh;
      var x, y, w, h, ok := dano.Tomar();
      if !ok {
        return false, q, fw, fh;
      }
      if buf.Length == 0 || fw <= 0 || fh <= 0 {
        dano.Juntar(x, y, w, h);
        return false, q, fw, fh;
      }
      var x0, y0 := Max(x, 0), Max(y, 0);
      var x1, y1 := Min(x + w, fw), Min(y + h, fh);
      if x1 <= x0 || y1 <= y0 {
        dano.Tudo();
        return false, q, fw, fh;
      }
      q := Rect(x0, y0, x1 - x0, y1 - y0);
      saida := RecortarBGRXparaRGBA(saida, buf, stride, fw, fh, q);
      if escritaFalha {
        parada := true;
      }
      enviado := true;
    }

    /** One turn of rodar with both channels ready: the credit is consumed when a
        frame went out and is back in its channel when none did. */
    method Volta(buf: array<byte>, fw: nat, fh: nat, stride: nat, escritaFalha: bool)
      returns (enviado: bool, q: Rect, totalW: nat, totalH: nat)
      requires buf != saida && (buf.Length > 0 && 0 < fw && 0 < fh ==> Holds(buf.Length, stride, fw, fh))
      requires ProperBox(dano.Caixa()) && sujo && creditos && !parada
      modifies this, dano, saida
      ensures !sujo && creditos == !enviado && parada == (enviado && escritaFalha)
      ensures enviado == (old(dano.Caixa()).Some? &&
                          FrameFor(RectOf(old(dano.Caixa()).value), old(Shot(buf, fw, fh, stride))).Some?)
      ensures old(dano.Caixa()).None? ==> dano.Caixa() == None
      ensures old(dano.Caixa()).Some? ==>
                dano.Caixa() == DamageAfter(None, RectOf(old(dano.Caixa()).value), old(Shot(buf, fw, fh, stride)))
      ensures enviado ==>
                dano.Caixa() == None && 0 <= q.w && 0 <= q.h && q.w * q.h * 4 <= saida.Length
                && FrameFor(RectOf(old(dano.Caixa()).value), old(Shot(buf, fw, fh, stride))).value
                   == FrameOf(q, totalW, totalH, saida[..q.w * q.h * 4])
    {
      creditos := false;
      sujo := false;
      enviado, q, totalW, totalH := EnviarQuadro(buf, fw, fh, stride, escritaFalha);
      if !enviado {
        Creditar();
      }
    }
  }

  /** What a turn sends, if anything. */
  ghost function SentBy(s: State): Option<Frame>
    requires TypeOk(s)
  {
    if s.damage.None? then None else FrameFor(RectOf(s.damage.value), s.fb)
  }

  /** A turn of the pump nobody interrupts is a run of the protocol: it ends with
      the signal used, the credit spent exactly if a frame went out, and the
      damage that Volta leaves, and touches nothing else. */
  lemma TurnIsSteps(s: State) returns (states: seq<State>, steps: seq<Step>)
    requires TypeOk(s) && s.pump.AwaitCredit? && s.credit && s.dirty
    ensures IsRun(states, steps) && states[0] == s
    ensures forall step :: step in steps ==> Internal(step)
    ensures var sent := SentBy(s);
            states[|steps|] ==
            s.(dirty := false, credit := sent.None?, pump := AwaitCredit,
               damage := if s.damage.None? then None else DamageAfter(None, RectOf(s.damage.value), s.fb),
               down := s.down + if sent.Some? then [FrameSent(sent.value)] else [])
  {
    states, steps := [s], [];
    states, steps := Then(states, steps, TakeCredit);
    states, steps := Then(states, steps, TakeDirty);
    states, steps := Then(states, steps, TakeDamage);
    if s.damage.Some? {
      states, steps := Then(states, steps, Capture);
      states, steps := Then(states, steps, Finish);
    }
    if SentBy(s).None? {
      states, steps := Then(states, steps, ReturnCredit);
    }
  }

  /** A run with one more of the protocol's own steps. */
  lemma Then(before: seq<State>, done: seq<Step>, step: Step) returns (states: seq<State>, steps: seq<Step>)
    requires IsRun(before, done) && Enabled(before[|done|], step) && Internal(step)
    requires forall x :: x in done ==> Internal(x)
    ensures IsRun(states, steps) && |steps| == |done| + 1 && states[0] == before[0]
    ensures states[|steps|] == Next(before[|done|], step)
    ensures forall x :: x in steps ==> Internal(x)
  {
    states, steps := before + [Next(before[|done|], step)], done + [step];
    forall i | 0 <= i < |steps|
      ensures Enabled(states[i], steps[i]) && states[i + 1] == Next(states[i], steps[i])
    {
      if i < |done| {
        assert states[i] == before[i] && states[i + 1] == before[i + 1] && steps[i] == done[i];
      }
    }
  }
}

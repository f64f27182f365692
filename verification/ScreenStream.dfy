/** The screen streaming protocol between the session's child process and the tab:
    library callbacks, the frame pump, the socket in both directions and the
    credit that goes round, as one state machine over interleaved steps. */
module ScreenStream {
  import opened Wrappers
  import opened Damage
  import opened Screen

  /** Where the pump goroutine stands in rodar/enviarQuadro. */
  datatype Pump =
    | AwaitCredit
    | AwaitDirty
    | BeforeTake
    | Taken(rect: Rect)
    | Captured(rect: Rect, shot: Option<Image<Bgrx>>)
    | Returning

  /** Messages from the child, in socket order. */
  datatype Event = Connected | FrameSent(frame: Frame)

  datatype State = State(
    fb: Option<Image<Bgrx>>,      // the library's framebuffer, if any
    unreported: seq<Rect>,        // changes whose callback has not reached the damage box
    unsignalled: nat,             // callbacks between growing the box and signalling
    damage: Option<Box>,
    dirty: bool,                  // channel sujo, one place
    credit: bool,                 // channel creditos, one place
    pump: Pump,
    down: seq<Event>,             // child to parent
    acum: Option<Image<Rgba>>,    // the parent's accumulated screen
    owed: nat,                    // grants the parent decided on and has not written yet
    grants: nat,                  // CmdCredito on the socket
    connected: bool)

  datatype Step =
    | Paint(rect: Rect, after: Image<Bgrx>)
    | Resize(size: Option<Image<Bgrx>>)
    | Connect
    | Report(i: nat)
    | Signal
    | TakeCredit
    | TakeDirty
    | TakeDamage
    | Capture
    | Finish
    | ReturnCredit
    | Deliver
    | Grant
    | CreditArrives

  ghost predicate ScreenOk(fb: Option<Image<Bgrx>>) {
    fb.Some? ==> Formed(fb.value) && fb.value.w <= WHOLE_SIDE && fb.value.h <= WHOLE_SIDE
  }

  /** Two framebuffers of one size that agree outside rect. */
  ghost predicate AgreeOutside(a: Image<Bgrx>, b: Image<Bgrx>, rect: Rect)
    requires Formed(a) && Formed(b)
  {
    a.w == b.w && a.h == b.h
    && forall x, y :: Inside(a, x, y) && !rect.Has(x, y) ==> At(a, x, y) == At(b, x, y)
  }

  ghost predicate Enabled(s: State, step: Step) {
    match step
    case Paint(rect, after) =>
      s.fb.Some? && ScreenOk(s.fb) && Formed(after) && AgreeOutside(s.fb.value, after, rect)
    case Resize(size) => ScreenOk(size)
    case Connect => !s.connected
    case Report(i) => i < |s.unreported|
    case Signal => 0 < s.unsignalled
    case TakeCredit => s.pump.AwaitCredit? && s.credit
    case TakeDirty => s.pump.AwaitDirty? && s.dirty
    case TakeDamage => s.pump.BeforeTake?
    case Capture => s.pump.Taken?
    case Finish => s.pump.Captured? && ScreenOk(s.pump.shot)
    case ReturnCredit => s.pump.Returning?
    case Deliver => |s.down| > 0 && ParentOk(s)
    case Grant => 0 < s.owed
    case CreditArrives => 0 < s.grants
  }

  ghost predicate ParentOk(s: State) {
    (s.acum.Some? ==> Formed(s.acum.value))
    && forall i :: 0 <= i < |s.down| && s.down[i].FrameSent? ==> FrameFormed(s.down[i].frame)
  }

  /** The frame the pump sends for a taken rectangle and a captured screen, if any. */
  ghost function FrameFor(rect: Rect, shot: Option<Image<Bgrx>>): (f: Option<Frame>)
    requires shot.Some? ==> Formed(shot.value)
    ensures f.Some? ==> FrameFormed(f.value)
  {
    if shot.None? then None
    else
      var c := Clip(rect, shot.value.w, shot.value.h);
      if c.Proper() then Some(CropFrame(shot.value, c)) else None
  }

  /** The damage box after the pump is done with a taken rectangle: it goes back
      when there was no screen, and everything goes back when it fell outside. */
  ghost function DamageAfter(damage: Option<Box>, rect: Rect, shot: Option<Image<Bgrx>>): Option<Box>
    requires shot.Some? ==> Formed(shot.value)
  {
    if shot.None? then Join(damage, rect)
    else if FrameFor(rect, shot).None? then Join(damage, WHOLE)
    else damage
  }

  ghost function Next(s: State, step: Step): State
    requires Enabled(s, step)
  {
    match step
    case Paint(rect, after) => s.(fb := Some(after), unreported := s.unreported + [rect])
    case Resize(size) => s.(fb := size, unreported := s.unreported + [WHOLE])
    case Connect => s.(connected := true, down := s.down + [Connected], unreported := s.unreported + [WHOLE])
    case Report(i) =>
      s.(damage := Join(s.damage, s.unreported[i]),
         unreported := s.unreported[..i] + s.unreported[i + 1..], unsignalled := s.unsignalled + 1)
    case Signal => s.(dirty := true, unsignalled := s.unsignalled - 1)
    case TakeCredit => s.(credit := false, pump := AwaitDirty)
    case TakeDirty => s.(dirty := false, pump := BeforeTake)
    case TakeDamage =>
      if s.damage.None? then s.(pump := Returning)
      else s.(damage := None, pump := Taken(RectOf(s.damage.value)))
    case Capture => s.(pump := Captured(s.pump.rect, s.fb))
    case Finish =>
      var frame := FrameFor(s.pump.rect, s.pump.shot);
      s.(damage := DamageAfter(s.damage, s.pump.rect, s.pump.shot),
         down := if frame.Some? then s.down + [FrameSent(frame.value)] else s.down,
         pump := if frame.Some? then AwaitCredit else Returning)
    case ReturnCredit => s.(credit := true, pump := AwaitCredit)
    case Deliver =>
      s.(acum := if s.down[0].FrameSent? then Paste(s.acum, s.down[0].frame) else s.acum,
         down := s.down[1..], owed := s.owed + 1)
    case Grant => s.(owed := s.owed - 1, grants := s.grants + 1)
    case CreditArrives => s.(grants := s.grants - 1, credit := true)
  }

  /** The parent's screen once everything on the socket has been pasted. */
  ghost function Settle(acum: Option<Image<Rgba>>, down: seq<Event>): (r: Option<Image<Rgba>>)
    requires acum.Some? ==> Formed(acum.value)
    requires forall i :: 0 <= i < |down| && down[i].FrameSent? ==> FrameFormed(down[i].frame)
    ensures r.Some? ==> Formed(r.value)
    decreases |down|
  {
    if down == [] then acum
    else Settle(if down[0].FrameSent? then Paste(acum, down[0].frame) else acum, down[1..])
  }

  lemma {:induction false} SettleAppend(acum: Option<Image<Rgba>>, down: seq<Event>, e: Event)
    requires acum.Some? ==> Formed(acum.value)
    requires forall i :: 0 <= i < |down| && down[i].FrameSent? ==> FrameFormed(down[i].frame)
    requires e.FrameSent? ==> FrameFormed(e.frame)
    ensures var before := Settle(acum, down);
            Settle(acum, down + [e]) == if e.FrameSent? then Paste(before, e.frame) else before
    decreases |down|
  {
    if down == [] {
      assert (down + [e])[1..] == [];
    } else {
      assert (down + [e])[1..] == down[1..] + [e];
      SettleAppend(if down[0].FrameSent? then Paste(acum, down[0].frame) else acum, down[1..], e);
    }
  }

  // ------------------------------------------------------------ the invariant

  ghost predicate Holding(p: Pump) {
    p.AwaitDirty? || p.BeforeTake? || p.Taken? || p.Captured? || p.Returning?
  }

  /** Every place a credit token can be. */
  ghost function Tokens(s: State): nat {
    s.owed + s.grants + |s.down| + (if s.credit then 1 else 0) + (if Holding(s.pump) then 1 else 0)
  }

  ghost predicate TypeOk(s: State) {
    ScreenOk(s.fb) && ParentOk(s) && ProperBox(s.damage)
    && (s.pump.Taken? || s.pump.Captured? ==> s.pump.rect.Proper())
    && (s.pump.Captured? ==> ScreenOk(s.pump.shot))
  }

  ghost predicate Pending(s: State, x: int, y: int) {
    exists i :: 0 <= i < |s.unreported| && s.unreported[i].Has(x, y)
  }

  ghost predicate InHand(s: State, x: int, y: int) {
    (s.pump.Taken? || s.pump.Captured?) && s.pump.rect.Has(x, y)
  }

  ghost predicate Stale(s: State, x: int, y: int)
    requires TypeOk(s) && s.fb.Some? && Inside(s.fb.value, x, y)
  {
    StaleAt(Settle(s.acum, s.down), s.fb.value, x, y)
  }

  /** A wakeup is on its way: queued, about to be queued, or due from a callback. */
  ghost predicate Awake(s: State) {
    s.dirty || 0 < s.unsignalled || 0 < |s.unreported|
  }

  /** The pump's snapshot shows another colour or another size at this pixel. */
  ghost predicate ShotDiffers(shot: Option<Image<Bgrx>>, fb: Image<Bgrx>, x: int, y: int)
    requires ScreenOk(shot) && Formed(fb) && Inside(fb, x, y)
  {
    shot.None? || shot.value.w != fb.w || shot.value.h != fb.h || At(shot.value, x, y) != At(fb, x, y)
  }

  /** Pixel coherence: whatever the parent does not show is still accounted for. */
  ghost predicate Coherent(s: State)
    requires TypeOk(s)
  {
    s.fb.Some? ==> forall x, y :: Inside(s.fb.value, x, y) && Stale(s, x, y) ==>
                     Covers(s.damage, x, y) || InHand(s, x, y) || Pending(s, x, y)
  }

  /** No lost wakeup: with no wakeup under way, stale pixels are in the pump's own hand. */
  ghost predicate Wakeful(s: State)
    requires TypeOk(s)
  {
    s.fb.Some? && !Awake(s) && !s.pump.BeforeTake? ==>
      forall x, y :: Inside(s.fb.value, x, y) && Stale(s, x, y) ==> InHand(s, x, y)
  }

  /** What changed since the snapshot was taken is damage again, and signalled. */
  ghost predicate ShotAccounted(s: State)
    requires TypeOk(s)
  {
    s.pump.Captured? && s.fb.Some? ==>
      forall x, y :: Inside(s.fb.value, x, y) && ShotDiffers(s.pump.shot, s.fb.value, x, y) ==>
        Awake(s) && (Covers(s.damage, x, y) || Pending(s, x, y))
  }

  ghost predicate OneToken(s: State) {
    Tokens(s) == if s.connected then 1 else 0
  }

  ghost predicate Inv(s: State) {
    TypeOk(s) && Coherent(s) && Wakeful(s) && ShotAccounted(s) && OneToken(s)
  }

  ghost predicate Init(s: State) {
    s == State(None, [], 0, None, false, false, AwaitCredit, [], None, 0, 0, false)
  }

  // --------------------------------------------------- every step keeps it

  /** Adding a change to the ones waiting for their callback loses none of them. */
  lemma PendingGrows(s: State, t: State, rect: Rect, x: int, y: int)
    requires t.unreported == s.unreported + [rect]
    ensures Pending(s, x, y) || rect.Has(x, y) ==> Pending(t, x, y)
  {
    if rect.Has(x, y) {
      assert t.unreported[|s.unreported|].Has(x, y);
    } else if Pending(s, x, y) {
      var i :| 0 <= i < |s.unreported| && s.unreported[i].Has(x, y);
      assert t.unreported[i].Has(x, y);
    }
  }

  lemma KeepsPaint(s: State, rect: Rect, after: Image<Bgrx>)
    requires Inv(s) && Enabled(s, Paint(rect, after))
    ensures Inv(Next(s, Paint(rect, after)))
  {
    var t := Next(s, Paint(rect, after));
    forall x, y | Inside(after, x, y)
      ensures rect.Has(x, y) || At(s.fb.value, x, y) == At(after, x, y)
      ensures Pending(s, x, y) || rect.Has(x, y) ==> Pending(t, x, y)
    {
      PendingGrows(s, t, rect, x, y);
    }
  }

  lemma KeepsResize(s: State, size: Option<Image<Bgrx>>)
    requires Inv(s) && Enabled(s, Resize(size))
    ensures Inv(Next(s, Resize(size)))
  {
    var t := Next(s, Resize(size));
    if size.Some? {
      forall x, y | Inside(size.value, x, y)
        ensures Pending(t, x, y)
      {
        PendingGrows(s, t, WHOLE, x, y);
      }
    }
  }

  lemma KeepsConnect(s: State)
    requires Inv(s) && Enabled(s, Connect)
    ensures Inv(Next(s, Connect))
  {
    var t := Next(s, Connect);
    SettleAppend(s.acum, s.down, Connected);
    if s.fb.Some? {
      forall x, y | Inside(s.fb.value, x, y)
        ensures Pending(t, x, y)
      {
        PendingGrows(s, t, WHOLE, x, y);
      }
    }
  }

  lemma KeepsReport(s: State, i: nat)
    requires Inv(s) && Enabled(s, Report(i))
    ensures Inv(Next(s, Report(i)))
  {
    var t := Next(s, Report(i));
    forall x, y | Covers(s.damage, x, y) || Pending(s, x, y)
      ensures Covers(t.damage, x, y) || Pending(t, x, y)
    {
      if Pending(s, x, y) && !s.unreported[i].Has(x, y) {
        var k :| 0 <= k < |s.unreported| && s.unreported[k].Has(x, y);
        assert t.unreported[if k < i then k else k - 1] == s.unreported[k];
      }
    }
  }

  lemma KeepsTakeDamage(s: State)
    requires Inv(s) && Enabled(s, TakeDamage)
    ensures Inv(Next(s, TakeDamage))
  {
    var t := Next(s, TakeDamage);
    forall x, y | Covers(s.damage, x, y)
      ensures InHand(t, x, y)
    {
    }
    if s.fb.Some? && !Awake(s) {
      forall x, y | Inside(s.fb.value, x, y) && Stale(s, x, y)
        ensures Covers(s.damage, x, y)
      {
        assert !Pending(s, x, y);
      }
    }
  }

  lemma KeepsCapture(s: State)
    requires Inv(s) && Enabled(s, Capture)
    ensures Inv(Next(s, Capture))
  {
  }

  /** Sending: what the frame does not fix was not in the pump's hand alone. */
  lemma KeepsSend(s: State)
    requires Inv(s) && Enabled(s, Finish) && FrameFor(s.pump.rect, s.pump.shot).Some?
    ensures Inv(Next(s, Finish))
  {
    var t := Next(s, Finish);
    var frame := FrameFor(s.pump.rect, s.pump.shot).value;
    var shot := s.pump.shot.value;
    var before := Settle(s.acum, s.down);
    SettleAppend(s.acum, s.down, FrameSent(frame));
    if s.fb.Some? {
      var fb := s.fb.value;
      forall x, y | Inside(fb, x, y) && Stale(t, x, y)
        ensures Awake(s) && (Covers(s.damage, x, y) || Pending(s, x, y))
      {
        if !ShotDiffers(s.pump.shot, fb, x, y) {
          CropThenPaste(before, shot, frame.area, x, y);
          assert !frame.area.Has(x, y);
          assert !s.pump.rect.Has(x, y);
          assert Stale(s, x, y);
        }
      }
      forall x, y | Pending(s, x, y)
        ensures Pending(t, x, y)
      {
      }
    }
  }

  /** Nothing to send: the taken rectangle goes back, and no wakeup is needed for it. */
  lemma KeepsPutBack(s: State)
    requires Inv(s) && Enabled(s, Finish) && FrameFor(s.pump.rect, s.pump.shot).None?
    ensures Inv(Next(s, Finish))
  {
    var t := Next(s, Finish);
    if s.fb.Some? {
      var fb := s.fb.value;
      forall x, y | Inside(fb, x, y) && Stale(s, x, y)
        ensures Awake(s)
        ensures Covers(t.damage, x, y) || Pending(t, x, y)
      {
        if !ShotDiffers(s.pump.shot, fb, x, y) {
          var c := Clip(s.pump.rect, fb.w, fb.h);
          assert !c.Has(x, y);
          assert !InHand(s, x, y);
        }
        assert Pending(s, x, y) ==> Pending(t, x, y);
      }
    }
  }

  lemma KeepsDeliver(s: State)
    requires Inv(s) && Enabled(s, Deliver)
    ensures Inv(Next(s, Deliver))
  {
    var t := Next(s, Deliver);
    assert Settle(s.acum, s.down) == Settle(t.acum, t.down);
  }

  /** The invariant survives every step of the protocol. */
  lemma StepKeeps(s: State, step: Step)
    requires Inv(s) && Enabled(s, step)
    ensures Inv(Next(s, step))
  {
    match step
    case Paint(rect, after) => KeepsPaint(s, rect, after);
    case Resize(size) => KeepsResize(s, size);
    case Connect => KeepsConnect(s);
    case Report(i) => KeepsReport(s, i);
    case TakeDamage => KeepsTakeDamage(s);
    case Capture => KeepsCapture(s);
    case Finish =>
      if FrameFor(s.pump.rect, s.pump.shot).Some? {
        KeepsSend(s);
      } else {
        KeepsPutBack(s);
      }
    case Deliver => KeepsDeliver(s);
    case Signal =>
    case TakeCredit =>
    case TakeDirty =>
    case ReturnCredit =>
    case Grant =>
    case CreditArrives =>
  }

  // -------------------------------------------------------------- whole runs

  /** A run: states joined by enabled steps. */
  ghost predicate IsRun(states: seq<State>, steps: seq<Step>) {
    |states| == |steps| + 1
    && forall i :: 0 <= i < |steps| ==> Enabled(states[i], steps[i]) && states[i + 1] == Next(states[i], steps[i])
  }

  lemma {:induction false} RunKeeps(states: seq<State>, steps: seq<Step>, i: nat)
    requires IsRun(states, steps) && Inv(states[0]) && i < |states|
    ensures Inv(states[i])
  {
    if i > 0 {
      RunKeeps(states, steps, i - 1);
      StepKeeps(states[i - 1], steps[i - 1]);
    }
  }

  ghost predicate Reachable(s: State) {
    exists states: seq<State>, steps: seq<Step> :: IsRun(states, steps) && Init(states[0]) && states[|steps|] == s
  }

  lemma ReachableKeeps(s: State)
    requires Reachable(s)
    ensures Inv(s)
  {
    var states: seq<State>, steps: seq<Step> :| IsRun(states, steps) && Init(states[0]) && states[|steps|] == s;
    RunKeeps(states, steps, |steps|);
  }

  /** The whole framebuffer converted, which is what the parent should show. */
  ghost function ConvertAll(fb: Image<Bgrx>): Image<Rgba>
    requires Formed(fb)
  {
    Image(fb.w, fb.h, seq(fb.h, y requires 0 <= y < fb.h =>
      seq(fb.w, x requires 0 <= x < fb.w => Convert(fb.rows[y][x]))))
  }

  /** No stale pixel means the very same image, size included. */
  lemma NothingStale(shown: Option<Image<Rgba>>, fb: Image<Bgrx>)
    requires (shown.Some? ==> Formed(shown.value)) && Formed(fb)
    ensures (forall x, y :: Inside(fb, x, y) ==> !StaleAt(shown, fb, x, y)) <==> shown == Some(ConvertAll(fb))
  {
    var all := ConvertAll(fb);
    if forall x, y :: Inside(fb, x, y) ==> !StaleAt(shown, fb, x, y) {
      assert Inside(fb, 0, 0);
      forall y | 0 <= y < fb.h
        ensures shown.value.rows[y] == all.rows[y]
      {
        forall x | 0 <= x < fb.w
          ensures shown.value.rows[y][x] == all.rows[y][x]
        {
          assert Inside(fb, x, y) && !StaleAt(shown, fb, x, y);
        }
      }
      assert shown.value.rows == all.rows;
    } else {
      var x, y :| Inside(fb, x, y) && StaleAt(shown, fb, x, y);
      assert Formed(all) && At(all, x, y) == Convert(At(fb, x, y));
    }
  }

  /** In every interleaving, a pixel (or a size) the parent will not show after
      pasting what is in flight lies in the damage box, in the rectangle the pump
      holds, or in a change whose callback has not run; with none of those the
      two screens are equal. */
  lemma PixelCoherence(s: State)
    requires Reachable(s) && s.fb.Some?
    ensures TypeOk(s)
    ensures forall x, y :: Inside(s.fb.value, x, y) && Stale(s, x, y) ==>
              Covers(s.damage, x, y) || InHand(s, x, y) || Pending(s, x, y)
    ensures s.damage.None? && !s.pump.Taken? && !s.pump.Captured? && s.unreported == [] ==>
              Settle(s.acum, s.down) == Some(ConvertAll(s.fb.value))
  {
    ReachableKeeps(s);
    NothingStale(Settle(s.acum, s.down), s.fb.value);
  }

  /** A pump asleep for want of a signal, with every callback finished, sleeps
      over a screen that is entirely delivered or on its way: the two branches
      that put damage back without signalling lose nothing. */
  lemma NoLostWakeup(s: State)
    requires Reachable(s) && s.fb.Some?
    requires s.pump.AwaitDirty? && !s.dirty && s.unsignalled == 0 && s.unreported == []
    ensures TypeOk(s) && Settle(s.acum, s.down) == Some(ConvertAll(s.fb.value))
  {
    ReachableKeeps(s);
    forall x, y | Inside(s.fb.value, x, y)
      ensures !StaleAt(Settle(s.acum, s.down), s.fb.value, x, y)
    {
      assert !InHand(s, x, y);
      assert !Stale(s, x, y);
    }
    NothingStale(Settle(s.acum, s.down), s.fb.value);
  }

  /** One credit goes round: once connected there is exactly one token, so at most
      one frame is in flight and neither use of creditar finds its channel full. */
  lemma CreditConserved(s: State)
    requires Reachable(s)
    ensures s.connected ==> Tokens(s) == 1
    ensures |s.down| <= 1
    ensures Enabled(s, CreditArrives) || Enabled(s, ReturnCredit) ==> !s.credit
  {
    ReachableKeeps(s);
  }

  // -------------------------------------------------------------- convergence

  /** The protocol's own steps: everything but a change of the remote screen and the connection itself. */
  ghost predicate Internal(step: Step) {
    !step.Paint? && !step.Resize? && !step.Connect?
  }

  ghost predicate Quiet(s: State) {
    forall step: Step :: Internal(step) ==> !Enabled(s, step)
  }

  ghost function PumpRank(p: Pump): nat {
    match p
    case AwaitCredit => 0
    case AwaitDirty => 1
    case BeforeTake => 12
    case Taken(_) => 11
    case Captured(_, _) => 10
    case Returning => 3
  }

  /** How far the protocol is from rest. */
  ghost function Work(s: State): nat {
    100 * |s.unreported| + 50 * s.unsignalled + (if s.dirty then 25 else 0)
    + 5 * |s.down| + 4 * s.owed + 3 * s.grants + (if s.credit then 2 else 0) + PumpRank(s.pump)
  }

  lemma InternalShrinks(s: State, step: Step)
    requires Internal(step) && Enabled(s, step)
    ensures Work(Next(s, step)) < Work(s)
    ensures Next(s, step).fb == s.fb && Next(s, step).connected == s.connected
  {
    match step
    case Report(i) => assert |Next(s, step).unreported| == |s.unreported| - 1;
    case Deliver => assert |Next(s, step).down| == |s.down| - 1;
    case Finish =>
    case TakeDamage =>
    case Capture =>
    case Signal =>
    case TakeCredit =>
    case TakeDirty =>
    case ReturnCredit =>
    case Grant =>
    case CreditArrives =>
  }

  /** At rest the credit can only be with a pump waiting for damage, and the parent's screen is the framebuffer. */
  lemma QuietShows(s: State)
    requires Inv(s) && s.connected && s.fb.Some? && Quiet(s)
    ensures s.pump.AwaitDirty? && s.acum == Some(ConvertAll(s.fb.value))
  {
    assert !Enabled(s, Report(0)) && !Enabled(s, Signal) && !Enabled(s, TakeCredit) && !Enabled(s, TakeDirty);
    assert !Enabled(s, TakeDamage) && !Enabled(s, Capture) && !Enabled(s, Finish) && !Enabled(s, ReturnCredit);
    assert !Enabled(s, Deliver) && !Enabled(s, Grant) && !Enabled(s, CreditArrives);
    forall x, y | Inside(s.fb.value, x, y)
      ensures !StaleAt(s.acum, s.fb.value, x, y)
    {
      assert !InHand(s, x, y);
      assert !Stale(s, x, y);
    }
    NothingStale(s.acum, s.fb.value);
  }

  /** Once the remote screen holds still, any way of finishing the protocol's own
      steps is finite and leaves the parent showing exactly the remote screen. */
  lemma {:induction false} Converges(states: seq<State>, steps: seq<Step>)
    requires IsRun(states, steps) && Reachable(states[0])
    requires states[0].connected && states[0].fb.Some?
    requires forall i :: 0 <= i < |steps| ==> Internal(steps[i])
    ensures |steps| + Work(states[|steps|]) <= Work(states[0])
    ensures ScreenOk(states[0].fb) && states[|steps|].fb == states[0].fb && states[|steps|].connected
    ensures Quiet(states[|steps|]) ==> states[|steps|].acum == Some(ConvertAll(states[0].fb.value))
  {
    ReachableKeeps(states[0]);
    RunKeeps(states, steps, |steps|);
    RunShrinks(states, steps, |steps|);
    if Quiet(states[|steps|]) {
      QuietShows(states[|steps|]);
    }
  }

  lemma {:induction false} RunShrinks(states: seq<State>, steps: seq<Step>, n: nat)
    requires IsRun(states, steps) && n <= |steps|
    requires forall i :: 0 <= i < n ==> Internal(steps[i])
    ensures n + Work(states[n]) <= Work(states[0])
    ensures states[n].fb == states[0].fb && states[n].connected == states[0].connected
  {
    if n > 0 {
      RunShrinks(states, steps, n - 1);
      InternalShrinks(states[n - 1], steps[n - 1]);
    }
  }

  /** And there is always such a way: the protocol never gets stuck short of rest. */
  lemma {:induction false} RestIsReached(s: State) returns (states: seq<State>, steps: seq<Step>)
    ensures IsRun(states, steps) && states[0] == s && Quiet(states[|steps|])
    ensures forall i :: 0 <= i < |steps| ==> Internal(steps[i])
    decreases Work(s)
  {
    if Quiet(s) {
      states, steps := [s], [];
    } else {
      var step: Step :| Internal(step) && Enabled(s, step);
      InternalShrinks(s, step);
      var rest, more := RestIsReached(Next(s, step));
      states, steps := [s] + rest, [step] + more;
    }
  }
}

/** The service and its one app: many conversations over a socket, one slot for
    the big window, and pushers that may wait through a handshake
    (cmd/acessos/servico_linux.go, cmd/acessos/instancia_linux.go). */
module ServiceSlot {
  import opened Wrappers

  type Id = nat

  /** What the service writes on a connection. Ok, Pong and Busy answer a request;
      the rest is pushed. A notice carries here, besides the trigger, the rank of
      the call that stored it, so that two equal triggers are told apart. */
  datatype Msg = Pong | Ok | Busy | Open(what: nat) | Notice(tecla: string, vez: nat) {
    predicate Pushed() {
      Open? || Notice?
    }
  }

  /** What a connection asks that gets an answer. */
  datatype Request = Ping | Hello

  predicate Answers(q: Request, m: Msg) {
    match q
    case Ping => m == Pong
    case Hello => m == Ok || m == Busy
  }

  // -------------------------------------------------------------- the slot

  /** The fields of servico under its mutex. */
  datatype Slot = Slot(app: Option<Id>, pronto: bool, ch: Option<Id>, sabido: bool, gatilho: string, vez: nat)

  function Claim(s: Slot, k: Id, ch: Id): Slot {
    if s.app.Some? then s else s.(app := Some(k), pronto := false, ch := Some(ch))
  }

  function MarkReady(s: Slot): Slot {
    s.(pronto := true)
  }

  function Release(s: Slot, k: Id): Slot {
    if s.app == Some(k) then s.(app := None, pronto := false, ch := None) else s
  }

  function Store(s: Slot, tecla: string): Slot {
    s.(sabido := true, gatilho := tecla, vez := s.vez + 1)
  }

  // ------------------------------------------------ conversations, pushers

  /** Where a conversation stands. */
  datatype Talk =
    | Reading
    | Ponging
    | Rejecting
    | Claimed(ch: Id)                                    // about to write msgOK
    | Announced(ch: Id)                                  // msgOK written, not ready yet
    | Opening(ch: Id, sabido: bool, tecla: string, vez: nat)   // ready; about to close the channel
    | Copying(sabido: bool, tecla: string, vez: nat)           // about to send the trigger it read
    | Leaving
    | Gone

  datatype Conn = Conn(talk: Talk, souOApp: bool, asked: seq<Request>, log: seq<Msg>, closed: bool)

  /** A run of mandarParaApp, or of guardarGatilho before it. */
  datatype Pusher =
    | Storing(tecla: string)
    | Start(m: Msg)
    | Waiting(m: Msg, ch: Id)
    | Recheck(m: Msg)
    | Writing(m: Msg, k: Id)
    | Finished(sent: bool)

  datatype State = State(slot: Slot, conns: seq<Conn>, pushers: seq<Pusher>, nextCh: Id, closedCh: set<Id>)

  datatype Step =
    | Accept
    | Ask(c: Id, q: Request)
    | Forward(what: nat)            // msgAbrir/msgAtivar read, or the search box pushing
    | Trigger(tecla: string)        // guardarGatilho called
    | Hangup(c: Id)                 // the read fails
    | Cut(c: Id)                    // the socket is closed, by either side
    | Reply(c: Id, sent: bool)
    | SetReady(c: Id)
    | CloseCh(c: Id)
    | Copy(c: Id, sent: bool)
    | Leave(c: Id)
    | Save(p: Id)
    | ReadSlot(p: Id)
    | Wake(p: Id)
    | Timeout(p: Id)
    | Reread(p: Id)
    | Write(p: Id, sent: bool)

  predicate Init(s: State) {
    s == State(Slot(None, false, None, false, "", 0), [], [], 0, {})
  }

  predicate Enabled(s: State, step: Step) {
    match step
    case Accept => true
    case Ask(c, _) => c < |s.conns| && s.conns[c].talk.Reading?
    case Forward(_) => true
    case Trigger(_) => true
    case Hangup(c) => c < |s.conns| && s.conns[c].talk.Reading?
    case Cut(c) => c < |s.conns|
    case Reply(c, sent) =>
      c < |s.conns| && (s.conns[c].talk.Ponging? || s.conns[c].talk.Rejecting? || s.conns[c].talk.Claimed?)
      && (sent ==> !s.conns[c].closed)
    case SetReady(c) => c < |s.conns| && s.conns[c].talk.Announced?
    case CloseCh(c) => c < |s.conns| && s.conns[c].talk.Opening?
    case Copy(c, sent) => c < |s.conns| && s.conns[c].talk.Copying? && (sent ==> !s.conns[c].closed)
    case Leave(c) => c < |s.conns| && s.conns[c].talk.Leaving?
    case Save(p) => p < |s.pushers| && s.pushers[p].Storing?
    case ReadSlot(p) => p < |s.pushers| && s.pushers[p].Start? && (s.slot.app.Some? ==> s.slot.ch.Some?)
    case Wake(p) => p < |s.pushers| && s.pushers[p].Waiting? && s.pushers[p].ch in s.closedCh
    case Timeout(p) => p < |s.pushers| && s.pushers[p].Waiting?
    case Reread(p) => p < |s.pushers| && s.pushers[p].Recheck?
    case Write(p, sent) =>
      p < |s.pushers| && s.pushers[p].Writing? && s.pushers[p].k < |s.conns|
      && (sent ==> !s.conns[s.pushers[p].k].closed)
  }

  function Talks(s: State, c: Id, talk: Talk): State
    requires c < |s.conns|
  {
    s.(conns := s.conns[c := s.conns[c].(talk := talk)])
  }

  function Says(s: State, c: Id, m: Msg, talk: Talk): State
    requires c < |s.conns|
  {
    s.(conns := s.conns[c := s.conns[c].(talk := talk, log := s.conns[c].log + [m])])
  }

  function Pushes(s: State, p: Id, next: Pusher): State
    requires p < |s.pushers|
  {
    s.(pushers := s.pushers[p := next])
  }

  function Next(s: State, step: Step): State
    requires Enabled(s, step)
  {
    match step
    case Accept => s.(conns := s.conns + [Conn(Reading, false, [], [], false)])
    case Ask(c, q) =>
      var conn := s.conns[c].(asked := s.conns[c].asked + [q]);
      (match q
       case Ping => s.(conns := s.conns[c := conn.(talk := Ponging)])
       case Hello =>
         if s.slot.app.Some? then s.(conns := s.conns[c := conn.(talk := Rejecting)])
         else s.(conns := s.conns[c := conn.(talk := Claimed(s.nextCh), souOApp := true)],
                 slot := Claim(s.slot, c, s.nextCh), nextCh := s.nextCh + 1))
    case Forward(what) => s.(pushers := s.pushers + [Start(Open(what))])
    case Trigger(tecla) => s.(pushers := s.pushers + [Storing(tecla)])
    case Hangup(c) => Talks(s, c, Leaving)
    case Cut(c) => s.(conns := s.conns[c := s.conns[c].(closed := true)])
    case Reply(c, sent) =>
      var talk := s.conns[c].talk;
      if !sent then Talks(s, c, Leaving)
      else if talk.Ponging? then Says(s, c, Pong, Reading)
      else if talk.Rejecting? then Says(s, c, Busy, Reading)
      else Says(s, c, Ok, Announced(talk.ch))
    case SetReady(c) =>
      Talks(s, c, Opening(s.conns[c].talk.ch, s.slot.sabido, s.slot.gatilho, s.slot.vez)).(slot := MarkReady(s.slot))
    case CloseCh(c) =>
      var talk := s.conns[c].talk;
      Talks(s, c, Copying(talk.sabido, talk.tecla, talk.vez)).(closedCh := s.closedCh + {talk.ch})
    case Copy(c, sent) =>
      var talk := s.conns[c].talk;
      if !talk.sabido then Talks(s, c, Reading)
      else if sent then Says(s, c, Notice(talk.tecla, talk.vez), Reading)
      else Talks(s, c, Leaving)
    case Leave(c) =>
      Talks(s, c, Gone).(slot := if s.conns[c].souOApp then Release(s.slot, c) else s.slot)
    case Save(p) =>
      Pushes(s, p, Start(Notice(s.pushers[p].tecla, s.slot.vez + 1))).(slot := Store(s.slot, s.pushers[p].tecla))
    case ReadSlot(p) =>
      var m := s.pushers[p].m;
      if s.slot.app.None? then Pushes(s, p, Finished(false))
      else if s.slot.pronto then Pushes(s, p, Writing(m, s.slot.app.value))
      else Pushes(s, p, Waiting(m, s.slot.ch.value))
    case Wake(p) => Pushes(s, p, Recheck(s.pushers[p].m))
    case Timeout(p) => Pushes(s, p, Finished(false))
    case Reread(p) =>
      if s.slot.app.None? || !s.slot.pronto then Pushes(s, p, Finished(false))
      else Pushes(s, p, Writing(s.pushers[p].m, s.slot.app.value))
    case Write(p, sent) =>
      var k := s.pushers[p].k;
      if sent then Pushes(Says(s, k, s.pushers[p].m, s.conns[k].talk), p, Finished(true))
      else Pushes(s.(conns := s.conns[k := s.conns[k].(closed := true)]), p, Finished(false))
  }

  // ------------------------------------------------------------ the invariant

  predicate PushesFollowOk(log: seq<Msg>) {
    forall i :: 0 <= i < |log| && log[i].Pushed() ==> Ok in log[..i]
  }

  /** Until the first Ok the log is the answers to the requests, one each, in order. */
  predicate InStep(conn: Conn) {
    forall i :: 0 <= i < |conn.log| && Ok !in conn.log[..i] ==>
      i < |conn.asked| && Answers(conn.asked[i], conn.log[i])
  }

  predicate ConnOk(conn: Conn) {
    PushesFollowOk(conn.log) && InStep(conn)
    && (Ok !in conn.log ==>
          match conn.talk
          case Reading => |conn.log| == |conn.asked|
          case Ponging => |conn.log| + 1 == |conn.asked| && conn.asked[|conn.log|] == Ping
          case Rejecting => |conn.log| + 1 == |conn.asked| && conn.asked[|conn.log|] == Hello
          case Claimed(_) => |conn.log| + 1 == |conn.asked| && conn.asked[|conn.log|] == Hello
          case Announced(_) => false
          case Opening(_, _, _, _) => false
          case Copying(_, _, _) => false
          case Leaving => true
          case Gone => true)
  }

  /** How a conversation and the slot agree. */
  predicate ConnFits(s: State, c: Id)
    requires c < |s.conns|
  {
    var conn := s.conns[c];
    (s.slot.app == Some(c) <==> conn.souOApp && !conn.talk.Gone?)
    && (conn.talk.Claimed? || conn.talk.Announced? ==> conn.souOApp && s.slot.ch == Some(conn.talk.ch)
                                                        && !s.slot.pronto && conn.talk.ch !in s.closedCh)
    && (conn.talk.Opening? ==> conn.souOApp && s.slot.ch == Some(conn.talk.ch)
                               && s.slot.pronto && conn.talk.ch !in s.closedCh)
    && (conn.talk.Copying? ==> conn.souOApp && s.slot.pronto)
    && (s.slot.app == Some(c) && s.slot.pronto ==> Ok in conn.log)
    && (s.slot.app == Some(c) && !s.slot.pronto ==> conn.talk.Claimed? || conn.talk.Announced? || conn.talk.Leaving?)
  }

  predicate SlotOk(s: State) {
    (s.slot.app.Some? ==> s.slot.app.value < |s.conns| && s.slot.ch.Some?)
    && (s.slot.ch.Some? ==> s.slot.ch.value < s.nextCh)
    && (s.slot.pronto ==> s.slot.app.Some?)
    && forall ch :: ch in s.closedCh ==> ch < s.nextCh
  }

  predicate PusherOk(s: State, p: Id)
    requires p < |s.pushers|
  {
    match s.pushers[p]
    case Storing(_) => true
    case Start(m) => m.Pushed()
    case Waiting(m, ch) => m.Pushed() && ch < s.nextCh
    case Recheck(m) => m.Pushed()
    case Writing(m, k) => m.Pushed() && k < |s.conns| && Ok in s.conns[k].log
    case Finished(_) => true
  }

  /** The trigger the service knows is on the app's log, or still on its way there. */
  predicate NoticeOnItsWay(s: State)
    requires SlotOk(s)
  {
    s.slot.sabido && s.slot.app.Some? && s.slot.pronto ==>
      var k := s.slot.app.value;
      var conn := s.conns[k];
      var m := Notice(s.slot.gatilho, s.slot.vez);
      m in conn.log || conn.closed || conn.talk.Leaving?
      || (conn.talk.Opening? && conn.talk.sabido && Notice(conn.talk.tecla, conn.talk.vez) == m)
      || (conn.talk.Copying? && conn.talk.sabido && Notice(conn.talk.tecla, conn.talk.vez) == m)
      || Start(m) in s.pushers || Writing(m, k) in s.pushers
  }

  predicate Inv(s: State) {
    SlotOk(s)
    && (forall c :: 0 <= c < |s.conns| ==> ConnOk(s.conns[c]))
    && (forall c :: 0 <= c < |s.conns| ==> ConnFits(s, c))
    && (forall p :: 0 <= p < |s.pushers| ==> PusherOk(s, p))
    && NoticeOnItsWay(s)
  }

  lemma LogGrows(conn: Conn, m: Msg, talk: Talk)
    requires PushesFollowOk(conn.log) && InStep(conn)
    requires m.Pushed() ==> Ok in conn.log
    requires Ok !in conn.log ==> |conn.log| < |conn.asked| && Answers(conn.asked[|conn.log|], m)
    ensures var next := conn.(talk := talk, log := conn.log + [m]);
            PushesFollowOk(next.log) && InStep(next) && m in next.log && forall x :: x in conn.log ==> x in next.log
  {
    var next := conn.(talk := talk, log := conn.log + [m]);
    forall i | 0 <= i < |next.log|
      ensures i < |conn.log| ==> next.log[..i] == conn.log[..i]
      ensures i == |conn.log| ==> next.log[..i] == conn.log
    {
    }
    assert next.log[|conn.log|] == m;
  }

  /** A pusher that is not touched is still there. */
  lemma StillThere(s: State, t: State, x: Pusher)
    requires |s.pushers| <= |t.pushers| && x in s.pushers
    requires forall i :: 0 <= i < |s.pushers| && s.pushers[i] == x ==> t.pushers[i] == x
    ensures x in t.pushers
  {
    var i :| 0 <= i < |s.pushers| && s.pushers[i] == x;
    assert t.pushers[i] == x;
  }

  lemma KeepsReply(s: State, c: Id, sent: bool)
    requires Inv(s) && Enabled(s, Reply(c, sent))
    ensures Inv(Next(s, Reply(c, sent)))
  {
    var t := Next(s, Reply(c, sent));
    var talk := s.conns[c].talk;
    assert ConnFits(s, c) && ConnOk(s.conns[c]);
    if sent {
      LogGrows(s.conns[c], if talk.Ponging? then Pong else if talk.Rejecting? then Busy else Ok, t.conns[c].talk);
    }
    Frame(s, t, c);
  }

  /** A step of conversation c that leaves the others, the pushers and the stored trigger alone. */
  lemma Frame(s: State, t: State, c: Id)
    requires Inv(s) && c < |s.conns| && |t.conns| == |s.conns| && t.pushers == s.pushers
    requires forall k :: 0 <= k < |s.conns| && k != c ==> t.conns[k] == s.conns[k]
    requires forall x :: x in s.conns[c].log ==> x in t.conns[c].log
    requires SlotOk(t) && ConnOk(t.conns[c]) && ConnFits(t, c)
    requires s.nextCh <= t.nextCh && s.closedCh <= t.closedCh
    requires s.slot.app == Some(c) || (s.slot == t.slot && s.closedCh == t.closedCh)
             || (s.slot.app.None? && t.slot.app == Some(c))
    requires t.slot.app == s.slot.app || t.slot.app.None? || t.slot.app == Some(c)
    requires NoticeOnItsWay(t)
    ensures Inv(t)
  {
    forall k | 0 <= k < |t.conns|
      ensures ConnOk(t.conns[k]) && ConnFits(t, k)
    {
      assert ConnOk(s.conns[k]) && ConnFits(s, k);
      assert ConnFits(s, c);
    }
    forall p | 0 <= p < |t.pushers|
      ensures PusherOk(t, p)
    {
      assert PusherOk(s, p);
    }
  }

  lemma KeepsAsk(s: State, c: Id, q: Request)
    requires Inv(s) && Enabled(s, Ask(c, q))
    ensures Inv(Next(s, Ask(c, q)))
  {
    assert ConnFits(s, c) && ConnOk(s.conns[c]);
    Frame(s, Next(s, Ask(c, q)), c);
  }

  lemma KeepsReady(s: State, c: Id)
    requires Inv(s) && Enabled(s, SetReady(c))
    ensures Inv(Next(s, SetReady(c)))
  {
    assert ConnFits(s, c) && ConnOk(s.conns[c]);
    Frame(s, Next(s, SetReady(c)), c);
  }

  lemma KeepsOpening(s: State, c: Id)
    requires Inv(s) && Enabled(s, CloseCh(c))
    ensures Inv(Next(s, CloseCh(c)))
  {
    assert ConnFits(s, c) && ConnOk(s.conns[c]);
    Frame(s, Next(s, CloseCh(c)), c);
  }

  lemma KeepsCopy(s: State, c: Id, sent: bool)
    requires Inv(s) && Enabled(s, Copy(c, sent))
    ensures Inv(Next(s, Copy(c, sent)))
  {
    assert ConnFits(s, c) && ConnOk(s.conns[c]);
    if sent && s.conns[c].talk.sabido {
      LogGrows(s.conns[c], Notice(s.conns[c].talk.tecla, s.conns[c].talk.vez), Reading);
    }
    Frame(s, Next(s, Copy(c, sent)), c);
  }

  lemma KeepsEnd(s: State, step: Step)
    requires Inv(s) && Enabled(s, step) && (step.Hangup? || step.Cut? || step.Leave?)
    ensures Inv(Next(s, step))
  {
    assert ConnFits(s, step.c) && ConnOk(s.conns[step.c]);
    Frame(s, Next(s, step), step.c);
  }

  /** A step that only moves pusher p, or adds a connection or a pusher. */
  lemma PusherFrame(s: State, t: State)
    requires Inv(s) && t.nextCh == s.nextCh && t.closedCh == s.closedCh
    requires |s.conns| <= |t.conns| && |s.pushers| <= |t.pushers|
    requires forall k :: 0 <= k < |s.conns| ==> t.conns[k] == s.conns[k]
    requires forall k :: |s.conns| <= k < |t.conns| ==> t.conns[k] == Conn(Reading, false, [], [], false)
    requires t.slot.app == s.slot.app && t.slot.pronto == s.slot.pronto && t.slot.ch == s.slot.ch
    requires forall p :: 0 <= p < |t.pushers| ==> (p < |s.pushers| && t.pushers[p] == s.pushers[p]) || PusherOk(t, p)
    requires NoticeOnItsWay(t)
    ensures Inv(t)
  {
    forall k | 0 <= k < |t.conns|
      ensures ConnOk(t.conns[k]) && ConnFits(t, k)
    {
      if k < |s.conns| {
        assert ConnOk(s.conns[k]) && ConnFits(s, k);
      }
    }
    forall p | 0 <= p < |t.pushers|
      ensures PusherOk(t, p)
    {
      if p < |s.pushers| && t.pushers[p] == s.pushers[p] {
        assert PusherOk(s, p);
      }
    }
  }

  lemma KeepsArrival(s: State, step: Step)
    requires Inv(s) && Enabled(s, step) && (step.Accept? || step.Forward? || step.Trigger?)
    ensures Inv(Next(s, step))
  {
    PusherFrame(s, Next(s, step));
  }

  lemma KeepsPusher(s: State, p: Id, step: Step)
    requires Inv(s) && Enabled(s, step)
    requires step == Save(p) || step == ReadSlot(p) || step == Wake(p) || step == Timeout(p) || step == Reread(p)
    ensures Inv(Next(s, step))
  {
    var t := Next(s, step);
    assert PusherOk(s, p);
    assert t.pushers[p] in t.pushers;
    if s.slot.app.Some? {
      var k := s.slot.app.value;
      assert ConnFits(s, k);
      var m := Notice(s.slot.gatilho, s.slot.vez);
      if Writing(m, k) in s.pushers {
        StillThere(s, t, Writing(m, k));
      } else if Start(m) in s.pushers && s.pushers[p] != Start(m) {
        StillThere(s, t, Start(m));
      }
    }
    PusherFrame(s, t);
  }

  lemma KeepsWrite(s: State, p: Id, sent: bool)
    requires Inv(s) && Enabled(s, Write(p, sent))
    ensures Inv(Next(s, Write(p, sent)))
  {
    var t := Next(s, Write(p, sent));
    var m, k := s.pushers[p].m, s.pushers[p].k;
    assert PusherOk(s, p) && ConnFits(s, k) && ConnOk(s.conns[k]);
    if sent {
      LogGrows(s.conns[k], m, s.conns[k].talk);
    }
    NoticeWritten(s, p, sent);
    Frame(s, s.(conns := t.conns), k);
    PusherFrame(s.(conns := t.conns), t);
  }

  /** The write of pusher p is the only one that can leave its way, and then the
      notice has arrived or the socket is closed. */
  lemma NoticeWritten(s: State, p: Id, sent: bool)
    requires Inv(s) && Enabled(s, Write(p, sent))
    ensures var t := Next(s, Write(p, sent));
            SlotOk(t) && NoticeOnItsWay(s.(conns := t.conns)) && NoticeOnItsWay(t)
  {
    var t := Next(s, Write(p, sent));
    if sent {
      LogKept(s.conns[s.pushers[p].k].log, s.pushers[p].m);
    }
    if s.slot.app.Some? {
      var n := Notice(s.slot.gatilho, s.slot.vez);
      if Start(n) in s.pushers {
        StillThere(s, t, Start(n));
      } else if Writing(n, s.slot.app.value) in s.pushers && s.pushers[p] != Writing(n, s.slot.app.value) {
        StillThere(s, t, Writing(n, s.slot.app.value));
      }
    }
  }

  lemma LogKept(log: seq<Msg>, m: Msg)
    ensures m in log + [m] && forall x :: x in log ==> x in log + [m]
  {
    assert (log + [m])[|log|] == m;
  }

  /** Every step of every conversation and every pusher keeps the invariant. */
  lemma StepKeeps(s: State, step: Step)
    requires Inv(s) && Enabled(s, step)
    ensures Inv(Next(s, step))
  {
    match step
    case Ask(c, q) => KeepsAsk(s, c, q);
    case Reply(c, sent) => KeepsReply(s, c, sent);
    case SetReady(c) => KeepsReady(s, c);
    case CloseCh(c) => KeepsOpening(s, c);
    case Copy(c, sent) => KeepsCopy(s, c, sent);
    case Hangup(c) => KeepsEnd(s, step);
    case Cut(c) => KeepsEnd(s, step);
    case Leave(c) => KeepsEnd(s, step);
    case Accept => KeepsArrival(s, step);
    case Forward(_) => KeepsArrival(s, step);
    case Trigger(_) => KeepsArrival(s, step);
    case Save(p) => KeepsPusher(s, p, step);
    case ReadSlot(p) => KeepsPusher(s, p, step);
    case Wake(p) => KeepsPusher(s, p, step);
    case Timeout(p) => KeepsPusher(s, p, step);
    case Reread(p) => KeepsPusher(s, p, step);
    case Write(p, sent) => KeepsWrite(s, p, sent);
  }

  // --------------------------------------------------------------- whole runs

  predicate IsRun(states: seq<State>, steps: seq<Step>) {
    |states| == |steps| + 1
    && forall i :: 0 <= i < |steps| ==> Enabled(states[i], steps[i]) && states[i + 1] == Next(states[i], steps[i])
  }

  lemma {:induction false} RunKeeps(states: seq<State>, steps: seq<Step>, i: nat)
    requires IsRun(states, steps) && Init(states[0]) && i < |states|
    ensures Inv(states[i])
  {
    if i > 0 {
      RunKeeps(states, steps, i - 1);
      StepKeeps(states[i - 1], steps[i - 1]);
    }
  }

  ghost predicate Reachable(s: State) {
    exists states: seq<State>, steps: seq<Step> :: IsRun(states, steps) && Init(states[0]) && states[|steps|] == s
  }

  lemma ReachableKeeps(s: State)
    requires Reachable(s)
    ensures Inv(s)
  {
    var states: seq<State>, steps: seq<Step> :| IsRun(states, steps) && Init(states[0]) && states[|steps|] == s;
    RunKeeps(states, steps, |steps|);
  }

  /** On every connection no pushed message precedes that connection's msgOK. */
  lemma NoPushBeforeOk(s: State, c: Id, i: nat)
    requires Reachable(s) && c < |s.conns| && i < |s.conns[c].log| && s.conns[c].log[i].Pushed()
    ensures Ok in s.conns[c].log[..i]
  {
    ReachableKeeps(s);
    assert ConnOk(s.conns[c]);
  }

  /** A pusher about to write, whatever handshakes it waited through and
      whichever app holds the slot by then, writes to an app that has its msgOK. */
  lemma WriterHasHandshaken(s: State, p: Id)
    requires Reachable(s) && p < |s.pushers| && s.pushers[p].Writing?
    ensures s.pushers[p].k < |s.conns| && Ok in s.conns[s.pushers[p].k].log
  {
    ReachableKeeps(s);
    assert PusherOk(s, p);
  }

  /** The app reads one message per request up to the handshake's reply, and each
      is the answer to its own request: pedirResposta never takes a pushed
      message for the reply. */
  lemma ReplyIsTheAnswer(s: State, c: Id, i: nat)
    requires Reachable(s) && c < |s.conns|
    requires i < |s.conns[c].log| && Ok !in s.conns[c].log[..i]
    ensures i < |s.conns[c].asked| && Answers(s.conns[c].asked[i], s.conns[c].log[i])
  {
    ReachableKeeps(s);
    assert ConnOk(s.conns[c]);
  }

  /** ligarNoServico pings and then introduces itself: the first message it reads
      is the pong and the second is "ok" or "busy". */
  lemma HandshakeReads(s: State, c: Id)
    requires Reachable(s) && c < |s.conns| && |s.conns[c].log| >= 2
    requires |s.conns[c].asked| >= 2 && s.conns[c].asked[0] == Ping && s.conns[c].asked[1] == Hello
    ensures s.conns[c].log[0] == Pong && (s.conns[c].log[1] == Ok || s.conns[c].log[1] == Busy)
  {
    ReplyIsTheAnswer(s, c, 0);
    assert s.conns[c].log[..1] == [Pong];
    ReplyIsTheAnswer(s, c, 1);
  }

  /** A readiness channel is closed once only: closing it again would panic. */
  lemma ChannelClosesOnce(s: State, c: Id)
    requires Reachable(s) && Enabled(s, CloseCh(c))
    ensures s.conns[c].talk.ch !in s.closedCh && s.slot.app == Some(c) && s.slot.pronto
  {
    ReachableKeeps(s);
    assert ConnFits(s, c);
  }

  /** The slot has one holder: two conversations that both think they are the
      app cannot both be alive. */
  lemma OneApp(s: State, a: Id, b: Id)
    requires Reachable(s) && a < |s.conns| && b < |s.conns|
    requires s.conns[a].souOApp && !s.conns[a].talk.Gone? && s.conns[b].souOApp && !s.conns[b].talk.Gone?
    ensures a == b
  {
    ReachableKeeps(s);
    assert ConnFits(s, a) && ConnFits(s, b);
  }

  /** Nobody is in the middle of anything. */
  predicate Quiet(s: State) {
    (forall c :: 0 <= c < |s.conns| ==> s.conns[c].talk.Reading? || s.conns[c].talk.Gone?)
    && (forall p :: 0 <= p < |s.pushers| ==> s.pushers[p].Finished?)
  }

  /** Step i is the last that stored a trigger. */
  predicate LastSave(steps: seq<Step>, i: nat) {
    i < |steps| && steps[i].Save? && forall j :: i < j < |steps| ==> !steps[j].Save?
  }

  /** How many triggers a run stored. */
  function Saves(steps: seq<Step>): nat {
    if steps == [] then 0 else Saves(steps[..|steps| - 1]) + if steps[|steps| - 1].Save? then 1 else 0
  }

  lemma {:induction false} RankCounts(states: seq<State>, steps: seq<Step>, n: nat)
    requires IsRun(states, steps) && Init(states[0]) && n <= |steps|
    ensures states[n].slot.vez == Saves(steps[..n])
  {
    if n > 0 {
      RankCounts(states, steps, n - 1);
      assert steps[..n][..n - 1] == steps[..n - 1];
      assert Enabled(states[n - 1], steps[n - 1]);
    }
  }

  /** From the last call that stored a trigger on, the service knows that trigger,
      and its rank is how many were stored. */
  lemma {:induction false} SavedIsKnown(states: seq<State>, steps: seq<Step>, i: nat, n: nat)
    requires IsRun(states, steps) && Init(states[0]) && LastSave(steps, i) && i < n <= |steps|
    ensures steps[i].p < |states[i].pushers| && states[i].pushers[steps[i].p].Storing?
    ensures states[n].slot.sabido && states[n].slot.gatilho == states[i].pushers[steps[i].p].tecla
    ensures states[n].slot.vez == Saves(steps[..n])
  {
    RankCounts(states, steps, n);
    assert Enabled(states[i], steps[i]);
    if n > i + 1 {
      SavedIsKnown(states, steps, i, n - 1);
      assert Enabled(states[n - 1], steps[n - 1]);
    }
  }

  /** The app has the slot, is ready, and was sent trigger x as the v-th, or its socket is down. */
  predicate Told(s: State, x: string, v: nat) {
    s.slot.app.Some? && s.slot.app.value < |s.conns| && s.slot.pronto
    && (Notice(x, v) in s.conns[s.slot.app.value].log || s.conns[s.slot.app.value].closed)
  }

  /** The news about the shortcut is never lost: once everything has settled, an
      app whose socket is up was sent the trigger stored last in the run. */
  lemma NoticeNeverLost(states: seq<State>, steps: seq<Step>, i: nat)
    requires IsRun(states, steps) && Init(states[0]) && LastSave(steps, i)
    requires Quiet(states[|steps|]) && states[|steps|].slot.app.Some?
    ensures steps[i].p < |states[i].pushers| && states[i].pushers[steps[i].p].Storing?
    ensures Told(states[|steps|], states[i].pushers[steps[i].p].tecla, Saves(steps))
  {
    var s := states[|steps|];
    RunKeeps(states, steps, |steps|);
    SavedIsKnown(states, steps, i, |steps|);
    assert steps[..|steps|] == steps;
    KnownIsTold(s);
  }

  lemma KnownIsTold(s: State)
    requires Inv(s) && Quiet(s) && s.slot.sabido && s.slot.app.Some?
    ensures Told(s, s.slot.gatilho, s.slot.vez)
  {
    var k := s.slot.app.value;
    assert ConnFits(s, k) && s.conns[k].talk.Reading?;
    var m := Notice(s.slot.gatilho, s.slot.vez);
    assert Start(m) !in s.pushers && Writing(m, k) !in s.pushers;
  }

  // --------------------------------------------------------------- delivery

  /** Message m is the last written to connection k, and pusher p is done. */
  predicate Delivered(s: State, t: State, p: Id, k: Id, m: Msg) {
    k < |s.conns| && k < |t.conns| && p < |t.pushers|
    && t.pushers[p] == Finished(true) && t.conns[k].log == s.conns[k].log + [m]
  }

  /** A pusher that looks at a ready slot whose socket is up delivers its message,
      whether it looks for the first time or again after a handshake. */
  lemma PushArrives(s: State, p: Id)
    requires Inv(s) && p < |s.pushers| && (s.pushers[p].Start? || s.pushers[p].Recheck?)
    requires s.slot.app.Some? && s.slot.pronto && !s.conns[s.slot.app.value].closed
    ensures var look := if s.pushers[p].Start? then ReadSlot(p) else Reread(p);
            Enabled(s, look) && Enabled(Next(s, look), Write(p, true))
            && Delivered(s, Next(Next(s, look), Write(p, true)), p, s.slot.app.value, s.pushers[p].m)
  {
  }

  /** A pusher whose handshake is over wakes and looks again. */
  lemma WaiterLooksAgain(s: State, p: Id)
    requires p < |s.pushers| && s.pushers[p].Waiting? && s.pushers[p].ch in s.closedCh
    ensures Enabled(s, Wake(p)) && Next(s, Wake(p)).pushers[p] == Recheck(s.pushers[p].m)
    ensures Next(s, Wake(p)) == s.(pushers := s.pushers[p := Recheck(s.pushers[p].m)])
  {
  }

  /** A trigger that was registered is stored as it is, and reaches a ready app
      with its rank. */
  lemma TriggerArrives(s: State, x: string)
    requires Inv(s) && s.slot.app.Some? && s.slot.pronto && !s.conns[s.slot.app.value].closed
    ensures var p, a := |s.pushers|, Next(s, Trigger(x));
            Enabled(a, Save(p))
            && var b := Next(a, Save(p));
               b.slot.sabido && b.slot.gatilho == x && b.slot.vez == s.slot.vez + 1
               && Enabled(b, ReadSlot(p)) && Enabled(Next(b, ReadSlot(p)), Write(p, true))
               && Delivered(s, Next(Next(b, ReadSlot(p)), Write(p, true)), p, s.slot.app.value,
                            Notice(x, s.slot.vez + 1))
  {
    var p, a := |s.pushers|, Next(s, Trigger(x));
    StepKeeps(s, Trigger(x));
    StepKeeps(a, Save(p));
    PushArrives(Next(a, Save(p)), p);
  }

  /** What a second instance asks to open reaches a ready app as it was asked. */
  lemma ForwardArrives(s: State, what: nat)
    requires Inv(s) && s.slot.app.Some? && s.slot.pronto && !s.conns[s.slot.app.value].closed
    ensures var p, a := |s.pushers|, Next(s, Forward(what));
            Enabled(a, ReadSlot(p)) && Enabled(Next(a, ReadSlot(p)), Write(p, true))
            && Delivered(s, Next(Next(a, ReadSlot(p)), Write(p, true)), p, s.slot.app.value, Open(what))
  {
    var a := Next(s, Forward(what));
    StepKeeps(s, Forward(what));
    PushArrives(a, |s.pushers|);
  }

  // ------------------------------------------------------------------- rest

  /** The service's own steps: everything but what arrives from outside. */
  predicate Internal(step: Step) {
    !step.Accept? && !step.Ask? && !step.Forward? && !step.Trigger? && !step.Hangup? && !step.Cut?
  }

  function TalkRank(t: Talk): nat {
    match t
    case Reading => 0
    case Gone => 0
    case Leaving => 1
    case Ponging => 2
    case Rejecting => 2
    case Copying(_, _, _) => 2
    case Opening(_, _, _, _) => 3
    case Announced(_) => 4
    case Claimed(_) => 5
  }

  function PushRank(p: Pusher): nat {
    match p
    case Finished(_) => 0
    case Writing(_, _) => 1
    case Recheck(_) => 2
    case Waiting(_, _) => 3
    case Start(_) => 4
    case Storing(_) => 5
  }

  function Talking(conns: seq<Conn>): nat {
    if conns == [] then 0 else Talking(conns[..|conns| - 1]) + TalkRank(conns[|conns| - 1].talk)
  }

  function Pushing(pushers: seq<Pusher>): nat {
    if pushers == [] then 0 else Pushing(pushers[..|pushers| - 1]) + PushRank(pushers[|pushers| - 1])
  }

  /** How far the service is from rest. */
  function Work(s: State): nat {
    Talking(s.conns) + Pushing(s.pushers)
  }

  lemma {:induction false} TalkingMoves(conns: seq<Conn>, c: nat, conn: Conn)
    requires c < |conns|
    ensures Talking(conns[c := conn]) == Talking(conns) - TalkRank(conns[c].talk) + TalkRank(conn.talk)
  {
    var next, last := conns[c := conn], |conns| - 1;
    if c == last {
      assert next[..last] == conns[..last];
    } else {
      TalkingMoves(conns[..last], c, conn);
      assert next[..last] == conns[..last][c := conn];
    }
  }

  lemma {:induction false} PushingMoves(pushers: seq<Pusher>, p: nat, next: Pusher)
    requires p < |pushers|
    ensures Pushing(pushers[p := next]) == Pushing(pushers) - PushRank(pushers[p]) + PushRank(next)
  {
    var after, last := pushers[p := next], |pushers| - 1;
    if p == last {
      assert after[..last] == pushers[..last];
    } else {
      PushingMoves(pushers[..last], p, next);
      assert after[..last] == pushers[..last][p := next];
    }
  }

  /** Each of the service's own steps brings it nearer to rest. */
  lemma InternalShrinks(s: State, step: Step)
    requires Internal(step) && Enabled(s, step)
    ensures Work(Next(s, step)) < Work(s)
  {
    if step.Reply? || step.SetReady? || step.CloseCh? || step.Copy? || step.Leave? {
      TalkShrinks(s, step);
    } else {
      PushShrinks(s, step);
    }
  }

  lemma TalkShrinks(s: State, step: Step)
    requires Enabled(s, step) && (step.Reply? || step.SetReady? || step.CloseCh? || step.Copy? || step.Leave?)
    ensures Work(Next(s, step)) < Work(s)
  {
    var conn := Next(s, step).conns[step.c];
    TalkingMoves(s.conns, step.c, conn);
    assert Next(s, step).conns == s.conns[step.c := conn];
  }

  lemma PushShrinks(s: State, step: Step)
    requires Enabled(s, step)
    requires step.Save? || step.ReadSlot? || step.Wake? || step.Timeout? || step.Reread? || step.Write?
    ensures Work(Next(s, step)) < Work(s)
  {
    var t := Next(s, step);
    if step.Write? {
      var k := s.pushers[step.p].k;
      TalkingMoves(s.conns, k, t.conns[k]);
      assert t.conns == s.conns[k := t.conns[k]];
    }
    PushingMoves(s.pushers, step.p, t.pushers[step.p]);
    assert t.pushers == s.pushers[step.p := t.pushers[step.p]];
  }

  /** A service with something in hand has a step to take. */
  lemma SomethingToDo(s: State) returns (step: Step)
    requires Inv(s) && !Quiet(s)
    ensures Internal(step) && Enabled(s, step)
  {
    if c :| 0 <= c < |s.conns| && !s.conns[c].talk.Reading? && !s.conns[c].talk.Gone? {
      match s.conns[c].talk
      case Ponging => step := Reply(c, false);
      case Rejecting => step := Reply(c, false);
      case Claimed(_) => step := Reply(c, false);
      case Announced(_) => step := SetReady(c);
      case Opening(_, _, _, _) => step := CloseCh(c);
      case Copying(_, _, _) => step := Copy(c, false);
      case Leaving => step := Leave(c);
    } else {
      var p :| 0 <= p < |s.pushers| && !s.pushers[p].Finished?;
      assert PusherOk(s, p);
      match s.pushers[p]
      case Storing(_) => step := Save(p);
      case Start(_) => step := ReadSlot(p);
      case Waiting(_, _) => step := Timeout(p);
      case Recheck(_) => step := Reread(p);
      case Writing(_, _) => step := Write(p, false);
    }
  }

  /** None of the service's own steps is left. */
  ghost predicate AtRest(s: State) {
    forall step :: Internal(step) ==> !Enabled(s, step)
  }

  lemma RestIsQuiet(s: State)
    requires Inv(s) && AtRest(s)
    ensures Quiet(s)
  {
    if !Quiet(s) {
      var step := SomethingToDo(s);
    }
  }

  /** With nothing more arriving from step k of a run on, any way of taking the
      service's own steps is finite. */
  lemma Converges(states: seq<State>, steps: seq<Step>, k: nat)
    requires IsRun(states, steps) && k <= |steps|
    requires forall i :: k <= i < |steps| ==> Internal(steps[i])
    ensures |steps| - k + Work(states[|steps|]) <= Work(states[k])
  {
    RunShrinks(states, steps, k, |steps|);
  }

  /** And where none is left, an app whose socket is up was sent the trigger
      stored last. */
  lemma RestTellsTheApp(states: seq<State>, steps: seq<Step>, i: nat)
    requires IsRun(states, steps) && Init(states[0]) && LastSave(steps, i)
    requires AtRest(states[|steps|]) && states[|steps|].slot.app.Some?
    ensures steps[i].p < |states[i].pushers| && states[i].pushers[steps[i].p].Storing?
    ensures Told(states[|steps|], states[i].pushers[steps[i].p].tecla, Saves(steps))
  {
    RunKeeps(states, steps, |steps|);
    RestIsQuiet(states[|steps|]);
    NoticeNeverLost(states, steps, i);
  }

  lemma {:induction false} RunShrinks(states: seq<State>, steps: seq<Step>, k: nat, n: nat)
    requires IsRun(states, steps) && k <= n <= |steps|
    requires forall i :: k <= i < |steps| ==> Internal(steps[i])
    ensures n - k + Work(states[n]) <= Work(states[k])
  {
    if n > k {
      RunShrinks(states, steps, k, n - 1);
      InternalShrinks(states[n - 1], steps[n - 1]);
    }
  }

  /** Two runs, the second from where the first ends, are one. */
  lemma RunsJoin(before: seq<State>, done: seq<Step>, states: seq<State>, steps: seq<Step>)
    requires IsRun(before, done) && IsRun(states, steps) && before[|done|] == states[0]
    ensures IsRun(before + states[1..], done + steps)
    ensures (before + states[1..])[|done + steps|] == states[|steps|]
  {
    var all, both := before + states[1..], done + steps;
    forall i | 0 <= i < |both|
      ensures Enabled(all[i], both[i]) && all[i + 1] == Next(all[i], both[i])
    {
      if i < |done| {
        assert both[i] == done[i] && all[i] == before[i] && all[i + 1] == before[i + 1];
      } else {
        var j := i - |done|;
        assert both[i] == steps[j] && all[i] == states[j] && all[i + 1] == states[j + 1];
      }
    }
  }

  /** And rest is reached from every reachable state. */
  lemma {:induction false} RestIsReached(s: State) returns (states: seq<State>, steps: seq<Step>)
    requires Inv(s)
    ensures IsRun(states, steps) && states[0] == s && Quiet(states[|steps|])
    ensures forall i :: 0 <= i < |steps| ==> Internal(steps[i])
    decreases Work(s)
  {
    if Quiet(s) {
      return [s], [];
    }
    var step := SomethingToDo(s);
    InternalShrinks(s, step);
    StepKeeps(s, step);
    var after, rest := RestIsReached(Next(s, step));
    states, steps := [s] + after, [step] + rest;
    assert [s, Next(s, step)] + after[1..] == states;
    RunsJoin([s, Next(s, step)], [step], after, rest);
  }
}

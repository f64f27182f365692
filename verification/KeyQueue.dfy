/** Delivery of keys to the remote session without blocking the caller
    (filaTeclas, cmd/acessos/filateclas_linux.go): a queue in which a full house
    costs the oldest press and never a release. */
module KeyQueue {
  import opened Wrappers

  /** Which key of which tab. */
  datatype KeyId = KeyId(aba: nat, keysym: nat, keycode: nat)
  datatype Key = Key(id: KeyId, pressed: bool)

  function FirstPress(fila: seq<Key>): (i: int)
    ensures -1 <= i < |fila|
    ensures i >= 0 ==> fila[i].pressed
    ensures forall j :: 0 <= j < (if i < 0 then |fila| else i) ==> !fila[j].pressed
  {
    if fila == [] then -1
    else if fila[0].pressed then 0
    else
      var rest := FirstPress(fila[1..]);
      if rest < 0 then -1 else rest + 1
  }

  function Without<T>(s: seq<T>, i: nat): seq<T>
    requires i < |s|
  {
    s[..i] + s[i + 1..]
  }

  /** The queue after one more key, and how many presses it cost. */
  function Enqueue(fila: seq<Key>, k: Key, teto: int): (r: (seq<Key>, nat)) {
    var i := FirstPress(fila);
    if |fila| < teto then (fila + [k], 0)
    else if i >= 0 then (Without(fila, i) + [k], 1)
    else if k.pressed then (fila, 1)
    else (fila + [k], 0)
  }

  /** filaTeclas with its slice edited in place. */
  class FilaTeclas {
    var fila: seq<Key>
    const teto: int
    var sinal: bool          // channel of one place
    var descartadas: int

    constructor (capacidade: int)
      ensures fila == [] && teto == capacidade && !sinal && descartadas == 0
    {
      fila, teto, sinal, descartadas := [], capacidade, false, 0;
    }

    method IndicePrimeiroPress() returns (i: int)
      ensures -1 <= i < |fila|
      ensures i >= 0 ==> fila[i].pressed
      ensures forall j :: 0 <= j < (if i < 0 then |fila| else i) ==> !fila[j].pressed
    {
      i := 0;
      while i < |fila|
        invariant 0 <= i <= |fila|
        invariant forall j :: 0 <= j < i ==> !fila[j].pressed
      {
        if fila[i].pressed {
          return;
        }
        i := i + 1;
      }
      i := -1;
    }

    /** The part of enfileirar under the lock; says whether the caller goes on to signal. */
    method Guardar(k: Key) returns (avisar: bool)
      modifies this
      ensures (fila, descartadas - old(descartadas)) == Enqueue(old(fila), k, teto)
      ensures avisar == (|old(fila)| < teto || !k.pressed || exists x :: x in old(fila) && x.pressed)
      ensures sinal == old(sinal)
    {
      if |fila| >= teto {
        var i := IndicePrimeiroPress();
        FirstPressIs(fila, i);
        NoFirstPress(fila);
        if i >= 0 {
          fila := fila[..i] + fila[i + 1..];
          descartadas := descartadas + 1;
        } else if k.pressed {
          descartadas := descartadas + 1;
          return false;
        }
      }
      fila := fila + [k];
      avisar := true;
    }

    /** With room the key is kept and nothing lost; with the house full the oldest
        press goes, and only it; full of releases, a press is refused and a release
        let in over the ceiling. */
    method Enfileirar(k: Key)
      modifies this
      ensures (fila, descartadas - old(descartadas)) == Enqueue(old(fila), k, teto)
      ensures |old(fila)| < teto ==> fila == old(fila) + [k] && descartadas == old(descartadas)
      ensures |old(fila)| >= teto ==>
                forall i | 0 <= i < |old(fila)| && old(fila)[i].pressed
                           && (forall j :: 0 <= j < i ==> !old(fila)[j].pressed) ::
                  fila == old(fila)[..i] + old(fila)[i + 1..] + [k] && descartadas == old(descartadas) + 1
      ensures |old(fila)| >= teto && (forall x :: x in old(fila) ==> !x.pressed) ==>
                if k.pressed then fila == old(fila) && descartadas == old(descartadas) + 1
                else fila == old(fila) + [k] && descartadas == old(descartadas)
      ensures sinal == (old(sinal) || fila != old(fila) || !k.pressed || exists x :: x in old(fila) && x.pressed)
    {
      EnqueueMeans(fila, k, teto);
      var avisar := Guardar(k);
      if avisar && !sinal {
        sinal := true;
      }
      if |old(fila)| < teto {
        assert |fila| > |old(fila)|;
      }
    }

    /** The locked part of the writer's loop: the head of the queue, if any. */
    method Retirar() returns (k: Option<Key>)
      modifies this
      ensures sinal == old(sinal) && descartadas == old(descartadas)
      ensures k.None? <==> old(fila) == []
      ensures k.None? ==> fila == []
      ensures k.Some? ==> old(fila) == [k.value] + fila
    {
      if |fila| == 0 {
        return None;
      }
      k := Some(fila[0]);
      fila := fila[1..];
    }
  }

  /** Nothing to evict exactly when no press is queued. */
  lemma NoFirstPress(fila: seq<Key>)
    ensures FirstPress(fila) < 0 <==> forall x :: x in fila ==> !x.pressed
  {
    var i := FirstPress(fila);
    if i >= 0 {
      assert fila[i] in fila;
    }
  }

  lemma EnqueueMeans(fila: seq<Key>, k: Key, teto: int)
    ensures |fila| < teto ==> Enqueue(fila, k, teto) == (fila + [k], 0)
    ensures |fila| >= teto ==>
              forall i :: 0 <= i < |fila| && fila[i].pressed && (forall j :: 0 <= j < i ==> !fila[j].pressed) ==>
                Enqueue(fila, k, teto) == (fila[..i] + fila[i + 1..] + [k], 1)
    ensures |fila| >= teto && (forall x :: x in fila ==> !x.pressed) ==>
              Enqueue(fila, k, teto) == if k.pressed then (fila, 1) else (fila + [k], 0)
  {
    NoFirstPress(fila);
    forall i | 0 <= i < |fila| && fila[i].pressed && (forall j :: 0 <= j < i ==> !fila[j].pressed)
      ensures FirstPress(fila) == i
    {
      FirstPressIs(fila, i);
    }
  }

  lemma WithoutFrom(fila: seq<Key>, i: nat)
    requires i < |fila|
    ensures |Without(fila, i)| == |fila| - 1 && forall x :: x in Without(fila, i) ==> x in fila
  {
  }

  lemma FirstPressIs(fila: seq<Key>, i: int)
    requires -1 <= i < |fila|
    requires i >= 0 ==> fila[i].pressed
    requires forall j :: 0 <= j < (if i < 0 then |fila| else i) ==> !fila[j].pressed
    ensures FirstPress(fila) == i
  {
  }

  // ---------------------------------------------- deleting presses only

  /** out is inp with some presses deleted and nothing else changed. */
  ghost predicate Thinned(inp: seq<Key>, out: seq<Key>) {
    if inp == [] then out == []
    else
      var last, before := inp[|inp| - 1], inp[..|inp| - 1];
      (out != [] && out[|out| - 1] == last && Thinned(before, out[..|out| - 1]))
      || (last.pressed && Thinned(before, out))
  }

  lemma ThinnedAppend(inp: seq<Key>, out: seq<Key>, k: Key)
    requires Thinned(inp, out)
    ensures Thinned(inp + [k], out + [k])
    ensures k.pressed ==> Thinned(inp + [k], out)
  {
    assert (inp + [k])[..|inp|] == inp && (out + [k])[..|out|] == out;
  }

  /** One more press may go from anywhere. */
  lemma {:induction false} ThinnedDrop(inp: seq<Key>, out: seq<Key>, i: nat)
    requires Thinned(inp, out) && i < |out| && out[i].pressed
    ensures Thinned(inp, Without(out, i))
  {
    var last, before := inp[|inp| - 1], inp[..|inp| - 1];
    if out[|out| - 1] == last && Thinned(before, out[..|out| - 1]) {
      if i == |out| - 1 {
        assert Without(out, i) == out[..|out| - 1];
      } else {
        ThinnedDrop(before, out[..|out| - 1], i);
        assert Without(out, i)[..|out| - 2] == Without(out[..|out| - 1], i);
      }
    } else {
      ThinnedDrop(before, out, i);
    }
  }

  function Releases(s: seq<Key>): seq<Key> {
    if s == [] then []
    else if s[|s| - 1].pressed then Releases(s[..|s| - 1])
    else Releases(s[..|s| - 1]) + [s[|s| - 1]]
  }

  /** Every release survives, in order; and with nothing missing nothing changed. */
  lemma {:induction false} ThinnedKeeps(inp: seq<Key>, out: seq<Key>)
    requires Thinned(inp, out)
    ensures Releases(out) == Releases(inp)
    ensures |out| <= |inp|
    ensures |out| == |inp| ==> out == inp
  {
    if inp != [] {
      var last, before := inp[|inp| - 1], inp[..|inp| - 1];
      if out != [] && out[|out| - 1] == last && Thinned(before, out[..|out| - 1]) {
        ThinnedKeeps(before, out[..|out| - 1]);
        assert inp == before + [last] && out == out[..|out| - 1] + [last];
      } else {
        ThinnedKeeps(before, out);
      }
    }
  }

  /** A key is held when its last event is a press. */
  predicate Held(s: seq<Key>, id: KeyId) {
    s != [] && if s[|s| - 1].id == id then s[|s| - 1].pressed else Held(s[..|s| - 1], id)
  }

  /** Deleting presses never makes a key stay down. */
  lemma {:induction false} ThinnedHoldsLess(inp: seq<Key>, out: seq<Key>, id: KeyId)
    requires Thinned(inp, out) && Held(out, id)
    ensures Held(inp, id)
  {
    var last, before := inp[|inp| - 1], inp[..|inp| - 1];
    if out[|out| - 1] == last && Thinned(before, out[..|out| - 1]) {
      if last.id != id {
        ThinnedHoldsLess(before, out[..|out| - 1], id);
      }
    } else {
      ThinnedHoldsLess(before, out, id);
    }
  }

  // ------------------------------------------------- producers and writer

  datatype Writer =
    | Asleep                  // blocked on the signal channel
    | Draining                // about to look at the queue
    | Delivering(key: Key)    // inside HandleKey, outside the lock

  datatype State = State(
    fila: seq<Key>,
    descartadas: nat,
    sinal: bool,
    avisando: nat,            // producers past the lock and not yet at the channel
    writer: Writer,
    entrada: seq<Key>,        // everything enfileirar was called with, in lock order
    entregue: seq<Key>)       // what HandleKey has been given, in order

  datatype Step = Put(key: Key) | Notify | Wake | Take | Delivered

  predicate Init(s: State) {
    s == State([], 0, false, 0, Asleep, [], [])
  }

  predicate Enabled(s: State, step: Step) {
    match step
    case Put(_) => true
    case Notify => 0 < s.avisando
    case Wake => s.writer.Asleep? && s.sinal
    case Take => s.writer.Draining?
    case Delivered => s.writer.Delivering?
  }

  /** Put drops the new key itself exactly when the queue is full of releases. */
  predicate Refused(fila: seq<Key>, k: Key, teto: int) {
    |fila| >= teto && FirstPress(fila) < 0 && k.pressed
  }

  function Next(s: State, step: Step, teto: int): State
    requires Enabled(s, step)
  {
    match step
    case Put(k) =>
      var (fila, perdidas) := Enqueue(s.fila, k, teto);
      s.(fila := fila, descartadas := s.descartadas + perdidas, entrada := s.entrada + [k],
         avisando := if Refused(s.fila, k, teto) then s.avisando else s.avisando + 1)
    case Notify => s.(sinal := true, avisando := s.avisando - 1)
    case Wake => s.(sinal := false, writer := Draining)
    case Take =>
      if s.fila == [] then s.(writer := Asleep)
      else s.(fila := s.fila[1..], writer := Delivering(s.fila[0]))
    case Delivered => s.(entregue := s.entregue + [s.writer.key], writer := Draining)
  }

  /** Delivered, in the writer's hand, and queued: what is left of the input. */
  function Remaining(s: State): seq<Key> {
    s.entregue + (if s.writer.Delivering? then [s.writer.key] else []) + s.fila
  }

  ghost predicate Inv(s: State, teto: int) {
    Thinned(s.entrada, Remaining(s))
    && |s.entrada| == |Remaining(s)| + s.descartadas
    && (|s.fila| > teto ==> forall k :: k in s.fila ==> !k.pressed)
    && (s.writer.Asleep? && s.fila != [] ==> s.sinal || 0 < s.avisando)
  }

  /** A full queue with a press in it: the oldest one goes. */
  lemma EvictThins(inp: seq<Key>, ahead: seq<Key>, fila: seq<Key>, i: nat, k: Key)
    requires Thinned(inp, ahead + fila) && i < |fila| && fila[i].pressed
    ensures Thinned(inp + [k], ahead + (Without(fila, i) + [k]))
  {
    ThinnedDrop(inp, ahead + fila, |ahead| + i);
    assert Without(ahead + fila, |ahead| + i) == ahead + Without(fila, i);
    ThinnedAppend(inp, ahead + Without(fila, i), k);
    assert ahead + Without(fila, i) + [k] == ahead + (Without(fila, i) + [k]);
  }

  lemma EnqueueThins(inp: seq<Key>, ahead: seq<Key>, fila: seq<Key>, k: Key, teto: int)
    requires Thinned(inp, ahead + fila)
    ensures Thinned(inp + [k], ahead + Enqueue(fila, k, teto).0)
  {
    var i := FirstPress(fila);
    if |fila| >= teto && i >= 0 {
      EvictThins(inp, ahead, fila, i, k);
    } else {
      ThinnedAppend(inp, ahead + fila, k);
      assert ahead + fila + [k] == ahead + (fila + [k]);
    }
  }

  /** Over the ceiling the queue holds releases only. */
  lemma EnqueueCeiling(fila: seq<Key>, k: Key, teto: int)
    requires |fila| > teto ==> forall x :: x in fila ==> !x.pressed
    ensures var (next, lost) := Enqueue(fila, k, teto);
            |next| + lost == |fila| + 1 && (|next| > teto ==> forall x :: x in next ==> !x.pressed)
  {
    var i := FirstPress(fila);
    NoFirstPress(fila);
    if |fila| >= teto && i >= 0 {
      WithoutFrom(fila, i);
    }
  }

  lemma KeepsPut(s: State, k: Key, teto: int)
    requires Inv(s, teto)
    ensures Inv(Next(s, Put(k), teto), teto)
  {
    var t := Next(s, Put(k), teto);
    var ahead := s.entregue + (if s.writer.Delivering? then [s.writer.key] else []);
    EnqueueThins(s.entrada, ahead, s.fila, k, teto);
    EnqueueCeiling(s.fila, k, teto);
    assert t.entrada == s.entrada + [k] && Remaining(t) == ahead + t.fila;
  }

  lemma StepKeeps(s: State, step: Step, teto: int)
    requires Inv(s, teto) && Enabled(s, step)
    ensures Inv(Next(s, step, teto), teto)
  {
    match step
    case Put(k) => KeepsPut(s, k, teto);
    case Notify =>
    case Wake =>
    case Take => assert Remaining(Next(s, step, teto)) == Remaining(s);
    case Delivered => assert Remaining(Next(s, step, teto)) == Remaining(s);
  }

  ghost predicate IsRun(states: seq<State>, steps: seq<Step>, teto: int) {
    |states| == |steps| + 1
    && forall i :: 0 <= i < |steps| ==> Enabled(states[i], steps[i]) && states[i + 1] == Next(states[i], steps[i], teto)
  }

  lemma {:induction false} RunKeeps(states: seq<State>, steps: seq<Step>, teto: int, i: nat)
    requires IsRun(states, steps, teto) && Init(states[0]) && i < |states|
    ensures Inv(states[i], teto)
  {
    if i > 0 {
      RunKeeps(states, steps, teto, i - 1);
      StepKeeps(states[i - 1], steps[i - 1], teto);
    }
  }

  ghost predicate Reachable(s: State, teto: int) {
    exists states: seq<State>, steps: seq<Step> ::
      IsRun(states, steps, teto) && Init(states[0]) && states[|steps|] == s
  }

  /** Order and loss: what was delivered followed by what is queued is the input
      in order with presses deleted and nothing else, as many as were counted;
      with none counted it is the input; and every release is in it. */
  lemma OnlyPressesAreLost(s: State, teto: int)
    requires Reachable(s, teto)
    ensures Thinned(s.entrada, Remaining(s))
    ensures |s.entrada| - |Remaining(s)| == s.descartadas
    ensures Releases(Remaining(s)) == Releases(s.entrada)
    ensures s.descartadas == 0 <==> Remaining(s) == s.entrada
    ensures |s.fila| > teto ==> forall k :: k in s.fila ==> !k.pressed
  {
    ReachableKeeps(s, teto);
    ThinnedKeeps(s.entrada, Remaining(s));
  }

  lemma ReachableKeeps(s: State, teto: int)
    requires Reachable(s, teto)
    ensures Inv(s, teto)
  {
    var states: seq<State>, steps: seq<Step> :|
      IsRun(states, steps, teto) && Init(states[0]) && states[|steps|] == s;
    RunKeeps(states, steps, teto, |steps|);
  }

  /** A queue that had room at every key loses none. */
  lemma {:induction false} NothingLostWithRoom(states: seq<State>, steps: seq<Step>, teto: int, n: nat)
    requires IsRun(states, steps, teto) && Init(states[0]) && n <= |steps|
    requires forall i :: 0 <= i < |steps| && steps[i].Put? ==> |states[i].fila| < teto
    ensures states[n].descartadas == 0 && Remaining(states[n]) == states[n].entrada
  {
    NothingCounted(states, steps, teto, n);
    RunKeeps(states, steps, teto, n);
    ThinnedKeeps(states[n].entrada, Remaining(states[n]));
  }

  lemma {:induction false} NothingCounted(states: seq<State>, steps: seq<Step>, teto: int, n: nat)
    requires IsRun(states, steps, teto) && Init(states[0]) && n <= |steps|
    requires forall i :: 0 <= i < |steps| && steps[i].Put? ==> |states[i].fila| < teto
    ensures states[n].descartadas == 0
  {
    if n > 0 {
      NothingCounted(states, steps, teto, n - 1);
      assert Enabled(states[n - 1], steps[n - 1]);
    }
  }

  predicate Quiet(s: State) {
    !Enabled(s, Notify) && !Enabled(s, Wake) && !Enabled(s, Take) && !Enabled(s, Delivered)
  }

  /** When neither the writer nor a producer has a step left, the queue is
      empty: the writer never sleeps on keys. Then a key the remote side believes
      held is held in the input too, for any interleaving. */
  lemma NoStuckKey(s: State, teto: int)
    requires Reachable(s, teto) && Quiet(s)
    ensures s.fila == [] && s.writer.Asleep?
    ensures Thinned(s.entrada, s.entregue) && Releases(s.entregue) == Releases(s.entrada)
    ensures forall id :: Held(s.entregue, id) ==> Held(s.entrada, id)
  {
    ReachableKeeps(s, teto);
    assert Remaining(s) == s.entregue;
    ThinnedKeeps(s.entrada, s.entregue);
    forall id | Held(s.entregue, id)
      ensures Held(s.entrada, id)
    {
      ThinnedHoldsLess(s.entrada, s.entregue, id);
    }
  }

  function Work(s: State): nat {
    4 * |s.fila| + 3 * s.avisando + (if s.sinal then 2 else 0)
    + (match s.writer case Asleep => 0 case Draining => 1 case Delivering(_) => 2)
  }

  /** With no more input, writer and producers come to rest. */
  lemma ComesToRest(s: State, step: Step, teto: int)
    requires Enabled(s, step) && !step.Put?
    ensures Work(Next(s, step, teto)) < Work(s)
    ensures Next(s, step, teto).entrada == s.entrada
  {
    match step
    case Take => assert s.fila != [] ==> |s.fila[1..]| == |s.fila| - 1;
    case Notify =>
    case Wake =>
    case Delivered =>
  }
}

// The bounded task buffer in shared memory (lab7): three semaphores around a
// ring of integers. The put side computes its slot from the count it has
// already incremented; the get side reads the plain start index. This is the
// ring as written, and what its gets return. The code between the mutex
// operations is one step here; TaskBufferAccesses takes it apart.
module TaskBuffer {
  import opened Sums
  import opened Division

  // ------------------------------------------------------------ shared memory

  datatype Memory = Memory(slots: seq<int>, count: int, start: int)

  // Lines 101-111: `awaiting` is the count read before the increment.
  function Put(m: Memory, number: int): (Memory, int)
    requires |m.slots| > 0 && m.count >= 0 && m.start >= 0
  {
    var count := m.count + 1;
    var index := (m.start + count) % |m.slots|;
    (Memory(m.slots[index := number], count, m.start), m.count)
  }

  // Lines 124-135: the number read, and the count after the decrement.
  function Get(m: Memory): (Memory, int, int)
    requires 0 <= m.start < |m.slots|
  {
    var count := m.count - 1;
    (Memory(m.slots, count, (m.start + 1) % |m.slots|), m.slots[m.start], count)
  }

  // ------------------------------------------------------- the law of the ring

  // The ring after a series of puts, when put p writes slot (p + offset) mod n.
  // The code as written has offset 1.
  ghost function Ring(init: seq<int>, puts: seq<int>, offset: nat): seq<int>
    requires |init| > 0
    ensures |Ring(init, puts, offset)| == |init|
  {
    if puts == [] then init
    else
      var p := |puts| - 1;
      Ring(init, puts[..p], offset)[(p + offset) % |init| := puts[p]]
  }

  // A slot holds the last put aimed at it for one full turn of the ring.
  lemma {:induction false} SlotHoldsForOneTurn(init: seq<int>, puts: seq<int>, offset: nat, q: nat)
    requires |init| > 0 && q < |puts| <= q + |init|
    ensures Ring(init, puts, offset)[(q + offset) % |init|] == puts[q]
  {
    var p := |puts| - 1;
    if q < p {
      ModulusRepeats(q + offset, |init|, p - q);
      SlotHoldsForOneTurn(init, puts[..p], offset, q);
    }
  }

  lemma {:induction false} SlotZeroUntouched(init: seq<int>, puts: seq<int>)
    requires |puts| < |init|
    ensures Ring(init, puts, 1)[0] == init[0]
  {
    if puts != [] {
      DivisionIsUnique(|puts|, |init|, 0, |puts|);
      SlotZeroUntouched(init, puts[..|puts| - 1]);
    }
  }

  // What get number g returns when `puts` have happened before it.
  ghost function GetLaw(init: seq<int>, puts: seq<int>, g: nat): int
    requires |init| > 0 && g < |puts| <= g + |init|
  {
    if |puts| == g + |init| then puts[|puts| - 1]     // full: the newest put
    else if g == 0 then init[0]                        // the initial slot content
    else puts[g - 1]                                   // the put before the matching one
  }

  lemma GetReturns(init: seq<int>, puts: seq<int>, g: nat)
    requires |init| > 0 && g < |puts| <= g + |init|
    ensures Ring(init, puts, 1)[g % |init|] == GetLaw(init, puts, g)
  {
    hide Ring;
    var n := |init|;
    if |puts| == g + n {
      ModulusRepeats(g, n, 0);
      SlotHoldsForOneTurn(init, puts, 1, |puts| - 1);
      assert |puts| - 1 + 1 == g + n;
    } else if g == 0 {
      DivisionIsUnique(0, n, 0, 0);
      SlotZeroUntouched(init, puts);
    } else {
      SlotHoldsForOneTurn(init, puts, 1, g - 1);
    }
  }

  // Indexing with the count read at line 102, before the increment, would have
  // made the buffer a queue: get g returns put g.
  lemma PreIncrementIsFifo(init: seq<int>, puts: seq<int>, g: nat)
    requires |init| > 0 && g < |puts| <= g + |init|
    ensures Ring(init, puts, 0)[g % |init|] == puts[g]
  {
    SlotHoldsForOneTurn(init, puts, 0, g);
  }

  // --------------------------------------------------- producers and consumers

  // `awaiting` is what a put or get reported; it is meaningful from Stored on.
  datatype Stage = Idle | Admitted | Inside | Stored | Leaving
  datatype Worker = Worker(stage: Stage, number: int, awaiting: int)
  datatype Got = Got(value: int, putsBefore: nat)

  datatype State = State(
    mem: Memory,
    putSem: nat, getSem: nat, mutex: nat,
    producers: seq<Worker>, consumers: seq<Worker>,
    puts: seq<int>, gets: seq<Got>)      // the order in which the mutex was granted

  // The five steps of put_task (put) and get_task (!put).
  datatype Action =
    | Admit(put: bool, i: nat, number: int)
    | Lock(put: bool, i: nat)
    | Body(put: bool, i: nat)
    | Unlock(put: bool, i: nat)
    | Finish(put: bool, i: nat)

  function Workers(s: State, put: bool): seq<Worker> {
    if put then s.producers else s.consumers
  }

  function SetWorker(s: State, put: bool, i: nat, w: Worker): State
    requires i < |Workers(s, put)|
  {
    if put then s.(producers := s.producers[i := w]) else s.(consumers := s.consumers[i := w])
  }

  function Initial(init: seq<int>, producers: nat, consumers: nat): State {
    State(Memory(init, 0, 0), |init|, 0, 1,
          seq(producers, _ => Worker(Idle, 0, 0)), seq(consumers, _ => Worker(Idle, 0, 0)), [], [])
  }

  predicate Can(s: State, a: Action) {
    && a.i < |Workers(s, a.put)|
    && var stage := Workers(s, a.put)[a.i].stage;
       match a
       case Admit(put, _, _) => stage.Idle? && (if put then s.putSem > 0 else s.getSem > 0)
       case Lock(_, _) => stage.Admitted? && s.mutex > 0
       case Body(_, _) => stage.Inside? && 0 <= s.mem.count && 0 <= s.mem.start < |s.mem.slots|
       case Unlock(_, _) => stage.Stored?
       case Finish(_, _) => stage.Leaving?
  }

  function After(s: State, a: Action): State
    requires Can(s, a)
  {
    var w := Workers(s, a.put)[a.i];
    match a
    case Admit(put, i, number) =>
      var t := SetWorker(s, put, i, Worker(Admitted, if put then number else w.number, w.awaiting));
      if put then t.(putSem := s.putSem - 1) else t.(getSem := s.getSem - 1)
    case Lock(put, i) => SetWorker(s, put, i, w.(stage := Inside)).(mutex := s.mutex - 1)
    case Body(true, i) =>
      var (mem, awaiting) := Put(s.mem, w.number);
      SetWorker(s, true, i, Worker(Stored, w.number, awaiting)).(mem := mem, puts := s.puts + [w.number])
    case Body(false, i) =>
      var (mem, number, awaiting) := Get(s.mem);
      SetWorker(s, false, i, Worker(Stored, number, awaiting))
        .(mem := mem, gets := s.gets + [Got(number, |s.puts|)])
    case Unlock(put, i) => SetWorker(s, put, i, w.(stage := Leaving)).(mutex := s.mutex + 1)
    case Finish(put, i) =>
      var t := SetWorker(s, put, i, w.(stage := Idle));
      if put then t.(getSem := s.getSem + 1) else t.(putSem := s.putSem + 1)
  }

  // ------------------------------------------------------------- invariants

  ghost function InFlight(): Worker -> int {
    (w: Worker) => if w.stage.Idle? then 0 else 1
  }

  ghost function BeforeBody(): Worker -> int {
    (w: Worker) => if w.stage.Admitted? || w.stage.Inside? then 1 else 0
  }

  ghost function AfterBody(): Worker -> int {
    (w: Worker) => if w.stage.Stored? || w.stage.Leaving? then 1 else 0
  }

  ghost function InMutex(): Worker -> int {
    (w: Worker) => if w.stage.Inside? || w.stage.Stored? then 1 else 0
  }

  ghost predicate SemaphoreInv(s: State, n: nat) {
    && s.putSem + s.getSem + Sum(InFlight(), s.producers) + Sum(InFlight(), s.consumers) == n
    && s.mem.count == s.getSem + Sum(AfterBody(), s.producers) + Sum(BeforeBody(), s.consumers)
    && s.mutex + Sum(InMutex(), s.producers) + Sum(InMutex(), s.consumers) == 1
  }

  ghost predicate RingInv(s: State, init: seq<int>) {
    && |init| > 0
    && s.mem.count == |s.puts| - |s.gets|
    && s.mem.start == |s.gets| % |init|
    && s.mem.slots == Ring(init, s.puts, 1)
    && forall g :: 0 <= g < |s.gets| ==>
         && g < s.gets[g].putsBefore <= g + |init|
         && s.gets[g].putsBefore <= |s.puts|
         && s.gets[g].value == GetLaw(init, s.puts[..s.gets[g].putsBefore], g)
  }

  ghost predicate Inv(s: State, init: seq<int>) {
    SemaphoreInv(s, |init|) && RingInv(s, init)
  }

  lemma InitialInv(init: seq<int>, producers: nat, consumers: nat)
    requires |init| > 0
    ensures Inv(Initial(init, producers, consumers), init)
  {
    var s := Initial(init, producers, consumers);
    forall f: Worker -> int | f(Worker(Idle, 0, 0)) == 0
      ensures Sum(f, s.producers) == 0 && Sum(f, s.consumers) == 0
    {
      SumZero(f, s.producers);
      SumZero(f, s.consumers);
    }
  }

  // How full the buffer can be when somebody is about to use it.
  lemma CountInRange(s: State, init: seq<int>)
    requires Inv(s, init)
    ensures 0 <= s.mem.count <= |init|
    ensures forall i :: 0 <= i < |s.producers| && s.producers[i].stage.Inside? ==> s.mem.count < |init|
    ensures forall i :: 0 <= i < |s.consumers| && s.consumers[i].stage.Inside? ==> s.mem.count > 0
  {
    SumNonNegative(AfterBody(), s.producers);
    SumNonNegative(BeforeBody(), s.producers);
    SumNonNegative(AfterBody(), s.consumers);
    SumNonNegative(BeforeBody(), s.consumers);
    BeforeAndAfter(s.producers);
    BeforeAndAfter(s.consumers);
    forall i | 0 <= i < |s.producers| && s.producers[i].stage.Inside?
      ensures s.mem.count < |init|
    {
      SumAtLeast(BeforeBody(), s.producers, i);
    }
    forall i | 0 <= i < |s.consumers| && s.consumers[i].stage.Inside?
      ensures s.mem.count > 0
    {
      SumAtLeast(BeforeBody(), s.consumers, i);
    }
  }

  lemma {:induction false} BeforeAndAfter(ws: seq<Worker>)
    ensures Sum(InFlight(), ws) == Sum(BeforeBody(), ws) + Sum(AfterBody(), ws)
  {
    if ws != [] {
      BeforeAndAfter(ws[..|ws| - 1]);
    }
  }

  lemma OneInsideMutex(s: State, init: seq<int>)
    requires Inv(s, init)
    ensures forall i, j :: 0 <= i < j < |s.producers| ==> InMutex()(s.producers[i]) + InMutex()(s.producers[j]) <= 1
    ensures forall i, j :: 0 <= i < j < |s.consumers| ==> InMutex()(s.consumers[i]) + InMutex()(s.consumers[j]) <= 1
    ensures forall i, j :: 0 <= i < |s.producers| && 0 <= j < |s.consumers| ==>
      InMutex()(s.producers[i]) + InMutex()(s.consumers[j]) <= 1
  {
    SumNonNegative(InMutex(), s.producers);
    SumNonNegative(InMutex(), s.consumers);
    forall i, j | 0 <= i < j < |s.producers|
      ensures InMutex()(s.producers[i]) + InMutex()(s.producers[j]) <= 1
    {
      SumAtLeastTwo(InMutex(), s.producers, i, j);
    }
    forall i, j | 0 <= i < j < |s.consumers|
      ensures InMutex()(s.consumers[i]) + InMutex()(s.consumers[j]) <= 1
    {
      SumAtLeastTwo(InMutex(), s.consumers, i, j);
    }
    forall i, j | 0 <= i < |s.producers| && 0 <= j < |s.consumers|
      ensures InMutex()(s.producers[i]) + InMutex()(s.consumers[j]) <= 1
    {
      SumAtLeast(InMutex(), s.producers, i);
      SumAtLeast(InMutex(), s.consumers, j);
    }
  }

  // What one step moves between the semaphores, the counter and the worker.
  lemma StepBalance(s: State, a: Action)
    requires Can(s, a)
    ensures var s' := After(s, a);
            var w, w' := Workers(s, a.put)[a.i], Workers(s', a.put)[a.i];
      && Workers(s', a.put) == Workers(s, a.put)[a.i := w'] && Workers(s', !a.put) == Workers(s, !a.put)
      && s'.putSem + s'.getSem + InFlight()(w') == s.putSem + s.getSem + InFlight()(w)
      && s'.mutex + InMutex()(w') == s.mutex + InMutex()(w)
      && (if a.put then s'.mem.count - s'.getSem - AfterBody()(w') == s.mem.count - s.getSem - AfterBody()(w)
          else s'.mem.count - s'.getSem - BeforeBody()(w') == s.mem.count - s.getSem - BeforeBody()(w))
  {
  }

  lemma StepSemaphores(s: State, a: Action, n: nat)
    requires SemaphoreInv(s, n) && Can(s, a)
    ensures SemaphoreInv(After(s, a), n)
  {
    hide After, InFlight, InMutex, BeforeBody, AfterBody;
    StepBalance(s, a);
    var ws, w' := Workers(s, a.put), Workers(After(s, a), a.put)[a.i];
    assert Workers(s, true) == s.producers && Workers(After(s, a), true) == After(s, a).producers;
    SumUpdate(InFlight(), ws, a.i, w');
    SumUpdate(BeforeBody(), ws, a.i, w');
    SumUpdate(AfterBody(), ws, a.i, w');
    SumUpdate(InMutex(), ws, a.i, w');
  }

  lemma StepRing(s: State, a: Action, init: seq<int>)
    requires Inv(s, init) && Can(s, a)
    ensures RingInv(After(s, a), init)
  {
    CountInRange(s, init);
    var n := |init|;
    if a.Body? && a.put {
      PutSlot(s, a.i, init);
    } else if a.Body? {
      GetSlot(s, a.i, init);
    }
  }

  lemma PutSlot(s: State, i: nat, init: seq<int>)
    requires Inv(s, init) && Can(s, Body(true, i))
    ensures RingInv(After(s, Body(true, i)), init)
  {
    var s' := After(s, Body(true, i));
    var P, G := |s.puts|, |s.gets|;
    CountInRange(s, init);
    ModulusRepeats(G, |init|, P - G + 1);
    assert s'.puts[..P] == s.puts;
    forall g | 0 <= g < |s.gets|
      ensures s'.puts[..s.gets[g].putsBefore] == s.puts[..s.gets[g].putsBefore]
    {
    }
  }

  lemma GetSlot(s: State, i: nat, init: seq<int>)
    requires Inv(s, init) && Can(s, Body(false, i))
    ensures RingInv(After(s, Body(false, i)), init)
  {
    CountInRange(s, init);
    ModulusRepeats(|s.gets|, |init|, 1);
    GetReturns(init, s.puts, |s.gets|);
    assert s.puts[..|s.puts|] == s.puts;
  }

  lemma StepInv(s: State, a: Action, init: seq<int>)
    requires Inv(s, init) && Can(s, a)
    ensures Inv(After(s, a), init)
  {
    StepSemaphores(s, a, |init|);
    StepRing(s, a, init);
  }

  // ------------------------------------------------------------------ progress

  // With a producer and a consumer around, some thread can always step: the
  // one inside the mutex, else one at its door, else one at a semaphore.
  lemma SomebodyCanStep(s: State, init: seq<int>)
    requires Inv(s, init) && |s.producers| > 0 && |s.consumers| > 0
    ensures exists a :: Can(s, a)
  {
    CountInRange(s, init);
    if put: bool, i: nat :| i < |Workers(s, put)| && !Workers(s, put)[i].stage.Idle? {
      var stage := Workers(s, put)[i].stage;
      if !stage.Admitted? {
        assert Can(s, BusyAction(put, i, stage));
      } else if s.mutex > 0 {
        assert Can(s, Lock(put, i));
      } else {
        var h := Sum(InMutex(), s.producers) > 0;
        var k := SumWitness(InMutex(), Workers(s, h));
        assert Can(s, BusyAction(h, k, Workers(s, h)[k].stage));
      }
    } else {
      assert Workers(s, true) == s.producers && Workers(s, false) == s.consumers;
      forall k | 0 <= k < |s.producers| ensures s.producers[k].stage.Idle? {
        assert Workers(s, true)[k].stage.Idle?;
      }
      forall k | 0 <= k < |s.consumers| ensures s.consumers[k].stage.Idle? {
        assert Workers(s, false)[k].stage.Idle?;
      }
      SumZero(InFlight(), s.producers);
      SumZero(InFlight(), s.consumers);
      assert Workers(s, true)[0].stage.Idle? && Workers(s, false)[0].stage.Idle?;
      assert Can(s, Admit(s.putSem > 0, 0, 0));
    }
  }

  function BusyAction(put: bool, i: nat, stage: Stage): Action {
    if stage.Inside? then Body(put, i) else if stage.Stored? then Unlock(put, i) else Finish(put, i)
  }

  // What a thread reports as awaiting is the number of tasks in the ring besides
  // the one it puts or gets.
  lemma AwaitingIsFillLevel(s: State, a: Action, init: seq<int>)
    requires Inv(s, init) && Can(s, a) && a.Body?
    ensures Workers(After(s, a), a.put)[a.i].awaiting == |s.puts| - |s.gets| - if a.put then 0 else 1
  {
  }

  // That is always a legal fill level.
  lemma AwaitingInRange(s: State, a: Action, init: seq<int>)
    requires Inv(s, init) && Can(s, a) && a.Body?
    ensures 0 <= Workers(After(s, a), a.put)[a.i].awaiting < |init|
  {
    CountInRange(s, init);
  }

  // ---------------------------------------------------------------- whole runs

  ghost predicate IsRun(states: seq<State>, actions: seq<Action>, init: seq<int>) {
    && |init| > 0
    && |states| == |actions| + 1
    && (exists p: nat, c: nat :: states[0] == Initial(init, p, c))
    && forall k :: 0 <= k < |actions| ==> Can(states[k], actions[k]) && states[k + 1] == After(states[k], actions[k])
  }

  lemma {:induction false} RunKeepsInv(states: seq<State>, actions: seq<Action>, init: seq<int>, k: nat)
    requires IsRun(states, actions, init) && k < |states|
    ensures Inv(states[k], init)
  {
    if k == 0 {
      var p: nat, c: nat :| states[0] == Initial(init, p, c);
      InitialInv(init, p, c);
    } else {
      RunKeepsInv(states, actions, init, k - 1);
      StepInv(states[k - 1], actions[k - 1], init);
    }
  }

  // The exact law of the ring, for any number of threads and any schedule: the
  // get that enters the mutex as number g reports the value the law gives for
  // the puts that entered before it.
  lemma EveryGetObeysTheLaw(states: seq<State>, actions: seq<Action>, init: seq<int>, k: nat)
    requires IsRun(states, actions, init) && k < |actions| && actions[k] == Body(false, actions[k].i)
    ensures var s, i := states[k], actions[k].i;
      && |s.gets| < |s.puts| <= |s.gets| + |init|
      && i < |states[k + 1].consumers|
      && states[k + 1].consumers[i].number == GetLaw(init, s.puts, |s.gets|)
  {
    RunKeepsInv(states, actions, init, k);
    CountInRange(states[k], init);
    GetReturns(init, states[k].puts, |states[k].gets|);
  }

  // Get g has returned put g.
  ghost predicate InOrder(s: State) {
    |s.gets| <= |s.puts| && forall g :: 0 <= g < |s.gets| ==> s.gets[g].value == s.puts[g]
  }

  ghost predicate AlwaysFifo(init: seq<int>) {
    forall s :: Reaches(s, init) ==> InOrder(s)
  }

  ghost predicate Reaches(s: State, init: seq<int>) {
    exists states, actions :: IsRun(states, actions, init) && states[|actions|] == s
  }

  lemma ReachesInv(s: State, init: seq<int>)
    requires Reaches(s, init)
    ensures Inv(s, init)
  {
    var states, actions :| IsRun(states, actions, init) && states[|actions|] == s;
    RunKeepsInv(states, actions, init, |actions|);
  }

  lemma ReachesInitial(init: seq<int>, producers: nat, consumers: nat)
    requires |init| > 0
    ensures Reaches(Initial(init, producers, consumers), init)
  {
    var states, actions: seq<Action> := [Initial(init, producers, consumers)], [];
    assert IsRun(states, actions, init) && states[|actions|] == Initial(init, producers, consumers);
  }

  lemma Step(s: State, a: Action, init: seq<int>) returns (t: State)
    requires Reaches(s, init) && Can(s, a)
    ensures t == After(s, a) && Reaches(t, init)
  {
    hide Can, After, Initial;
    t := After(s, a);
    var states, actions :| IsRun(states, actions, init) && states[|actions|] == s;
    var states', actions' := states + [t], actions + [a];
    assert IsRun(states', actions', init) && states'[|actions'|] == t;
  }

  // One put and one get, by one thread each.
  lemma PutThenGet(init: seq<int>, x: int) returns (s: State)
    requires |init| >= 2
    ensures Reaches(s, init) && s.puts == [x] && |s.gets| == 1 && s.gets[0].value == init[0]
  {
    hide Reaches;
    DivisionIsUnique(1, |init|, 0, 1);
    ReachesInitial(init, 1, 1);
    s := Step(Initial(init, 1, 1), Admit(true, 0, x), init);
    s := Step(s, Lock(true, 0), init);
    s := Step(s, Body(true, 0), init);
    assert s.mem == Memory(init[1 := x], 1, 0) && s.puts == [x] && s.gets == [];
    s := Step(s, Unlock(true, 0), init);
    s := Step(s, Finish(true, 0), init);
    s := Step(s, Admit(false, 0, 0), init);
    s := Step(s, Lock(false, 0), init);
    assert s.mem.slots[0] == init[0];
    s := Step(s, Body(false, 0), init);
  }

  lemma SingleSlot(s: State, init: seq<int>)
    requires |init| == 1 && Reaches(s, init)
    ensures InOrder(s)
  {
    hide Ring, SemaphoreInv, Reaches;
    ReachesInv(s, init);
    CountInRange(s, init);
    forall g | 0 <= g < |s.gets|
      ensures s.gets[g].value == s.puts[g]
    {
      assert s.gets[g].putsBefore == g + 1;
      assert s.gets[g].value == GetLaw(init, s.puts[..g + 1], g) == s.puts[..g + 1][g];
    }
  }

  // As written, the buffer is a queue exactly when it has a single slot. A put and
  // then a get show it: the put went to slot 1, and the get returns the initial
  // content of slot 0.
  lemma FifoIffSingleSlot(init: seq<int>)
    requires |init| > 0
    ensures AlwaysFifo(init) <==> |init| == 1
  {
    hide Reaches;
    if |init| == 1 {
      forall s | Reaches(s, init)
        ensures InOrder(s)
      {
        SingleSlot(s, init);
      }
    } else {
      var s := PutThenGet(init, init[0] + 1);
      assert s.gets[0].value != s.puts[0];
    }
  }

  // ------------------------------------------------------ what the calls return

  // How many puts, or gets, have been through the guarded section by time k.
  function BodiesBefore(actions: seq<Action>, put: bool, k: nat): nat
    requires k <= |actions|
  {
    if k == 0 then 0
    else BodiesBefore(actions, put, k - 1) + if actions[k - 1].Body? && actions[k - 1].put == put then 1 else 0
  }

  lemma {:induction false} LogsCount(states: seq<State>, actions: seq<Action>, init: seq<int>, k: nat)
    requires IsRun(states, actions, init) && k < |states|
    ensures |states[k].puts| == BodiesBefore(actions, true, k)
    ensures |states[k].gets| == BodiesBefore(actions, false, k)
  {
    if k > 0 {
      LogsCount(states, actions, init, k - 1);
      LogsGrow(states[k - 1], actions[k - 1]);
    }
  }

  lemma LogsGrow(s: State, a: Action)
    requires Can(s, a)
    ensures |After(s, a).puts| == |s.puts| + if a.Body? && a.put then 1 else 0
    ensures |After(s, a).gets| == |s.gets| + if a.Body? && !a.put then 1 else 0
  {
  }

  lemma OthersStay(s: State, a: Action, put: bool, i: nat)
    requires Can(s, a) && i < |Workers(s, put)| && (a.put != put || a.i != i)
    ensures |Workers(After(s, a), put)| == |Workers(s, put)| && Workers(After(s, a), put)[i] == Workers(s, put)[i]
  {
  }

  lemma StageBefore(s: State, a: Action)
    requires Can(s, a)
    ensures var ws, ws' := Workers(s, a.put), Workers(After(s, a), a.put);
      && |ws'| == |ws|
      && (ws'[a.i].stage.Stored? || ws'[a.i].stage.Leaving? ==>
            a.Body? || (ws[a.i].stage.Stored? && ws'[a.i] == ws[a.i].(stage := Leaving)))
      && (a.put && ws'[a.i].stage.Admitted? ==> a == Admit(true, a.i, ws'[a.i].number))
      && (a.put && ws'[a.i].stage.Inside? ==> ws[a.i].stage.Admitted? && ws'[a.i].number == ws[a.i].number)
  {
  }

  // A thread behind its guarded section: what it has got there it still has.
  lemma {:induction false} StoredSince(states: seq<State>, actions: seq<Action>, init: seq<int>, put: bool,
                                       i: nat, k: nat)
    returns (j: nat)
    requires IsRun(states, actions, init) && k < |states| && i < |Workers(states[k], put)|
    requires Workers(states[k], put)[i].stage.Stored? || Workers(states[k], put)[i].stage.Leaving?
    ensures j < k && actions[j] == Body(put, i) && i < |Workers(states[j + 1], put)|
    ensures Workers(states[k], put)[i].number == Workers(states[j + 1], put)[i].number
    ensures Workers(states[k], put)[i].awaiting == Workers(states[j + 1], put)[i].awaiting
    decreases k
  {
    hide Can, After, Workers;
    if k == 0 {
      StartIsIdle(states[0], init, put);
    } else {
      var s, a := states[k - 1], actions[k - 1];
      assert Can(s, a) && states[k] == After(s, a);
      if a == Body(put, i) {
        j := k - 1;
      } else {
        if a.put == put && a.i == i {
          StageBefore(s, a);
        } else {
          Lengths(s, a, put);
          OthersStay(s, a, put, i);
        }
        j := StoredSince(states, actions, init, put, i, k - 1);
      }
    }
  }

  lemma Lengths(s: State, a: Action, put: bool)
    requires Can(s, a)
    ensures |Workers(After(s, a), put)| == |Workers(s, put)|
  {
  }

  lemma StartIsIdle(s: State, init: seq<int>, put: bool)
    requires exists p: nat, c: nat :: s == Initial(init, p, c)
    ensures forall i :: 0 <= i < |Workers(s, put)| ==> Workers(s, put)[i].stage.Idle?
  {
  }

  // A producer on its way to the guarded section: the number it was called with.
  lemma {:induction false} AdmittedSince(states: seq<State>, actions: seq<Action>, init: seq<int>, i: nat, k: nat)
    returns (h: nat)
    requires IsRun(states, actions, init) && k < |states| && i < |Workers(states[k], true)|
    requires Workers(states[k], true)[i].stage.Admitted? || Workers(states[k], true)[i].stage.Inside?
    ensures h < k && actions[h] == Admit(true, i, Workers(states[k], true)[i].number)
    decreases k
  {
    hide Can, After, Workers;
    if k == 0 {
      StartIsIdle(states[0], init, true);
    } else {
      var s, a := states[k - 1], actions[k - 1];
      assert Can(s, a) && states[k] == After(s, a);
      if a.put && a.i == i {
        StageBefore(s, a);
        if Workers(states[k], true)[i].stage.Admitted? {
          h := k - 1;
        } else {
          h := AdmittedSince(states, actions, init, i, k - 1);
        }
      } else {
        Lengths(s, a, true);
        OthersStay(s, a, true, i);
        h := AdmittedSince(states, actions, init, i, k - 1);
      }
    }
  }

  // What put_task has done when it returns: the number it was called with went into
  // the ring, and it reports how many tasks were there.
  lemma PutTaskReturns(states: seq<State>, actions: seq<Action>, init: seq<int>, i: nat, k: nat)
    returns (h: nat, j: nat)
    requires IsRun(states, actions, init) && k < |actions| && actions[k] == Finish(true, i)
    ensures h < j < k && actions[j] == Body(true, i) && i < |states[k].producers|
    ensures var number := states[k].producers[i].number;
      actions[h] == Admit(true, i, number) && states[j + 1].puts == states[j].puts + [number]
    ensures states[k].producers[i].awaiting == BodiesBefore(actions, true, j) - BodiesBefore(actions, false, j)
  {
    assert Can(states[k], actions[k]) && Workers(states[k], true) == states[k].producers;
    j := StoredSince(states, actions, init, true, i, k);
    var s := states[j];
    assert Can(s, actions[j]) && Workers(s, true) == s.producers;
    RunKeepsInv(states, actions, init, j);
    LogsCount(states, actions, init, j);
    AwaitingIsFillLevel(s, actions[j], init);
    h := AdmittedSince(states, actions, init, i, j);
  }

  // What get_task returns: the value the law of the ring gives, and how many tasks
  // are left.
  lemma GetTaskReturns(states: seq<State>, actions: seq<Action>, init: seq<int>, i: nat, k: nat) returns (j: nat)
    requires IsRun(states, actions, init) && k < |actions| && actions[k] == Finish(false, i)
    ensures j < k && actions[j] == Body(false, i) && i < |states[k].consumers|
    ensures |states[j].gets| < |states[j].puts| <= |states[j].gets| + |init|
    ensures var puts, g := states[j].puts, |states[j].gets|;
      states[k].consumers[i].number ==
        if |puts| == g + |init| then puts[|puts| - 1] else if g == 0 then init[0] else puts[g - 1]
    ensures states[k].consumers[i].awaiting == BodiesBefore(actions, true, j) - BodiesBefore(actions, false, j) - 1
  {
    assert Can(states[k], actions[k]) && Workers(states[k], false) == states[k].consumers;
    j := StoredSince(states, actions, init, false, i, k);
    var s := states[j];
    assert Can(s, actions[j]) && Workers(s, false) == s.consumers;
    RunKeepsInv(states, actions, init, j);
    LogsCount(states, actions, init, j);
    AwaitingIsFillLevel(s, actions[j], init);
    EveryGetObeysTheLaw(states, actions, init, j);
    assert Workers(states[j + 1], false) == states[j + 1].consumers;
  }

  // ---------------------------------------------------- the memory block itself

  // The mapped block: the slots, then the counter, then the start index.
  class SharedBlock {
    const cells: array<int>

    ghost predicate Valid()
      reads this, cells
    {
      cells.Length > 2 && cells[cells.Length - 2] >= 0 && 0 <= cells[cells.Length - 1] < cells.Length - 2
    }

    ghost function Contents(): Memory
      reads this, cells
      requires cells.Length > 2
    {
      var n := cells.Length - 2;
      Memory(cells[..n], cells[n], cells[n + 1])
    }

    constructor (capacity: nat)
      requires capacity > 0
      ensures fresh(cells) && cells.Length == capacity + 2 && Valid()
      ensures Contents().count == 0 && Contents().start == 0
    {
      cells := new int[capacity + 2](_ => 0);
    }

    // The guarded body of put_task.
    method PutTask(number: int) returns (awaiting: int)
      requires Valid()
      modifies cells
      ensures Valid() && (Contents(), awaiting) == Put(old(Contents()), number)
    {
      var capacity := cells.Length - 2;
      var numTasksInBuffer := cells[capacity];
      awaiting := numTasksInBuffer;
      numTasksInBuffer := numTasksInBuffer + 1;
      cells[capacity] := numTasksInBuffer;
      var startIndex := cells[capacity + 1];
      var putIndex := startIndex + numTasksInBuffer;
      putIndex := putIndex % capacity;
      cells[putIndex] := number;
    }

    // The guarded body of get_task.
    method GetTask() returns (number: int, awaiting: int)
      requires Valid() && cells[cells.Length - 2] > 0
      modifies cells
      ensures Valid() && (Contents(), number, awaiting) == Get(old(Contents()))
    {
      var capacity := cells.Length - 2;
      var numTasksInBuffer := cells[capacity];
      numTasksInBuffer := numTasksInBuffer - 1;
      awaiting := numTasksInBuffer;
      cells[capacity] := numTasksInBuffer;
      var startIndex := cells[capacity + 1];
      var getIndex := startIndex;
      startIndex := startIndex + 1;
      startIndex := startIndex % capacity;
      cells[capacity + 1] := startIndex;
      number := cells[getIndex];
    }
  }
}

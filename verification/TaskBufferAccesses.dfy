// The task buffer of lab7 with every access to the shared block a step of its
// own. TaskBuffer takes the code between the two mutex operations in one step;
// here it is four accesses for a put and five for a get, and threads interleave
// between them. This machine refines that one, so the law of the ring, the
// semaphore sums and the absence of deadlock hold for it as well.
module TaskBufferAccesses {
  import opened Sums
  import opened TaskBuffer

  // A thread's local variables in the guarded section, and how many accesses it
  // has made there.
  datatype Regs = Regs(step: nat, count: int, start: int)

  // `s.mem` is the block as it is now, also halfway through a guarded section.
  datatype Fine = Fine(s: State, putRegs: seq<Regs>, getRegs: seq<Regs>)

  function RegsOf(f: Fine, put: bool): seq<Regs> {
    if put then f.putRegs else f.getRegs
  }

  function SetRegs(f: Fine, put: bool, i: nat, r: Regs): Fine
    requires i < |RegsOf(f, put)|
  {
    if put then f.(putRegs := f.putRegs[i := r]) else f.(getRegs := f.getRegs[i := r])
  }

  predicate Sized(f: Fine) {
    |f.putRegs| == |f.s.producers| && |f.getRegs| == |f.s.consumers|
  }

  function InitialFine(init: seq<int>, producers: nat, consumers: nat): Fine {
    Fine(Initial(init, producers, consumers), seq(producers, _ => Regs(0, 0, 0)), seq(consumers, _ => Regs(0, 0, 0)))
  }

  // Inside the guarded section a thread can always make its next access.
  predicate FineCan(f: Fine, a: Action) {
    && Sized(f) && a.i < |Workers(f.s, a.put)|
    && if a.Body? then Workers(f.s, a.put)[a.i].stage.Inside? else Can(f.s, a)
  }

  predicate LastAccess(f: Fine, a: Action)
    requires FineCan(f, a) && a.Body?
  {
    RegsOf(f, a.put)[a.i].step == if a.put then 3 else 4
  }

  // The remainder of a division by the capacity is taken, and the slot exists.
  predicate Defined(f: Fine, a: Action)
    requires FineCan(f, a)
  {
    a.Body? ==>
      var r, n := RegsOf(f, a.put)[a.i], |f.s.mem.slots|;
      && r.step <= (if a.put then 3 else 4)
      && n > 0
      && (LastAccess(f, a) ==> if a.put then r.start + r.count >= 0 else 0 <= r.start < n)
  }

  // Lines 101-111, one access at a time.
  function PutAccess(f: Fine, i: nat): Fine
    requires FineCan(f, Body(true, i)) && Defined(f, Body(true, i))
  {
    var r, m, w := f.putRegs[i], f.s.mem, f.s.producers[i];
    match r.step
    case 0 => SetRegs(f, true, i, Regs(1, m.count + 1, r.start))
    case 1 => SetRegs(f, true, i, r.(step := 2)).(s := f.s.(mem := m.(count := r.count)))
    case 2 => SetRegs(f, true, i, Regs(3, r.count, m.start))
    case 3 =>
      var slots := m.slots[(r.start + r.count) % |m.slots| := w.number];
      var t := SetWorker(f.s, true, i, Worker(Stored, w.number, r.count - 1));
      SetRegs(f, true, i, r.(step := 0)).(s := t.(mem := m.(slots := slots), puts := f.s.puts + [w.number]))
  }

  // Lines 124-135.
  function GetAccess(f: Fine, i: nat): Fine
    requires FineCan(f, Body(false, i)) && Defined(f, Body(false, i))
  {
    var r, m := f.getRegs[i], f.s.mem;
    match r.step
    case 0 => SetRegs(f, false, i, Regs(1, m.count - 1, r.start))
    case 1 => SetRegs(f, false, i, r.(step := 2)).(s := f.s.(mem := m.(count := r.count)))
    case 2 => SetRegs(f, false, i, Regs(3, r.count, m.start))
    case 3 => SetRegs(f, false, i, r.(step := 4)).(s := f.s.(mem := m.(start := (r.start + 1) % |m.slots|)))
    case 4 =>
      var t := SetWorker(f.s, false, i, Worker(Stored, m.slots[r.start], r.count));
      SetRegs(f, false, i, r.(step := 0)).(s := t.(gets := f.s.gets + [Got(m.slots[r.start], |f.s.puts|)]))
  }

  function FineAfter(f: Fine, a: Action): Fine
    requires FineCan(f, a) && Defined(f, a)
  {
    if !a.Body? then f.(s := After(f.s, a))
    else if a.put then PutAccess(f, a.i) else GetAccess(f, a.i)
  }

  // Each access brings its thread one further: a put makes four, a get five, and
  // the last one takes it out of the guarded section.
  lemma AccessesAdvance(f: Fine, a: Action)
    requires FineCan(f, a) && Defined(f, a) && a.Body?
    ensures var f' := FineAfter(f, a);
      var r, r' := RegsOf(f, a.put)[a.i], RegsOf(f', a.put)[a.i];
      if r.step < (if a.put then 3 else 4)
      then r'.step == r.step + 1 && Workers(f'.s, a.put)[a.i].stage.Inside?
      else r'.step == 0 && Workers(f'.s, a.put)[a.i].stage.Stored?
  {
  }

  // -------------------------------------------------------------- refinement

  // The block `now` halfway through a guarded section that found it as `m`.
  ghost predicate Midway(put: bool, m: Memory, r: Regs, now: Memory)
    requires |m.slots| > 0
  {
    && (r.step >= 1 ==> r.count == if put then m.count + 1 else m.count - 1)
    && (r.step >= 3 ==> r.start == m.start)
    && r.step <= (if put then 3 else 4)
    && now == Memory(m.slots, if r.step >= 2 then r.count else m.count,
                     if r.step >= 4 then (m.start + 1) % |m.slots| else m.start)
  }

  ghost predicate WorkerShows(f: Fine, s: State, put: bool, i: nat)
    requires |s.mem.slots| > 0 && i < |Workers(s, put)| && i < |RegsOf(f, put)|
  {
    if Workers(s, put)[i].stage.Inside?
    then Midway(put, s.mem, RegsOf(f, put)[i], f.s.mem)
    else RegsOf(f, put)[i].step == 0
  }

  ghost predicate NobodyInside(s: State) {
    forall put: bool, i: nat :: i < |Workers(s, put)| ==> !Workers(s, put)[i].stage.Inside?
  }

  // A state of the coarse machine shows the block as it was when the thread in
  // the guarded section came in; everything else agrees.
  ghost predicate Shows(f: Fine, s: State) {
    && Sized(f) && |s.mem.slots| > 0
    && f.s == s.(mem := f.s.mem)
    && (forall put: bool, i: nat :: i < |Workers(s, put)| ==> WorkerShows(f, s, put, i))
    && (NobodyInside(s) ==> f.s.mem == s.mem)
  }

  // Everyone else is outside while a thread is in the mutex; nobody is in it
  // when it can be taken.
  ghost predicate Alone(s: State, put: bool, i: nat) {
    forall p: bool, j: nat :: j < |Workers(s, p)| && (p != put || j != i) ==> !Workers(s, p)[j].stage.Inside?
  }

  lemma AloneInside(s: State, init: seq<int>, put: bool, i: nat)
    requires Inv(s, init) && i < |Workers(s, put)| && Workers(s, put)[i].stage.Inside?
    ensures Alone(s, put, i)
  {
    OneInsideMutex(s, init);
    assert InMutex()(Workers(s, put)[i]) == 1;
    forall p: bool, j: nat | j < |Workers(s, p)| && (p != put || j != i)
      ensures !Workers(s, p)[j].stage.Inside?
    {
      assert InMutex()(Workers(s, put)[i]) + InMutex()(Workers(s, p)[j]) <= 1 by {
        if p == put {
          var k, l := if i < j then i else j, if i < j then j else i;
          assert InMutex()(Workers(s, p)[k]) + InMutex()(Workers(s, p)[l]) <= 1;
        }
      }
    }
  }

  lemma OpenMeansNobody(s: State, init: seq<int>)
    requires Inv(s, init) && s.mutex > 0
    ensures NobodyInside(s)
  {
    SumNonNegative(InMutex(), s.producers);
    SumNonNegative(InMutex(), s.consumers);
    forall put: bool, i: nat | i < |Workers(s, put)|
      ensures !Workers(s, put)[i].stage.Inside?
    {
      SumAtLeast(InMutex(), Workers(s, put), i);
    }
  }

  lemma AccessIsDefined(f: Fine, s: State, a: Action, init: seq<int>)
    requires Inv(s, init) && Shows(f, s) && FineCan(f, a)
    ensures Defined(f, a)
  {
    CountInRange(s, init);
    if a.Body? {
      assert WorkerShows(f, s, a.put, a.i);
    }
  }

  // Threads other than the one that moves.
  ghost predicate OthersSame(f: Fine, s: State, f': Fine, s': State, put: bool, i: nat)
    requires Sized(f) && f.s == s.(mem := f.s.mem)
  {
    && Sized(f') && f'.s == s'.(mem := f'.s.mem) && |s'.mem.slots| > 0
    && i < |Workers(s, put)|
    && forall p: bool :: |Workers(s', p)| == |Workers(s, p)|
         && forall j: nat :: j < |Workers(s, p)| && (p != put || j != i) ==>
              Workers(s', p)[j] == Workers(s, p)[j] && RegsOf(f', p)[j] == RegsOf(f, p)[j]
  }

  lemma OthersStillShow(f: Fine, s: State, f': Fine, s': State, put: bool, i: nat)
    requires Shows(f, s) && OthersSame(f, s, f', s', put, i)
    requires Alone(s, put, i) || (f'.s.mem == f.s.mem && s'.mem == s.mem)
    requires WorkerShows(f', s', put, i)
    requires NobodyInside(s') ==> f'.s.mem == s'.mem
    ensures Shows(f', s')
  {
    forall p: bool, j: nat | j < |Workers(s', p)|
      ensures WorkerShows(f', s', p, j)
    {
      if p != put || j != i {
        assert WorkerShows(f, s, p, j);
        assert Workers(s', p)[j] == Workers(s, p)[j] && RegsOf(f', p)[j] == RegsOf(f, p)[j];
      }
    }
  }

  // An access of a put: the coarse machine sees the last one only.
  lemma PutRefines(f: Fine, s: State, i: nat, init: seq<int>)
    requires Inv(s, init) && Shows(f, s) && FineCan(f, Body(true, i)) && !LastAccess(f, Body(true, i))
    ensures Defined(f, Body(true, i)) && Shows(PutAccess(f, i), s)
  {
    AccessIsDefined(f, s, Body(true, i), init);
    AloneInside(s, init, true, i);
    hide Inv;
    assert WorkerShows(f, s, true, i);
    assert Workers(s, true)[i].stage.Inside?;
    OthersStillShow(f, s, PutAccess(f, i), s, true, i);
  }

  lemma GetRefines(f: Fine, s: State, i: nat, init: seq<int>)
    requires Inv(s, init) && Shows(f, s) && FineCan(f, Body(false, i)) && !LastAccess(f, Body(false, i))
    ensures Defined(f, Body(false, i)) && Shows(GetAccess(f, i), s)
  {
    AccessIsDefined(f, s, Body(false, i), init);
    AloneInside(s, init, false, i);
    assert WorkerShows(f, s, false, i);
    assert Workers(s, false)[i].stage.Inside?;
    OthersStillShow(f, s, GetAccess(f, i), s, false, i);
  }

  lemma PutEnds(f: Fine, s: State, i: nat, init: seq<int>)
    requires Inv(s, init) && Shows(f, s) && FineCan(f, Body(true, i)) && LastAccess(f, Body(true, i))
    ensures Defined(f, Body(true, i)) && Can(s, Body(true, i))
    ensures Shows(PutAccess(f, i), After(s, Body(true, i)))
  {
    AccessIsDefined(f, s, Body(true, i), init);
    CountInRange(s, init);
    AloneInside(s, init, true, i);
    assert WorkerShows(f, s, true, i);
    OthersStillShow(f, s, PutAccess(f, i), After(s, Body(true, i)), true, i);
  }

  lemma GetEnds(f: Fine, s: State, i: nat, init: seq<int>)
    requires Inv(s, init) && Shows(f, s) && FineCan(f, Body(false, i)) && LastAccess(f, Body(false, i))
    ensures Defined(f, Body(false, i)) && Can(s, Body(false, i))
    ensures Shows(GetAccess(f, i), After(s, Body(false, i)))
  {
    AccessIsDefined(f, s, Body(false, i), init);
    CountInRange(s, init);
    AloneInside(s, init, false, i);
    assert WorkerShows(f, s, false, i);
    OthersStillShow(f, s, GetAccess(f, i), After(s, Body(false, i)), false, i);
  }

  // The steps outside the guarded section are the same in both machines.
  lemma OutsideMoves(f: Fine, s: State, a: Action)
    requires Sized(f) && |s.mem.slots| > 0 && f.s == s.(mem := f.s.mem) && FineCan(f, a) && !a.Body?
    ensures Can(s, a) && OthersSame(f, s, f.(s := After(f.s, a)), After(s, a), a.put, a.i)
    ensures After(f.s, a).mem == f.s.mem && After(s, a).mem == s.mem
    ensures !Workers(s, a.put)[a.i].stage.Inside?
    ensures Workers(After(s, a), a.put)[a.i].stage.Inside? <==> a.Lock?
  {
  }

  lemma OutsideRefines(f: Fine, s: State, a: Action, init: seq<int>)
    requires Inv(s, init) && Shows(f, s) && FineCan(f, a) && !a.Body?
    ensures Can(s, a) && Shows(f.(s := After(f.s, a)), After(s, a))
  {
    hide Inv, After, FineCan;
    OutsideMoves(f, s, a);
    var f', s' := f.(s := After(f.s, a)), After(s, a);
    assert WorkerShows(f, s, a.put, a.i);
    if a.Lock? {
      OpenMeansNobody(s, init);
    } else if NobodyInside(s') {
      NobodyStill(s, a);
    }
    assert WorkerShows(f', s', a.put, a.i);
    OthersStillShow(f, s, f', s', a.put, a.i);
  }

  lemma NobodyStill(s: State, a: Action)
    requires Can(s, a) && !a.Lock? && !a.Body? && NobodyInside(After(s, a))
    ensures NobodyInside(s)
  {
    forall put: bool, i: nat | i < |Workers(s, put)|
      ensures !Workers(s, put)[i].stage.Inside?
    {
      assert !Workers(After(s, a), put)[i].stage.Inside?;
    }
  }

  // A step of the fine machine is a step of the coarse one, or not visible there.
  lemma StepRefines(f: Fine, s: State, a: Action, init: seq<int>)
    requires Inv(s, init) && Shows(f, s) && FineCan(f, a)
    ensures Defined(f, a)
    ensures if a.Body? && !LastAccess(f, a) then Shows(FineAfter(f, a), s)
            else Can(s, a) && Shows(FineAfter(f, a), After(s, a))
  {
    hide Inv, Shows, After, PutAccess, GetAccess, Can;
    AccessIsDefined(f, s, a, init);
    if !a.Body? {
      OutsideRefines(f, s, a, init);
    } else if a.put && LastAccess(f, a) {
      PutEnds(f, s, a.i, init);
    } else if a.put {
      PutRefines(f, s, a.i, init);
    } else if LastAccess(f, a) {
      GetEnds(f, s, a.i, init);
    } else {
      GetRefines(f, s, a.i, init);
    }
  }

  // ---------------------------------------------------------------- whole runs

  ghost predicate IsFineRun(states: seq<Fine>, actions: seq<Action>, init: seq<int>, producers: nat, consumers: nat) {
    && |init| > 0
    && |states| == |actions| + 1
    && states[0] == InitialFine(init, producers, consumers)
    && forall k :: 0 <= k < |actions| ==>
         && FineCan(states[k], actions[k])
         && (Defined(states[k], actions[k]) ==> states[k + 1] == FineAfter(states[k], actions[k]))
  }

  // Every run of the fine machine shows a run of the coarse one.
  lemma {:induction false} RunRefines(states: seq<Fine>, actions: seq<Action>, init: seq<int>,
                                      producers: nat, consumers: nat)
    returns (coarse: seq<State>, coarseActions: seq<Action>)
    requires IsFineRun(states, actions, init, producers, consumers)
    ensures IsRun(coarse, coarseActions, init)
    ensures Shows(states[|actions|], coarse[|coarseActions|])
    ensures |states[|actions|].s.producers| == producers && |states[|actions|].s.consumers| == consumers
  {
    hide Shows, Inv, After, FineAfter, Can, FineCan, Defined, Initial;
    if actions == [] {
      coarse, coarseActions := CoarseStart(init, producers, consumers);
    } else {
      var m := |actions| - 1;
      coarse, coarseActions := RunRefines(states[..m + 1], actions[..m], init, producers, consumers);
      var s, f, a := coarse[|coarseActions|], states[m], actions[m];
      RunKeepsInv(coarse, coarseActions, init, |coarseActions|);
      StepRefines(f, s, a, init);
      ThreadsStay(f, a);
      if !a.Body? || LastAccess(f, a) {
        coarse, coarseActions := coarse + [After(s, a)], coarseActions + [a];
      }
    }
  }

  lemma ThreadsStay(f: Fine, a: Action)
    requires FineCan(f, a) && Defined(f, a)
    ensures |FineAfter(f, a).s.producers| == |f.s.producers| && |FineAfter(f, a).s.consumers| == |f.s.consumers|
  {
  }

  lemma CoarseStart(init: seq<int>, producers: nat, consumers: nat)
    returns (coarse: seq<State>, coarseActions: seq<Action>)
    requires |init| > 0
    ensures IsRun(coarse, coarseActions, init) && |coarseActions| == 0
    ensures Shows(InitialFine(init, producers, consumers), coarse[0])
    ensures |InitialFine(init, producers, consumers).s.producers| == producers
    ensures |InitialFine(init, producers, consumers).s.consumers| == consumers
  {
    coarse, coarseActions := [Initial(init, producers, consumers)], [];
  }

  // The law of the ring for every interleaving of the single accesses: what get
  // number g has returned is what the law gives for the puts before it. All
  // accesses go to slots of the ring.
  lemma EveryAccessObeysTheLaw(states: seq<Fine>, actions: seq<Action>, init: seq<int>, producers: nat, consumers: nat)
    requires IsFineRun(states, actions, init, producers, consumers)
    ensures forall a :: FineCan(states[|actions|], a) ==> Defined(states[|actions|], a)
    ensures var s := states[|actions|].s;
      forall g :: 0 <= g < |s.gets| ==>
        && g < s.gets[g].putsBefore <= |s.puts| && s.gets[g].putsBefore <= g + |init|
        && s.gets[g].value == GetLaw(init, s.puts[..s.gets[g].putsBefore], g)
  {
    var coarse, coarseActions := RunRefines(states, actions, init, producers, consumers);
    RunKeepsInv(coarse, coarseActions, init, |coarseActions|);
    var f, s := states[|actions|], coarse[|coarseActions|];
    forall a | FineCan(f, a)
      ensures Defined(f, a)
    {
      AccessIsDefined(f, s, a, init);
    }
  }

  // And what a thread reports when it leaves the guarded section is the number of
  // tasks in the ring besides its own.
  lemma EveryAccessReportsFillLevel(states: seq<Fine>, actions: seq<Action>, init: seq<int>, producers: nat,
                                    consumers: nat, k: nat)
    requires IsFineRun(states, actions, init, producers, consumers) && k < |actions|
    requires actions[k].Body? && LastAccess(states[k], actions[k])
    ensures var s, a, s' := states[k].s, actions[k], states[k + 1].s;
      && a.i < |Workers(s, a.put)| && a.i < |Workers(s', a.put)|
      && Workers(s', a.put)[a.i].awaiting == |s.puts| - |s.gets| - (if a.put then 0 else 1)
      && (a.put ==> s'.puts == s.puts + [s.producers[a.i].number])
      && (!a.put ==> |s.gets| < |s.puts| <= |s.gets| + |init|
                     && s'.consumers[a.i].number == GetLaw(init, s.puts, |s.gets|))
  {
    hide Shows, Inv;
    var coarse, coarseActions := RunRefines(states[..k + 1], actions[..k], init, producers, consumers);
    assert states[..k + 1][k] == states[k];
    RunKeepsInv(coarse, coarseActions, init, |coarseActions|);
    var s, a := coarse[|coarseActions|], actions[k];
    StepRefines(states[k], s, a, init);
    AwaitingIsFillLevel(s, a, init);
    ShowsWorkers(states[k], s);
    ShowsWorkers(states[k + 1], After(s, a));
    LastAccessLogs(s, a, init);
  }

  lemma ShowsWorkers(f: Fine, s: State)
    requires Shows(f, s)
    ensures f.s.producers == s.producers && f.s.consumers == s.consumers && f.s.puts == s.puts && f.s.gets == s.gets
  {
  }

  lemma LastAccessLogs(s: State, a: Action, init: seq<int>)
    requires Inv(s, init) && Can(s, a) && a.Body?
    ensures var s' := After(s, a);
      && (a.put ==> s'.puts == s.puts + [s.producers[a.i].number])
      && (!a.put ==> |s.gets| < |s.puts| <= |s.gets| + |init|
                     && s'.consumers[a.i].number == GetLaw(init, s.puts, |s.gets|))
  {
    if !a.put {
      CountInRange(s, init);
      GetReturns(init, s.puts, |s.gets|);
    }
  }

  // With a producer and a consumer some thread can always make an access.
  lemma SomebodyCanAccess(states: seq<Fine>, actions: seq<Action>, init: seq<int>, producers: nat, consumers: nat)
    requires IsFineRun(states, actions, init, producers, consumers)
    requires producers > 0 && consumers > 0
    ensures exists a :: FineCan(states[|actions|], a)
  {
    var coarse, coarseActions := RunRefines(states, actions, init, producers, consumers);
    RunKeepsInv(coarse, coarseActions, init, |coarseActions|);
    var s := coarse[|coarseActions|];
    SomebodyCanStep(s, init);
    var a :| Can(s, a);
    assert FineCan(states[|actions|], a);
  }
}

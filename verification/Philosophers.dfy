// Dining philosophers (lab9/zad1): one mutex, one condition variable and one
// status word per fork, every philosopher a thread that eats a fixed number of
// courses. A step is one access to the shared state; any enabled thread may
// take the next one, and the condition variables may wake spuriously.
module Philosophers {
  import opened Options
  import opened Sums

  // ------------------------------------------------------------- one thread

  datatype ForkStatus = Free | Used

  // Positions around one fork. `Unlock` still holds the fork's mutex.
  datatype TakePhase = LockToTake | Test | Waiting | Relock | SetUsed | UnlockTaken
  datatype DropPhase = LockToDrop | SetFree | Signal | UnlockDropped

  datatype Pc =
    | Take(second: bool, take: TakePhase)
    | Drop(second: bool, drop: DropPhase)
    | Done

  datatype Philosopher = Philosopher(count: nat, pc: Pc)

  function FirstFork(i: nat, n: nat): nat
    requires i < n
  {
    if i == n - 1 then 0 else i
  }

  function SecondFork(i: nat, n: nat): nat
    requires i < n
  {
    if i == n - 1 then i else i + 1
  }

  // The fork the thread is currently busy with.
  function CurrentFork(i: nat, n: nat, pc: Pc): nat
    requires i < n
  {
    if !pc.Done? && pc.second then SecondFork(i, n) else FirstFork(i, n)
  }

  // Where the loop over the courses stands when `count` courses are eaten.
  function LoopHead(count: nat, courses: nat): Pc {
    if count < courses then Take(false, LockToTake) else Done
  }

  predicate HoldsMutex(pc: Pc) {
    match pc
    case Take(_, phase) => phase.Test? || phase.SetUsed? || phase.UnlockTaken?
    case Drop(_, phase) => !phase.LockToDrop?
    case Done => false
  }

  // Both forks are in hand: the thread is past line 86 and before line 93.
  predicate Eating(pc: Pc) {
    pc == Drop(false, LockToDrop)
  }

  // Forks a thread has marked used and not yet freed.
  predicate OwnsFirst(pc: Pc) {
    match pc
    case Take(second, phase) => second || phase.UnlockTaken?
    case Drop(second, phase) => !second && (phase.LockToDrop? || phase.SetFree?)
    case Done => false
  }

  predicate OwnsSecond(pc: Pc) {
    match pc
    case Take(second, phase) => second && phase.UnlockTaken?
    case Drop(second, phase) => !second || phase.LockToDrop? || phase.SetFree?
    case Done => false
  }

  // --------------------------------------------------------- the whole table

  datatype State = State(forks: seq<ForkStatus>, mutex: seq<Option<nat>>, phils: seq<Philosopher>)

  predicate WellFormed(s: State, n: nat) {
    && |s.forks| == |s.mutex| == |s.phils| == n
    && forall f :: 0 <= f < n && s.mutex[f].Some? ==> s.mutex[f].value < n
  }

  function Initial(n: nat, courses: nat): State {
    State(seq(n, _ => Free), seq(n, _ => None), seq(n, _ => Philosopher(0, LoopHead(0, courses))))
  }

  predicate WaitsOn(s: State, i: nat, f: nat)
    requires i < |s.phils|
  {
    && s.phils[i].pc.Take? && s.phils[i].pc.take.Waiting?
    && CurrentFork(i, |s.phils|, s.phils[i].pc) == f
  }

  predicate Owns(s: State, i: nat, f: nat)
    requires i < |s.phils|
  {
    || (OwnsFirst(s.phils[i].pc) && f == FirstFork(i, |s.phils|))
    || (OwnsSecond(s.phils[i].pc) && f == SecondFork(i, |s.phils|))
  }

  // A thread can move unless it is done, blocked on a mutex, or asleep.
  predicate Enabled(s: State, i: nat)
    requires WellFormed(s, |s.phils|) && i < |s.phils|
  {
    var pc := s.phils[i].pc;
    var f := CurrentFork(i, |s.phils|, pc);
    match pc
    case Done => false
    case Take(_, phase) => !phase.Waiting? && (phase.LockToTake? || phase.Relock? ==> s.mutex[f].None?)
    case Drop(_, phase) => phase.LockToDrop? ==> s.mutex[f].None?
  }

  function SetPc(s: State, i: nat, pc: Pc): State
    requires i < |s.phils|
  {
    s.(phils := s.phils[i := s.phils[i].(pc := pc)])
  }

  // pthread_cond_signal wakes one sleeper if there is any.
  predicate Wakes(s: State, f: nat, woken: Option<nat>) {
    match woken
    case Some(w) => w < |s.phils| && WaitsOn(s, w, f)
    case None => forall w :: 0 <= w < |s.phils| ==> !WaitsOn(s, w, f)
  }

  predicate CanRun(s: State, i: nat, woken: Option<nat>) {
    && WellFormed(s, |s.phils|) && i < |s.phils| && Enabled(s, i)
    && (s.phils[i].pc.Drop? && s.phils[i].pc.drop.Signal? ==>
          Wakes(s, CurrentFork(i, |s.phils|, s.phils[i].pc), woken))
  }

  function Wake(s: State, woken: Option<nat>): State
    requires woken.Some? ==> woken.value < |s.phils| && s.phils[woken.value].pc.Take?
  {
    if woken.None? then s else SetPc(s, woken.value, s.phils[woken.value].pc.(take := Relock))
  }

  // The next shared-state access of thread i.
  function After(s: State, courses: nat, i: nat, woken: Option<nat>): State
    requires CanRun(s, i, woken)
  {
    var pc := s.phils[i].pc;
    var f := CurrentFork(i, |s.phils|, pc);
    match pc
    case Take(second, LockToTake) => SetPc(s.(mutex := s.mutex[f := Some(i)]), i, Take(second, Test))
    case Take(second, Test) =>
      if s.forks[f] == Used
      then SetPc(s.(mutex := s.mutex[f := None]), i, Take(second, Waiting))
      else SetPc(s, i, Take(second, SetUsed))
    case Take(second, Relock) => SetPc(s.(mutex := s.mutex[f := Some(i)]), i, Take(second, Test))
    case Take(second, SetUsed) => SetPc(s.(forks := s.forks[f := Used]), i, Take(second, UnlockTaken))
    case Take(second, UnlockTaken) =>
      SetPc(s.(mutex := s.mutex[f := None]), i, if second then Drop(false, LockToDrop) else Take(true, LockToTake))
    case Drop(second, LockToDrop) => SetPc(s.(mutex := s.mutex[f := Some(i)]), i, Drop(second, SetFree))
    case Drop(second, SetFree) => SetPc(s.(forks := s.forks[f := Free]), i, Drop(second, Signal))
    case Drop(second, Signal) => SetPc(Wake(s, woken), i, Drop(second, UnlockDropped))
    case Drop(second, UnlockDropped) =>
      var s' := s.(mutex := s.mutex[f := None]);
      if second
      then s'.(phils := s.phils[i := Philosopher(s.phils[i].count + 1, LoopHead(s.phils[i].count + 1, courses))])
      else SetPc(s', i, Drop(true, LockToDrop))
    case _ => s
  }

  datatype Action = Run(i: nat, woken: Option<nat>) | Spurious(i: nat)

  ghost predicate Next(s: State, a: Action, s': State, courses: nat) {
    match a
    case Run(i, woken) => CanRun(s, i, woken) && s' == After(s, courses, i, woken)
    case Spurious(i) =>
      && i < |s.phils| && s.phils[i].pc.Take? && s.phils[i].pc.take.Waiting?
      && s' == Wake(s, Some(i))
  }

  // ------------------------------------------------------------- invariants

  ghost predicate CountsInv(s: State, n: nat, courses: nat) {
    && WellFormed(s, n)
    && forall i :: 0 <= i < n ==>
         && s.phils[i].count <= courses
         && (s.phils[i].pc.Done? <==> s.phils[i].count == courses)
  }

  // A mutex records its holder, and the holder is inside the guarded section.
  ghost predicate MutexInv(s: State, n: nat) {
    && WellFormed(s, n)
    && forall i, f :: 0 <= i < n && 0 <= f < n ==>
         (s.mutex[f] == Some(i) <==> HoldsMutex(s.phils[i].pc) && CurrentFork(i, n, s.phils[i].pc) == f)
  }

  // A fork is used exactly while one thread owns it.
  ghost predicate OwnerInv(s: State, n: nat) {
    && WellFormed(s, n)
    && (forall f :: 0 <= f < n && s.forks[f] == Used ==> exists i :: 0 <= i < n && Owns(s, i, f))
    && (forall i, f :: 0 <= i < n && 0 <= f < n && Owns(s, i, f) ==> s.forks[f] == Used)
    && (forall i, j, f :: 0 <= i < n && 0 <= j < n && 0 <= f < n && Owns(s, i, f) && Owns(s, j, f) ==> i == j)
    && (forall i :: 0 <= i < n && s.phils[i].pc.Take? && s.phils[i].pc.take.SetUsed? ==>
          s.forks[CurrentFork(i, n, s.phils[i].pc)] == Free)
  }

  predicate AboutToSignal(s: State, j: nat, f: nat)
    requires j < |s.phils|
  {
    && s.phils[j].pc.Drop? && s.phils[j].pc.drop.Signal?
    && CurrentFork(j, |s.phils|, s.phils[j].pc) == f
  }

  // No lost wakeup: a sleeper's fork is used, or its signal is the next thing
  // the thread inside the mutex will do.
  ghost predicate WakeupInv(s: State, n: nat) {
    && WellFormed(s, n)
    && forall i, f :: 0 <= i < n && 0 <= f < n && WaitsOn(s, i, f) ==>
         || s.forks[f] == Used
         || exists j :: 0 <= j < n && AboutToSignal(s, j, f)
  }

  ghost predicate Inv(s: State, n: nat, courses: nat) {
    CountsInv(s, n, courses) && MutexInv(s, n) && OwnerInv(s, n) && WakeupInv(s, n)
  }

  lemma InitialInv(n: nat, courses: nat)
    requires n >= 2
    ensures Inv(Initial(n, courses), n, courses)
  {
  }

  // The other threads' view of one step: nobody else moves, except that a
  // sleeper may be sent back to the mutex.
  ghost predicate OthersKept(s: State, s': State, n: nat, i: nat) {
    && WellFormed(s, n) && WellFormed(s', n) && i < n
    && forall j :: 0 <= j < n && j != i ==>
         || s'.phils[j] == s.phils[j]
         || (s.phils[j].pc.Take? && s.phils[j].pc.take.Waiting?
             && s'.phils[j] == s.phils[j].(pc := s.phils[j].pc.(take := Relock)))
  }

  ghost predicate OnlyFork(s: State, s': State, n: nat, f: nat) {
    && WellFormed(s, n) && WellFormed(s', n) && f < n
    && forall g :: 0 <= g < n && g != f ==> s'.forks[g] == s.forks[g] && s'.mutex[g] == s.mutex[g]
  }

  // What a step may do to the fork it is busy with, and what it says about the
  // thread that takes it.
  ghost predicate LocalStep(s: State, s': State, n: nat, i: nat, f: nat)
    requires WellFormed(s, n) && WellFormed(s', n) && i < n && f < n
  {
    var pc, pc' := s.phils[i].pc, s'.phils[i].pc;
    && (s.mutex[f].None? || s.mutex[f] == Some(i))
    && s'.mutex[f] == (if HoldsMutex(pc') then Some(i) else None)
    && (HoldsMutex(pc') ==> CurrentFork(i, n, pc') == f)
    && (forall g :: 0 <= g < n && g != f ==> Owns(s', i, g) == Owns(s, i, g))
    && (|| (s'.forks[f] == s.forks[f] && Owns(s', i, f) == Owns(s, i, f))
        || (s.forks[f] == Free && s'.forks[f] == Used && s.mutex[f] == Some(i) && Owns(s', i, f))
        || (s'.forks[f] == Free && s.mutex[f] == Some(i) && Owns(s, i, f) && !Owns(s', i, f)
            && AboutToSignal(s', i, f)))
    && (pc'.Take? && pc'.take.SetUsed? ==> s'.forks[f] == Free && CurrentFork(i, n, pc') == f)
    && (pc'.Take? && pc'.take.Waiting? ==> s'.forks[f] == Used && CurrentFork(i, n, pc') == f)
    && (AboutToSignal(s, i, f) ==> forall w :: 0 <= w < n ==> !WaitsOn(s', w, f))
  }

  // Every fork lies between exactly two neighbours.
  lemma TwoUsers(n: nat, f: nat, i: nat, j: nat, k: nat)
    requires n >= 2 && i < n && j < n && k < n
    requires f == FirstFork(i, n) || f == SecondFork(i, n)
    requires f == FirstFork(j, n) || f == SecondFork(j, n)
    requires f == FirstFork(k, n) || f == SecondFork(k, n)
    ensures i == j || j == k || i == k
  {
  }

  lemma TakeKeepsOthers(s: State, i: nat, woken: Option<nat>, n: nat, courses: nat)
    requires WellFormed(s, n) && CanRun(s, i, woken) && s.phils[i].pc.Take?
    ensures OthersKept(s, After(s, courses, i, woken), n, i)
    ensures OnlyFork(s, After(s, courses, i, woken), n, CurrentFork(i, n, s.phils[i].pc))
  {
  }

  lemma DropKeepsOthers(s: State, i: nat, woken: Option<nat>, n: nat, courses: nat)
    requires WellFormed(s, n) && CanRun(s, i, woken) && s.phils[i].pc.Drop?
    ensures OthersKept(s, After(s, courses, i, woken), n, i)
    ensures OnlyFork(s, After(s, courses, i, woken), n, CurrentFork(i, n, s.phils[i].pc))
  {
  }

  lemma RunKeepsOthers(s: State, i: nat, woken: Option<nat>, n: nat, courses: nat)
    requires WellFormed(s, n) && CanRun(s, i, woken)
    ensures OthersKept(s, After(s, courses, i, woken), n, i)
    ensures OnlyFork(s, After(s, courses, i, woken), n, CurrentFork(i, n, s.phils[i].pc))
  {
    hide After, OthersKept, OnlyFork;
    if s.phils[i].pc.Take? {
      TakeKeepsOthers(s, i, woken, n, courses);
    } else {
      DropKeepsOthers(s, i, woken, n, courses);
    }
  }

  lemma RunLooks(s: State, i: nat, woken: Option<nat>, n: nat, courses: nat)
    requires n >= 2 && MutexInv(s, n) && CanRun(s, i, woken) && s.phils[i].pc.Take?
    requires !s.phils[i].pc.take.SetUsed? && !s.phils[i].pc.take.UnlockTaken?
    ensures LocalStep(s, After(s, courses, i, woken), n, i, CurrentFork(i, n, s.phils[i].pc))
  {
    var pc := s.phils[i].pc;
    assert HoldsMutex(pc) ==> s.mutex[CurrentFork(i, n, pc)] == Some(i);
  }

  lemma RunTakes(s: State, i: nat, woken: Option<nat>, n: nat, courses: nat)
    requires n >= 2 && MutexInv(s, n) && OwnerInv(s, n) && CanRun(s, i, woken) && s.phils[i].pc.Take?
    requires s.phils[i].pc.take.SetUsed? || s.phils[i].pc.take.UnlockTaken?
    ensures LocalStep(s, After(s, courses, i, woken), n, i, CurrentFork(i, n, s.phils[i].pc))
  {
    var pc := s.phils[i].pc;
    var f := CurrentFork(i, n, pc);
    assert s.mutex[f] == Some(i);
    assert pc.take.SetUsed? ==> s.forks[f] == Free;
  }

  lemma RunDrops(s: State, i: nat, woken: Option<nat>, n: nat, courses: nat)
    requires n >= 2 && MutexInv(s, n) && OwnerInv(s, n) && CanRun(s, i, woken)
    requires s.phils[i].pc.Drop? && !s.phils[i].pc.drop.Signal?
    ensures LocalStep(s, After(s, courses, i, woken), n, i, CurrentFork(i, n, s.phils[i].pc))
  {
    var pc := s.phils[i].pc;
    assert HoldsMutex(pc) ==> s.mutex[CurrentFork(i, n, pc)] == Some(i);
  }

  lemma RunSignals(s: State, i: nat, woken: Option<nat>, n: nat, courses: nat)
    requires n >= 2 && MutexInv(s, n) && CanRun(s, i, woken)
    requires s.phils[i].pc.Drop? && s.phils[i].pc.drop.Signal?
    ensures LocalStep(s, After(s, courses, i, woken), n, i, CurrentFork(i, n, s.phils[i].pc))
  {
    var f := CurrentFork(i, n, s.phils[i].pc);
    var s' := After(s, courses, i, woken);
    assert s.mutex[f] == Some(i);
    forall w | 0 <= w < n
      ensures !WaitsOn(s', w, f)
    {
      if WaitsOn(s', w, f) {
        assert WaitsOn(s, w, f);
        TwoUsers(n, f, i, w, woken.value);
      }
    }
  }

  lemma MutexKept(s: State, s': State, n: nat, i: nat, f: nat)
    requires MutexInv(s, n) && OthersKept(s, s', n, i) && OnlyFork(s, s', n, f) && LocalStep(s, s', n, i, f)
    requires f == CurrentFork(i, n, s.phils[i].pc)
    ensures MutexInv(s', n)
  {
  }

  lemma OwnerKept(s: State, s': State, n: nat, i: nat, f: nat)
    requires MutexInv(s, n) && OwnerInv(s, n)
    requires OthersKept(s, s', n, i) && OnlyFork(s, s', n, f) && LocalStep(s, s', n, i, f)
    ensures OwnerInv(s', n)
  {
    assert forall j, g :: 0 <= j < n && j != i && 0 <= g < n ==> Owns(s', j, g) == Owns(s, j, g);
    forall g | 0 <= g < n && s'.forks[g] == Used
      ensures exists j :: 0 <= j < n && Owns(s', j, g)
    {
      if g == f && Owns(s', i, f) {
      } else {
        var j :| 0 <= j < n && Owns(s, j, g);
        assert Owns(s', j, g);
      }
    }
  }

  lemma WakeupKept(s: State, s': State, n: nat, i: nat, f: nat)
    requires WakeupInv(s, n)
    requires OthersKept(s, s', n, i) && OnlyFork(s, s', n, f) && LocalStep(s, s', n, i, f)
    requires f == CurrentFork(i, n, s.phils[i].pc)
    ensures WakeupInv(s', n)
  {
    forall w, g | 0 <= w < n && 0 <= g < n && WaitsOn(s', w, g) && s'.forks[g] == Free
      ensures exists j :: 0 <= j < n && AboutToSignal(s', j, g)
    {
      assert w != i && WaitsOn(s, w, g);
      if g == f && AboutToSignal(s', i, f) {
      } else {
        var j :| 0 <= j < n && AboutToSignal(s, j, g);
        assert j != i && AboutToSignal(s', j, g);
      }
    }
  }

  lemma SpuriousInv(s: State, i: nat, s': State, n: nat, courses: nat)
    requires Inv(s, n, courses) && Next(s, Spurious(i), s', courses)
    ensures Inv(s', n, courses)
  {
    assert forall j, g :: 0 <= j < n && 0 <= g < n ==> Owns(s', j, g) == Owns(s, j, g);
    assert forall j :: 0 <= j < n ==> HoldsMutex(s'.phils[j].pc) == HoldsMutex(s.phils[j].pc);
    assert forall j, g :: 0 <= j < n && 0 <= g < n && WaitsOn(s', j, g) ==> WaitsOn(s, j, g);
    assert forall j, g :: 0 <= j < n && 0 <= g < n && AboutToSignal(s, j, g) ==> AboutToSignal(s', j, g);
  }

  lemma CountsKept(s: State, s': State, n: nat, courses: nat, i: nat)
    requires CountsInv(s, n, courses) && OthersKept(s, s', n, i)
    requires s'.phils[i].count <= courses && (s'.phils[i].pc.Done? <==> s'.phils[i].count == courses)
    ensures CountsInv(s', n, courses)
  {
  }

  lemma RunCounts(s: State, i: nat, woken: Option<nat>, courses: nat)
    requires CanRun(s, i, woken) && s.phils[i].count < courses
    ensures var p := After(s, courses, i, woken).phils[i];
            p.count <= courses && (p.pc.Done? <==> p.count == courses)
  {
  }

  lemma CanRunNotDone(s: State, i: nat, woken: Option<nat>)
    requires CanRun(s, i, woken)
    ensures WellFormed(s, |s.phils|) && i < |s.phils| && !s.phils[i].pc.Done?
  {
  }

  lemma RunInv(s: State, i: nat, woken: Option<nat>, n: nat, courses: nat)
    requires n >= 2 && Inv(s, n, courses) && CanRun(s, i, woken)
    ensures Inv(After(s, courses, i, woken), n, courses)
  {
    hide After, CanRun, MutexInv, OwnerInv, WakeupInv, LocalStep, OthersKept, OnlyFork, CurrentFork;
    CanRunNotDone(s, i, woken);
    var s' := After(s, courses, i, woken);
    var pc := s.phils[i].pc;
    var f := CurrentFork(i, n, pc);
    RunKeepsOthers(s, i, woken, n, courses);
    if pc.Take? && (pc.take.SetUsed? || pc.take.UnlockTaken?) {
      RunTakes(s, i, woken, n, courses);
    } else if pc.Take? {
      RunLooks(s, i, woken, n, courses);
    } else if pc.drop.Signal? {
      RunSignals(s, i, woken, n, courses);
    } else {
      RunDrops(s, i, woken, n, courses);
    }
    MutexKept(s, s', n, i, f);
    OwnerKept(s, s', n, i, f);
    WakeupKept(s, s', n, i, f);
    RunCounts(s, i, woken, courses);
    CountsKept(s, s', n, courses, i);
  }

  // Every step of every thread, and every spurious wakeup, keeps all of it.
  lemma NextInv(s: State, a: Action, s': State, n: nat, courses: nat)
    requires n >= 2 && Inv(s, n, courses) && Next(s, a, s', courses)
    ensures Inv(s', n, courses)
  {
    hide After, Wake, CanRun, Inv;
    match a
    case Spurious(i) => SpuriousInv(s, i, s', n, courses);
    case Run(i, woken) => RunInv(s, i, woken, n, courses);
  }

  // ----------------------------------------------------------------- safety

  // Philosopher i uses the forks left and right of its plate, the lower one first.
  lemma ForksOfPhilosopher(i: nat, n: nat)
    requires n >= 2 && i < n
    ensures {FirstFork(i, n), SecondFork(i, n)} == {i, (i + 1) % n}
    ensures FirstFork(i, n) < SecondFork(i, n) < n
  {
  }

  lemma SharersNeverEatTogether(s: State, n: nat, courses: nat, i: nat, j: nat, f: nat)
    requires Inv(s, n, courses) && i < n && j < n && i != j && f < n
    requires f == FirstFork(i, n) || f == SecondFork(i, n)
    requires f == FirstFork(j, n) || f == SecondFork(j, n)
    ensures !(Eating(s.phils[i].pc) && Eating(s.phils[j].pc))
  {
    if Eating(s.phils[i].pc) && Eating(s.phils[j].pc) {
      assert Owns(s, i, f) && Owns(s, j, f);
    }
  }

  // Neighbours at the table never eat at the same time.
  lemma NeighboursNeverEatTogether(s: State, n: nat, courses: nat, i: nat)
    requires n >= 2 && Inv(s, n, courses) && i < n
    ensures !(Eating(s.phils[i].pc) && Eating(s.phils[(i + 1) % n].pc))
  {
    var j := (i + 1) % n;
    ForksOfPhilosopher(i, n);
    ForksOfPhilosopher(j, n);
    assert j in {FirstFork(i, n), SecondFork(i, n)} && j in {FirstFork(j, n), SecondFork(j, n)};
    SharersNeverEatTogether(s, n, courses, i, j, j);
  }

  // Whoever eats has both forks of its place.
  lemma EatersHoldBothForks(s: State, n: nat, courses: nat, i: nat)
    requires n >= 2 && Inv(s, n, courses) && i < n && Eating(s.phils[i].pc)
    ensures s.forks[i] == Used && s.forks[(i + 1) % n] == Used
  {
    ForksOfPhilosopher(i, n);
    assert i in {FirstFork(i, n), SecondFork(i, n)} && (i + 1) % n in {FirstFork(i, n), SecondFork(i, n)};
    assert Owns(s, i, FirstFork(i, n)) && Owns(s, i, SecondFork(i, n));
  }

  // ------------------------------------------------------- deadlock freedom

  // If nobody can move, the owner of a fork somebody sleeps on is itself asleep
  // on a higher fork: forks are taken in increasing order.
  lemma OwnerSleepsHigher(s: State, n: nat, courses: nat, i: nat, f: nat) returns (j: nat, g: nat)
    requires n >= 2 && Inv(s, n, courses) && i < n && f < n && WaitsOn(s, i, f)
    requires forall k :: 0 <= k < n ==> !Enabled(s, k)
    ensures j < n && f < g < n && WaitsOn(s, j, g)
  {
    if s.forks[f] != Used {
      var k :| 0 <= k < n && AboutToSignal(s, k, f);
      assert Enabled(s, k);
    }
    j :| 0 <= j < n && Owns(s, j, f);
    NobodyMoves(s, n, courses, j);
    g := CurrentFork(j, n, s.phils[j].pc);
  }

  // With no enabled thread every mutex is free, so whoever is not done sleeps.
  lemma NobodyMoves(s: State, n: nat, courses: nat, j: nat)
    requires Inv(s, n, courses) && j < n && n >= 2
    requires forall k :: 0 <= k < n ==> !Enabled(s, k)
    ensures s.phils[j].pc.Done? || WaitsOn(s, j, CurrentFork(j, n, s.phils[j].pc))
  {
    var f := CurrentFork(j, n, s.phils[j].pc);
    if s.mutex[f].Some? {
      var h := s.mutex[f].value;
      assert HoldsMutex(s.phils[h].pc);
      assert Enabled(s, h);
    }
    assert !Enabled(s, j);
  }

  lemma NobodySleepsForever(s: State, n: nat, courses: nat, i: nat, f: nat)
    requires n >= 2 && Inv(s, n, courses) && i < n && f < n && WaitsOn(s, i, f)
    ensures exists k :: 0 <= k < n && Enabled(s, k)
    decreases n - f
  {
    if forall k :: 0 <= k < n ==> !Enabled(s, k) {
      var j, g := OwnerSleepsHigher(s, n, courses, i, f);
      NobodySleepsForever(s, n, courses, j, g);
    }
  }

  // As long as somebody is not done, somebody can move.
  lemma DeadlockFree(s: State, n: nat, courses: nat, i: nat)
    requires n >= 2 && Inv(s, n, courses) && i < n && !s.phils[i].pc.Done?
    ensures exists k :: 0 <= k < n && Enabled(s, k)
  {
    if forall k :: 0 <= k < n ==> !Enabled(s, k) {
      NobodyMoves(s, n, courses, i);
      NobodySleepsForever(s, n, courses, i, CurrentFork(i, n, s.phils[i].pc));
    }
  }

  ghost predicate DinnerOver(s: State, n: nat, courses: nat) {
    && |s.phils| == |s.forks| == |s.mutex| == n
    && (forall i :: 0 <= i < n ==> s.phils[i] == Philosopher(courses, Done))
    && (forall f :: 0 <= f < n ==> s.forks[f] == Free && s.mutex[f] == None)
  }

  // And when nobody can move, dinner is over: everyone has had exactly the
  // planned number of courses and every fork is back on the table.
  lemma QuietMeansFed(s: State, n: nat, courses: nat)
    requires n >= 2 && Inv(s, n, courses)
    requires forall k :: 0 <= k < n ==> !Enabled(s, k)
    ensures DinnerOver(s, n, courses)
  {
    forall i | 0 <= i < n
      ensures s.phils[i] == Philosopher(courses, Done)
    {
      if !s.phils[i].pc.Done? {
        DeadlockFree(s, n, courses, i);
      }
    }
    assert forall i :: 0 <= i < n ==> !HoldsMutex(s.phils[i].pc);
    assert forall i, f :: 0 <= i < n && 0 <= f < n ==> !Owns(s, i, f);
  }

  // ------------------------------------------------------------ termination

  const COURSE_WORK: nat := 22

  // Steps a thread may still need in the current course. A signal weighs three
  // more than the step after it: it pays for the sleeper it sends round again.
  function WorkInCourse(pc: Pc): nat {
    match pc
    case Done => 0
    case Take(second, phase) =>
      (if second then 13 else 18) +
      (match phase
       case UnlockTaken => 0
       case SetUsed => 1
       case Waiting => 2
       case Test => 3
       case LockToTake => 4
       case Relock => 4)
    case Drop(second, phase) =>
      (if second then 1 else 7) +
      (match phase
       case UnlockDropped => 0
       case Signal => 3
       case SetFree => 4
       case LockToDrop => 5)
  }

  ghost function WorkLeft(courses: nat): Philosopher -> int {
    (p: Philosopher) => (courses - p.count) * COURSE_WORK + WorkInCourse(p.pc) - (if p.pc.Done? then 0 else COURSE_WORK)
  }

  ghost function Work(s: State, courses: nat): int {
    Sum(WorkLeft(courses), s.phils)
  }

  lemma InitialWork(n: nat, courses: nat)
    ensures Work(Initial(n, courses), courses) == n * (courses * COURSE_WORK)
  {
    SumOfEqual(WorkLeft(courses), Initial(n, courses).phils, courses * COURSE_WORK);
  }

  lemma {:induction false} SumOfEqual<T>(f: T -> int, s: seq<T>, v: int)
    requires forall k :: 0 <= k < |s| ==> f(s[k]) == v
    ensures Sum(f, s) == |s| * v
  {
    if s != [] {
      SumOfEqual(f, s[..|s| - 1], v);
    }
  }

  lemma WorkNonNegative(s: State, n: nat, courses: nat)
    requires CountsInv(s, n, courses)
    ensures Work(s, courses) >= 0
  {
    forall k | 0 <= k < |s.phils|
      ensures WorkLeft(courses)(s.phils[k]) >= 0
    {
    }
    SumNonNegative(WorkLeft(courses), s.phils);
  }

  // Each step uses up work, and a signal uses enough to send a sleeper round
  // again; a spurious wakeup adds two units.
  lemma StepUsesWork(s: State, i: nat, woken: Option<nat>, courses: nat)
    requires CanRun(s, i, woken) && s.phils[i].count < courses
    ensures WorkLeft(courses)(After(s, courses, i, woken).phils[i])
         <= WorkLeft(courses)(s.phils[i]) - if s.phils[i].pc.Drop? && s.phils[i].pc.drop.Signal? then 3 else 1
  {
  }

  lemma PhilsAfter(s: State, i: nat, woken: Option<nat>, courses: nat)
    requires CanRun(s, i, woken)
    ensures After(s, courses, i, woken).phils
         == (if s.phils[i].pc.Drop? && s.phils[i].pc.drop.Signal? then Wake(s, woken) else s)
            .phils[i := After(s, courses, i, woken).phils[i]]
  {
  }

  lemma RunUsesWork(s: State, i: nat, woken: Option<nat>, n: nat, courses: nat)
    requires n >= 2 && Inv(s, n, courses) && CanRun(s, i, woken)
    ensures Work(After(s, courses, i, woken), courses) < Work(s, courses)
  {
    hide After, MutexInv, OwnerInv, WakeupInv, WorkLeft, Enabled;
    CanRunNotDone(s, i, woken);
    StepUsesWork(s, i, woken, courses);
    PhilsAfter(s, i, woken, courses);
    var s', w := After(s, courses, i, woken), WorkLeft(courses);
    if s.phils[i].pc.Drop? && s.phils[i].pc.drop.Signal? && woken.Some? {
      var t := Wake(s, woken);
      WakingCosts(s.phils[woken.value], courses);
      SumUpdate(w, s.phils, woken.value, t.phils[woken.value]);
      SumUpdate(w, t.phils, i, s'.phils[i]);
    } else {
      SumUpdate(w, s.phils, i, s'.phils[i]);
    }
  }

  lemma WakingCosts(p: Philosopher, courses: nat)
    requires p.pc.Take? && p.pc.take.Waiting?
    ensures WorkLeft(courses)(p.(pc := p.pc.(take := Relock))) == WorkLeft(courses)(p) + 2
  {
  }

  lemma SpuriousAddsTwo(s: State, i: nat, s': State, courses: nat)
    requires Next(s, Spurious(i), s', courses)
    ensures Work(s', courses) == Work(s, courses) + 2
  {
    SumUpdate(WorkLeft(courses), s.phils, i, s'.phils[i]);
  }

  // -------------------------------------------------------------- whole runs

  ghost predicate IsRun(states: seq<State>, actions: seq<Action>, n: nat, courses: nat) {
    && |states| == |actions| + 1
    && states[0] == Initial(n, courses)
    && forall k :: 0 <= k < |actions| ==> Next(states[k], actions[k], states[k + 1], courses)
  }

  function SpuriousIn(actions: seq<Action>): nat {
    if actions == [] then 0
    else SpuriousIn(actions[..|actions| - 1]) + if actions[|actions| - 1].Spurious? then 1 else 0
  }

  lemma {:induction false} RunKeepsInv(states: seq<State>, actions: seq<Action>, n: nat, courses: nat, k: nat)
    requires n >= 2 && IsRun(states, actions, n, courses) && k < |states|
    ensures Inv(states[k], n, courses)
  {
    if k == 0 {
      InitialInv(n, courses);
    } else {
      RunKeepsInv(states, actions, n, courses, k - 1);
      NextInv(states[k - 1], actions[k - 1], states[k], n, courses);
    }
  }

  lemma {:induction false} WorkBudget(states: seq<State>, actions: seq<Action>, n: nat, courses: nat)
    requires n >= 2 && IsRun(states, actions, n, courses)
    ensures Work(states[|actions|], courses) + |actions| <= n * (courses * COURSE_WORK) + 3 * SpuriousIn(actions)
  {
    if actions == [] {
      InitialWork(n, courses);
    } else {
      var m := |actions| - 1;
      WorkBudget(states[..m + 1], actions[..m], n, courses);
      RunKeepsInv(states, actions, n, courses, m);
      assert Next(states[m], actions[m], states[m + 1], courses);
      match actions[m]
      case Run(i, woken) => RunUsesWork(states[m], i, woken, n, courses);
      case Spurious(i) => SpuriousAddsTwo(states[m], i, states[m + 1], courses);
    }
  }

  // No run is longer than 22 steps per course and philosopher, plus three for
  // every spurious wakeup: without those, every run is finite.
  lemma RunsAreBounded(states: seq<State>, actions: seq<Action>, n: nat, courses: nat)
    requires n >= 2 && IsRun(states, actions, n, courses)
    ensures |actions| <= n * (courses * COURSE_WORK) + 3 * SpuriousIn(actions)
  {
    WorkBudget(states, actions, n, courses);
    RunKeepsInv(states, actions, n, courses, |actions|);
    WorkNonNegative(states[|actions|], n, courses);
  }

  function IsEating(s: State, i: nat): nat {
    if i < |s.phils| && Eating(s.phils[i].pc) then 1 else 0
  }

  // How often philosopher i has started to eat in the first m steps of a run.
  function Meals(states: seq<State>, i: nat, m: nat): nat
    requires m < |states|
  {
    if m == 0 then 0
    else Meals(states, i, m - 1) + if IsEating(states[m - 1], i) == 0 then IsEating(states[m], i) else 0
  }

  function Cleared(p: Philosopher): nat {
    p.count + if p.pc.Drop? then 1 else 0
  }

  lemma OwnTakeMeals(s: State, i: nat, woken: Option<nat>, courses: nat)
    requires CanRun(s, i, woken) && s.phils[i].pc.Take?
    ensures var s' := After(s, courses, i, woken);
      |s'.phils| == |s.phils| && Cleared(s'.phils[i]) == Cleared(s.phils[i]) + IsEating(s', i) && IsEating(s, i) == 0
  {
  }

  lemma OwnDropMeals(s: State, i: nat, woken: Option<nat>, courses: nat)
    requires CanRun(s, i, woken) && s.phils[i].pc.Drop?
    ensures var s' := After(s, courses, i, woken);
      |s'.phils| == |s.phils| && Cleared(s'.phils[i]) == Cleared(s.phils[i]) && IsEating(s', i) == 0
  {
  }

  lemma MealStep(s: State, a: Action, s': State, n: nat, courses: nat, i: nat)
    requires WellFormed(s, n) && Next(s, a, s', courses) && i < n
    ensures |s'.phils| == n
    ensures Cleared(s'.phils[i]) == Cleared(s.phils[i]) + if IsEating(s, i) == 0 then IsEating(s', i) else 0
  {
    hide After;
    match a
    case Spurious(_) =>
    case Run(k, woken) =>
      if k != i {
        RunKeepsOthers(s, k, woken, n, courses);
      } else if s.phils[i].pc.Take? {
        OwnTakeMeals(s, i, woken, courses);
      } else {
        OwnDropMeals(s, i, woken, courses);
      }
  }

  // The courses counted are the meals eaten.
  lemma {:induction false} MealsAreCounted(states: seq<State>, actions: seq<Action>, n: nat, courses: nat,
                                           i: nat, m: nat)
    requires n >= 2 && IsRun(states, actions, n, courses) && i < n && m < |states|
    ensures |states[m].phils| == n && Meals(states, i, m) == Cleared(states[m].phils[i])
  {
    hide Inv, Next;
    if m > 0 {
      MealsAreCounted(states, actions, n, courses, i, m - 1);
      RunKeepsInv(states, actions, n, courses, m - 1);
      InvWellFormed(states[m - 1], n, courses);
      MealStep(states[m - 1], actions[m - 1], states[m], n, courses, i);
    }
  }

  lemma InvWellFormed(s: State, n: nat, courses: nat)
    requires Inv(s, n, courses)
    ensures WellFormed(s, n)
  {
  }

  // A run that cannot be continued has fed everyone: so many meals each.
  lemma MaximalRunsFeedEveryone(states: seq<State>, actions: seq<Action>, n: nat, courses: nat)
    requires n >= 2 && IsRun(states, actions, n, courses)
    requires forall a, s' :: !Next(states[|actions|], a, s', courses)
    ensures DinnerOver(states[|actions|], n, courses)
    ensures forall i :: 0 <= i < n ==> Meals(states, i, |actions|) == courses
  {
    var s := states[|actions|];
    RunKeepsInv(states, actions, n, courses, |actions|);
    forall k | 0 <= k < n
      ensures !Enabled(s, k)
    {
      if Enabled(s, k) {
        var woken := SomeWakeup(s, k);
        assert Next(s, Run(k, woken), After(s, courses, k, woken), courses);
      }
    }
    QuietMeansFed(s, n, courses);
    forall i | 0 <= i < n
      ensures Meals(states, i, |actions|) == courses
    {
      MealsAreCounted(states, actions, n, courses, i, |actions|);
    }
  }

  lemma SomeWakeup(s: State, i: nat) returns (woken: Option<nat>)
    requires WellFormed(s, |s.phils|) && i < |s.phils| && Enabled(s, i)
    ensures CanRun(s, i, woken)
  {
    var f := CurrentFork(i, |s.phils|, s.phils[i].pc);
    if w :| 0 <= w < |s.phils| && WaitsOn(s, w, f) {
      woken := Some(w);
    } else {
      woken := None;
    }
  }

  lemma RunLonger(states: seq<State>, actions: seq<Action>, s: State, i: nat, woken: Option<nat>, n: nat, courses: nat)
    returns (states': seq<State>, actions': seq<Action>)
    requires IsRun(states, actions, n, courses) && states[|actions|] == s && CanRun(s, i, woken)
    ensures IsRun(states', actions', n, courses) && states'[|actions'|] == After(s, courses, i, woken)
  {
    hide CanRun, After, Initial;
    states', actions' := states + [After(s, courses, i, woken)], actions + [Run(i, woken)];
    assert Next(s, Run(i, woken), After(s, courses, i, woken), courses);
  }

  lemma CountsStay(s: State, n: nat, courses: nat)
    requires Inv(s, n, courses)
    ensures Work(s, courses) >= 0 && WellFormed(s, n)
  {
    WorkNonNegative(s, n, courses);
  }

  // ------------------------------------------------- the table in shared memory

  // The fork arrays and the threads around them, updated in place.
  class Table {
    const courses: nat
    const forkStatus: array<ForkStatus>
    const forkMutex: array<Option<nat>>
    const threads: array<Philosopher>

    predicate Shape()
      reads this
    {
      && forkStatus.Length == forkMutex.Length == threads.Length
    }

    function View(): State
      reads this, forkStatus, forkMutex, threads
    {
      State(forkStatus[..], forkMutex[..], threads[..])
    }

    constructor (n: nat, courses: nat)
      ensures this.courses == courses && threads.Length == n && Shape()
      ensures fresh(forkStatus) && fresh(forkMutex) && fresh(threads)
      ensures View() == Initial(n, courses)
    {
      this.courses := courses;
      forkStatus := new ForkStatus[n](_ => Free);
      forkMutex := new Option<nat>[n](_ => None);
      threads := new Philosopher[n](_ => Philosopher(0, LoopHead(0, courses)));
    }

    // The next shared access of thread i: the bodies of lines 73-86 (taking a
    // fork) and 93-102 (dropping one), one access at a time.
    method RunThread(i: nat, woken: Option<nat>)
      requires Shape() && CanRun(View(), i, woken)
      modifies forkStatus, forkMutex, threads
      ensures View() == After(old(View()), courses, i, woken)
    {
      var pc := threads[i].pc;
      var f := CurrentFork(i, threads.Length, pc);
      match pc {
        case Take(second, phase) =>
          if phase.LockToTake? || phase.Relock? {
            forkMutex[f] := Some(i);
            threads[i] := threads[i].(pc := Take(second, Test));
          } else if phase.Test? && forkStatus[f] == Used {
            forkMutex[f] := None;
            threads[i] := threads[i].(pc := Take(second, Waiting));
          } else if phase.Test? {
            threads[i] := threads[i].(pc := Take(second, SetUsed));
          } else if phase.SetUsed? {
            forkStatus[f] := Used;
            threads[i] := threads[i].(pc := Take(second, UnlockTaken));
          } else {
            forkMutex[f] := None;
            threads[i] := threads[i].(pc := if second then Drop(false, LockToDrop) else Take(true, LockToTake));
          }
        case Drop(second, phase) =>
          if phase.LockToDrop? {
            forkMutex[f] := Some(i);
            threads[i] := threads[i].(pc := Drop(second, SetFree));
          } else if phase.SetFree? {
            forkStatus[f] := Free;
            threads[i] := threads[i].(pc := Drop(second, Signal));
          } else if phase.Signal? {
            if woken.Some? {
              threads[woken.value] := threads[woken.value].(pc := threads[woken.value].pc.(take := Relock));
            }
            threads[i] := threads[i].(pc := Drop(second, UnlockDropped));
          } else {
            forkMutex[f] := None;
            if second {
              var count := threads[i].count + 1;
              threads[i] := Philosopher(count, LoopHead(count, courses));
            } else {
              threads[i] := threads[i].(pc := Drop(true, LockToDrop));
            }
          }
      }
    }

    // Whom a signal from thread i would wake.
    method PickSleeper(i: nat) returns (woken: Option<nat>)
      requires Shape() && WellFormed(View(), threads.Length) && i < threads.Length && Enabled(View(), i)
      ensures CanRun(View(), i, woken)
    {
      var f := CurrentFork(i, threads.Length, threads[i].pc);
      var w := 0;
      while w < threads.Length && !WaitsOn(View(), w, f)
        invariant 0 <= w <= threads.Length
        invariant forall k :: 0 <= k < w ==> !WaitsOn(View(), k, f)
      {
        w := w + 1;
      }
      woken := if w < threads.Length then Some(w) else None;
    }

    // Dinner under an arbitrary scheduler: it ends, and it ends well.
    // What has happened, a run of the machine, is returned.
    method Dine() returns (ghost states: seq<State>, ghost actions: seq<Action>)
      requires Shape() && threads.Length >= 2 && View() == Initial(threads.Length, courses)
      modifies forkStatus, forkMutex, threads
      ensures IsRun(states, actions, threads.Length, courses) && states[|actions|] == View()
      ensures DinnerOver(View(), threads.Length, courses)
    {
      hide Inv, CanRun, Enabled, Next;
      states, actions := [View()], [];
      InitialInv(threads.Length, courses);
      CountsStay(View(), threads.Length, courses);
      while exists i :: 0 <= i < threads.Length && Enabled(View(), i)
        invariant Inv(View(), threads.Length, courses) && WellFormed(View(), threads.Length)
        invariant IsRun(states, actions, threads.Length, courses) && states[|actions|] == View()
        invariant Work(View(), courses) >= 0
        decreases Work(View(), courses)
      {
        var i :| 0 <= i < threads.Length && Enabled(View(), i);
        var woken := PickSleeper(i);
        RunUsesWork(View(), i, woken, threads.Length, courses);
        RunInv(View(), i, woken, threads.Length, courses);
        CountsStay(After(View(), courses, i, woken), threads.Length, courses);
        ghost var s := View();
        RunThread(i, woken);
        states, actions := RunLonger(states, actions, s, i, woken, threads.Length, courses);
      }
      QuietMeansFed(View(), threads.Length, courses);
    }
  }
}

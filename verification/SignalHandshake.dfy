// Two processes that count acknowledged signals, then reverse roles (lab4/zad2).
// A pending signal is one bit per process and signal number, as in section
// 2.4.1 (Signal Generation and Delivery), System Interfaces volume of
// POSIX.1-2008. Every access of main or of a handler to a shared variable, and
// every delivery, is a step. A test and the pause after it are two steps, and a
// signal may be delivered between them.
module SignalHandshake {
  datatype Handler = Default | Sender | Receiver

  // Enter...: tested and about to call pause; Pause...: asleep in it.
  datatype ParentPc =
    | ClearFlag                                  // line 75
    | TestReady | EnterReady | PauseReady | ClearReady           // lines 76-79
    | NextSend | TestConf | EnterConf | PauseConf | ClearConf    // lines 81-89
    | SwitchUsr1 | SwitchUsr2 | SendGo           // lines 95-103
    | TestEnd | EnterEnd | PauseEnd | Printed    // lines 105-109

  datatype ChildPc =
    | InstallUsr1 | InstallUsr2 | SendReady      // lines 36-44
    | TestGo | EnterGo | PauseGo | SwitchToSender                // lines 46-54
    | NextEcho | TestBack | EnterBack | PauseBack | ClearBack    // lines 57-63
    | SendEnd | Exited                           // lines 64-66
    | Killed                                     // default action of a signal

  // `echoing`: the counting handler has incremented and is about to kill().
  datatype Parent = Parent(pc: ParentPc, i: nat, flag: bool, confirmation: bool, counter: nat,
                           usr1: Handler, usr2: Handler, echoing: bool)
  datatype Child = Child(pc: ChildPc, i: nat, proceed: bool, confirmation: bool, counter: nat,
                         usr1: Handler, usr2: Handler, echoing: bool)

  // The pending bits.
  datatype Pending = Pending(parent1: bool, parent2: bool, child1: bool, child2: bool)

  datatype State = State(parent: Parent, child: Child, pending: Pending)

  datatype Action =
    | ParentMoves
    | ChildMoves
    | DeliverParent1
    | DeliverParent2
    | DeliverChild1
    | DeliverChild2

  // After fork and exec: the parent's handlers are installed, the child's not.
  const INITIAL: State := State(
    Parent(ClearFlag, 0, false, false, 0, Sender, Sender, false),
    Child(InstallUsr1, 0, false, false, 0, Default, Default, false),
    Pending(false, false, false, false))

  // The number of signals the sending loop sends for argument n.
  function Signals(n: int): nat {
    if n > 0 then n else 0
  }

  // pause() returns when a handler has returned.
  function WakeParent(p: Parent): Parent {
    p.(pc := match p.pc
             case PauseReady => TestReady
             case PauseConf => TestConf
             case PauseEnd => TestEnd
             case _ => p.pc)
  }

  function WakeChild(c: Child): Child {
    c.(pc := match c.pc
             case PauseGo => TestGo
             case PauseBack => TestBack
             case _ => c.pc)
  }

  predicate ParentAlive(s: State) {
    !s.parent.pc.Printed?
  }

  predicate ChildAlive(s: State) {
    !s.child.pc.Exited? && !s.child.pc.Killed?
  }

  // A paused main moves only through a delivery; a running handler masks both
  // signals.
  predicate Can(s: State, a: Action) {
    match a
    case ParentMoves =>
      && ParentAlive(s)
      && (s.parent.echoing || !(s.parent.pc.PauseReady? || s.parent.pc.PauseConf? || s.parent.pc.PauseEnd?))
    case ChildMoves =>
      ChildAlive(s) && (s.child.echoing || !(s.child.pc.PauseGo? || s.child.pc.PauseBack?))
    case DeliverParent1 => ParentAlive(s) && !s.parent.echoing && s.pending.parent1
    case DeliverParent2 => ParentAlive(s) && !s.parent.echoing && s.pending.parent2
    case DeliverChild1 => ChildAlive(s) && !s.child.echoing && s.pending.child1
    case DeliverChild2 => ChildAlive(s) && !s.child.echoing && s.pending.child2
  }

  function ParentStep(s: State, n: int): State {
    var p := s.parent;
    if p.echoing then
      s.(parent := WakeParent(p.(echoing := false)), pending := s.pending.(child1 := true))
    else
      match p.pc
      case ClearFlag => s.(parent := p.(pc := TestReady, flag := false))
      case TestReady => s.(parent := p.(pc := if p.flag then ClearReady else EnterReady))
      case EnterReady => s.(parent := p.(pc := PauseReady))
      case ClearReady => s.(parent := p.(pc := NextSend, flag := false))
      case NextSend =>
        if p.i < n
        then s.(parent := p.(pc := TestConf), pending := s.pending.(child1 := true))
        else s.(parent := p.(pc := SwitchUsr1))
      case TestConf => s.(parent := p.(pc := if p.confirmation then ClearConf else EnterConf))
      case EnterConf => s.(parent := p.(pc := PauseConf))
      case ClearConf => s.(parent := p.(pc := NextSend, confirmation := false, i := p.i + 1))
      case SwitchUsr1 => s.(parent := p.(pc := SwitchUsr2, usr1 := Receiver))
      case SwitchUsr2 => s.(parent := p.(pc := SendGo, usr2 := Receiver))
      case SendGo => s.(parent := p.(pc := TestEnd), pending := s.pending.(child2 := true))
      case TestEnd => s.(parent := p.(pc := if p.flag then Printed else EnterEnd))
      case EnterEnd => s.(parent := p.(pc := PauseEnd))
      case _ => s
  }

  function ChildStep(s: State): State {
    var c := s.child;
    if c.echoing then
      s.(child := WakeChild(c.(echoing := false)), pending := s.pending.(parent1 := true))
    else
      match c.pc
      case InstallUsr1 => s.(child := c.(pc := InstallUsr2, usr1 := Receiver))
      case InstallUsr2 => s.(child := c.(pc := SendReady, usr2 := Receiver))
      case SendReady => s.(child := c.(pc := TestGo), pending := s.pending.(parent2 := true))
      case TestGo => s.(child := c.(pc := if c.proceed then SwitchToSender else EnterGo))
      case EnterGo => s.(child := c.(pc := PauseGo))
      case SwitchToSender => s.(child := c.(pc := NextEcho, usr1 := Sender))
      case NextEcho =>
        if c.i < c.counter
        then s.(child := c.(pc := TestBack), pending := s.pending.(parent1 := true))
        else s.(child := c.(pc := SendEnd))
      case TestBack => s.(child := c.(pc := if c.confirmation then ClearBack else EnterBack))
      case EnterBack => s.(child := c.(pc := PauseBack))
      case ClearBack => s.(child := c.(pc := NextEcho, confirmation := false, i := c.i + 1))
      case SendEnd => s.(child := c.(pc := Exited), pending := s.pending.(parent2 := true))
      case _ => s
  }

  // Delivery clears the bit and runs the handler that is installed now.
  function After(s: State, a: Action, n: int): State
    requires Can(s, a)
  {
    var p, c := s.parent, s.child;
    match a
    case ParentMoves => ParentStep(s, n)
    case ChildMoves => ChildStep(s)
    case DeliverParent1 =>
      var t := s.(pending := s.pending.(parent1 := false));
      if p.usr1.Receiver?
      then t.(parent := p.(counter := p.counter + 1, echoing := true))
      else t.(parent := WakeParent(p.(confirmation := true)))
    case DeliverParent2 =>
      s.(pending := s.pending.(parent2 := false), parent := WakeParent(p.(flag := true)))
    case DeliverChild1 =>
      var t := s.(pending := s.pending.(child1 := false));
      (match c.usr1
       case Default => t.(child := c.(pc := Killed))
       case Receiver => t.(child := c.(counter := c.counter + 1, echoing := true))
       case Sender => t.(child := WakeChild(c.(confirmation := true))))
    case DeliverChild2 =>
      var t := s.(pending := s.pending.(child2 := false));
      if c.usr2.Default? then t.(child := c.(pc := Killed))
      else t.(child := WakeChild(c.(proceed := true)))
  }

  // ------------------------------------------------------------- invariants

  function Bit(b: bool): nat {
    if b then 1 else 0
  }

  // Unacknowledged SIGUSR1 traffic: pending bits, running echoes, and
  // confirmations not yet consumed.
  function Tokens(s: State): nat {
    Bit(s.pending.child1) + Bit(s.child.echoing) + Bit(s.pending.parent1)
    + Bit(s.parent.echoing) + Bit(s.parent.confirmation) + Bit(s.child.confirmation)
  }

  predicate ParentWaitsReady(pc: ParentPc) {
    pc.ClearFlag? || pc.TestReady? || pc.EnterReady? || pc.PauseReady?
  }

  predicate ParentInFlight(pc: ParentPc) {
    pc.TestConf? || pc.EnterConf? || pc.PauseConf? || pc.ClearConf?
  }

  predicate ParentSending(pc: ParentPc) {
    pc.NextSend? || ParentInFlight(pc)
  }

  predicate ParentDoneSending(pc: ParentPc) {
    pc.SwitchUsr1? || pc.SwitchUsr2? || pc.SendGo?
  }

  predicate ParentReceiving(pc: ParentPc) {
    pc.TestEnd? || pc.EnterEnd? || pc.PauseEnd? || pc.Printed?
  }

  predicate ChildStarting(pc: ChildPc) {
    pc.InstallUsr1? || pc.InstallUsr2? || pc.SendReady?
  }

  predicate ChildReceiving(pc: ChildPc) {
    pc.TestGo? || pc.EnterGo? || pc.PauseGo?
  }

  predicate ChildInFlight(pc: ChildPc) {
    pc.TestBack? || pc.EnterBack? || pc.PauseBack? || pc.ClearBack?
  }

  // Which handler each process has installed.
  predicate HandlersInv(s: State) {
    && (s.parent.usr1 ==
        if s.parent.pc.SwitchUsr2? || s.parent.pc.SendGo? || ParentReceiving(s.parent.pc) then Receiver else Sender)
    && (s.parent.usr2 == if s.parent.pc.SendGo? || ParentReceiving(s.parent.pc) then Receiver else Sender)
    && (s.child.usr1 ==
        if s.child.pc.InstallUsr1? then Default
        else if s.child.pc.InstallUsr2? || s.child.pc.SendReady? || ChildReceiving(s.child.pc)
                || s.child.pc.SwitchToSender?
        then Receiver else Sender)
    && (s.child.usr2 == if s.child.pc.InstallUsr1? || s.child.pc.InstallUsr2? then Default else Receiver)
  }

  // While the parent waits for the child to get ready.
  predicate StartInv(s: State) {
    && !s.child.pc.Killed?
    && (ParentWaitsReady(s.parent.pc) || s.parent.pc.ClearReady? ==>
          && (ChildStarting(s.child.pc) || ChildReceiving(s.child.pc))
          && s.parent.i == 0 && s.parent.counter == 0 && s.child.counter == 0 && Tokens(s) == 0
          && !s.pending.child2 && !s.child.proceed)
    && (ChildStarting(s.child.pc) ==> ParentWaitsReady(s.parent.pc) && !s.pending.parent2 && !s.parent.flag)
    && (ParentWaitsReady(s.parent.pc) ==> !(s.pending.parent2 && s.parent.flag))
    && (s.parent.pc.ClearReady? ==> s.parent.flag && !s.pending.parent2)
    && s.child.i <= s.child.counter
  }

  // The parent sends, the child counts and acknowledges: one token at a time.
  predicate SendingInv(s: State, n: int) {
    && (ParentSending(s.parent.pc) || ParentDoneSending(s.parent.pc) ==>
          && ChildReceiving(s.child.pc) && !s.child.proceed && !s.pending.child2
          && !s.parent.flag && !s.pending.parent2
          && s.parent.counter == 0 && !s.parent.echoing && !s.child.confirmation
          && s.parent.i <= Signals(n))
    && (s.parent.pc.NextSend? || ParentDoneSending(s.parent.pc) ==> Tokens(s) == 0 && s.child.counter == s.parent.i)
    && (ParentInFlight(s.parent.pc) ==>
          && Tokens(s) == 1 && s.parent.i < Signals(n)
          && s.child.counter == s.parent.i + (if s.pending.child1 then 0 else 1))
    && (s.parent.pc.ClearConf? ==> s.parent.confirmation)
    && (ParentDoneSending(s.parent.pc) ==> s.parent.i == Signals(n))
  }

  // The child sends back, the parent counts and acknowledges.
  predicate ReturningInv(s: State, n: int) {
    && (ParentReceiving(s.parent.pc) ==>
          && !ChildStarting(s.child.pc) && s.parent.i == s.child.counter == Signals(n) && !s.parent.confirmation
          && (s.pending.child2 ==> ChildReceiving(s.child.pc) && !s.child.proceed)
          && (ChildReceiving(s.child.pc) ==> s.pending.child2 || s.child.proceed)
          && (s.parent.flag || s.pending.parent2 ==> s.child.pc.Exited?)
          && (s.child.pc.Exited? ==> s.parent.flag || s.pending.parent2)
          && !(s.parent.flag && s.pending.parent2)
          && (s.parent.pc.Printed? ==> s.parent.flag))
    && (!ParentReceiving(s.parent.pc) ==> ChildStarting(s.child.pc) || ChildReceiving(s.child.pc))
    && (ChildReceiving(s.child.pc) || s.child.pc.SwitchToSender? ==>
          s.child.i == 0 && s.parent.counter == 0 && (ParentReceiving(s.parent.pc) ==> Tokens(s) == 0))
    && (s.child.pc.SwitchToSender? ==> s.child.proceed)
    && (s.child.pc.NextEcho? || s.child.pc.SendEnd? || s.child.pc.Exited? ==>
          Tokens(s) == 0 && s.parent.counter == s.child.i)
    && (ChildInFlight(s.child.pc) ==>
          && Tokens(s) == 1 && s.child.i < s.child.counter && !s.child.echoing
          && s.parent.counter == s.child.i + (if s.pending.parent1 then 0 else 1))
    && (s.child.pc.ClearBack? ==> s.child.confirmation)
    && (s.child.pc.SendEnd? || s.child.pc.Exited? ==> s.child.i == s.child.counter)
  }

  predicate Inv(s: State, n: int) {
    HandlersInv(s) && StartInv(s) && SendingInv(s, n) && ReturningInv(s, n)
  }

  lemma InitialInv(n: int)
    ensures Inv(INITIAL, n)
  {
  }

  lemma ParentAcknowledgesInv(s: State, n: int)
    requires Inv(s, n) && Can(s, ParentMoves) && s.parent.echoing
    ensures Inv(After(s, ParentMoves, n), n)
  {
  }

  lemma ParentTestsReadyInv(s: State, n: int)
    requires Inv(s, n) && Can(s, ParentMoves) && !s.parent.echoing
    requires s.parent.pc.ClearFlag? || s.parent.pc.TestReady?
    ensures Inv(After(s, ParentMoves, n), n)
  {
  }

  lemma ParentEntersReadyInv(s: State, n: int)
    requires Inv(s, n) && Can(s, ParentMoves) && !s.parent.echoing && s.parent.pc.EnterReady?
    ensures Inv(After(s, ParentMoves, n), n)
  {
  }

  lemma ParentClearsInv(s: State, n: int)
    requires Inv(s, n) && Can(s, ParentMoves) && !s.parent.echoing && s.parent.pc.ClearReady?
    ensures Inv(After(s, ParentMoves, n), n)
  {
  }

  lemma ParentSendsInv(s: State, n: int)
    requires Inv(s, n) && Can(s, ParentMoves) && !s.parent.echoing && s.parent.pc.NextSend?
    ensures Inv(After(s, ParentMoves, n), n)
  {
  }

  lemma ParentConfirmedInv(s: State, n: int)
    requires Inv(s, n) && Can(s, ParentMoves) && !s.parent.echoing && ParentInFlight(s.parent.pc)
    ensures Inv(After(s, ParentMoves, n), n)
  {
  }

  lemma ParentTurnsInv(s: State, n: int)
    requires Inv(s, n) && Can(s, ParentMoves) && !s.parent.echoing && ParentDoneSending(s.parent.pc)
    ensures Inv(After(s, ParentMoves, n), n)
  {
  }

  lemma ParentTestsEndInv(s: State, n: int)
    requires Inv(s, n) && Can(s, ParentMoves) && !s.parent.echoing && s.parent.pc.TestEnd?
    ensures Inv(After(s, ParentMoves, n), n)
  {
  }

  lemma ParentEntersEndInv(s: State, n: int)
    requires Inv(s, n) && Can(s, ParentMoves) && !s.parent.echoing && s.parent.pc.EnterEnd?
    ensures Inv(After(s, ParentMoves, n), n)
  {
  }

  lemma ChildAcknowledgesInv(s: State, n: int)
    requires Inv(s, n) && Can(s, ChildMoves) && s.child.echoing
    ensures Inv(After(s, ChildMoves, n), n)
  {
  }

  lemma ChildStartsInv(s: State, n: int)
    requires Inv(s, n) && Can(s, ChildMoves) && !s.child.echoing && ChildStarting(s.child.pc)
    ensures Inv(After(s, ChildMoves, n), n)
  {
  }

  lemma ChildReceivesInv(s: State, n: int)
    requires Inv(s, n) && Can(s, ChildMoves) && !s.child.echoing && ChildReceiving(s.child.pc)
    ensures Inv(After(s, ChildMoves, n), n)
  {
  }

  lemma ChildTurnsInv(s: State, n: int)
    requires Inv(s, n) && Can(s, ChildMoves) && !s.child.echoing && s.child.pc.SwitchToSender?
    ensures Inv(After(s, ChildMoves, n), n)
  {
  }

  lemma ChildReturnsInv(s: State, n: int)
    requires Inv(s, n) && Can(s, ChildMoves) && !s.child.echoing && ChildInFlight(s.child.pc)
    ensures Inv(After(s, ChildMoves, n), n)
  {
  }

  lemma ChildEchoesInv(s: State, n: int)
    requires Inv(s, n) && Can(s, ChildMoves) && !s.child.echoing && (s.child.pc.NextEcho? || s.child.pc.SendEnd?)
    ensures Inv(After(s, ChildMoves, n), n)
  {
  }

  lemma DeliverParent1Inv(s: State, n: int)
    requires Inv(s, n) && Can(s, DeliverParent1)
    ensures Inv(After(s, DeliverParent1, n), n)
  {
  }

  lemma DeliverParent2Inv(s: State, n: int)
    requires Inv(s, n) && Can(s, DeliverParent2)
    ensures Inv(After(s, DeliverParent2, n), n)
  {
  }

  lemma DeliverChild1Inv(s: State, n: int)
    requires Inv(s, n) && Can(s, DeliverChild1)
    ensures Inv(After(s, DeliverChild1, n), n)
  {
  }

  lemma DeliverChild2Inv(s: State, n: int)
    requires Inv(s, n) && Can(s, DeliverChild2)
    ensures Inv(After(s, DeliverChild2, n), n)
  {
  }

  // Every step of either process, and every delivery, keeps all of it.
  lemma StepInv(s: State, a: Action, n: int)
    requires Inv(s, n) && Can(s, a)
    ensures Inv(After(s, a, n), n)
  {
    hide Inv, After, ParentStep, ChildStep;
    match a
    case ParentMoves =>
      if s.parent.echoing {
        ParentAcknowledgesInv(s, n);
      } else if s.parent.pc.ClearFlag? || s.parent.pc.TestReady? {
        ParentTestsReadyInv(s, n);
      } else if s.parent.pc.EnterReady? {
        ParentEntersReadyInv(s, n);
      } else if s.parent.pc.ClearReady? {
        ParentClearsInv(s, n);
      } else if s.parent.pc.NextSend? {
        ParentSendsInv(s, n);
      } else if ParentInFlight(s.parent.pc) {
        ParentConfirmedInv(s, n);
      } else if ParentDoneSending(s.parent.pc) {
        ParentTurnsInv(s, n);
      } else if s.parent.pc.TestEnd? {
        ParentTestsEndInv(s, n);
      } else {
        ParentEntersEndInv(s, n);
      }
    case ChildMoves =>
      if s.child.echoing {
        ChildAcknowledgesInv(s, n);
      } else if ChildStarting(s.child.pc) {
        ChildStartsInv(s, n);
      } else if ChildReceiving(s.child.pc) {
        ChildReceivesInv(s, n);
      } else if s.child.pc.SwitchToSender? {
        ChildTurnsInv(s, n);
      } else if s.child.pc.NextEcho? || s.child.pc.SendEnd? {
        ChildEchoesInv(s, n);
      } else {
        ChildReturnsInv(s, n);
      }
    case DeliverParent1 => DeliverParent1Inv(s, n);
    case DeliverParent2 => DeliverParent2Inv(s, n);
    case DeliverChild1 => DeliverChild1Inv(s, n);
    case DeliverChild2 => DeliverChild2Inv(s, n);
  }

  // ------------------------------------------------------------------ safety

  ghost predicate IsPath(states: seq<State>, actions: seq<Action>, n: int) {
    && |states| == |actions| + 1
    && forall k :: 0 <= k < |actions| ==> Can(states[k], actions[k]) && states[k + 1] == After(states[k], actions[k], n)
  }

  ghost predicate IsRun(states: seq<State>, actions: seq<Action>, n: int) {
    IsPath(states, actions, n) && states[0] == INITIAL
  }

  lemma {:induction false} RunKeepsInv(states: seq<State>, actions: seq<Action>, n: int, k: nat)
    requires IsRun(states, actions, n) && k < |states|
    ensures Inv(states[k], n)
  {
    if k == 0 {
      InitialInv(n);
    } else {
      RunKeepsInv(states, actions, n, k - 1);
      StepInv(states[k - 1], actions[k - 1], n);
    }
  }

  predicate SendsUsr1(s: State, a: Action, n: int) {
    && Can(s, a)
    && match a
       case ParentMoves => s.parent.echoing || (s.parent.pc.NextSend? && s.parent.i < n)
       case ChildMoves => s.child.echoing || (s.child.pc.NextEcho? && s.child.i < s.child.counter)
       case _ => false
  }

  // At most one SIGUSR1 is ever on its way, in either direction, so no kill
  // meets a bit that is already set and no signal is merged with another; and
  // none is on its way to a process that is changing its handler.
  lemma NoSignalIsLost(states: seq<State>, actions: seq<Action>, n: int, k: nat)
    requires IsRun(states, actions, n) && k < |states|
    ensures Tokens(states[k]) <= 1
    ensures states[k].parent.pc.SwitchUsr1? || states[k].parent.pc.SwitchUsr2? ==>
      !states[k].pending.parent1 && !states[k].parent.echoing
    ensures ChildStarting(states[k].child.pc) || states[k].child.pc.SwitchToSender? ==>
      !states[k].pending.child1 && !states[k].child.echoing
    ensures !states[k].child.pc.Killed?
    ensures k < |actions| && SendsUsr1(states[k], actions[k], n) ==>
      !states[k].pending.parent1 && !states[k].pending.child1
  {
    RunKeepsInv(states, actions, n, k);
  }

  lemma PrintedMeansCounted(s: State, n: int)
    requires Inv(s, n) && s.parent.pc.Printed?
    ensures s.parent.counter == s.child.counter == s.child.i == s.parent.i == Signals(n)
  {
  }

  // When the parent prints, both processes have counted every signal.
  lemma PrintedCountsAgree(states: seq<State>, actions: seq<Action>, n: int, k: nat)
    requires IsRun(states, actions, n) && k < |states| && states[k].parent.pc.Printed?
    ensures states[k].parent.counter == states[k].child.counter == if n > 0 then n else 0
    ensures states[k].child.i == states[k].parent.i == if n > 0 then n else 0
  {
    RunKeepsInv(states, actions, n, k);
    PrintedMeansCounted(states[k], n);
  }

  // How many of the first k actions deliver SIGUSR1 to a counting handler.
  function CountedDeliveries(states: seq<State>, actions: seq<Action>, toParent: bool, k: nat): nat
    requires k <= |actions| < |states|
  {
    if k == 0 then 0
    else
      var s, a := states[k - 1], actions[k - 1];
      CountedDeliveries(states, actions, toParent, k - 1)
      + if toParent && a.DeliverParent1? && s.parent.usr1.Receiver? then 1
        else if !toParent && a.DeliverChild1? && s.child.usr1.Receiver? then 1
        else 0
  }

  // The counters say how many signals have been delivered to be counted.
  lemma {:induction false} CountersCountDeliveries(states: seq<State>, actions: seq<Action>, n: int, k: nat)
    requires IsRun(states, actions, n) && k < |states|
    ensures states[k].parent.counter == CountedDeliveries(states, actions, true, k)
    ensures states[k].child.counter == CountedDeliveries(states, actions, false, k)
  {
    hide Inv;
    if k > 0 {
      CountersCountDeliveries(states, actions, n, k - 1);
      StepCounts(states[k - 1], actions[k - 1], n);
    }
  }

  lemma StepCounts(s: State, a: Action, n: int)
    requires Can(s, a)
    ensures var s' := After(s, a, n);
      && s'.parent.counter == s.parent.counter + (if a.DeliverParent1? && s.parent.usr1.Receiver? then 1 else 0)
      && s'.child.counter == s.child.counter + (if a.DeliverChild1? && s.child.usr1.Receiver? then 1 else 0)
  {
  }

  // ----------------------------------------------------------------- hanging

  predicate Stuck(s: State) {
    !Can(s, ParentMoves) && !Can(s, ChildMoves)
    && !Can(s, DeliverParent1) && !Can(s, DeliverParent2) && !Can(s, DeliverChild1) && !Can(s, DeliverChild2)
  }

  // A main that is paused although what it waits for has already happened.
  predicate MissedByParent(s: State) {
    (s.parent.pc.PauseReady? && s.parent.flag) || (s.parent.pc.PauseConf? && s.parent.confirmation)
    || (s.parent.pc.PauseEnd? && s.parent.flag)
  }

  predicate MissedByChild(s: State) {
    (s.child.pc.PauseGo? && s.child.proceed) || (s.child.pc.PauseBack? && s.child.confirmation)
  }

  // The child has sent its ready signal, and nothing of it is left.
  predicate ReadyCleared(s: State) {
    s.parent.pc.PauseReady? && !s.parent.flag && !s.pending.parent2 && !ChildStarting(s.child.pc)
  }

  predicate Finished(s: State) {
    s.parent.pc.Printed? && s.child.pc.Exited?
  }

  lemma LostWakeupsAreStuck(s: State, n: int)
    requires Inv(s, n) && !Can(s, ParentMoves) && !Can(s, ChildMoves)
    requires MissedByParent(s) || MissedByChild(s) || ReadyCleared(s)
    ensures Stuck(s)
  {
  }

  lemma StuckIsLostWakeup(s: State, n: int)
    requires Inv(s, n) && Stuck(s)
    ensures Finished(s) || MissedByParent(s) || MissedByChild(s) || ReadyCleared(s)
  {
  }

  // A reachable state in which both mains stand still admits no further step
  // exactly when it is the end or a lost wakeup; there is no other way to hang.
  lemma StuckIffLostWakeup(states: seq<State>, actions: seq<Action>, n: int, k: nat)
    requires IsRun(states, actions, n) && k < |states|
    requires !Can(states[k], ParentMoves) && !Can(states[k], ChildMoves)
    ensures Stuck(states[k]) <==>
      Finished(states[k]) || MissedByParent(states[k]) || MissedByChild(states[k]) || ReadyCleared(states[k])
  {
    RunKeepsInv(states, actions, n, k);
    if Stuck(states[k]) {
      StuckIsLostWakeup(states[k], n);
    } else if MissedByParent(states[k]) || MissedByChild(states[k]) || ReadyCleared(states[k]) {
      LostWakeupsAreStuck(states[k], n);
    }
  }

  // ------------------------------------------------------------- termination

  // What a pending SIGUSR1 can still cause: a counting handler sends one back.
  function BitWork(bit: bool, handler: Handler): nat {
    if !bit then 0 else if handler.Receiver? then 7 else 3
  }

  function ParentWork(p: Parent, total: nat): int {
    (if p.echoing then 6 else 0) +
    match p.pc
    case ClearFlag => (total - p.i) * 12 + 15
    case TestReady => (total - p.i) * 12 + 14
    case EnterReady => (total - p.i) * 12 + 13
    case PauseReady => (total - p.i) * 12 + 12
    case ClearReady => (total - p.i) * 12 + 11
    case NextSend => (total - p.i) * 12 + 10
    case TestConf => (total - p.i) * 12 + 2
    case EnterConf => (total - p.i) * 12 + 1
    case PauseConf => (total - p.i) * 12
    case ClearConf => (total - p.i) * 12 - 1
    case SwitchUsr1 => 9
    case SwitchUsr2 => 8
    case SendGo => 7
    case TestEnd => 3
    case EnterEnd => 2
    case PauseEnd => 1
    case Printed => 0
  }

  function ChildWork(c: Child, total: nat): int {
    (if c.echoing then 6 else 0) +
    match c.pc
    case InstallUsr1 => (total - c.i) * 12 + 15
    case InstallUsr2 => (total - c.i) * 12 + 14
    case SendReady => (total - c.i) * 12 + 13
    case TestGo => (total - c.i) * 12 + 9
    case EnterGo => (total - c.i) * 12 + 8
    case PauseGo => (total - c.i) * 12 + 7
    case SwitchToSender => (total - c.i) * 12 + 6
    case NextEcho => (total - c.i) * 12 + 5
    case TestBack => (total - c.i) * 12 - 3
    case EnterBack => (total - c.i) * 12 - 4
    case PauseBack => (total - c.i) * 12 - 5
    case ClearBack => (total - c.i) * 12 - 6
    case SendEnd => 4
    case Exited => 0
    case Killed => 0
  }

  function Work(s: State, n: int): int {
    ParentWork(s.parent, Signals(n)) + ChildWork(s.child, Signals(n))
    + BitWork(s.pending.parent1, s.parent.usr1) + BitWork(s.pending.child1, s.child.usr1)
    + 3 * Bit(s.pending.parent2) + 3 * Bit(s.pending.child2)
  }

  lemma WorkNonNegative(s: State, n: int)
    requires Inv(s, n)
    ensures Work(s, n) >= 0
  {
  }

  lemma ParentAcknowledgesWork(s: State, n: int)
    requires Inv(s, n) && Can(s, ParentMoves) && s.parent.echoing
    ensures Work(After(s, ParentMoves, n), n) < Work(s, n)
  {
  }

  lemma ParentSendingWork(s: State, n: int)
    requires Inv(s, n) && Can(s, ParentMoves) && !s.parent.echoing && ParentSending(s.parent.pc)
    ensures Work(After(s, ParentMoves, n), n) < Work(s, n)
  {
  }

  lemma ParentWaitsWork(s: State, n: int)
    requires Inv(s, n) && Can(s, ParentMoves) && !s.parent.echoing && ParentWaitsReady(s.parent.pc)
    ensures Work(After(s, ParentMoves, n), n) < Work(s, n)
  {
  }

  lemma ParentTurnsWork(s: State, n: int)
    requires Inv(s, n) && Can(s, ParentMoves) && !s.parent.echoing
    requires s.parent.pc.ClearReady? || ParentDoneSending(s.parent.pc)
    ensures Work(After(s, ParentMoves, n), n) < Work(s, n)
  {
  }

  lemma ParentReceivesWork(s: State, n: int)
    requires Inv(s, n) && Can(s, ParentMoves) && !s.parent.echoing && ParentReceiving(s.parent.pc)
    ensures Work(After(s, ParentMoves, n), n) < Work(s, n)
  {
  }

  lemma ParentUsesWork(s: State, n: int)
    requires Inv(s, n) && Can(s, ParentMoves)
    ensures Work(After(s, ParentMoves, n), n) < Work(s, n)
  {
    hide Inv, After, Work, Can;
    if s.parent.echoing {
      ParentAcknowledgesWork(s, n);
    } else if ParentSending(s.parent.pc) {
      ParentSendingWork(s, n);
    } else if ParentWaitsReady(s.parent.pc) {
      ParentWaitsWork(s, n);
    } else if ParentReceiving(s.parent.pc) {
      ParentReceivesWork(s, n);
    } else {
      ParentTurnsWork(s, n);
    }
  }

  lemma ChildAcknowledgesWork(s: State, n: int)
    requires Inv(s, n) && Can(s, ChildMoves) && s.child.echoing
    ensures Work(After(s, ChildMoves, n), n) < Work(s, n)
  {
  }

  lemma ChildReturnsWork(s: State, n: int)
    requires Inv(s, n) && Can(s, ChildMoves) && !s.child.echoing && (s.child.pc.NextEcho? || ChildInFlight(s.child.pc))
    ensures Work(After(s, ChildMoves, n), n) < Work(s, n)
  {
  }

  lemma ChildReceivesWork(s: State, n: int)
    requires Inv(s, n) && Can(s, ChildMoves) && !s.child.echoing
    requires ChildStarting(s.child.pc) || ChildReceiving(s.child.pc)
    ensures Work(After(s, ChildMoves, n), n) < Work(s, n)
  {
  }

  lemma ChildTurnsWork(s: State, n: int)
    requires Inv(s, n) && Can(s, ChildMoves) && !s.child.echoing && (s.child.pc.SwitchToSender? || s.child.pc.SendEnd?)
    ensures Work(After(s, ChildMoves, n), n) < Work(s, n)
  {
  }

  lemma ChildUsesWork(s: State, n: int)
    requires Inv(s, n) && Can(s, ChildMoves)
    ensures Work(After(s, ChildMoves, n), n) < Work(s, n)
  {
    hide Inv, After, Work;
    if s.child.echoing {
      ChildAcknowledgesWork(s, n);
    } else if s.child.pc.NextEcho? || ChildInFlight(s.child.pc) {
      ChildReturnsWork(s, n);
    } else if ChildStarting(s.child.pc) || ChildReceiving(s.child.pc) {
      ChildReceivesWork(s, n);
    } else {
      ChildTurnsWork(s, n);
    }
  }

  lemma DeliveryToParentWork(s: State, a: Action, n: int)
    requires Inv(s, n) && Can(s, a) && (a.DeliverParent1? || a.DeliverParent2?)
    ensures Work(After(s, a, n), n) < Work(s, n)
  {
  }

  lemma DeliveryToChildWork(s: State, a: Action, n: int)
    requires Inv(s, n) && Can(s, a) && (a.DeliverChild1? || a.DeliverChild2?)
    ensures Work(After(s, a, n), n) < Work(s, n)
  {
  }

  lemma StepUsesWork(s: State, a: Action, n: int)
    requires Inv(s, n) && Can(s, a)
    ensures Work(After(s, a, n), n) < Work(s, n)
  {
    hide Inv, After, Work, Can;
    match a
    case ParentMoves => ParentUsesWork(s, n);
    case ChildMoves => ChildUsesWork(s, n);
    case DeliverParent1 => DeliveryToParentWork(s, a, n);
    case DeliverParent2 => DeliveryToParentWork(s, a, n);
    case DeliverChild1 => DeliveryToChildWork(s, a, n);
    case DeliverChild2 => DeliveryToChildWork(s, a, n);
  }

  lemma {:induction false} WorkBudget(states: seq<State>, actions: seq<Action>, n: int)
    requires IsRun(states, actions, n)
    ensures Work(states[|actions|], n) + |actions| <= 24 * Signals(n) + 30
  {
    if actions != [] {
      hide Work, Inv, After, Can;
      var m := |actions| - 1;
      WorkBudget(states[..m + 1], actions[..m], n);
      RunKeepsInv(states, actions, n, m);
      StepUsesWork(states[m], actions[m], n);
    }
  }

  // Every run is finite. So each ends, after finitely many steps, as
  // StuckIffLostWakeup says: finished, or hanging in a lost wakeup.
  lemma RunsAreBounded(states: seq<State>, actions: seq<Action>, n: int)
    requires IsRun(states, actions, n)
    ensures |actions| <= 24 * Signals(n) + 30
  {
    WorkBudget(states, actions, n);
    RunKeepsInv(states, actions, n, |actions|);
    WorkNonNegative(states[|actions|], n);
  }

  // ------------------------------------------- which schedules complete it

  // A delivery at a bad moment: between a test and its pause, or before line 75.
  predicate Races(s: State, a: Action) {
    match a
    case DeliverParent1 => s.parent.pc.EnterConf?
    case DeliverParent2 => s.parent.pc.ClearFlag? || s.parent.pc.EnterReady? || s.parent.pc.EnterEnd?
    case DeliverChild1 => s.child.pc.EnterBack?
    case DeliverChild2 => s.child.pc.EnterGo?
    case _ => false
  }

  // A wakeup has been lost, whether or not the main has gone to sleep by now.
  predicate Doomed(s: State) {
    || (s.parent.pc.ClearFlag? && s.parent.flag)
    || (ParentWaitsReady(s.parent.pc) && !s.parent.flag && !s.pending.parent2 && !ChildStarting(s.child.pc))
    || ((s.parent.pc.EnterReady? || s.parent.pc.PauseReady?) && s.parent.flag)
    || ((s.parent.pc.EnterConf? || s.parent.pc.PauseConf?) && s.parent.confirmation)
    || ((s.parent.pc.EnterEnd? || s.parent.pc.PauseEnd?) && s.parent.flag)
    || ((s.child.pc.EnterGo? || s.child.pc.PauseGo?) && s.child.proceed)
    || ((s.child.pc.EnterBack? || s.child.pc.PauseBack?) && s.child.confirmation)
  }

  lemma ParentReadyMoveDooms(s: State, n: int)
    requires Inv(s, n) && Can(s, ParentMoves) && (ParentWaitsReady(s.parent.pc) || s.parent.pc.ClearReady?)
    ensures Doomed(After(s, ParentMoves, n)) <==> Doomed(s)
  {
  }

  lemma ParentLaterMoveDooms(s: State, n: int)
    requires Inv(s, n) && Can(s, ParentMoves) && !ParentWaitsReady(s.parent.pc) && !s.parent.pc.ClearReady?
    ensures Doomed(After(s, ParentMoves, n)) <==> Doomed(s)
  {
  }

  lemma ChildMoveDooms(s: State, n: int)
    requires Inv(s, n) && Can(s, ChildMoves)
    ensures Doomed(After(s, ChildMoves, n)) <==> Doomed(s)
  {
  }

  lemma DeliveryToParentDooms(s: State, a: Action, n: int)
    requires Inv(s, n) && Can(s, a) && (a.DeliverParent1? || a.DeliverParent2?)
    ensures Doomed(After(s, a, n)) <==> Doomed(s) || Races(s, a)
  {
  }

  lemma DeliveryToChildDooms(s: State, a: Action, n: int)
    requires Inv(s, n) && Can(s, a) && (a.DeliverChild1? || a.DeliverChild2?)
    ensures Doomed(After(s, a, n)) <==> Doomed(s) || Races(s, a)
  {
  }

  // A race loses a wakeup for good, and nothing else loses one.
  lemma StepDooms(s: State, a: Action, n: int)
    requires Inv(s, n) && Can(s, a)
    ensures Doomed(After(s, a, n)) <==> Doomed(s) || Races(s, a)
  {
    hide Inv, Can, After, Doomed;
    match a
    case ParentMoves =>
      if ParentWaitsReady(s.parent.pc) || s.parent.pc.ClearReady? {
        ParentReadyMoveDooms(s, n);
      } else {
        ParentLaterMoveDooms(s, n);
      }
    case ChildMoves => ChildMoveDooms(s, n);
    case DeliverParent1 => DeliveryToParentDooms(s, a, n);
    case DeliverParent2 => DeliveryToParentDooms(s, a, n);
    case DeliverChild1 => DeliveryToChildDooms(s, a, n);
    case DeliverChild2 => DeliveryToChildDooms(s, a, n);
  }

  ghost predicate NoRace(states: seq<State>, actions: seq<Action>)
    requires |states| == |actions| + 1
  {
    forall j :: 0 <= j < |actions| ==> !Races(states[j], actions[j])
  }

  lemma {:induction false} PathDooms(states: seq<State>, actions: seq<Action>, n: int)
    requires IsPath(states, actions, n) && Inv(states[0], n)
    ensures Inv(states[|actions|], n)
    ensures Doomed(states[|actions|]) <==> Doomed(states[0]) || !NoRace(states, actions)
  {
    hide Inv, Can, After, Doomed, Races;
    if actions != [] {
      var m := |actions| - 1;
      PathDooms(states[..m + 1], actions[..m], n);
      StepInv(states[m], actions[m], n);
      StepDooms(states[m], actions[m], n);
      assert NoRace(states, actions) <==>
        NoRace(states[..m + 1], actions[..m]) && !Races(states[m], actions[m]) by {
        assert forall j :: 0 <= j < m ==> states[..m + 1][j] == states[j] && actions[..m][j] == actions[j];
      }
    }
  }

  lemma FinishedIsNotDoomed(s: State, n: int)
    requires Inv(s, n)
    ensures Finished(s) ==> !Doomed(s)
    ensures Stuck(s) && !Doomed(s) ==> Finished(s)
  {
    if Stuck(s) {
      StuckIsLostWakeup(s, n);
    }
  }

  // A run that has come to a stop has completed the exchange exactly when no
  // delivery of it fell between a test and its pause, or before line 75.
  lemma FinishedIffNoRace(states: seq<State>, actions: seq<Action>, n: int)
    requires IsRun(states, actions, n) && Stuck(states[|actions|])
    ensures Finished(states[|actions|]) <==> NoRace(states, actions)
  {
    hide Inv, Doomed, Stuck, Finished, Races;
    InitialInv(n);
    NotDoomedAtStart();
    PathDooms(states, actions, n);
    FinishedIsNotDoomed(states[|actions|], n);
  }

  lemma NotDoomedAtStart()
    ensures !Doomed(INITIAL)
  {
  }

  // While no wakeup is lost there is a step that loses none.
  lemma SafeStep(s: State) returns (a: Action)
    requires !Stuck(s)
    ensures Can(s, a) && !Races(s, a)
  {
    if Can(s, ParentMoves) {
      a := ParentMoves;
    } else if Can(s, ChildMoves) {
      a := ChildMoves;
    } else if Can(s, DeliverParent1) {
      a := DeliverParent1;
    } else if Can(s, DeliverParent2) {
      a := DeliverParent2;
    } else if Can(s, DeliverChild1) {
      a := DeliverChild1;
    } else {
      a := DeliverChild2;
    }
  }

  ghost predicate CanFinish(s: State, n: int) {
    exists states, actions :: IsPath(states, actions, n) && states[0] == s && Finished(states[|actions|])
  }

  lemma {:induction false} Undoomed(s: State, n: int) returns (states: seq<State>, actions: seq<Action>)
    requires Inv(s, n) && !Doomed(s)
    ensures IsPath(states, actions, n) && states[0] == s && Finished(states[|actions|])
    decreases Natural(Work(s, n))
  {
    hide Inv, Can, After, Doomed, Races, Work, Stuck, Finished;
    if Stuck(s) {
      FinishedIsNotDoomed(s, n);
      states, actions := [s], [];
    } else {
      var a := SafeStep(s);
      var t := After(s, a, n);
      StepInv(s, a, n);
      StepDooms(s, a, n);
      StepUsesWork(s, a, n);
      WorkNonNegative(t, n);
      states, actions := Undoomed(t, n);
      states, actions := [s] + states, [a] + actions;
    }
  }

  function Natural(x: int): nat {
    if x < 0 then 0 else x
  }

  // At every moment of every run the exchange can still be completed exactly when
  // there has been no such delivery so far.
  lemma CanFinishIffNoRace(states: seq<State>, actions: seq<Action>, n: int)
    requires IsRun(states, actions, n)
    ensures CanFinish(states[|actions|], n) <==> NoRace(states, actions)
  {
    hide Inv, Doomed, Finished, Races;
    var s := states[|actions|];
    InitialInv(n);
    NotDoomedAtStart();
    PathDooms(states, actions, n);
    if Doomed(s) {
      forall states', actions' | IsPath(states', actions', n) && states'[0] == s
        ensures !Finished(states'[|actions'|])
      {
        PathDooms(states', actions', n);
        FinishedIsNotDoomed(states'[|actions'|], n);
      }
    } else {
      var states', actions' := Undoomed(s, n);
    }
  }

  // ------------------------------------------------- schedules that do happen

  ghost predicate Reaches(s: State, n: int) {
    exists states, actions :: IsRun(states, actions, n) && states[|actions|] == s
  }

  lemma ReachInitial(n: int)
    ensures Reaches(INITIAL, n)
  {
    var states, actions: seq<Action> := [INITIAL], [];
    assert IsRun(states, actions, n) && states[|actions|] == INITIAL;
  }

  lemma Step(s: State, a: Action, n: int) returns (t: State)
    requires Reaches(s, n) && Can(s, a)
    ensures t == After(s, a, n) && Reaches(t, n)
  {
    t := After(s, a, n);
    var states, actions :| IsRun(states, actions, n) && states[|actions|] == s;
    var states', actions' := states + [t], actions + [a];
    assert IsRun(states', actions', n) && states'[|actions'|] == t;
  }

  // The parent is about to send signal i; nothing is under way.
  function BeforeSend(i: nat): State {
    State(Parent(NextSend, i, false, false, 0, Sender, Sender, false),
          Child(TestGo, 0, false, false, i, Receiver, Receiver, false),
          Pending(false, false, false, false))
  }

  // The child is about to send signal i of `total` back.
  function BeforeReturn(i: nat, total: nat): State {
    State(Parent(TestEnd, total, false, false, i, Receiver, Receiver, false),
          Child(NextEcho, i, true, false, total, Sender, Receiver, false),
          Pending(false, false, false, false))
  }

  // Both processes get ready without a race.
  lemma ReachesSending(n: int)
    ensures Reaches(BeforeSend(0), n)
  {
    hide Reaches;
    ReachInitial(n);
    var s := Step(INITIAL, ParentMoves, n);
    s := Step(s, ChildMoves, n);
    s := Step(s, ChildMoves, n);
    s := Step(s, ChildMoves, n);
    s := Step(s, DeliverParent2, n);
    s := Step(s, ParentMoves, n);
    s := Step(s, ParentMoves, n);
    assert s == BeforeSend(0);
  }

  lemma SendRound(i: nat, n: int)
    requires i < n && Reaches(BeforeSend(i), n)
    ensures Reaches(BeforeSend(i + 1), n)
  {
    hide Reaches;
    var s := Step(BeforeSend(i), ParentMoves, n);
    s := Step(s, DeliverChild1, n);
    s := Step(s, ChildMoves, n);
    s := Step(s, DeliverParent1, n);
    s := Step(s, ParentMoves, n);
    s := Step(s, ParentMoves, n);
    assert s == BeforeSend(i + 1);
  }

  lemma TurnRound(n: int)
    requires Reaches(BeforeSend(Signals(n)), n)
    ensures Reaches(BeforeReturn(0, Signals(n)), n)
  {
    hide Reaches;
    var s := Step(BeforeSend(Signals(n)), ParentMoves, n);
    s := Step(s, ParentMoves, n);
    s := Step(s, ParentMoves, n);
    s := Step(s, ParentMoves, n);
    s := Step(s, DeliverChild2, n);
    s := Step(s, ChildMoves, n);
    s := Step(s, ChildMoves, n);
    assert s == BeforeReturn(0, Signals(n));
  }

  lemma ReturnRound(i: nat, n: int)
    requires i < Signals(n) && Reaches(BeforeReturn(i, Signals(n)), n)
    ensures Reaches(BeforeReturn(i + 1, Signals(n)), n)
  {
    hide Reaches;
    var s := Step(BeforeReturn(i, Signals(n)), ChildMoves, n);
    s := Step(s, DeliverParent1, n);
    s := Step(s, ParentMoves, n);
    s := Step(s, DeliverChild1, n);
    s := Step(s, ChildMoves, n);
    s := Step(s, ChildMoves, n);
    assert s == BeforeReturn(i + 1, Signals(n));
  }

  lemma {:induction false} ReachesSend(i: nat, n: int)
    requires i <= Signals(n)
    ensures Reaches(BeforeSend(i), n)
  {
    if i == 0 {
      ReachesSending(n);
    } else {
      ReachesSend(i - 1, n);
      SendRound(i - 1, n);
    }
  }

  lemma {:induction false} ReachesReturn(i: nat, n: int)
    requires i <= Signals(n)
    ensures Reaches(BeforeReturn(i, Signals(n)), n)
  {
    if i == 0 {
      ReachesSend(Signals(n), n);
      TurnRound(n);
    } else {
      ReachesReturn(i - 1, n);
      ReturnRound(i - 1, n);
    }
  }

  // For every n some schedule completes the exchange.
  lemma CompletionIsReachable(n: int)
    ensures exists s :: Reaches(s, n) && Finished(s)
  {
    hide Reaches;
    ReachesReturn(Signals(n), n);
    var s := Step(BeforeReturn(Signals(n), Signals(n)), ChildMoves, n);
    s := Step(s, ChildMoves, n);
    s := Step(s, DeliverParent2, n);
    s := Step(s, ParentMoves, n);
    assert Finished(s);
  }

  // A hang with the two mains asleep at these positions.
  ghost predicate HangsAt(n: int, s: State, p: ParentPc, c: ChildPc) {
    Reaches(s, n) && Stuck(s) && s.parent.pc == p && s.child.pc == c
  }

  // The ready signal is delivered before line 75 clears it away again.
  lemma ReadyCanBeCleared(n: int) returns (s: State)
    ensures HangsAt(n, s, PauseReady, PauseGo) && ReadyCleared(s)
  {
    hide Reaches;
    ReachInitial(n);
    s := Step(INITIAL, ChildMoves, n);
    s := Step(s, ChildMoves, n);
    s := Step(s, ChildMoves, n);
    s := Step(s, DeliverParent2, n);
    assert s == State(INITIAL.parent.(flag := true), INITIAL.child.(pc := TestGo, usr1 := Receiver, usr2 := Receiver),
                      INITIAL.pending);
    s := Step(s, ParentMoves, n);
    s := Step(s, ParentMoves, n);
    s := Step(s, ParentMoves, n);
    s := Step(s, ChildMoves, n);
    s := Step(s, ChildMoves, n);
  }

  lemma ReadyCanBeMissed(n: int) returns (s: State)
    ensures HangsAt(n, s, PauseReady, PauseGo) && s.parent.flag
  {
    hide Reaches;
    ReachInitial(n);
    s := Step(INITIAL, ParentMoves, n);
    s := Step(s, ParentMoves, n);
    s := Step(s, ChildMoves, n);
    s := Step(s, ChildMoves, n);
    s := Step(s, ChildMoves, n);
    s := Step(s, DeliverParent2, n);
    s := Step(s, ParentMoves, n);
    s := Step(s, ChildMoves, n);
    s := Step(s, ChildMoves, n);
  }

  lemma ConfirmationCanBeMissed(n: int, i: nat) returns (s: State)
    requires i < Signals(n)
    ensures HangsAt(n, s, PauseConf, PauseGo) && s.parent.i == i && s.parent.confirmation
  {
    hide Reaches;
    ReachesSend(i, n);
    s := Step(BeforeSend(i), ParentMoves, n);
    s := Step(s, ParentMoves, n);
    s := Step(s, DeliverChild1, n);
    s := Step(s, ChildMoves, n);
    s := Step(s, DeliverParent1, n);
    s := Step(s, ParentMoves, n);
    s := Step(s, ChildMoves, n);
    s := Step(s, ChildMoves, n);
  }

  // The go-ahead is on its way while the child is about to pause.
  function GoPending(total: nat): State {
    State(Parent(TestEnd, total, false, false, 0, Receiver, Receiver, false),
          Child(EnterGo, 0, false, false, total, Receiver, Receiver, false),
          Pending(false, false, false, true))
  }

  lemma ReachesGoPending(n: int)
    ensures Reaches(GoPending(Signals(n)), n)
  {
    hide Reaches;
    ReachesSend(Signals(n), n);
    var s := Step(BeforeSend(Signals(n)), ChildMoves, n);
    s := Step(s, ParentMoves, n);
    s := Step(s, ParentMoves, n);
    s := Step(s, ParentMoves, n);
    s := Step(s, ParentMoves, n);
    assert s == GoPending(Signals(n));
  }

  lemma GoCanBeMissed(n: int) returns (s: State)
    ensures HangsAt(n, s, PauseEnd, PauseGo) && s.child.proceed
  {
    hide Reaches;
    ReachesGoPending(n);
    s := Step(GoPending(Signals(n)), DeliverChild2, n);
    s := Step(s, ChildMoves, n);
    s := Step(s, ParentMoves, n);
    s := Step(s, ParentMoves, n);
  }

  lemma ReturnCanBeMissed(n: int, i: nat) returns (s: State)
    requires i < Signals(n)
    ensures HangsAt(n, s, PauseEnd, PauseBack) && s.child.i == i && s.child.confirmation
  {
    hide Reaches;
    ReachesReturn(i, n);
    s := Step(BeforeReturn(i, Signals(n)), ChildMoves, n);
    s := Step(s, ChildMoves, n);
    s := Step(s, DeliverParent1, n);
    s := Step(s, ParentMoves, n);
    s := Step(s, DeliverChild1, n);
    s := Step(s, ChildMoves, n);
    s := Step(s, ParentMoves, n);
    s := Step(s, ParentMoves, n);
  }

  lemma EndCanBeMissed(n: int) returns (s: State)
    ensures HangsAt(n, s, PauseEnd, Exited) && s.parent.flag
  {
    hide Reaches;
    ReachesReturn(Signals(n), n);
    s := Step(BeforeReturn(Signals(n), Signals(n)), ParentMoves, n);
    s := Step(s, ChildMoves, n);
    s := Step(s, ChildMoves, n);
    s := Step(s, DeliverParent2, n);
    s := Step(s, ParentMoves, n);
  }

  ghost predicate HangsWhileSending(n: int, i: nat) {
    exists s :: HangsAt(n, s, PauseConf, PauseGo) && s.parent.i == i
  }

  ghost predicate HangsWhileReturning(n: int, i: nat) {
    exists s :: HangsAt(n, s, PauseEnd, PauseBack) && s.child.i == i
  }

  // Each of the five waits, and each of its rounds, can lose its wakeup for good.
  lemma EveryWaitCanHang(n: int)
    ensures exists s :: HangsAt(n, s, PauseReady, PauseGo) && ReadyCleared(s)
    ensures exists s :: HangsAt(n, s, PauseReady, PauseGo) && s.parent.flag
    ensures forall i :: 0 <= i < n ==> HangsWhileSending(n, i)
    ensures exists s :: HangsAt(n, s, PauseEnd, PauseGo)
    ensures forall i :: 0 <= i < n ==> HangsWhileReturning(n, i)
    ensures exists s :: HangsAt(n, s, PauseEnd, Exited)
  {
    hide HangsAt;
    var a := ReadyCanBeCleared(n);
    var b := ReadyCanBeMissed(n);
    var c := GoCanBeMissed(n);
    var d := EndCanBeMissed(n);
    forall i | 0 <= i < n
      ensures HangsWhileSending(n, i) && HangsWhileReturning(n, i)
    {
      var e := ConfirmationCanBeMissed(n, i);
      var f := ReturnCanBeMissed(n, i);
    }
  }

  // ------------------------------------------------- the two programs' globals

  class Exchange {
    const numSignals: int

    // parent.c
    var parentPc: ParentPc
    var parentI: nat
    var flag: bool
    var parentConfirmation: bool
    var parentCounter: nat
    var parentUsr1: Handler
    var parentUsr2: Handler
    var parentEchoing: bool

    // child.c
    var childPc: ChildPc
    var childI: nat
    var proceed: bool
    var childConfirmation: bool
    var childCounter: nat
    var childUsr1: Handler
    var childUsr2: Handler
    var childEchoing: bool

    var pending: Pending

    function View(): State
      reads this
    {
      State(Parent(parentPc, parentI, flag, parentConfirmation, parentCounter, parentUsr1, parentUsr2, parentEchoing),
            Child(childPc, childI, proceed, childConfirmation, childCounter, childUsr1, childUsr2, childEchoing),
            pending)
    }

    constructor (numSignals: int)
      ensures this.numSignals == numSignals && View() == INITIAL
    {
      this.numSignals := numSignals;
      parentPc, parentI, flag, parentConfirmation, parentCounter := ClearFlag, 0, false, false, 0;
      parentUsr1, parentUsr2, parentEchoing := Sender, Sender, false;
      childPc, childI, proceed, childConfirmation, childCounter := InstallUsr1, 0, false, false, 0;
      childUsr1, childUsr2, childEchoing := Default, Default, false;
      pending := Pending(false, false, false, false);
    }

    method ParentReturnsFromHandler()
      modifies this`parentPc
      ensures parentPc == WakeParent(old(View()).parent).pc
    {
      if parentPc.PauseReady? {
        parentPc := TestReady;
      } else if parentPc.PauseConf? {
        parentPc := TestConf;
      } else if parentPc.PauseEnd? {
        parentPc := TestEnd;
      }
    }

    method ChildReturnsFromHandler()
      modifies this`childPc
      ensures childPc == WakeChild(old(View()).child).pc
    {
      if childPc.PauseGo? {
        childPc := TestGo;
      } else if childPc.PauseBack? {
        childPc := TestBack;
      }
    }

    // The parent's main (lines 75-109), or the kill at the end of its counting
    // handler (line 127).
    method ParentMain()
      requires Can(View(), ParentMoves)
      modifies this
      ensures View() == After(old(View()), ParentMoves, numSignals)
    {
      if parentEchoing {
        pending := pending.(child1 := true);
        parentEchoing := false;
        ParentReturnsFromHandler();
      } else if ParentSending(parentPc) {
        ParentSends();
      } else if ParentDoneSending(parentPc) || ParentReceiving(parentPc) {
        ParentReceives();
      } else {
        match parentPc
        case ClearFlag => flag := false; parentPc := TestReady;
        case TestReady => parentPc := if flag then ClearReady else EnterReady;
        case EnterReady => parentPc := PauseReady;
        case ClearReady => flag := false; parentPc := NextSend;
      }
    }

    method ParentSends()
      requires Can(View(), ParentMoves) && !parentEchoing && ParentSending(parentPc)
      modifies this
      ensures View() == After(old(View()), ParentMoves, numSignals)
    {
      match parentPc
      case NextSend =>
        if parentI < numSignals {
          pending := pending.(child1 := true);
          parentPc := TestConf;
        } else {
          parentPc := SwitchUsr1;
        }
      case TestConf => parentPc := if parentConfirmation then ClearConf else EnterConf;
      case EnterConf => parentPc := PauseConf;
      case ClearConf => parentConfirmation := false; parentI := parentI + 1; parentPc := NextSend;
    }

    method ParentReceives()
      requires Can(View(), ParentMoves) && !parentEchoing && (ParentDoneSending(parentPc) || ParentReceiving(parentPc))
      modifies this
      ensures View() == After(old(View()), ParentMoves, numSignals)
    {
      match parentPc
      case SwitchUsr1 => parentUsr1 := Receiver; parentPc := SwitchUsr2;
      case SwitchUsr2 => parentUsr2 := Receiver; parentPc := SendGo;
      case SendGo => pending := pending.(child2 := true); parentPc := TestEnd;
      case TestEnd => parentPc := if flag then Printed else EnterEnd;
      case EnterEnd => parentPc := PauseEnd;
    }

    // The child's main (lines 36-66), or the kill in its counting handler (line 73).
    method ChildMain()
      requires Can(View(), ChildMoves)
      modifies this
      ensures View() == After(old(View()), ChildMoves, numSignals)
    {
      if childEchoing {
        pending := pending.(parent1 := true);
        childEchoing := false;
        ChildReturnsFromHandler();
      } else if ChildStarting(childPc) || ChildReceiving(childPc) {
        ChildReceives();
      } else {
        ChildReturns();
      }
    }

    method ChildReceives()
      requires Can(View(), ChildMoves) && !childEchoing && (ChildStarting(childPc) || ChildReceiving(childPc))
      modifies this
      ensures View() == After(old(View()), ChildMoves, numSignals)
    {
      match childPc
      case InstallUsr1 => childUsr1 := Receiver; childPc := InstallUsr2;
      case InstallUsr2 => childUsr2 := Receiver; childPc := SendReady;
      case SendReady => pending := pending.(parent2 := true); childPc := TestGo;
      case TestGo => childPc := if proceed then SwitchToSender else EnterGo;
      case EnterGo => childPc := PauseGo;
    }

    method ChildReturns()
      requires Can(View(), ChildMoves) && !childEchoing && !ChildStarting(childPc) && !ChildReceiving(childPc)
      modifies this
      ensures View() == After(old(View()), ChildMoves, numSignals)
    {
      match childPc
      case SwitchToSender => childUsr1 := Sender; childPc := NextEcho;
      case NextEcho =>
        if childI < childCounter {
          pending := pending.(parent1 := true);
          childPc := TestBack;
        } else {
          childPc := SendEnd;
        }
      case TestBack => childPc := if childConfirmation then ClearBack else EnterBack;
      case EnterBack => childPc := PauseBack;
      case ClearBack => childConfirmation := false; childI := childI + 1; childPc := NextEcho;
      case SendEnd => pending := pending.(parent2 := true); childPc := Exited;
    }

    // sig_handle_sender and sig_handle_receiver of the parent on SIGUSR1.
    method ParentUsr1()
      requires Can(View(), DeliverParent1)
      modifies this
      ensures View() == After(old(View()), DeliverParent1, numSignals)
    {
      pending := pending.(parent1 := false);
      if parentUsr1.Receiver? {
        parentCounter := parentCounter + 1;
        parentEchoing := true;
      } else {
        parentConfirmation := true;
        ParentReturnsFromHandler();
      }
    }

    method ParentUsr2()
      requires Can(View(), DeliverParent2)
      modifies this
      ensures View() == After(old(View()), DeliverParent2, numSignals)
    {
      pending := pending.(parent2 := false);
      flag := true;
      ParentReturnsFromHandler();
    }

    // sig_handle and sig_handle_sender of the child on SIGUSR1.
    method ChildUsr1()
      requires Can(View(), DeliverChild1)
      modifies this
      ensures View() == After(old(View()), DeliverChild1, numSignals)
    {
      pending := pending.(child1 := false);
      match childUsr1
      case Default => childPc := Killed;
      case Receiver => childCounter := childCounter + 1; childEchoing := true;
      case Sender => childConfirmation := true; ChildReturnsFromHandler();
    }

    method ChildUsr2()
      requires Can(View(), DeliverChild2)
      modifies this
      ensures View() == After(old(View()), DeliverChild2, numSignals)
    {
      pending := pending.(child2 := false);
      if childUsr2.Default? {
        childPc := Killed;
      } else {
        proceed := true;
        ChildReturnsFromHandler();
      }
    }

    // One step of either process, or one delivery.
    method Move(a: Action)
      requires Can(View(), a)
      modifies this
      ensures View() == After(old(View()), a, numSignals)
    {
      match a
      case ParentMoves => ParentMain();
      case ChildMoves => ChildMain();
      case DeliverParent1 => ParentUsr1();
      case DeliverParent2 => ParentUsr2();
      case DeliverChild1 => ChildUsr1();
      case DeliverChild2 => ChildUsr2();
    }

    // Both programs under an arbitrary scheduler: they come to a stop, and if the
    // parent gets to its final print both have counted every signal. What has
    // happened, a run of the machine, is returned.
    method Run() returns (ghost states: seq<State>, ghost actions: seq<Action>)
      requires View() == INITIAL
      modifies this
      ensures IsRun(states, actions, numSignals) && states[|actions|] == View()
      ensures Stuck(View())
      ensures Finished(View()) || MissedByParent(View()) || MissedByChild(View()) || ReadyCleared(View())
      ensures parentPc.Printed? ==> parentCounter == childCounter == if numSignals > 0 then numSignals else 0
    {
      hide Can, After, Inv, Work;
      states, actions := [View()], [];
      StartFacts(numSignals);
      while exists a: Action :: Can(View(), a)
        invariant Inv(View(), numSignals)
        invariant IsRun(states, actions, numSignals) && states[|actions|] == View()
        decreases Work(View(), numSignals)
      {
        var a: Action :| Can(View(), a);
        StepFacts(View(), a, numSignals);
        Move(a);
        states, actions := states + [View()], actions + [a];
      }
      StopFacts(View(), numSignals);
    }
  }

  lemma StartFacts(n: int)
    ensures Inv(INITIAL, n) && Work(INITIAL, n) == 24 * Signals(n) + 30
  {
  }

  lemma StepFacts(s: State, a: Action, n: int)
    requires Inv(s, n) && Can(s, a)
    ensures Inv(After(s, a, n), n) && 0 <= Work(After(s, a, n), n) < Work(s, n)
  {
    hide Inv, After, Work, Can;
    StepInv(s, a, n);
    StepUsesWork(s, a, n);
    WorkNonNegative(After(s, a, n), n);
  }

  lemma StopFacts(s: State, n: int)
    requires Inv(s, n) && forall a :: !Can(s, a)
    ensures Stuck(s) && Work(s, n) >= 0
    ensures Finished(s) || MissedByParent(s) || MissedByChild(s) || ReadyCleared(s)
    ensures s.parent.pc.Printed? ==> s.parent.counter == s.child.counter == Signals(n)
  {
    hide Inv, Can, Work;
    WorkNonNegative(s, n);
    StuckIsLostWakeup(s, n);
    if s.parent.pc.Printed? {
      PrintedMeansCounted(s, n);
    }
  }
}

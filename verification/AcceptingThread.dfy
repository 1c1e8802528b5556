// The two-thread variant (lab6/zad1): one thread admits clients while the other
// forwards messages and empties the slots of those that leave. The two share
// the table of queue ids without a lock.
module AcceptingThread {
  import opened Sums

  const EMPTY: int := -1

  // `Scanning(i)` has counted the client with queue id `id` and is about to look
  // at slot i; `Storing(i)` has found slot i empty and is about to write it.
  datatype Acceptor = Receiving | Creating | Scanning(id: int, i: nat) | Storing(id: int, slot: nat)

  datatype State = State(ids: seq<int>, numClients: nat, acceptor: Acceptor)

  datatype Action =
    | Receive            // an init message arrives and the limit is tested
    | CreateFails
    | CountClient(id: int)   // its queue exists now
    | LookAtSlot
    | StoreId
    | EmptySlot(j: nat)  // the other thread dismisses a client

  function Initial(max: nat): State {
    State(seq(max, _ => EMPTY), 0, Receiving)
  }

  predicate Can(s: State, a: Action) {
    match a
    case Receive => s.acceptor.Receiving?
    case CreateFails => s.acceptor.Creating?
    case CountClient(id) => s.acceptor.Creating? && id >= 0
    case LookAtSlot => s.acceptor.Scanning?
    case StoreId => s.acceptor.Storing?
    case EmptySlot(j) => j < |s.ids| && s.ids[j] != EMPTY
  }

  // The slot an access of the accepting thread is aimed at exists.
  predicate InTable(s: State, a: Action)
    requires Can(s, a)
  {
    && (a.LookAtSlot? ==> s.acceptor.i < |s.ids|)
    && (a.StoreId? ==> s.acceptor.slot < |s.ids|)
  }

  function After(s: State, a: Action): State
    requires Can(s, a) && InTable(s, a)
  {
    match a
    case Receive => if s.numClients == |s.ids| then s else s.(acceptor := Creating)
    case CreateFails => s.(acceptor := Receiving)
    case CountClient(id) => s.(numClients := s.numClients + 1, acceptor := Scanning(id, 0))
    case LookAtSlot =>
      var id, i := s.acceptor.id, s.acceptor.i;
      s.(acceptor := if s.ids[i] != EMPTY then Scanning(id, i + 1) else Storing(id, i))
    case StoreId => s.(ids := s.ids[s.acceptor.slot := s.acceptor.id], acceptor := Receiving)
    case EmptySlot(j) => s.(ids := s.ids[j := EMPTY])
  }

  ghost function Weight(): int -> int {
    (id: int) => if id == EMPTY then 0 else 1
  }

  function UnderWay(a: Acceptor): nat {
    if a.Scanning? || a.Storing? then 1 else 0
  }

  ghost predicate Inv(s: State) {
    && s.numClients <= |s.ids|
    && Sum(Weight(), s.ids) + UnderWay(s.acceptor) <= s.numClients
    && (s.acceptor.Creating? ==> s.numClients < |s.ids|)
    && (s.acceptor.Scanning? ==>
          s.acceptor.id >= 0 && exists e :: s.acceptor.i <= e < |s.ids| && s.ids[e] == EMPTY)
    && (s.acceptor.Storing? ==>
          s.acceptor.id >= 0 && s.acceptor.slot < |s.ids| && s.ids[s.acceptor.slot] == EMPTY)
  }

  lemma InitialInv(max: nat)
    ensures Inv(Initial(max))
  {
    SumZero(Weight(), Initial(max).ids);
  }

  lemma {:induction false} SomeSlotIsFree(ids: seq<int>)
    requires Sum(Weight(), ids) < |ids|
    ensures exists e :: 0 <= e < |ids| && ids[e] == EMPTY
  {
    if ids != [] && ids[|ids| - 1] != EMPTY {
      var front := ids[..|ids| - 1];
      SomeSlotIsFree(front);
      var e :| 0 <= e < |front| && front[e] == EMPTY;
      assert ids[e] == EMPTY;
    }
  }

  // The scan never leaves the table, whatever the other thread does meanwhile:
  // it only empties slots, so a free one ahead of the scan stays free, and the
  // one that was found free is still free when it is written.
  lemma ScanStaysInTable(s: State, a: Action)
    requires Inv(s) && Can(s, a)
    ensures InTable(s, a)
    ensures a.StoreId? ==> s.ids[s.acceptor.slot] == EMPTY
    ensures Inv(After(s, a)) && |After(s, a).ids| == |s.ids|
  {
    var s' := After(s, a);
    match a {
      case CountClient(_) => SomeSlotIsFree(s.ids);
      case StoreId => SumUpdate(Weight(), s.ids, s.acceptor.slot, s.acceptor.id);
      case EmptySlot(j) =>
        SumUpdate(Weight(), s.ids, j, EMPTY);
        if s.acceptor.Scanning? {
          var e :| s.acceptor.i <= e < |s.ids| && s.ids[e] == EMPTY;
          assert s'.ids[e] == EMPTY;
        }
      case _ =>
    }
  }

  ghost predicate IsRun(states: seq<State>, actions: seq<Action>, max: nat) {
    && |states| == |actions| + 1 && states[0] == Initial(max)
    && forall k :: 0 <= k < |actions| ==>
         && Can(states[k], actions[k])
         && (InTable(states[k], actions[k]) ==> states[k + 1] == After(states[k], actions[k]))
  }

  lemma {:induction false} RunStaysInTable(states: seq<State>, actions: seq<Action>, max: nat, k: nat)
    requires IsRun(states, actions, max) && k < |states|
    ensures Inv(states[k]) && |states[k].ids| == max
    ensures k < |actions| ==> InTable(states[k], actions[k])
  {
    if k == 0 {
      InitialInv(max);
    } else {
      RunStaysInTable(states, actions, max, k - 1);
      ScanStaysInTable(states[k - 1], actions[k - 1]);
    }
    if k < |actions| {
      ScanStaysInTable(states[k], actions[k]);
    }
  }

  // Queue `id` of the client admitted last is stored, or about to be.
  ghost predicate Kept(s: State, id: int) {
    (UnderWay(s.acceptor) == 1 && s.acceptor.id == id) || id in s.ids
  }

  // A client once counted is in the table until its own slot is emptied: no
  // admission overwrites another client.
  lemma AdmittedUntilDismissed(s: State, a: Action, id: int)
    requires Inv(s) && Can(s, a) && id != EMPTY
    requires Kept(s, id)
    requires a.EmptySlot? ==> s.ids[a.j] != id
    ensures InTable(s, a) && Kept(After(s, a), id)
  {
    ScanStaysInTable(s, a);
    var s' := After(s, a);
    if id in s.ids {
      var e :| 0 <= e < |s.ids| && s.ids[e] == id;
      assert s'.ids[e] == id;
    } else if a.StoreId? {
      assert s'.ids[s.acceptor.slot] == id;
    }
  }

  ghost function Is(id: int): int -> int {
    (x: int) => if x == id then 1 else 0
  }

  // How often a queue id is with a client that was counted and not dismissed: in
  // the table, or under way to it.
  ghost function Present(s: State, id: int): int {
    Sum(Is(id), s.ids) + if UnderWay(s.acceptor) == 1 && s.acceptor.id == id then 1 else 0
  }

  function Admitted(a: Action): seq<int> {
    if a.CountClient? then [a.id] else []
  }

  function Dismissed(s: State, a: Action): seq<int>
    requires Can(s, a)
  {
    if a.EmptySlot? then [s.ids[a.j]] else []
  }

  // No step of either thread loses a client or makes one up.
  lemma StepConserves(s: State, a: Action, id: int)
    requires Inv(s) && Can(s, a) && id != EMPTY
    ensures InTable(s, a)
    ensures Present(After(s, a), id) + Sum(Is(id), Dismissed(s, a)) == Present(s, id) + Sum(Is(id), Admitted(a))
    ensures After(s, a).numClients == s.numClients + |Admitted(a)|
  {
    ScanStaysInTable(s, a);
    if a.StoreId? {
      SumUpdate(Is(id), s.ids, s.acceptor.slot, s.acceptor.id);
    } else if a.EmptySlot? {
      SumUpdate(Is(id), s.ids, a.j, EMPTY);
    }
  }

  // The state after a series of accesses; those whose thread is not ready for them
  // do not happen.
  function Served(s: State, actions: seq<Action>): State {
    if actions == [] then s
    else
      var t, a := Served(s, actions[..|actions| - 1]), actions[|actions| - 1];
      if Can(t, a) && InTable(t, a) then After(t, a) else t
  }

  // The queue ids of the clients that come meanwhile, and of those that leave.
  function Came(s: State, actions: seq<Action>): seq<int> {
    if actions == [] then []
    else
      var front, a := actions[..|actions| - 1], actions[|actions| - 1];
      Came(s, front) + if Can(Served(s, front), a) then Admitted(a) else []
  }

  function Left(s: State, actions: seq<Action>): seq<int> {
    if actions == [] then []
    else
      var front, a := actions[..|actions| - 1], actions[|actions| - 1];
      Left(s, front) + if Can(Served(s, front), a) then Dismissed(Served(s, front), a) else []
  }

  // One more access.
  lemma ServedNext(s: State, front: seq<Action>, a: Action)
    requires Can(Served(s, front), a) && InTable(Served(s, front), a)
    ensures Served(s, front + [a]) == After(Served(s, front), a)
    ensures Came(s, front + [a]) == Came(s, front) + Admitted(a)
    ensures Left(s, front + [a]) == Left(s, front) + Dismissed(Served(s, front), a)
  {
    assert (front + [a])[..|front|] == front;
  }

  lemma NothingServed(s: State)
    ensures Served(s, []) == s && Came(s, []) == [] && Left(s, []) == []
  {
  }

  function Looks(id: int, j: nat): seq<Action> {
    if j == 0 then [Receive] + [CountClient(id)] else Looks(id, j - 1) + [LookAtSlot]
  }

  lemma {:induction false} AfterLooks(s: State, id: int, j: nat)
    requires s.acceptor.Receiving? && s.numClients < |s.ids| && id >= 0 && j <= |s.ids|
    requires forall e :: 0 <= e < j ==> s.ids[e] != EMPTY
    ensures Served(s, Looks(id, j)) == State(s.ids, s.numClients + 1, Scanning(id, j))
    ensures Came(s, Looks(id, j)) == [id] && Left(s, Looks(id, j)) == []
  {
    hide Served, Came, Left;
    if j == 0 {
      NothingServed(s);
      ServedNext(s, [], Receive);
      assert [] + [Receive] == [Receive];
      ServedNext(s, [Receive], CountClient(id));
    } else {
      AfterLooks(s, id, j - 1);
      ServedNext(s, Looks(id, j - 1), LookAtSlot);
    }
  }

  lemma FirstFree(s: State) returns (f: nat)
    requires Inv(s) && s.numClients < |s.ids|
    ensures f < |s.ids| && s.ids[f] == EMPTY && forall e :: 0 <= e < f ==> s.ids[e] != EMPTY
  {
    SomeSlotIsFree(s.ids);
    f := 0;
    while s.ids[f] != EMPTY
      invariant f < |s.ids| && forall e :: 0 <= e < f ==> s.ids[e] != EMPTY
      invariant exists e :: f <= e < |s.ids| && s.ids[e] == EMPTY
      decreases |s.ids| - f
    {
      f := f + 1;
    }
  }

  // A client that arrives below the limit is counted and, undisturbed, stored in a
  // slot that was empty, all other slots staying as they are; at the limit an
  // arrival changes nothing.
  lemma ArrivalIsStored(s: State, id: int) returns (actions: seq<Action>)
    requires Inv(s) && s.acceptor.Receiving? && id >= 0
    ensures s.numClients == |s.ids| ==> actions == [Receive] && Served(s, actions) == s
    ensures s.numClients != |s.ids| ==>
      && Came(s, actions) == [id] && Left(s, actions) == []
      && exists f :: 0 <= f < |s.ids| && s.ids[f] == -1
           && Served(s, actions) == State(s.ids[f := id], s.numClients + 1, Receiving)
  {
    if s.numClients == |s.ids| {
      actions := [Receive];
      ServedNext(s, [], Receive);
      assert [] + [Receive] == [Receive];
    } else {
      var f := FirstFree(s);
      AfterLooks(s, id, f);
      var looked := Looks(id, f) + [LookAtSlot];
      ServedNext(s, Looks(id, f), LookAtSlot);
      ServedNext(s, looked, StoreId);
      actions := looked + [StoreId];
    }
  }

  // ------------------------------------------------------- the shared table

  class Server {
    const clientsQueueIds: array<int>
    var numClients: nat
    var acceptor: Acceptor

    function View(): State
      reads this, clientsQueueIds
    {
      State(clientsQueueIds[..], numClients, acceptor)
    }

    constructor (max: nat)
      ensures View() == Initial(max) && fresh(clientsQueueIds)
    {
      clientsQueueIds := new int[max](_ => EMPTY);
      numClients := 0;
      acceptor := Receiving;
    }

    // One access by either thread; `a` says which, and what the kernel answers.
    method Step(a: Action)
      requires Inv(View()) && Can(View(), a)
      modifies this, clientsQueueIds
      ensures InTable(old(View()), a) && View() == After(old(View()), a)
      ensures Inv(View())
    {
      ScanStaysInTable(View(), a);
      match a
      case Receive =>
        if numClients != clientsQueueIds.Length {
          acceptor := Creating;
        }
      case CreateFails => acceptor := Receiving;
      case CountClient(id) =>
        numClients := numClients + 1;
        acceptor := Scanning(id, 0);
      case LookAtSlot =>
        if clientsQueueIds[acceptor.i] != EMPTY {
          acceptor := Scanning(acceptor.id, acceptor.i + 1);
        } else {
          acceptor := Storing(acceptor.id, acceptor.i);
        }
      case StoreId =>
        clientsQueueIds[acceptor.slot] := acceptor.id;
        acceptor := Receiving;
      case EmptySlot(j) => clientsQueueIds[j] := EMPTY;
    }

    // Both threads, under any schedule: of the accesses proposed, those that the
    // threads are not ready for do not happen. Returned are the queue ids of the
    // clients that came and of those that left.
    method Serve(actions: seq<Action>) returns (admitted: seq<int>, dismissed: seq<int>)
      requires View() == Initial(clientsQueueIds.Length)
      modifies this, clientsQueueIds
      ensures View() == Served(old(View()), actions)
      ensures admitted == Came(old(View()), actions) && dismissed == Left(old(View()), actions)
      ensures forall id :: id != EMPTY ==> Present(View(), id) + Sum(Is(id), dismissed) == Sum(Is(id), admitted)
      ensures |admitted| == numClients <= clientsQueueIds.Length
    {
      hide Present;
      admitted, dismissed := [], [];
      NobodyYet(clientsQueueIds.Length);
      ghost var start := View();
      for k := 0 to |actions|
        invariant Inv(View()) && |admitted| == numClients
        invariant View() == Served(start, actions[..k])
        invariant admitted == Came(start, actions[..k]) && dismissed == Left(start, actions[..k])
        invariant forall id :: id != EMPTY ==> Present(View(), id) + Sum(Is(id), dismissed) == Sum(Is(id), admitted)
      {
        assert actions[..k + 1][..k] == actions[..k];
        if Can(View(), actions[k]) {
          ghost var s, came, left := View(), admitted, dismissed;
          admitted, dismissed := admitted + Admitted(actions[k]), dismissed + Dismissed(View(), actions[k]);
          Step(actions[k]);
          Balance(s, actions[k], came, left);
        }
      }
      assert actions[..|actions|] == actions;
    }
  }

  lemma Balance(s: State, a: Action, came: seq<int>, left: seq<int>)
    requires Inv(s) && Can(s, a) && InTable(s, a)
    requires forall id :: id != EMPTY ==> Present(s, id) + Sum(Is(id), left) == Sum(Is(id), came)
    ensures forall id :: id != EMPTY ==>
      Present(After(s, a), id) + Sum(Is(id), left + Dismissed(s, a)) == Sum(Is(id), came + Admitted(a))
    ensures After(s, a).numClients == s.numClients + |Admitted(a)|
  {
    StepConserves(s, a, 0);
    forall id | id != EMPTY
      ensures Present(After(s, a), id) + Sum(Is(id), left + Dismissed(s, a)) == Sum(Is(id), came + Admitted(a))
    {
      StepConserves(s, a, id);
      SumConcat(Is(id), left, Dismissed(s, a));
      SumConcat(Is(id), came, Admitted(a));
    }
  }

  lemma NobodyYet(max: nat)
    ensures Inv(Initial(max))
    ensures forall id :: id != EMPTY ==> Present(Initial(max), id) == 0
  {
    InitialInv(max);
    forall id | id != EMPTY
      ensures Present(Initial(max), id) == 0
    {
      SumZero(Is(id), Initial(max).ids);
    }
  }
}

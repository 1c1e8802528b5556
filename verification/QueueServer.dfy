// The message-queue chat server (lab6/zad2): a table of client queues and their
// names. A queue the server created for a client exists until the server
// unlinks it, on the client's exit message or in the shutdown hook.
module QueueServer {
  import opened Options
  import opened Sums

  const EMPTY: int := -1

  datatype Slot = Slot(id: int, name: Option<string>)

  // `owned` are the client queues the server has created and not yet unlinked,
  // `descriptors` the descriptors of all it has created: it never closes one.
  datatype State = State(slots: seq<Slot>, numClients: nat, owned: set<string>, descriptors: set<int>)

  // `foreign` are the other queues that exist when an init message arrives, and
  // `id` what mq_open returns if it is free to create the queue.
  datatype Message =
    | Init(client: string, foreign: set<string>, id: int)
    | Text(client: string, body: string)

  predicate Occupied(s: Slot) {
    s.id != EMPTY
  }

  function Initial(max: nat): State {
    State(seq(max, _ => Slot(EMPTY, None)), 0, {}, {})
  }

  // mq_open does not return a descriptor that is in use.
  predicate Possible(s: State, m: Message) {
    m.Init? ==> m.id !in s.descriptors
  }

  // O_CREAT | O_EXCL: no queue of that name may exist.
  function CreateQueue(s: State, client: string, foreign: set<string>, id: int): int {
    if client in s.owned || client in foreign || id < 0 then EMPTY else id
  }

  // ------------------------------------------------------------- scans

  function IsFree(): Slot -> bool {
    (s: Slot) => !Occupied(s)
  }

  function HasName(client: string): Slot -> bool {
    (s: Slot) => s.name == Some(client)
  }

  function First(slots: seq<Slot>, test: Slot -> bool, i: nat): (k: nat)
    requires i <= |slots|
    ensures i <= k <= |slots| && (k < |slots| ==> test(slots[k]))
    ensures forall j :: i <= j < k ==> !test(slots[j])
    decreases |slots| - i
  {
    if i == |slots| || test(slots[i]) then i else First(slots, test, i + 1)
  }

  // ------------------------------------------------------------- reactions

  function IsOccupant(): Slot -> bool {
    (s: Slot) => Occupied(s)
  }

  // Whom a text of this client is passed on to.
  function IsOther(client: string): Slot -> bool {
    (s: Slot) => Occupied(s) && s.name != Some(client)
  }

  // The queues of these slots, in slot order.
  ghost function Queues(slots: seq<Slot>, who: Slot -> bool): seq<int> {
    if slots == [] then []
    else
      var last := slots[|slots| - 1];
      Queues(slots[..|slots| - 1], who) + if who(last) then [last.id] else []
  }

  // The state after a message and the queues that are sent a copy.
  ghost function React(s: State, m: Message): (State, seq<int>) {
    match m
    case Init(client, foreign, id) =>
      var qid := CreateQueue(s, client, foreign, id);
      var i := First(s.slots, IsFree(), 0);
      if s.numClients == |s.slots| || qid == EMPTY || i == |s.slots| then (s, [])
      else
        (State(s.slots[i := Slot(qid, Some(client))], s.numClients + 1,
               s.owned + {client}, s.descriptors + {qid}), [])
    case Text(client, body) =>
      if body == "exit\n" then
        var i := First(s.slots, HasName(client), 0);
        var slots := if i < |s.slots| then s.slots[i := Slot(EMPTY, None)] else s.slots;
        (s.(slots := slots, owned := s.owned - {client}), [])
      else (s, Queues(s.slots, IsOther(client)))
  }

  // ------------------------------------------------------------- invariants

  ghost function Weight(): Slot -> int {
    (s: Slot) => if Occupied(s) then 1 else 0
  }

  ghost predicate NamesInv(s: State) {
    // a slot is occupied exactly when its name is set
    && (forall i :: 0 <= i < |s.slots| ==> (Occupied(s.slots[i]) <==> s.slots[i].name.Some?))
    // names are pairwise distinct
    && (forall i, j :: 0 <= i < j < |s.slots| && s.slots[i].name.Some? ==> s.slots[i].name != s.slots[j].name)
    // and they are the client queues to be unlinked
    && (forall i :: 0 <= i < |s.slots| && s.slots[i].name.Some? ==> s.slots[i].name.value in s.owned)
    && (forall q :: q in s.owned ==> InTable(s.slots, q))
  }

  ghost predicate IdsInv(s: State) {
    && (forall i :: 0 <= i < |s.slots| && Occupied(s.slots[i]) ==> s.slots[i].id in s.descriptors)
    && (forall i, j :: 0 <= i < j < |s.slots| && Occupied(s.slots[i]) ==> s.slots[i].id != s.slots[j].id)
  }

  ghost predicate CountInv(s: State) {
    Sum(Weight(), s.slots) <= s.numClients <= |s.slots|
  }

  ghost predicate Inv(s: State) {
    NamesInv(s) && IdsInv(s) && CountInv(s)
  }

  ghost predicate InTable(slots: seq<Slot>, q: string) {
    exists i :: 0 <= i < |slots| && slots[i].name == Some(q)
  }

  lemma InitialInv(max: nat)
    ensures Inv(Initial(max))
  {
    SumZero(Weight(), Initial(max).slots);
  }

  // While fewer clients have been admitted than there are slots, the scan for a
  // free slot stops inside the table.
  lemma ScanStopsInside(s: State)
    requires Inv(s) && s.numClients != |s.slots|
    ensures First(s.slots, IsFree(), 0) < |s.slots|
  {
    if First(s.slots, IsFree(), 0) == |s.slots| {
      forall k | 0 <= k < |s.slots|
        ensures Weight()(s.slots[k]) == 1
      {
        assert !IsFree()(s.slots[k]);
      }
      AllOccupied(s.slots);
    }
  }

  lemma {:induction false} AllOccupied(slots: seq<Slot>)
    requires forall k :: 0 <= k < |slots| ==> Weight()(slots[k]) == 1
    ensures Sum(Weight(), slots) == |slots|
  {
    if slots != [] {
      AllOccupied(slots[..|slots| - 1]);
    }
  }

  lemma AdmitNames(s: State, client: string, i: nat, id: int)
    requires NamesInv(s) && i < |s.slots| && !Occupied(s.slots[i]) && id != EMPTY && client !in s.owned
    ensures NamesInv(s.(slots := s.slots[i := Slot(id, Some(client))], owned := s.owned + {client}))
  {
    var s' := s.(slots := s.slots[i := Slot(id, Some(client))], owned := s.owned + {client});
    forall q | q in s'.owned
      ensures InTable(s'.slots, q)
    {
      if q != client {
        var j :| 0 <= j < |s.slots| && s.slots[j].name == Some(q);
        assert s'.slots[j].name == Some(q);
      } else {
        assert s'.slots[i].name == Some(q);
      }
    }
  }

  lemma AdmitIds(s: State, i: nat, slot: Slot)
    requires IdsInv(s) && CountInv(s) && s.numClients < |s.slots|
    requires i < |s.slots| && !Occupied(s.slots[i]) && slot.id !in s.descriptors
    ensures var s' := State(s.slots[i := slot], s.numClients + 1, s.owned, s.descriptors + {slot.id});
      IdsInv(s') && CountInv(s')
  {
    SumUpdate(Weight(), s.slots, i, slot);
  }

  lemma AdmitInv(s: State, client: string, foreign: set<string>, id: int)
    requires Inv(s) && id !in s.descriptors
    ensures Inv(React(s, Init(client, foreign, id)).0)
  {
    var s' := React(s, Init(client, foreign, id)).0;
    var i := First(s.slots, IsFree(), 0);
    hide NamesInv, IdsInv;
    if s' != s {
      assert IsFree()(s.slots[i]);
      AdmitNames(s, client, i, id);
      AdmitIds(s, i, Slot(id, Some(client)));
      SameTable(s.(slots := s'.slots, owned := s'.owned),
                State(s'.slots, s'.numClients, s.owned, s'.descriptors), s');
    }
  }

  lemma SameTable(s: State, t: State, s': State)
    requires NamesInv(s) && s'.slots == s.slots == t.slots && s'.owned == s.owned
    requires IdsInv(t) && s'.descriptors == t.descriptors
    ensures NamesInv(s') && IdsInv(s')
  {
  }

  lemma DismissNames(s: State, client: string, i: nat)
    requires NamesInv(s) && i <= |s.slots|
    requires i < |s.slots| ==> s.slots[i].name == Some(client)
    requires i == |s.slots| ==> forall j :: 0 <= j < |s.slots| ==> s.slots[j].name != Some(client)
    ensures var slots := if i < |s.slots| then s.slots[i := Slot(EMPTY, None)] else s.slots;
      NamesInv(s.(slots := slots, owned := s.owned - {client}))
  {
    var slots := if i < |s.slots| then s.slots[i := Slot(EMPTY, None)] else s.slots;
    forall q | q in s.owned - {client}
      ensures InTable(slots, q)
    {
      var j :| 0 <= j < |s.slots| && s.slots[j].name == Some(q);
      assert slots[j].name == Some(q);
    }
  }

  lemma TextInv(s: State, client: string, body: string)
    requires Inv(s)
    ensures Inv(React(s, Text(client, body)).0)
  {
    hide NamesInv;
    var s' := React(s, Text(client, body)).0;
    var i := First(s.slots, HasName(client), 0);
    if body == "exit\n" {
      if i < |s.slots| {
        assert HasName(client)(s.slots[i]);
        SumUpdate(Weight(), s.slots, i, s'.slots[i]);
      }
      forall j | 0 <= j < |s.slots| && i == |s.slots|
        ensures s.slots[j].name != Some(client)
      {
        assert !HasName(client)(s.slots[j]);
      }
      DismissNames(s, client, i);
    }
  }

  lemma ReactInv(s: State, m: Message)
    requires Inv(s) && Possible(s, m)
    ensures Inv(React(s, m).0) && |React(s, m).0.slots| == |s.slots|
  {
    match m
    case Init(client, foreign, id) => AdmitInv(s, client, foreign, id);
    case Text(client, body) => TextInv(s, client, body);
  }

  ghost predicate IsHistory(states: seq<State>, messages: seq<Message>, max: nat) {
    && |states| == |messages| + 1 && states[0] == Initial(max)
    && forall k :: 0 <= k < |messages| ==>
         Possible(states[k], messages[k]) && states[k + 1] == React(states[k], messages[k]).0
  }

  lemma {:induction false} HistoryKeepsInv(states: seq<State>, messages: seq<Message>, max: nat, k: nat)
    requires IsHistory(states, messages, max) && k < |states|
    ensures Inv(states[k]) && |states[k].slots| == max
  {
    if k == 0 {
      InitialInv(max);
    } else {
      HistoryKeepsInv(states, messages, max, k - 1);
      ReactInv(states[k - 1], messages[k - 1]);
    }
  }

  // The init messages among the first k that were given a queue.
  function Admissions(states: seq<State>, k: nat): nat
    requires k < |states|
  {
    if k == 0 then 0
    else Admissions(states, k - 1) + if states[k].owned <= states[k - 1].owned then 0 else 1
  }

  // Admissions are counted but exits are not: the table serves `max` clients in
  // all, and once they have come it never admits another, however empty it is.
  lemma {:induction false} AdmissionsAreCounted(states: seq<State>, messages: seq<Message>, max: nat, k: nat)
    requires IsHistory(states, messages, max) && k < |states|
    ensures Admissions(states, k) == states[k].numClients <= max
  {
    HistoryKeepsInv(states, messages, max, k);
    if k > 0 {
      AdmissionsAreCounted(states, messages, max, k - 1);
      HistoryKeepsInv(states, messages, max, k - 1);
      AdmissionAddsOne(states[k - 1], messages[k - 1]);
    }
  }

  lemma AdmissionAddsOne(s: State, m: Message)
    requires Inv(s)
    ensures var s' := React(s, m).0;
      s'.numClients == s.numClients + if s'.owned <= s.owned then 0 else 1
  {
    match m
    case Init(client, foreign, id) =>
      if s.numClients != |s.slots| {
        ScanStopsInside(s);
      }
    case Text(client, body) =>
  }

  lemma {:induction false} NoAdmissionAfterMax(states: seq<State>, messages: seq<Message>, max: nat, k: nat, l: nat)
    requires IsHistory(states, messages, max) && k <= l < |states|
    requires Admissions(states, k) == max
    ensures states[l].owned <= states[k].owned
  {
    hide React, Inv;
    if k < l {
      NoAdmissionAfterMax(states, messages, max, k, l - 1);
      AdmissionsGrow(states, k, l - 1);
      AdmissionsAreCounted(states, messages, max, l - 1);
      AdmissionsAreCounted(states, messages, max, l);
    }
  }

  // A client whose queue can be created gets a slot exactly while fewer clients
  // have come than there are slots.
  lemma AdmittedIffBelowMax(states: seq<State>, messages: seq<Message>, max: nat, k: nat)
    requires IsHistory(states, messages, max) && k < |messages| && messages[k].Init?
    requires CreateQueue(states[k], messages[k].client, messages[k].foreign, messages[k].id) != EMPTY
    ensures InTable(states[k + 1].slots, messages[k].client) <==> Admissions(states, k) < max
  {
    HistoryKeepsInv(states, messages, max, k);
    AdmissionsAreCounted(states, messages, max, k);
    var s, client := states[k], messages[k].client;
    if s.numClients < max {
      ScanStopsInside(s);
      assert states[k + 1].slots[First(s.slots, IsFree(), 0)].name == Some(client);
    } else {
      assert forall i :: 0 <= i < |s.slots| ==> s.slots[i].name != Some(client);
    }
  }

  // The state after n clients have come and gone, one at a time.
  ghost function Deserted(max: nat, n: nat): State {
    State(Initial(max).slots, n, {}, Ids(n))
  }

  ghost function Ids(n: nat): (ids: set<int>)
    ensures forall id :: id in ids ==> 0 <= id < n
  {
    if n == 0 then {} else Ids(n - 1) + {n - 1}
  }

  lemma ComeAndGo(max: nat, n: nat)
    requires n < max
    ensures var came := React(Deserted(max, n), Init("a", {}, n)).0;
      React(came, Text("a", "exit\n")).0 == Deserted(max, n + 1)
  {
    var s, slots := Deserted(max, n), Initial(max).slots;
    assert First(slots, IsFree(), 0) == 0 by {
      assert IsFree()(slots[0]);
    }
    var taken := slots[0 := Slot(n, Some("a"))];
    assert First(taken, HasName("a"), 0) == 0 by {
      assert HasName("a")(taken[0]);
    }
    assert taken[0 := Slot(EMPTY, None)] == slots;
    assert s.descriptors + {n} == Deserted(max, n + 1).descriptors;
    assert s.owned + {"a"} - {"a"} == {};
  }

  lemma {:induction false} BecomesDeserted(max: nat, n: nat) returns (states: seq<State>, messages: seq<Message>)
    requires n <= max
    ensures IsHistory(states, messages, max) && states[|messages|] == Deserted(max, n)
  {
    if n == 0 {
      states, messages := [Initial(max)], [];
      assert Initial(max) == Deserted(max, 0);
    } else {
      states, messages := BecomesDeserted(max, n - 1);
      hide React;
      ComeAndGo(max, n - 1);
      var s, comes, goes := states[|messages|], Init("a", {}, n - 1), Text("a", "exit\n");
      var came := React(s, comes).0;
      states := states + [came, React(came, goes).0];
      messages := messages + [comes, goes];
    }
  }

  // For every size some history ends with a table that is empty, and refuses a
  // client whose queue could be created.
  lemma EmptyTableCanRefuse(max: nat) returns (states: seq<State>, messages: seq<Message>)
    ensures IsHistory(states, messages, max) && |messages| > 0
    ensures var k := |messages| - 1;
      && (forall i :: 0 <= i < |states[k].slots| ==> !Occupied(states[k].slots[i]))
      && messages[k] == Init("b", {}, max) && CreateQueue(states[k], "b", {}, max) != EMPTY
      && states[k + 1] == states[k]
  {
    states, messages := BecomesDeserted(max, max);
    states, messages := states + [states[|messages|]], messages + [Init("b", {}, max)];
  }

  lemma {:induction false} AdmissionsGrow(states: seq<State>, k: nat, l: nat)
    requires k <= l < |states|
    ensures Admissions(states, k) <= Admissions(states, l)
  {
    if k < l {
      AdmissionsGrow(states, k, l - 1);
    }
  }

  // These slots with queue `id`.
  ghost function Which(slots: seq<Slot>, who: Slot -> bool, id: int): set<int> {
    set i | 0 <= i < |slots| && who(slots[i]) && slots[i].id == id
  }

  lemma WhichOfFront(slots: seq<Slot>, who: Slot -> bool, id: int)
    requires slots != []
    ensures var n := |slots| - 1;
      && n !in Which(slots[..n], who, id)
      && Which(slots, who, id) == Which(slots[..n], who, id) + Which(slots, who, id) * {n}
  {
  }

  lemma {:induction false} QueuesCount(slots: seq<Slot>, who: Slot -> bool, id: int)
    ensures multiset(Queues(slots, who))[id] == |Which(slots, who, id)|
  {
    if slots == [] {
      assert Which(slots, who, id) == {};
    } else {
      var n := |slots| - 1;
      QueuesCount(slots[..n], who, id);
      WhichOfFront(slots, who, id);
      if n in Which(slots, who, id) {
        assert Which(slots, who, id) == Which(slots[..n], who, id) + {n};
      } else {
        assert Which(slots, who, id) == Which(slots[..n], who, id);
      }
    }
  }

  lemma {:induction false} QueueHasSlot(slots: seq<Slot>, who: Slot -> bool, id: int)
    requires id in Queues(slots, who)
    ensures exists j :: 0 <= j < |slots| && who(slots[j]) && slots[j].id == id
  {
    var n := |slots| - 1;
    if id in Queues(slots[..n], who) {
      QueueHasSlot(slots[..n], who, id);
      var j :| 0 <= j < n && who(slots[..n][j]) && slots[..n][j].id == id;
      assert who(slots[j]);
    } else {
      assert who(slots[n]);
    }
  }

  lemma OneCopy(s: State, who: Slot -> bool, j: nat)
    requires IdsInv(s) && j < |s.slots| && Occupied(s.slots[j]) && forall x :: who(x) ==> Occupied(x)
    ensures multiset(Queues(s.slots, who))[s.slots[j].id] == if who(s.slots[j]) then 1 else 0
  {
    hide Queues;
    var id, which := s.slots[j].id, Which(s.slots, who, s.slots[j].id);
    QueuesCount(s.slots, who, id);
    assert forall i :: i in which ==> i == j;
    if who(s.slots[j]) {
      assert which == {j};
    } else {
      assert which == {};
    }
  }

  // Over every history: a text sends exactly one copy to the queue of each other
  // client in the table, none to the queue of the sender, and nothing else.
  lemma TextReachesEveryOtherOnce(states: seq<State>, messages: seq<Message>, max: nat, k: nat)
    requires IsHistory(states, messages, max) && k < |messages|
    requires messages[k].Text? && messages[k].body != "exit\n"
    ensures var slots, client, sent := states[k].slots, messages[k].client, React(states[k], messages[k]).1;
      && (forall j :: 0 <= j < |slots| && Occupied(slots[j]) ==>
            multiset(sent)[slots[j].id] == if slots[j].name == Some(client) then 0 else 1)
      && forall q :: q in sent ==>
           exists j :: 0 <= j < |slots| && Occupied(slots[j]) && slots[j].id == q && slots[j].name != Some(client)
  {
    HistoryKeepsInv(states, messages, max, k);
    var slots, client := states[k].slots, messages[k].client;
    var sent := Queues(slots, IsOther(client));
    forall j | 0 <= j < |slots| && Occupied(slots[j])
      ensures multiset(sent)[slots[j].id] == if slots[j].name == Some(client) then 0 else 1
    {
      OneCopy(states[k], IsOther(client), j);
    }
    forall q | q in sent
      ensures exists j :: 0 <= j < |slots| && Occupied(slots[j]) && slots[j].id == q && slots[j].name != Some(client)
    {
      QueueHasSlot(slots, IsOther(client), q);
      var j :| 0 <= j < |slots| && IsOther(client)(slots[j]) && slots[j].id == q;
      assert Occupied(slots[j]);
    }
  }

  // Every occupant's queue once, and no other.
  lemma NotifiedOnce(s: State)
    requires IdsInv(s)
    ensures var notified := Queues(s.slots, IsOccupant());
      && (forall j :: 0 <= j < |s.slots| && s.slots[j].id != -1 ==> multiset(notified)[s.slots[j].id] == 1)
      && forall q :: q in notified ==> exists j :: 0 <= j < |s.slots| && s.slots[j].id == q && q != -1
  {
    var notified := Queues(s.slots, IsOccupant());
    forall j | 0 <= j < |s.slots| && s.slots[j].id != -1
      ensures multiset(notified)[s.slots[j].id] == 1
    {
      OneCopy(s, IsOccupant(), j);
    }
    forall q | q in notified
      ensures exists j :: 0 <= j < |s.slots| && s.slots[j].id == q && q != -1
    {
      QueueHasSlot(s.slots, IsOccupant(), q);
      var j :| 0 <= j < |s.slots| && IsOccupant()(s.slots[j]) && s.slots[j].id == q;
      assert s.slots[j].id == q && q != -1;
    }
  }

  // ----------------------------------------------- one message in plain terms

  // An init message is answered with a slot if fewer clients have been admitted
  // than there are slots and the queue can be created; otherwise with nothing.
  lemma InitDoes(s: State, client: string, foreign: set<string>, id: int)
    requires Inv(s)
    ensures React(s, Init(client, foreign, id)).1 == []
    ensures var s' := React(s, Init(client, foreign, id)).0;
      if s.numClients < |s.slots| && client !in s.owned && client !in foreign && id >= 0
      then exists i :: 0 <= i < |s.slots| && s.slots[i].id == -1
             && s' == State(s.slots[i := Slot(id, Some(client))], s.numClients + 1,
                            s.owned + {client}, s.descriptors + {id})
      else s' == s
  {
    if s.numClients < |s.slots| {
      ScanStopsInside(s);
      var i := First(s.slots, IsFree(), 0);
      assert IsFree()(s.slots[i]) && s.slots[i].id == -1;
    }
  }

  // An exit message empties the slot of its client and no other, and removes its
  // queue; any other text changes nothing.
  lemma TextDoes(s: State, client: string, body: string)
    requires Inv(s)
    ensures var (s', sent) := React(s, Text(client, body));
      && |s'.slots| == |s.slots| && s'.numClients == s.numClients && s'.descriptors == s.descriptors
      && s'.owned == (if body == "exit\n" then s.owned - {client} else s.owned)
      && (forall i :: 0 <= i < |s.slots| ==>
            s'.slots[i] == if body == "exit\n" && s.slots[i].name == Some(client) then Slot(-1, None) else s.slots[i])
      && (body == "exit\n" ==> sent == [])
  {
    if body == "exit\n" {
      var k := First(s.slots, HasName(client), 0);
      assert k < |s.slots| ==> HasName(client)(s.slots[k]);
      forall i | 0 <= i < |s.slots| && i < k
        ensures s.slots[i].name != Some(client)
      {
        assert !HasName(client)(s.slots[i]);
      }
    }
  }

  // ------------------------------------------------------- the server's arrays

  class Server {
    const clientsQueueIds: array<int>
    const clientNames: array<Option<string>>
    var numClients: nat
    var owned: set<string>        // client queues existing in the kernel on the server's account
    var descriptors: set<int>          // and the descriptors it holds

    ghost predicate Valid()
      reads this
    {
      clientsQueueIds.Length == clientNames.Length
    }

    ghost function View(): State
      requires Valid()
      reads this, clientsQueueIds, clientNames
    {
      State(Slots(clientsQueueIds[..], clientNames[..]), numClients, owned, descriptors)
    }

    constructor (max: nat)
      ensures Valid() && clientsQueueIds.Length == max
      ensures fresh(clientsQueueIds) && fresh(clientNames)
      ensures View() == Initial(max)
    {
      clientsQueueIds := new int[max](_ => EMPTY);
      clientNames := new Option<string>[max](_ => None);
      numClients := 0;
      owned := {};
      descriptors := {};
      new;
      assert View().slots == Initial(max).slots;
    }

    // The body of the communication loop for one message (lines 82-134).
    method Handle(m: Message) returns (sent: seq<int>)
      requires Valid() && Inv(View()) && Possible(View(), m)
      modifies this, clientsQueueIds, clientNames
      ensures Valid() && (View(), sent) == React(old(View()), m)
    {
      sent := [];
      match m
      case Init(client, foreign, id) => Admit(client, foreign, id);
      case Text(client, body) =>
        if body == "exit\n" {
          Dismiss(client, body);
        } else {
          sent := PassOn(client);
        }
    }

    method Admit(client: string, foreign: set<string>, id: int)
      requires Valid() && Inv(View())
      modifies this, clientsQueueIds, clientNames
      ensures Valid() && View() == React(old(View()), Init(client, foreign, id)).0
    {
      hide Inv;
      ghost var s := View();
      if numClients == clientsQueueIds.Length {
        return;
      }
      var queueId := if client in owned || client in foreign || id < 0 then EMPTY else id;
      if queueId != EMPTY {
        ScanStopsInside(s);
        numClients := numClients + 1;
        var i := 0;
        while clientsQueueIds[i] != EMPTY
          invariant 0 <= i < clientsQueueIds.Length
          invariant First(s.slots, IsFree(), 0) == First(s.slots, IsFree(), i) < clientsQueueIds.Length
          decreases clientsQueueIds.Length - i
        {
          assert !IsFree()(s.slots[i]);
          i := i + 1;
        }
        assert IsFree()(s.slots[i]);
        owned := owned + {client};
        descriptors := descriptors + {queueId};
        clientsQueueIds[i] := queueId;
        clientNames[i] := Some(client);
        assert View().slots == s.slots[i := Slot(queueId, Some(client))];
      }
    }

    method Dismiss(client: string, ghost body: string)
      requires Valid() && body == "exit\n"
      modifies this, clientsQueueIds, clientNames
      ensures Valid() && View() == React(old(View()), Text(client, body)).0
    {
      ghost var s := View();
      owned := owned - {client};
      var i := 0;
      while i < clientNames.Length && clientNames[i] != Some(client)
        invariant 0 <= i <= clientNames.Length
        invariant First(s.slots, HasName(client), 0) == First(s.slots, HasName(client), i)
      {
        assert !HasName(client)(s.slots[i]);
        i := i + 1;
      }
      if i < clientNames.Length {
        assert HasName(client)(s.slots[i]);
        clientsQueueIds[i] := EMPTY;
        clientNames[i] := None;
        assert View().slots == s.slots[i := Slot(EMPTY, None)];
      }
    }

    method PassOn(client: string) returns (sent: seq<int>)
      requires Valid()
      ensures sent == Queues(View().slots, IsOther(client))
    {
      ghost var slots := View().slots;
      sent := [];
      var j := 0;
      while j < clientsQueueIds.Length
        invariant 0 <= j <= clientsQueueIds.Length
        invariant sent == Queues(slots[..j], IsOther(client))
      {
        assert slots[..j + 1][..j] == slots[..j];
        if clientsQueueIds[j] != EMPTY && clientNames[j] != Some(client) {
          sent := sent + [clientsQueueIds[j]];
        }
        j := j + 1;
      }
      assert slots[..j] == slots;
    }

    // The shutdown hook: "exit" to every client, and every client queue unlinked.
    method Cleanup() returns (notified: seq<int>)
      requires Valid() && Inv(View())
      modifies this`owned
      ensures owned == {}
      ensures forall j :: 0 <= j < |View().slots| && View().slots[j].id != -1 ==>
        multiset(notified)[View().slots[j].id] == 1
      ensures forall q :: q in notified ==>
        exists j :: 0 <= j < |View().slots| && View().slots[j].id == q && q != -1
    {
      hide IdsInv, CountInv, NamesInv, Queues;
      ghost var s := View();
      notified := NotifyAll();
      NotifiedOnce(s);
      UnlinkAll();
      assert View().slots == s.slots;
    }

    method NotifyAll() returns (notified: seq<int>)
      requires Valid()
      ensures notified == Queues(View().slots, IsOccupant())
    {
      ghost var s := View();
      notified := [];
      for i := 0 to clientsQueueIds.Length
        invariant notified == Queues(s.slots[..i], IsOccupant())
      {
        assert s.slots[..i + 1][..i] == s.slots[..i];
        if clientsQueueIds[i] != EMPTY {
          notified := notified + [clientsQueueIds[i]];
        }
      }
      assert s.slots[..|s.slots|] == s.slots;
    }

    method UnlinkAll()
      requires Valid() && NamesInv(View())
      modifies this`owned
      ensures owned == {}
    {
      ghost var s := View();
      for i := 0 to clientsQueueIds.Length
        invariant View().slots == s.slots
        invariant forall q :: q in owned ==> exists k :: i <= k < |s.slots| && s.slots[k].name == Some(q)
      {
        if clientsQueueIds[i] != EMPTY {
          assert s.slots[i].name.Some?;
          owned := owned - {clientNames[i].value};
        } else {
          assert s.slots[i].name.None?;
        }
      }
    }
  }

  ghost function Slots(ids: seq<int>, names: seq<Option<string>>): (slots: seq<Slot>)
    requires |ids| == |names|
    ensures |slots| == |ids| && forall i :: 0 <= i < |ids| ==> slots[i] == Slot(ids[i], names[i])
  {
    seq(|ids|, i requires 0 <= i < |ids| => Slot(ids[i], names[i]))
  }
}

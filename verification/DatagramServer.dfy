// The chat server over two datagram sockets (lab10/zad1): one table of clients
// per address family, with the time each was last heard from. A datagram
// refreshes or admits its sender and is then forwarded to everyone else who was
// heard from within the last ten seconds; the others are dropped.
module DatagramServer {
  import opened Text

  const FREE: int := -1
  const MAX_AGE: int := 10

  // sin_port and sin_addr of an Internet client; sun_path of a local one.
  datatype InetAddr = InetAddr(port: int, host: int)
  type UnixPath = string

  // One family's table. A slot is free when its time is FREE.
  datatype Table<A> = Table(ping: seq<int>, addrs: seq<A>)

  datatype Dest = ToInet(addr: InetAddr) | ToUnix(path: UnixPath)

  predicate Sized<A>(t: Table<A>, n: nat) {
    |t.ping| == |t.addrs| == n
  }

  predicate Live<A>(t: Table<A>, i: nat)
    requires i < |t.ping|
  {
    t.ping[i] != FREE
  }

  // ------------------------------------------------------------ admission

  predicate Holds<A(==)>(t: Table<A>, i: nat, from: A)
    requires |t.ping| == |t.addrs| && i < |t.ping|
  {
    Live(t, i) && t.addrs[i] == from
  }

  // The first slot from i on that satisfies the scan's test, or -1.
  function FindClient<A(==)>(t: Table<A>, from: A, i: nat): (k: int)
    requires |t.ping| == |t.addrs| && i <= |t.ping|
    ensures k == -1 || (i <= k < |t.ping| && Holds(t, k, from))
    ensures forall j :: i <= j < (if k == -1 then |t.ping| else k) ==> !Holds(t, j, from)
    decreases |t.ping| - i
  {
    if i == |t.ping| then -1 else if Holds(t, i, from) then i else FindClient(t, from, i + 1)
  }

  function FindFree<A>(t: Table<A>, i: nat): (k: int)
    requires i <= |t.ping|
    ensures k == -1 || (i <= k < |t.ping| && !Live(t, k))
    ensures forall j :: i <= j < (if k == -1 then |t.ping| else k) ==> Live(t, j)
    decreases |t.ping| - i
  {
    if i == |t.ping| then -1 else if !Live(t, i) then i else FindFree(t, i + 1)
  }

  // Every slot is another client's.
  predicate NoRoom<A(==)>(t: Table<A>, from: A)
    requires |t.ping| == |t.addrs|
  {
    forall i :: 0 <= i < |t.ping| ==> t.ping[i] != -1 && t.addrs[i] != from
  }

  // Refresh the sender's slot, or take the first free one, or admit nobody.
  function Admit<A(==)>(t: Table<A>, from: A, now: int): (r: (Table<A>, int))
    requires |t.ping| == |t.addrs|
    ensures |r.0.ping| == |r.0.addrs| == |t.ping| && -1 <= r.1 < |t.ping|
  {
    var known := FindClient(t, from, 0);
    if known != -1 then (t.(ping := t.ping[known := now]), known)
    else
      var free := FindFree(t, 0);
      if free == -1 then (t, -1)
      else (Table(t.ping[free := now], t.addrs[free := from]), free)
  }

  // ------------------------------------------------------------ forwarding

  predicate Recent<A>(t: Table<A>, i: nat, now: int)
    requires i < |t.ping|
  {
    Live(t, i) && now - t.ping[i] <= MAX_AGE
  }

  // Whether the loop looks at slot i of a table. `sender` is the sender's slot in
  // that table (-1: it has none there), and `always` says that the branch also
  // looks when the sender has no slot.
  predicate Considered(i: int, sender: int, always: bool) {
    i != sender && (sender != -1 || always)
  }

  // The table after the slots below k were checked, slot i at time clock[i]:
  // stale clients dropped.
  ghost function Expired<A>(t: Table<A>, k: nat, sender: int, always: bool, clock: seq<int>): (r: Table<A>)
    requires k <= |t.ping| && k <= |clock|
    ensures |r.ping| == |t.ping| && r.addrs == t.addrs
  {
    if k == 0 then t
    else
      var r, i := Expired(t, k - 1, sender, always, clock), k - 1;
      if Considered(i, sender, always) && Live(t, i) && !Recent(t, i, clock[i])
      then r.(ping := r.ping[i := FREE])
      else r
  }

  lemma {:induction false} ExpiredSlot<A>(t: Table<A>, k: nat, sender: int, always: bool, clock: seq<int>, i: nat)
    requires k <= |t.ping| && k <= |clock| && i < |t.ping|
    ensures Expired(t, k, sender, always, clock).ping[i]
         == if i < k && Considered(i, sender, always) && !Recent(t, i, clock[i]) then FREE else t.ping[i]
  {
    if k > 0 {
      ExpiredSlot(t, k - 1, sender, always, clock, i);
    }
  }

  ghost function SendTo<A>(t: Table<A>, i: nat, sender: int, always: bool, clock: seq<int>, d: Dest): seq<Dest>
    requires i < |t.ping| && i < |clock|
  {
    if Considered(i, sender, always) && Recent(t, i, clock[i]) then [d] else []
  }

  // ------------------------------------------------------------ one datagram

  datatype Tables = Tables(inet: Table<InetAddr>, unix: Table<UnixPath>)

  datatype Datagram =
    | FromInet(inetAddr: InetAddr, text: string)
    | FromUnix(path: UnixPath, text: string)

  // The readings of the clock: at the lookup, and at each slot's check.
  datatype Times = Times(now: int, inet: seq<int>, unix: seq<int>)

  predicate Registers(d: Datagram) {
    Contains(d.text, "--register--")
  }

  ghost predicate WellSized(ts: Tables, times: Times, n: nat) {
    Sized(ts.inet, n) && Sized(ts.unix, n) && |times.inet| == n && |times.unix| == n && times.now != FREE
  }

  function Admitted(ts: Tables, d: Datagram, now: int): (r: (Tables, int))
    requires |ts.inet.ping| == |ts.inet.addrs| && |ts.unix.ping| == |ts.unix.addrs|
    ensures |r.0.inet.ping| == |r.0.inet.addrs| == |ts.inet.ping|
    ensures |r.0.unix.ping| == |r.0.unix.addrs| == |ts.unix.ping|
  {
    match d
    case FromInet(a, _) => var (t, sender) := Admit(ts.inet, a, now); (ts.(inet := t), sender)
    case FromUnix(p, _) => var (t, sender) := Admit(ts.unix, p, now); (ts.(unix := t), sender)
  }

  // The server has no slot for the sender of this datagram.
  predicate Refused(ts: Tables, d: Datagram)
    requires |ts.inet.ping| == |ts.inet.addrs| && |ts.unix.ping| == |ts.unix.addrs|
  {
    match d
    case FromInet(a, _) => NoRoom(ts.inet, a)
    case FromUnix(p, _) => NoRoom(ts.unix, p)
  }

  // The sender's slot as each family's table sees it, and whether an unadmitted
  // sender's datagram is forwarded within its own family: only for Internet ones.
  function InetSender(d: Datagram, sender: int): int {
    if d.FromInet? then sender else -1
  }

  function UnixSender(d: Datagram, sender: int): int {
    if d.FromUnix? then sender else -1
  }

  ghost function InetSends(ts: Tables, d: Datagram, sender: int, times: Times, i: nat): seq<Dest>
    requires Sized(ts.inet, |times.inet|) && i < |times.inet|
  {
    SendTo(ts.inet, i, InetSender(d, sender), true, times.inet, ToInet(ts.inet.addrs[i]))
  }

  ghost function UnixSends(ts: Tables, d: Datagram, sender: int, times: Times, i: nat): seq<Dest>
    requires Sized(ts.unix, |times.unix|) && i < |times.unix|
  {
    SendTo(ts.unix, i, UnixSender(d, sender), d.FromInet?, times.unix, ToUnix(ts.unix.addrs[i]))
  }

  // What goes out for the slots below k, own family first in each round.
  ghost function Sends(ts: Tables, d: Datagram, sender: int, times: Times, k: nat): seq<Dest>
    requires WellSized(ts, times, |times.inet|) && k <= |times.inet|
  {
    if k == 0 then []
    else
      var a, b := InetSends(ts, d, sender, times, k - 1), UnixSends(ts, d, sender, times, k - 1);
      Sends(ts, d, sender, times, k - 1) + if d.FromInet? then a + b else b + a
  }

  // The server's reaction: the tables it leaves and the datagrams it sends.
  ghost function React(ts: Tables, d: Datagram, times: Times): (Tables, seq<Dest>)
    requires WellSized(ts, times, |times.inet|)
  {
    var (t, sender) := Admitted(ts, d, times.now);
    var n := |times.inet|;
    if Registers(d) then (t, [])
    else
      (Tables(Expired(t.inet, n, InetSender(d, sender), true, times.inet),
              Expired(t.unix, n, UnixSender(d, sender), d.FromInet?, times.unix)),
       Sends(t, d, sender, times, n))
  }

  // ------------------------------------------------------- distinct addresses

  ghost predicate DistinctLive<A(!new)>(t: Table<A>) {
    && |t.ping| == |t.addrs|
    && forall i, j :: 0 <= i < j < |t.ping| && Live(t, i) && Live(t, j) ==> t.addrs[i] != t.addrs[j]
  }

  ghost predicate Distinct(ts: Tables) {
    DistinctLive(ts.inet) && DistinctLive(ts.unix)
  }

  // Slot i becomes the sender's: its own one, or else one that was free.
  ghost predicate TakesSlot<A(!new)>(t: Table<A>, t': Table<A>, from: A, now: int, i: nat) {
    && i < |t.ping| == |t.addrs| == |t'.ping| == |t'.addrs|
    && t'.addrs[i] == from && t'.ping[i] == now
    && if t.ping[i] != -1 then t.addrs[i] == from
       else forall j :: 0 <= j < |t.ping| && t.ping[j] != -1 ==> t.addrs[j] != from
  }

  lemma AdmitFacts<A(!new)>(t: Table<A>, from: A, now: int)
    requires |t.ping| == |t.addrs| && now != FREE
    ensures var (t', sender) := Admit(t, from, now);
      && |t'.ping| == |t'.addrs| == |t.ping| && -1 <= sender < |t.ping|
      && (sender != -1 ==> t'.addrs[sender] == from && t'.ping[sender] == now)
      && (forall i :: 0 <= i < |t.ping| && i != sender ==> t'.ping[i] == t.ping[i] && t'.addrs[i] == t.addrs[i])
      && (DistinctLive(t) ==> DistinctLive(t'))
      && (sender == -1 <==> NoRoom(t, from))
      && (sender != -1 ==> TakesSlot(t, t', from, now, sender))
  {
    var known := FindClient(t, from, 0);
    var (t', sender) := Admit(t, from, now);
    if known == -1 {
      assert forall i :: 0 <= i < |t.ping| ==> !Holds(t, i, from);
      if sender == -1 {
        forall i | 0 <= i < |t.ping|
          ensures t.ping[i] != -1 && t.addrs[i] != from
        {
          assert Live(t, i) && !Holds(t, i, from);
        }
      } else {
        forall j | 0 <= j < |t.ping| && t.ping[j] != -1
          ensures t.addrs[j] != from
        {
          assert !Holds(t, j, from);
        }
      }
    }
    if DistinctLive(t) {
      forall i, j | 0 <= i < j < |t.ping| && Live(t', i) && Live(t', j)
        ensures t'.addrs[i] != t'.addrs[j]
      {
        if known == -1 {
          assert !Holds(t, i, from) && !Holds(t, j, from);
        }
      }
    }
  }

  lemma ExpiryKeepsDistinct<A(!new)>(t: Table<A>, k: nat, sender: int, always: bool, clock: seq<int>)
    requires DistinctLive(t) && k <= |t.ping| && k <= |clock|
    ensures DistinctLive(Expired(t, k, sender, always, clock))
  {
    forall i | 0 <= i < |t.ping|
      ensures Live(Expired(t, k, sender, always, clock), i) ==> Live(t, i)
    {
      ExpiredSlot(t, k, sender, always, clock, i);
    }
  }

  // Over any history of datagrams, no address is live twice in a table.
  lemma ReactKeepsDistinct(ts: Tables, d: Datagram, times: Times, n: nat)
    requires Distinct(ts) && WellSized(ts, times, n)
    ensures Distinct(React(ts, d, times).0) && WellSized(React(ts, d, times).0, times, n)
  {
    var (t, sender) := Admitted(ts, d, times.now);
    match d {
      case FromInet(a, _) => AdmitFacts(ts.inet, a, times.now);
      case FromUnix(p, _) => AdmitFacts(ts.unix, p, times.now);
    }
    ExpiryKeepsDistinct(t.inet, n, InetSender(d, sender), true, times.inet);
    ExpiryKeepsDistinct(t.unix, n, UnixSender(d, sender), d.FromInet?, times.unix);
  }

  function Empty(n: nat, inet: seq<InetAddr>, unix: seq<UnixPath>): Tables
    requires |inet| == |unix| == n
  {
    Tables(Table(seq(n, _ => FREE), inet), Table(seq(n, _ => FREE), unix))
  }

  ghost predicate IsHistory(states: seq<Tables>, inputs: seq<(Datagram, Times)>, n: nat) {
    && |states| == |inputs| + 1
    && |states[0].inet.addrs| == |states[0].unix.addrs| == n
    && states[0] == Empty(n, states[0].inet.addrs, states[0].unix.addrs)
    && forall k :: 0 <= k < |inputs| ==>
         && WellSized(states[k], inputs[k].1, n)
         && states[k + 1] == React(states[k], inputs[k].0, inputs[k].1).0
  }

  lemma {:induction false} HistoryKeepsDistinct(states: seq<Tables>, inputs: seq<(Datagram, Times)>, n: nat, k: nat)
    requires IsHistory(states, inputs, n) && k < |states|
    ensures Distinct(states[k])
  {
    if k > 0 {
      HistoryKeepsDistinct(states, inputs, n, k - 1);
      ReactKeepsDistinct(states[k - 1], inputs[k - 1].0, inputs[k - 1].1, n);
    }
  }

  // ---------------------------------------------------------- who gets what

  function CopiesTo(sends: seq<Dest>, to: Dest): nat {
    multiset(sends)[to]
  }

  lemma NoCopies(to: Dest)
    ensures CopiesTo([], to) == 0
  {
  }

  // Slot i of the Internet table is to get a copy.
  ghost predicate InetGets(ts: Tables, d: Datagram, sender: int, times: Times, i: nat)
    requires i < |ts.inet.ping| && i < |times.inet|
  {
    Considered(i, InetSender(d, sender), true) && Recent(ts.inet, i, times.inet[i])
  }

  ghost predicate UnixGets(ts: Tables, d: Datagram, sender: int, times: Times, i: nat)
    requires i < |ts.unix.ping| && i < |times.unix|
  {
    Considered(i, UnixSender(d, sender), d.FromInet?) && Recent(ts.unix, i, times.unix[i])
  }

  // One round of the loop, seen from one address.
  lemma RoundCopies(a: seq<Dest>, b: seq<Dest>, to: Dest)
    requires |a| <= 1 && |b| <= 1
    ensures CopiesTo(a, to) == (if a == [to] then 1 else 0) && CopiesTo(b, to) == (if b == [to] then 1 else 0)
    ensures CopiesTo(a + b, to) == CopiesTo(b + a, to) == CopiesTo(a, to) + CopiesTo(b, to)
  {
  }

  lemma SendsRound(ts: Tables, d: Datagram, sender: int, times: Times, k: nat, to: Dest)
    requires WellSized(ts, times, |times.inet|) && 0 < k <= |times.inet|
    ensures CopiesTo(Sends(ts, d, sender, times, k), to)
         == CopiesTo(Sends(ts, d, sender, times, k - 1), to)
            + (if InetSends(ts, d, sender, times, k - 1) == [to] then 1 else 0)
            + (if UnixSends(ts, d, sender, times, k - 1) == [to] then 1 else 0)
  {
    var a, b := InetSends(ts, d, sender, times, k - 1), UnixSends(ts, d, sender, times, k - 1);
    RoundCopies(a, b, to);
  }

  // Which address a round serves: slot k's, and nobody else's.
  lemma InetRound(ts: Tables, d: Datagram, sender: int, times: Times, n: nat, k: nat, i: nat)
    requires Distinct(ts) && WellSized(ts, times, n) && k < n && i < n && Live(ts.inet, i)
    ensures InetSends(ts, d, sender, times, k) == [ToInet(ts.inet.addrs[i])]
      <==> k == i && InetGets(ts, d, sender, times, i)
    ensures UnixSends(ts, d, sender, times, k) != [ToInet(ts.inet.addrs[i])]
  {
  }

  lemma UnixRound(ts: Tables, d: Datagram, sender: int, times: Times, n: nat, k: nat, i: nat)
    requires Distinct(ts) && WellSized(ts, times, n) && k < n && i < n && Live(ts.unix, i)
    ensures UnixSends(ts, d, sender, times, k) == [ToUnix(ts.unix.addrs[i])]
      <==> k == i && UnixGets(ts, d, sender, times, i)
    ensures InetSends(ts, d, sender, times, k) != [ToUnix(ts.unix.addrs[i])]
  {
  }

  lemma {:induction false} CopiesToInet(ts: Tables, d: Datagram, sender: int, times: Times, n: nat, k: nat, i: nat)
    requires Distinct(ts) && WellSized(ts, times, n) && k <= n && i < n && Live(ts.inet, i)
    ensures CopiesTo(Sends(ts, d, sender, times, k), ToInet(ts.inet.addrs[i]))
         == if i < k && InetGets(ts, d, sender, times, i) then 1 else 0
  {
    hide CopiesTo, InetSends, UnixSends, InetGets, Distinct, Live;
    NoCopies(ToInet(ts.inet.addrs[i]));
    if k > 0 {
      CopiesToInet(ts, d, sender, times, n, k - 1, i);
      SendsRound(ts, d, sender, times, k, ToInet(ts.inet.addrs[i]));
      InetRound(ts, d, sender, times, n, k - 1, i);
    }
  }

  lemma {:induction false} CopiesToUnix(ts: Tables, d: Datagram, sender: int, times: Times, n: nat, k: nat, i: nat)
    requires Distinct(ts) && WellSized(ts, times, n) && k <= n && i < n && Live(ts.unix, i)
    ensures CopiesTo(Sends(ts, d, sender, times, k), ToUnix(ts.unix.addrs[i]))
         == if i < k && UnixGets(ts, d, sender, times, i) then 1 else 0
  {
    hide CopiesTo, InetSends, UnixSends, UnixGets, Distinct, Live;
    NoCopies(ToUnix(ts.unix.addrs[i]));
    if k > 0 {
      CopiesToUnix(ts, d, sender, times, n, k - 1, i);
      SendsRound(ts, d, sender, times, k, ToUnix(ts.unix.addrs[i]));
      UnixRound(ts, d, sender, times, n, k - 1, i);
    }
  }

  // An address of a slot that is to get a copy.
  ghost predicate IsRecipient(ts: Tables, d: Datagram, sender: int, times: Times, to: Dest)
    requires WellSized(ts, times, |times.inet|)
  {
    match to
    case ToInet(a) => exists i :: 0 <= i < |times.inet| && InetGets(ts, d, sender, times, i) && ts.inet.addrs[i] == a
    case ToUnix(p) => exists i :: 0 <= i < |times.unix| && UnixGets(ts, d, sender, times, i) && ts.unix.addrs[i] == p
  }

  // The slot of a recipient, for what one round of the loop sends.
  lemma RecipientOfRound(ts: Tables, d: Datagram, sender: int, times: Times, i: nat, to: Dest)
    requires WellSized(ts, times, |times.inet|) && i < |times.inet|
    requires to in InetSends(ts, d, sender, times, i) || to in UnixSends(ts, d, sender, times, i)
    ensures IsRecipient(ts, d, sender, times, to)
  {
    if to in InetSends(ts, d, sender, times, i) {
      assert InetGets(ts, d, sender, times, i) && to == ToInet(ts.inet.addrs[i]);
    } else {
      assert UnixGets(ts, d, sender, times, i) && to == ToUnix(ts.unix.addrs[i]);
    }
  }

  lemma {:induction false} OnlyRecipients(ts: Tables, d: Datagram, sender: int, times: Times, k: nat, to: Dest)
    requires WellSized(ts, times, |times.inet|) && k <= |times.inet| && to in Sends(ts, d, sender, times, k)
    ensures IsRecipient(ts, d, sender, times, to)
  {
    hide InetSends, UnixSends, IsRecipient;
    if to in Sends(ts, d, sender, times, k - 1) {
      OnlyRecipients(ts, d, sender, times, k - 1, to);
    } else {
      RecipientOfRound(ts, d, sender, times, k - 1, to);
    }
  }

  // Forwarding, address by address, for an admitted sender's message: one copy
  // to every other live client heard from within ten seconds, none to a stale
  // one, none back to the sender, none to any other address; and only the recent
  // ones and the sender stay.
  lemma ForwardedExactlyOnce(ts: Tables, d: Datagram, times: Times, n: nat)
    requires Distinct(ts) && WellSized(ts, times, n) && !Registers(d)
    requires !Refused(ts, d)
    ensures var (t, sender) := Admitted(ts, d, times.now);
            var (t', sends) := React(ts, d, times);
      && (forall i :: 0 <= i < n && Live(t.inet, i) ==>
            var other := !(d.FromInet? && i == sender);
            && CopiesTo(sends, ToInet(t.inet.addrs[i])) == (if other && Recent(t.inet, i, times.inet[i]) then 1 else 0)
            && (Live(t'.inet, i) <==> !other || Recent(t.inet, i, times.inet[i])))
      && (forall i :: 0 <= i < n && Live(t.unix, i) ==>
            var other := !(d.FromUnix? && i == sender);
            && CopiesTo(sends, ToUnix(t.unix.addrs[i])) == (if other && Recent(t.unix, i, times.unix[i]) then 1 else 0)
            && (Live(t'.unix, i) <==> !other || Recent(t.unix, i, times.unix[i])))
      && (forall i :: 0 <= i < n && !Live(t.inet, i) ==> !Live(t'.inet, i))
      && (forall i :: 0 <= i < n && !Live(t.unix, i) ==> !Live(t'.unix, i))
      && (forall to :: to in sends ==> IsRecipient(t, d, sender, times, to))
  {
    var (t, sender) := Admitted(ts, d, times.now);
    match d {
      case FromInet(a, _) => AdmitFacts(ts.inet, a, times.now);
      case FromUnix(p, _) => AdmitFacts(ts.unix, p, times.now);
    }
    forall to | to in Sends(t, d, sender, times, n)
      ensures IsRecipient(t, d, sender, times, to)
    {
      OnlyRecipients(t, d, sender, times, n, to);
    }
    forall i | 0 <= i < n
      ensures Live(t.inet, i) ==>
        CopiesTo(Sends(t, d, sender, times, n), ToInet(t.inet.addrs[i]))
        == if InetGets(t, d, sender, times, i) then 1 else 0
      ensures Expired(t.inet, n, InetSender(d, sender), true, times.inet).ping[i]
           == if Considered(i, InetSender(d, sender), true) && !Recent(t.inet, i, times.inet[i])
              then FREE else t.inet.ping[i]
    {
      ExpiredSlot(t.inet, n, InetSender(d, sender), true, times.inet, i);
      if Live(t.inet, i) {
        CopiesToInet(t, d, sender, times, n, n, i);
      }
    }
    forall i | 0 <= i < n
      ensures Live(t.unix, i) ==>
        CopiesTo(Sends(t, d, sender, times, n), ToUnix(t.unix.addrs[i]))
        == if UnixGets(t, d, sender, times, i) then 1 else 0
      ensures Expired(t.unix, n, UnixSender(d, sender), d.FromInet?, times.unix).ping[i]
           == if Considered(i, UnixSender(d, sender), d.FromInet?) && !Recent(t.unix, i, times.unix[i])
              then FREE else t.unix.ping[i]
    {
      ExpiredSlot(t.unix, n, UnixSender(d, sender), d.FromInet?, times.unix, i);
      if Live(t.unix, i) {
        CopiesToUnix(t, d, sender, times, n, n, i);
      }
    }
  }

  // ------------------------------------------- one datagram in plain numbers

  ghost predicate SameSlot<A(!new)>(t: Table<A>, t': Table<A>, i: nat) {
    && i < |t.ping| == |t.addrs| == |t'.ping| == |t'.addrs|
    && t'.ping[i] == t.ping[i] && t'.addrs[i] == t.addrs[i]
  }

  // Heard from within the last ten seconds.
  predicate Fresh(ping: int, now: int) {
    ping != -1 && now - ping <= 10
  }

  // Slot i is given up unless its client is fresh.
  ghost predicate Aged<A(!new)>(t: Table<A>, t': Table<A>, i: nat, now: int) {
    && i < |t.ping| == |t.addrs| == |t'.ping| == |t'.addrs|
    && t'.addrs[i] == t.addrs[i]
    && t'.ping[i] == if Fresh(t.ping[i], now) then t.ping[i] else -1
  }

  // The table after a registering datagram of `from`.
  ghost predicate Registered<A(!new)>(t: Table<A>, t': Table<A>, from: A, now: int)
    requires |t.ping| == |t.addrs|
  {
    if NoRoom(t, from) then t' == t
    else
      exists i: nat ::
        TakesSlot(t, t', from, now, i) && forall j: nat :: j < |t.ping| && j != i ==> SameSlot(t, t', j)
  }

  // A registering datagram admits or refreshes its sender and goes to nobody.
  lemma Registration(ts: Tables, d: Datagram, times: Times, n: nat)
    requires WellSized(ts, times, n) && Contains(d.text, "--register--")
    ensures React(ts, d, times).1 == []
    ensures var ts' := React(ts, d, times).0;
      match d
      case FromInet(a, _) => Registered(ts.inet, ts'.inet, a, times.now) && ts'.unix == ts.unix
      case FromUnix(p, _) => Registered(ts.unix, ts'.unix, p, times.now) && ts'.inet == ts.inet
  {
    hide Admit, Contains;
    match d {
      case FromInet(a, _) => AdmissionRegisters(ts.inet, a, times.now);
      case FromUnix(p, _) => AdmissionRegisters(ts.unix, p, times.now);
    }
  }

  lemma AdmissionRegisters<A(!new)>(t: Table<A>, from: A, now: int)
    requires |t.ping| == |t.addrs| && now != FREE
    ensures Registered(t, Admit(t, from, now).0, from, now)
  {
    AdmitFacts(t, from, now);
    var (t', sender) := Admit(t, from, now);
    if sender != -1 {
      assert TakesSlot(t, t', from, now, sender);
    }
  }

  // The sender's slot in its own family's table, no slot in the other.
  function SlotIn(own: bool, sender: int): int {
    if own then sender else -1
  }

  // A recipient: the address of a fresh client other than the sender.
  ghost predicate FreshRecipient(ts: Tables, times: Times, to: Dest, inetSender: int, unixSender: int)
    requires WellSized(ts, times, |times.inet|)
  {
    match to
    case ToInet(a) => exists i: nat :: FreshAt(ts.inet, times.inet, i, a) && i != inetSender
    case ToUnix(p) => exists i: nat :: FreshAt(ts.unix, times.unix, i, p) && i != unixSender
  }

  predicate FreshAt<A(==)>(t: Table<A>, clock: seq<int>, i: nat, a: A) {
    i < |t.ping| == |t.addrs| == |clock| && Fresh(t.ping[i], clock[i]) && t.addrs[i] == a
  }

  lemma ForwardingRecipients(ts: Tables, t: Tables, d: Datagram, sender: int, times: Times, n: nat, to: Dest)
    requires WellSized(ts, times, n) && WellSized(t, times, n) && IsRecipient(t, d, sender, times, to)
    requires forall i :: 0 <= i < n && i != SlotIn(d.FromInet?, sender) ==> SameSlot(ts.inet, t.inet, i)
    requires forall i :: 0 <= i < n && i != SlotIn(d.FromUnix?, sender) ==> SameSlot(ts.unix, t.unix, i)
    ensures FreshRecipient(ts, times, to, SlotIn(d.FromInet?, sender), SlotIn(d.FromUnix?, sender))
  {
    match to
    case ToInet(a) =>
      var i :| 0 <= i < n && InetGets(t, d, sender, times, i) && t.inet.addrs[i] == a;
      assert SameSlot(ts.inet, t.inet, i) && FreshAt(ts.inet, times.inet, i, a);
    case ToUnix(p) =>
      var i :| 0 <= i < n && UnixGets(t, d, sender, times, i) && t.unix.addrs[i] == p;
      assert SameSlot(ts.unix, t.unix, i) && FreshAt(ts.unix, times.unix, i, p);
  }

  // Any other datagram of a sender that has or gets a slot: it takes that slot; all
  // other slots are given up unless fresh; every other fresh client of either
  // family is sent one copy, and nobody else any.
  lemma Message(ts: Tables, d: Datagram, times: Times, n: nat) returns (sender: nat)
    requires Distinct(ts) && WellSized(ts, times, n) && !Contains(d.text, "--register--")
    requires !Refused(ts, d)
    ensures var (ts', sends) := React(ts, d, times);
      var si, su := SlotIn(d.FromInet?, sender), SlotIn(d.FromUnix?, sender);
      && (match d
          case FromInet(a, _) => TakesSlot(ts.inet, ts'.inet, a, times.now, sender) && CopiesTo(sends, ToInet(a)) == 0
          case FromUnix(p, _) => TakesSlot(ts.unix, ts'.unix, p, times.now, sender) && CopiesTo(sends, ToUnix(p)) == 0)
      && (forall i :: 0 <= i < n && i != si ==> Aged(ts.inet, ts'.inet, i, times.inet[i]))
      && (forall i :: 0 <= i < n && i != su ==> Aged(ts.unix, ts'.unix, i, times.unix[i]))
      && (forall i :: 0 <= i < n && i != si && ts.inet.ping[i] != -1 ==>
            CopiesTo(sends, ToInet(ts.inet.addrs[i])) == if Fresh(ts.inet.ping[i], times.inet[i]) then 1 else 0)
      && (forall i :: 0 <= i < n && i != su && ts.unix.ping[i] != -1 ==>
            CopiesTo(sends, ToUnix(ts.unix.addrs[i])) == if Fresh(ts.unix.ping[i], times.unix[i]) then 1 else 0)
      && (forall to :: to in sends ==> FreshRecipient(ts, times, to, si, su))
  {
    hide CopiesTo, Contains, Admit, Expired, Sends, IsRecipient, FreshRecipient;
    ForwardedExactlyOnce(ts, d, times, n);
    var (t, slot) := Admitted(ts, d, times.now);
    match d {
      case FromInet(a, _) => AdmitFacts(ts.inet, a, times.now);
      case FromUnix(p, _) => AdmitFacts(ts.unix, p, times.now);
    }
    sender := slot;
    forall i | 0 <= i < n
      ensures Expired(t.inet, n, InetSender(d, slot), true, times.inet).ping[i]
           == if Considered(i, InetSender(d, slot), true) && !Recent(t.inet, i, times.inet[i])
              then FREE else t.inet.ping[i]
      ensures Expired(t.unix, n, UnixSender(d, slot), d.FromInet?, times.unix).ping[i]
           == if Considered(i, UnixSender(d, slot), d.FromInet?) && !Recent(t.unix, i, times.unix[i])
              then FREE else t.unix.ping[i]
    {
      ExpiredSlot(t.inet, n, InetSender(d, slot), true, times.inet, i);
      ExpiredSlot(t.unix, n, UnixSender(d, slot), d.FromInet?, times.unix, i);
    }
    forall to | to in React(ts, d, times).1
      ensures FreshRecipient(ts, times, to, SlotIn(d.FromInet?, slot), SlotIn(d.FromUnix?, slot))
    {
      ForwardingRecipients(ts, t, d, slot, times, n, to);
    }
  }

  // A sender the full table could not admit: an Internet client's message still
  // goes to every recent client of both families, a local client's message goes
  // to the recent Internet clients only, and leaves the local table unchecked.
  lemma UnadmittedSender(ts: Tables, d: Datagram, times: Times, n: nat)
    requires Distinct(ts) && WellSized(ts, times, n) && !Registers(d)
    requires Refused(ts, d)
    ensures var sends := React(ts, d, times).1;
      && (forall i :: 0 <= i < n && Live(ts.inet, i) ==>
            CopiesTo(sends, ToInet(ts.inet.addrs[i])) == if Recent(ts.inet, i, times.inet[i]) then 1 else 0)
      && (forall i :: 0 <= i < n && Live(ts.unix, i) ==>
            CopiesTo(sends, ToUnix(ts.unix.addrs[i]))
            == if d.FromInet? && Recent(ts.unix, i, times.unix[i]) then 1 else 0)
    ensures forall i :: 0 <= i < n ==> Aged(ts.inet, React(ts, d, times).0.inet, i, times.inet[i])
    ensures d.FromInet? ==> forall i :: 0 <= i < n ==> Aged(ts.unix, React(ts, d, times).0.unix, i, times.unix[i])
    ensures d.FromUnix? ==> forall i :: 0 <= i < n ==> SameSlot(ts.unix, React(ts, d, times).0.unix, i)
    ensures forall to :: to in React(ts, d, times).1 ==> IsRecipient(ts, d, -1, times, to)
  {
    hide CopiesTo, Contains, IsRecipient, FindClient, FindFree, Sends, Expired;
    var (t, sender) := Admitted(ts, d, times.now);
    match d {
      case FromInet(a, _) => AdmitFacts(ts.inet, a, times.now);
      case FromUnix(p, _) => AdmitFacts(ts.unix, p, times.now);
    }
    assert t == ts && sender == -1;
    forall to | to in Sends(ts, d, sender, times, n)
      ensures IsRecipient(ts, d, sender, times, to)
    {
      OnlyRecipients(ts, d, sender, times, n, to);
    }
    forall i | 0 <= i < n && Live(ts.inet, i)
      ensures CopiesTo(Sends(ts, d, sender, times, n), ToInet(ts.inet.addrs[i]))
           == if Recent(ts.inet, i, times.inet[i]) then 1 else 0
    {
      CopiesToInet(ts, d, sender, times, n, n, i);
    }
    forall i | 0 <= i < n && Live(ts.unix, i)
      ensures CopiesTo(Sends(ts, d, sender, times, n), ToUnix(ts.unix.addrs[i]))
           == if d.FromInet? && Recent(ts.unix, i, times.unix[i]) then 1 else 0
    {
      CopiesToUnix(ts, d, sender, times, n, n, i);
    }
    forall i | 0 <= i < n
      ensures Aged(ts.inet, React(ts, d, times).0.inet, i, times.inet[i])
      ensures d.FromInet? ==> Aged(ts.unix, React(ts, d, times).0.unix, i, times.unix[i])
      ensures d.FromUnix? ==> SameSlot(ts.unix, React(ts, d, times).0.unix, i)
    {
      ExpiredSlot(ts.inet, n, -1, true, times.inet, i);
      ExpiredSlot(ts.unix, n, -1, d.FromInet?, times.unix, i);
    }
  }

  // ------------------------------------------------------- the server's arrays

  class Server {
    const inPingTime: array<int>
    const unPingTime: array<int>
    const inClients: array<InetAddr>
    const unClients: array<UnixPath>

    ghost predicate Valid()
      reads this
    {
      && inPingTime.Length == unPingTime.Length == inClients.Length == unClients.Length
      && inPingTime != unPingTime
      && (inPingTime as object) != inClients && (inPingTime as object) != unClients
      && (unPingTime as object) != inClients && (unPingTime as object) != unClients
      && (inClients as object) != unClients
    }

    ghost function View(): Tables
      reads this, inPingTime, unPingTime, inClients, unClients
    {
      Tables(Table(inPingTime[..], inClients[..]), Table(unPingTime[..], unClients[..]))
    }

    constructor (n: nat, inet: InetAddr)
      ensures Valid() && inPingTime.Length == n
      ensures fresh(inPingTime) && fresh(unPingTime) && fresh(inClients) && fresh(unClients)
      ensures View() == Empty(n, View().inet.addrs, View().unix.addrs)
    {
      inPingTime := new int[n](_ => FREE);
      unPingTime := new int[n](_ => FREE);
      inClients := new InetAddr[n](_ => inet);
      unClients := new UnixPath[n](_ => "");
    }

    // The lookup and admission loops of one branch (lines 110-138, 170-197).
    static method AdmitSender<A(==)>(ping: array<int>, clients: array<A>, from: A, now: int) returns (senderId: int)
      requires ping.Length == clients.Length && (ping as object) != clients
      modifies ping, clients
      ensures (Table(ping[..], clients[..]), senderId) == Admit(old(Table(ping[..], clients[..])), from, now)
    {
      ghost var t := Table(ping[..], clients[..]);
      senderId := -1;
      var i := 0;
      while i < ping.Length
        invariant 0 <= i <= ping.Length && senderId == -1
        invariant ping[..] == t.ping && clients[..] == t.addrs
        invariant FindClient(t, from, 0) == FindClient(t, from, i)
      {
        if ping[i] != FREE {
          if clients[i] == from {
            senderId := i;
            ping[senderId] := now;
            return;
          }
        }
        i := i + 1;
      }
      var emptySlot := -1;
      var j := 0;
      while j < ping.Length
        invariant 0 <= j <= ping.Length && emptySlot == -1
        invariant FindFree(t, 0) == FindFree(t, j)
      {
        if ping[j] == FREE {
          emptySlot := j;
          break;
        }
        j := j + 1;
      }
      if emptySlot != -1 {
        ping[emptySlot] := now;
        clients[emptySlot] := from;
        senderId := emptySlot;
      }
    }

    // One slot's check in the forwarding loop.
    static method CheckSlot<A>(ping: array<int>, clients: array<A>, i: nat, now: int) returns (send: bool)
      requires ping.Length == clients.Length && i < ping.Length && (ping as object) != clients
      modifies ping
      ensures send == Recent(old(Table(ping[..], clients[..])), i, now)
      ensures ping[..] == old(if Live(Table(ping[..], clients[..]), i) && !Recent(Table(ping[..], clients[..]), i, now)
                              then ping[..][i := FREE] else ping[..])
    {
      send := false;
      if ping[i] != FREE && now - ping[i] > MAX_AGE {
        ping[i] := FREE;
      } else if ping[i] != FREE {
        send := true;
      }
    }

    // One datagram: lines 101-160 for an Internet client, 161-220 for a local one.
    method Handle(d: Datagram, times: Times) returns (sends: seq<Dest>)
      requires Valid() && WellSized(View(), times, inPingTime.Length)
      modifies inPingTime, unPingTime, inClients, unClients
      ensures (View(), sends) == React(old(View()), d, times)
    {
      hide Contains, Admit, FindClient, FindFree, Expired, Sends;
      var senderId;
      match d {
        case FromInet(a, _) => senderId := AdmitSender(inPingTime, inClients, a, times.now);
        case FromUnix(p, _) => senderId := AdmitSender(unPingTime, unClients, p, times.now);
      }
      if Registers(d) {
        sends := [];
      } else {
        sends := Forward(d, senderId, times);
      }
    }

    // The forwarding loop (lines 140-159, 199-218).
    method Forward(d: Datagram, senderId: int, times: Times) returns (sends: seq<Dest>)
      requires Valid() && WellSized(View(), times, inPingTime.Length)
      modifies inPingTime, unPingTime
      ensures View() == old(Tables(
        Expired(View().inet, inPingTime.Length, InetSender(d, senderId), true, times.inet),
        Expired(View().unix, inPingTime.Length, UnixSender(d, senderId), d.FromInet?, times.unix)))
      ensures sends == old(Sends(View(), d, senderId, times, inPingTime.Length))
    {
      hide Contains, SendTo, Recent, Considered;
      ghost var t := View();
      sends := [];
      var i := 0;
      while i < inPingTime.Length
        invariant 0 <= i <= inPingTime.Length
        invariant Progress(t, d, senderId, times, i, sends)
      {
        var more := ForwardRound(d, senderId, times, i, t);
        sends := sends + more;
        i := i + 1;
      }
    }

    // Slots below i are done: what the tables hold and what has been sent.
    ghost predicate Progress(t: Tables, d: Datagram, sender: int, times: Times, i: nat, sends: seq<Dest>)
      reads this, inPingTime, unPingTime, inClients, unClients
    {
      && WellSized(t, times, inPingTime.Length) && i <= inPingTime.Length == unPingTime.Length
      && Halfway(t, d, sender, times, i)
      && sends == Sends(t, d, sender, times, i)
    }

    ghost predicate Halfway(t: Tables, d: Datagram, sender: int, times: Times, i: nat)
      requires WellSized(t, times, inPingTime.Length) && i <= inPingTime.Length
      reads this, inPingTime, unPingTime, inClients, unClients
    {
      && View().inet == Expired(t.inet, i, InetSender(d, sender), true, times.inet)
      && View().unix == Expired(t.unix, i, UnixSender(d, sender), d.FromInet?, times.unix)
    }

    method ForwardRound(d: Datagram, sender: int, times: Times, i: nat, ghost t: Tables) returns (more: seq<Dest>)
      requires Valid() && i < inPingTime.Length
      requires WellSized(t, times, inPingTime.Length) && Halfway(t, d, sender, times, i)
      modifies inPingTime, unPingTime
      ensures Halfway(t, d, sender, times, i + 1)
      ensures more == if d.FromInet?
        then InetSends(t, d, sender, times, i) + UnixSends(t, d, sender, times, i)
        else UnixSends(t, d, sender, times, i) + InetSends(t, d, sender, times, i)
    {
      ExpiredSlot(t.inet, i, InetSender(d, sender), true, times.inet, i);
      ExpiredSlot(t.unix, i, UnixSender(d, sender), d.FromInet?, times.unix, i);
      var inSend, unSend := [], [];
      if Considered(i, InetSender(d, sender), true) {
        var send := CheckSlot(inPingTime, inClients, i, times.inet[i]);
        inSend := if send then [ToInet(inClients[i])] else [];
      }
      if Considered(i, UnixSender(d, sender), d.FromInet?) {
        var send := CheckSlot(unPingTime, unClients, i, times.unix[i]);
        unSend := if send then [ToUnix(unClients[i])] else [];
      }
      more := if d.FromInet? then inSend + unSend else unSend + inSend;
    }
  }
}

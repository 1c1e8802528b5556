// Readers and writers over a shared library (lab9/zad2). A reader takes one
// token while it is inside; a writer takes the writer semaphore and then
// collects every token, one by one. Each access to the library array is a step
// of its own, and any thread may take the next step.
module ReadersWriters {
  import opened Sums

  datatype Reader =
    | Outside(num: int)
    | Inside(num: int, i: nat, found: nat)   // reader_read has looked at entries 0..i

  datatype Writer =
    | Idle
    | Collecting(tokens: nat)
    | Writing(left: nat)                      // writer_write still has `left` entries to modify
    | Returning(posted: nat)

  datatype State = State(
    library: seq<int>,
    empty: nat,       // sem_library_empty
    writer: nat,      // sem_writer
    readers: seq<Reader>,
    writers: seq<Writer>)

  // NUM_READERS is the number of tokens, MAX_NUM the largest library entry.
  datatype Config = Config(tokens: nat, maxNum: nat)

  predicate Sane(c: Config) {
    c.tokens >= 1
  }

  datatype Action =
    | Enter(r: nat)
    | Look(r: nat)
    | Leave(r: nat)
    | Begin(w: nat)
    | Collect(w: nat)
    | StartWriting(w: nat, amount: nat)
    | Write(w: nat, index: nat, value: nat)
    | Return(w: nat)
    | Release(w: nat)

  function Initial(size: nat, nums: seq<int>, writers: nat, c: Config): State {
    State(seq(size, _ => 0), c.tokens, 1,
          seq(|nums|, i requires 0 <= i < |nums| => Outside(nums[i])), seq(writers, _ => Idle))
  }

  predicate Can(s: State, a: Action, c: Config) {
    match a
    case Enter(r) => r < |s.readers| && s.readers[r].Outside? && s.empty > 0
    case Look(r) => r < |s.readers| && s.readers[r].Inside? && s.readers[r].i < |s.library|
    case Leave(r) => r < |s.readers| && s.readers[r].Inside? && s.readers[r].i >= |s.library|
    case Begin(w) => w < |s.writers| && s.writers[w].Idle? && s.writer > 0
    case Collect(w) => w < |s.writers| && s.writers[w].Collecting? && s.writers[w].tokens < c.tokens && s.empty > 0
    case StartWriting(w, amount) =>
      && w < |s.writers| && s.writers[w].Collecting? && s.writers[w].tokens >= c.tokens
      && 1 <= amount <= 100
    case Write(w, index, value) =>
      && w < |s.writers| && s.writers[w].Writing? && s.writers[w].left > 0
      && index < |s.library| && value <= c.maxNum
    case Return(w) =>
      && w < |s.writers|
      && (s.writers[w] == Writing(0) || (s.writers[w].Returning? && s.writers[w].posted < c.tokens))
    case Release(w) => w < |s.writers| && s.writers[w].Returning? && s.writers[w].posted >= c.tokens
  }

  function After(s: State, a: Action, c: Config): State
    requires Can(s, a, c)
  {
    match a
    case Enter(r) =>
      s.(empty := s.empty - 1, readers := s.readers[r := Inside(s.readers[r].num, 0, 0)])
    case Look(r) =>
      var me := s.readers[r];
      var hit := if s.library[me.i] == me.num then 1 else 0;
      s.(readers := s.readers[r := Inside(me.num, me.i + 1, me.found + hit)])
    case Leave(r) =>
      s.(empty := s.empty + 1, readers := s.readers[r := Outside(s.readers[r].num)])
    case Begin(w) =>
      s.(writer := s.writer - 1, writers := s.writers[w := Collecting(0)])
    case Collect(w) =>
      s.(empty := s.empty - 1, writers := s.writers[w := Collecting(s.writers[w].tokens + 1)])
    case StartWriting(w, amount) =>
      s.(writers := s.writers[w := Writing(amount)])
    case Write(w, index, value) =>
      s.(library := s.library[index := value], writers := s.writers[w := Writing(s.writers[w].left - 1)])
    case Return(w) =>
      s.(empty := s.empty + 1,
         writers := s.writers[w := Returning(if s.writers[w].Writing? then 1 else s.writers[w].posted + 1)])
    case Release(w) =>
      s.(writer := s.writer + 1, writers := s.writers[w := Idle])
  }

  // ------------------------------------------------------------- invariants

  ghost function TokenOfReader(): Reader -> int {
    (r: Reader) => if r.Inside? then 1 else 0
  }

  ghost function TokensOfWriter(c: Config): Writer -> int {
    (w: Writer) =>
      match w
      case Idle => 0
      case Collecting(k) => k
      case Writing(_) => c.tokens
      case Returning(k) => c.tokens - k
  }

  ghost function Busy(): Writer -> int {
    (w: Writer) => if w.Idle? then 0 else 1
  }

  ghost predicate Inv(s: State, c: Config) {
    // every token is in the semaphore, with a reader inside, or with a writer
    && s.empty + Sum(TokenOfReader(), s.readers) + Sum(TokensOfWriter(c), s.writers) == c.tokens
    && s.writer + Sum(Busy(), s.writers) == 1
    && (forall w :: 0 <= w < |s.writers| ==> 0 <= TokensOfWriter(c)(s.writers[w]) <= c.tokens)
    && (forall k :: 0 <= k < |s.library| ==> 0 <= s.library[k] <= c.maxNum)
    && (forall r :: 0 <= r < |s.readers| && s.readers[r].Inside? ==> s.readers[r].i <= |s.library|)
  }

  lemma InitialInv(size: nat, nums: seq<int>, writers: nat, c: Config)
    ensures Inv(Initial(size, nums, writers, c), c)
  {
    var s := Initial(size, nums, writers, c);
    SumZero(TokenOfReader(), s.readers);
    SumZero(TokensOfWriter(c), s.writers);
    SumZero(Busy(), s.writers);
  }

  // What one step moves between the semaphores and the thread that takes it.
  lemma WriterBalance(s: State, a: Action, c: Config)
    requires Sane(c) && Can(s, a, c) && !a.Enter? && !a.Look? && !a.Leave?
    requires 0 <= TokensOfWriter(c)(s.writers[a.w]) <= c.tokens
    ensures var s' := After(s, a, c);
      && s'.readers == s.readers
      && s'.writers == s.writers[a.w := s'.writers[a.w]]
      && s'.empty + TokensOfWriter(c)(s'.writers[a.w]) == s.empty + TokensOfWriter(c)(s.writers[a.w])
      && s'.writer + Busy()(s'.writers[a.w]) == s.writer + Busy()(s.writers[a.w])
      && 0 <= TokensOfWriter(c)(s'.writers[a.w]) <= c.tokens
  {
  }

  lemma ReaderBalance(s: State, a: Action, c: Config)
    requires Can(s, a, c) && (a.Enter? || a.Look? || a.Leave?)
    ensures var s' := After(s, a, c);
      && s'.writers == s.writers && s'.writer == s.writer && s'.library == s.library
      && s'.readers == s.readers[a.r := s'.readers[a.r]]
      && s'.empty + TokenOfReader()(s'.readers[a.r]) == s.empty + TokenOfReader()(s.readers[a.r])
  {
  }

  lemma StepInv(s: State, a: Action, c: Config)
    requires Sane(c) && Inv(s, c) && Can(s, a, c)
    ensures Inv(After(s, a, c), c)
  {
    var s' := After(s, a, c);
    StepKeepsEntries(s, a, c);
    hide After, TokensOfWriter, TokenOfReader, Busy;
    if a.Enter? || a.Look? || a.Leave? {
      ReaderBalance(s, a, c);
      SumUpdate(TokenOfReader(), s.readers, a.r, s'.readers[a.r]);
    } else {
      WriterBalance(s, a, c);
      SumUpdate(TokensOfWriter(c), s.writers, a.w, s'.writers[a.w]);
      SumUpdate(Busy(), s.writers, a.w, s'.writers[a.w]);
    }
  }

  lemma StepKeepsEntries(s: State, a: Action, c: Config)
    requires Inv(s, c) && Can(s, a, c)
    ensures |After(s, a, c).library| == |s.library| && |After(s, a, c).readers| == |s.readers|
    ensures forall k :: 0 <= k < |s.library| ==> 0 <= After(s, a, c).library[k] <= c.maxNum
    ensures forall r :: 0 <= r < |s.readers| && After(s, a, c).readers[r].Inside? ==>
      After(s, a, c).readers[r].i <= |s.library|
  {
  }

  // A writer that writes has the library to itself.
  lemma WriterExcludesEveryone(s: State, c: Config, w: nat)
    requires Sane(c) && Inv(s, c) && w < |s.writers| && s.writers[w].Writing?
    ensures s.empty == 0 && s.writer == 0
    ensures forall r :: 0 <= r < |s.readers| ==> s.readers[r].Outside?
    ensures forall v :: 0 <= v < |s.writers| && v != w ==> s.writers[v].Idle?
  {
    SumAtLeast(TokensOfWriter(c), s.writers, w);
    SumNonNegative(TokenOfReader(), s.readers);
    SumAtLeast(Busy(), s.writers, w);
    forall r | 0 <= r < |s.readers|
      ensures s.readers[r].Outside?
    {
      SumAtLeast(TokenOfReader(), s.readers, r);
    }
    forall v | 0 <= v < |s.writers| && v != w
      ensures s.writers[v].Idle?
    {
      SumAtLeastTwo(Busy(), s.writers, if v < w then v else w, if v < w then w else v);
    }
  }

  // Readers inside never exceed the tokens, and at most one writer is busy.
  lemma OneBusyWriter(s: State, c: Config, v: nat, w: nat)
    requires Inv(s, c) && v < w < |s.writers|
    ensures s.writers[v].Idle? || s.writers[w].Idle?
  {
    SumAtLeastTwo(Busy(), s.writers, v, w);
  }

  // ------------------------------------------------------- deadlock freedom

  // A busy writer can make its own next access; or else it lacks a token, none is
  // free, and a reader inside can make its next access.
  lemma HolderCanMove(s: State, c: Config, w: nat) returns (a: Action)
    requires Sane(c) && Inv(s, c) && w < |s.writers| && !s.writers[w].Idle? && |s.library| > 0
    ensures Can(s, a, c)
    ensures if a.Look? || a.Leave?
      then s.writers[w].Collecting? && s.empty == 0 && s.readers[a.r].Inside?
      else !a.Enter? && !a.Begin? && a.w == w && (a.StartWriting? ==> a.amount == 1)
  {
    match s.writers[w]
    case Writing(left) => a := if left == 0 then Return(w) else Write(w, 0, 0);
    case Returning(k) => a := if k < c.tokens then Return(w) else Release(w);
    case Collecting(k) =>
      if k >= c.tokens {
        a := StartWriting(w, 1);
      } else if s.empty > 0 {
        a := Collect(w);
      } else {
        // the missing tokens are with readers: nobody else is collecting
        forall v | 0 <= v < |s.writers| && v != w
          ensures TokensOfWriter(c)(s.writers[v]) == 0
        {
          OneBusyWriter(s, c, if v < w then v else w, if v < w then w else v);
        }
        SumSingle(TokensOfWriter(c), s.writers, w);
        var r := SumWitness(TokenOfReader(), s.readers);
        a := if s.readers[r].i < |s.library| then Look(r) else Leave(r);
      }
  }

  lemma {:induction false} SumSingle<T>(f: T -> int, s: seq<T>, i: nat)
    requires i < |s| && forall k :: 0 <= k < |s| && k != i ==> f(s[k]) == 0
    ensures Sum(f, s) == f(s[i])
  {
    var n := |s| - 1;
    if i == n {
      SumZero(f, s[..n]);
    } else {
      SumSingle(f, s[..n], i);
    }
  }

  // No reachable state is stuck, not even while a writer holds only some of
  // the tokens.
  lemma DeadlockFree(s: State, c: Config)
    requires Sane(c) && Inv(s, c) && |s.readers| + |s.writers| > 0 && |s.library| > 0
    ensures exists a :: Can(s, a, c)
  {
    if s.writer == 0 {
      var w := SumWitness(Busy(), s.writers);
      var a := HolderCanMove(s, c, w);
    } else if |s.writers| > 0 {
      if s.writers[0].Idle? {
        assert Can(s, Begin(0), c);
      } else {
        var a := HolderCanMove(s, c, 0);
      }
    } else {
      assert s.writers == [] && Sum(TokensOfWriter(c), s.writers) == 0;
      if s.readers[0].Outside? {
        if s.empty == 0 {
          var r := SumWitness(TokenOfReader(), s.readers);
          assert Can(s, if s.readers[r].i < |s.library| then Look(r) else Leave(r), c);
        } else {
          assert Can(s, Enter(0), c);
        }
      } else {
        assert Can(s, if s.readers[0].i < |s.library| then Look(0) else Leave(0), c);
      }
    }
  }

  // --------------------------------------------------------- snapshot reads

  ghost predicate IsRun(states: seq<State>, actions: seq<Action>, c: Config) {
    && |states| == |actions| + 1
    && Inv(states[0], c)
    && forall k :: 0 <= k < |actions| ==>
         Can(states[k], actions[k], c) && states[k + 1] == After(states[k], actions[k], c)
  }

  lemma {:induction false} RunInv(states: seq<State>, actions: seq<Action>, c: Config, k: nat)
    requires Sane(c) && IsRun(states, actions, c) && k < |states|
    ensures Inv(states[k], c)
    ensures |states[k].readers| == |states[0].readers| && |states[k].library| == |states[0].library|
  {
    if k > 0 {
      RunInv(states, actions, c, k - 1);
      StepInv(states[k - 1], actions[k - 1], c);
    }
  }

  // While a reader is inside, no step of any thread changes the library, and
  // only the reader itself changes what it has seen.
  lemma InsideIsQuiet(s: State, a: Action, c: Config, r: nat)
    requires Sane(c) && Inv(s, c) && Can(s, a, c) && r < |s.readers| && s.readers[r].Inside?
    ensures After(s, a, c).library == s.library
    ensures a != Look(r) && a != Leave(r) ==> After(s, a, c).readers[r] == s.readers[r]
  {
    if a.Write? {
      WriterExcludesEveryone(s, c, a.w);
    }
  }

  // Reader r came in at time j, has been inside ever since, and has counted
  // correctly in a library that has not changed.
  ghost predicate VisitSince(states: seq<State>, actions: seq<Action>, r: nat, j: nat, k: nat)
    requires |states| == |actions| + 1 && k < |states|
  {
    && j < k && actions[j] == Enter(r)
    && (forall m :: j < m <= k ==> r < |states[m].readers| && states[m].readers[r].Inside?)
    && (forall m :: j <= m <= k ==> states[m].library == states[j].library)
    && states[k].readers[r].i <= |states[j].library|
    && states[k].readers[r].found
       == multiset(states[j].library[..states[k].readers[r].i])[states[k].readers[r].num]
  }

  lemma LookCounts(s: State, c: Config, r: nat)
    requires Can(s, Look(r), c)
    requires s.readers[r].found == multiset(s.library[..s.readers[r].i])[s.readers[r].num]
    ensures var me := After(s, Look(r), c).readers[r];
            me.Inside? && me.num == s.readers[r].num && me.i == s.readers[r].i + 1
            && me.found == multiset(s.library[..me.i])[me.num]
  {
    var i := s.readers[r].i;
    assert s.library[..i + 1] == s.library[..i] + [s.library[i]];
  }

  lemma {:induction false} EntryTime(states: seq<State>, actions: seq<Action>, c: Config, r: nat, k: nat)
    returns (j: nat)
    requires Sane(c) && IsRun(states, actions, c) && k < |states|
    requires r < |states[0].readers| && states[0].readers[r].Outside?
    requires r < |states[k].readers| && states[k].readers[r].Inside?
    ensures VisitSince(states, actions, r, j, k)
    decreases k
  {
    hide Can, After, Inv, VisitSince;
    if k > 0 {
      RunInv(states, actions, c, k - 1);
      var s, a := states[k - 1], actions[k - 1];
      assert Can(s, a, c) && states[k] == After(s, a, c);
      if s.readers[r].Outside? {
        j := k - 1;
        VisitBegins(states, actions, c, r, j);
      } else {
        j := EntryTime(states, actions, c, r, k - 1);
        VisitGoesOn(states, actions, c, r, j, k - 1);
      }
    }
  }

  lemma VisitBegins(states: seq<State>, actions: seq<Action>, c: Config, r: nat, j: nat)
    requires |states| == |actions| + 1 && j < |actions|
    requires Can(states[j], actions[j], c) && states[j + 1] == After(states[j], actions[j], c)
    requires r < |states[j].readers| && states[j].readers[r].Outside?
    requires r < |states[j + 1].readers| && states[j + 1].readers[r].Inside?
    ensures VisitSince(states, actions, r, j, j + 1)
  {
    assert actions[j] == Enter(r);
    assert states[j + 1].readers[r] == Inside(states[j].readers[r].num, 0, 0);
    assert states[j].library[..0] == [];
  }

  lemma VisitGoesOn(states: seq<State>, actions: seq<Action>, c: Config, r: nat, j: nat, k: nat)
    requires Sane(c) && |states| == |actions| + 1 && k < |actions| && Inv(states[k], c)
    requires VisitSince(states, actions, r, j, k)
    requires Can(states[k], actions[k], c) && states[k + 1] == After(states[k], actions[k], c)
    requires r < |states[k + 1].readers| && states[k + 1].readers[r].Inside?
    ensures VisitSince(states, actions, r, j, k + 1)
  {
    hide Inv;
    var s, a, s' := states[k], actions[k], states[k + 1];
    InsideIsQuiet(s, a, c, r);
    if a == Look(r) {
      LookCounts(s, c, r);
    } else {
      StaysInside(s, a, c, r);
    }
  }

  lemma StaysInside(s: State, a: Action, c: Config, r: nat)
    requires Can(s, a, c) && r < |s.readers| && s.readers[r].Inside? && a != Look(r)
    requires r < |After(s, a, c).readers| && After(s, a, c).readers[r].Inside?
    ensures After(s, a, c).readers[r] == s.readers[r]
  {
  }

  // Every reader inside has counted correctly so far in the library as it is.
  ghost predicate Counted(s: State) {
    forall r :: 0 <= r < |s.readers| && s.readers[r].Inside? ==>
      && s.readers[r].i <= |s.library|
      && s.readers[r].found == multiset(s.library[..s.readers[r].i])[s.readers[r].num]
  }

  lemma StepCounts(s: State, a: Action, c: Config)
    requires Sane(c) && Inv(s, c) && Counted(s) && Can(s, a, c)
    ensures Counted(After(s, a, c))
  {
    var s' := After(s, a, c);
    forall r | 0 <= r < |s.readers| && s'.readers[r].Inside?
      ensures s'.readers[r].i <= |s'.library|
      ensures s'.readers[r].found == multiset(s'.library[..s'.readers[r].i])[s'.readers[r].num]
    {
      if s.readers[r].Inside? {
        InsideIsQuiet(s, a, c, r);
        if a == Look(r) {
          LookCounts(s, c, r);
        }
      }
    }
  }

  lemma LeaveReportsCount(s: State, r: nat, c: Config)
    requires Counted(s) && Can(s, Leave(r), c)
    ensures s.readers[r].found == multiset(s.library)[s.readers[r].num]
  {
    assert s.library[..s.readers[r].i] == s.library;
  }

  // What a reader reports when it leaves is the number of occurrences of its
  // number in the library as it stood when the reader came in, and the library
  // has not changed since.
  lemma ReportIsSnapshot(states: seq<State>, actions: seq<Action>, c: Config, r: nat, k: nat)
    requires Sane(c) && IsRun(states, actions, c) && k < |actions| && actions[k] == Leave(r)
    requires r < |states[0].readers| && states[0].readers[r].Outside?
    ensures r < |states[k].readers| && states[k].readers[r].Inside?
    ensures exists j: nat {:trigger VisitSince(states, actions, r, j, k)} ::
      && VisitSince(states, actions, r, j, k)
      && states[k].readers[r].found == multiset(states[j].library)[states[k].readers[r].num]
  {
    assert Can(states[k], actions[k], c);
    var j := EntryTime(states, actions, c, r, k);
    RunInv(states, actions, c, k);
    assert states[j].library[..states[k].readers[r].i] == states[j].library;
  }

  lemma {:induction false} NumsStay(states: seq<State>, actions: seq<Action>, c: Config, r: nat, k: nat)
    requires Sane(c) && IsRun(states, actions, c) && k < |states| && r < |states[0].readers|
    ensures r < |states[k].readers| && states[k].readers[r].num == states[0].readers[r].num
  {
    RunInv(states, actions, c, k);
    if k > 0 {
      hide Inv;
      NumsStay(states, actions, c, r, k - 1);
      assert Can(states[k - 1], actions[k - 1], c) && states[k] == After(states[k - 1], actions[k - 1], c);
    }
  }

  // ----------------------------------------------------- what the writers write

  predicate WritesTo(a: Action, k: nat) {
    a.Write? && a.index == k
  }

  // Action j is the last of these that writes entry k.
  ghost predicate LastWrite(actions: seq<Action>, j: nat, k: nat) {
    j < |actions| && WritesTo(actions[j], k) && forall l :: j < l < |actions| ==> !WritesTo(actions[l], k)
  }

  // Entry k holds what was last written to it, or what it held before.
  ghost predicate EntryExplained(before: seq<int>, actions: seq<Action>, now: seq<int>, k: nat)
    requires k < |before| && k < |now|
  {
    || (now[k] == before[k] && forall j :: 0 <= j < |actions| ==> !WritesTo(actions[j], k))
    || exists j: nat :: LastWrite(actions, j, k) && now[k] == actions[j].value
  }

  lemma ExplainedLater(before: seq<int>, front: seq<Action>, a: Action, t: seq<int>, now: seq<int>, k: nat)
    requires k < |before| && k < |t| && k < |now| && EntryExplained(before, front, t, k)
    requires if WritesTo(a, k) then now[k] == a.value else now[k] == t[k]
    ensures EntryExplained(before, front + [a], now, k)
  {
    var actions := front + [a];
    if WritesTo(a, k) {
      assert LastWrite(actions, |front|, k);
    } else if j: nat :| LastWrite(front, j, k) && t[k] == front[j].value {
      assert LastWrite(actions, j, k) && now[k] == actions[j].value;
    } else {
      assert forall j :: 0 <= j < |actions| ==> !WritesTo(actions[j], k);
    }
  }

  lemma WhatIsStored(s: State, a: Action, c: Config, k: nat)
    requires Can(s, a, c) && k < |s.library|
    ensures |After(s, a, c).library| == |s.library|
    ensures After(s, a, c).library[k] == if WritesTo(a, k) then a.value else s.library[k]
  {
  }

  // In every run, every entry holds the value of the last write to it.
  lemma {:induction false} EntryIsLastWrite(states: seq<State>, actions: seq<Action>, c: Config, k: nat, m: nat)
    requires IsRun(states, actions, c) && m < |states| && k < |states[0].library|
    ensures |states[m].library| == |states[0].library|
    ensures EntryExplained(states[0].library, actions[..m], states[m].library, k)
  {
    hide Inv, Can, After, EntryExplained;
    if m == 0 {
      Unwritten(states[0].library, k);
      assert actions[..0] == [];
    } else {
      EntryIsLastWrite(states, actions, c, k, m - 1);
      var s, a := states[m - 1], actions[m - 1];
      assert Can(s, a, c) && states[m] == After(s, a, c);
      WhatIsStored(s, a, c, k);
      ExplainedLater(states[0].library, actions[..m - 1], a, s.library, states[m].library, k);
      assert actions[..m] == actions[..m - 1] + [a];
    }
  }

  lemma Unwritten(library: seq<int>, k: nat)
    requires k < |library|
    ensures EntryExplained(library, [], library, k)
  {
  }

  // The writes of writer w among the actions from `from` to just before `to`.
  function WritesBy(actions: seq<Action>, w: nat, from: nat, to: nat): nat
    requires from <= to <= |actions|
  {
    if from == to then 0
    else WritesBy(actions, w, from, to - 1) + if actions[to - 1].Write? && actions[to - 1].w == w then 1 else 0
  }

  // Writer w started to write at time j and has been at it since.
  ghost predicate WritingSince(states: seq<State>, actions: seq<Action>, w: nat, j: nat, k: nat)
    requires |states| == |actions| + 1 && k < |states|
  {
    && j < k && actions[j].StartWriting? && actions[j].w == w
    && w < |states[k].writers| && states[k].writers[w].Writing?
    && WritesBy(actions, w, j + 1, k) + states[k].writers[w].left == actions[j].amount
  }

  lemma {:induction false} WritingTime(states: seq<State>, actions: seq<Action>, c: Config, w: nat, k: nat)
    returns (j: nat)
    requires IsRun(states, actions, c) && k < |states|
    requires w < |states[0].writers| && states[0].writers[w].Idle?
    requires w < |states[k].writers| && states[k].writers[w].Writing?
    ensures WritingSince(states, actions, w, j, k)
    decreases k
  {
    hide Inv;
    if k > 0 {
      var s, a := states[k - 1], actions[k - 1];
      assert Can(s, a, c) && states[k] == After(s, a, c);
      assert |s.writers| == |states[k].writers|;
      if s.writers[w].Writing? {
        j := WritingTime(states, actions, c, w, k - 1);
      } else {
        j := k - 1;
      }
    }
  }

  // Any number from one to a hundred can be drawn, and any entry and value.
  lemma EveryDrawIsPossible(s: State, c: Config, w: nat, amount: nat, index: nat, value: nat)
    requires w < |s.writers|
    ensures s.writers[w] == Collecting(c.tokens) && 1 <= amount <= 100 ==> Can(s, StartWriting(w, amount), c)
    ensures s.writers[w].Writing? && s.writers[w].left > 0 && index < |s.library| && value <= c.maxNum ==>
      Can(s, Write(w, index, value), c)
  {
  }

  // When a writer begins to give its tokens back it has modified as many entries
  // as it drew at the start, between one and a hundred.
  lemma ModifiesAsDrawn(states: seq<State>, actions: seq<Action>, c: Config, w: nat, k: nat) returns (j: nat)
    requires IsRun(states, actions, c) && k < |actions| && actions[k] == Return(w)
    requires w < |states[0].writers| && states[0].writers[w].Idle?
    requires w < |states[k].writers| && states[k].writers[w].Writing?
    ensures j < k && actions[j].StartWriting? && actions[j].w == w
    ensures 1 <= WritesBy(actions, w, j + 1, k) == actions[j].amount <= 100
  {
    assert Can(states[k], actions[k], c);
    j := WritingTime(states, actions, c, w, k);
    assert Can(states[j], actions[j], c);
  }

  // ----------------------------------------------------------- writers get done

  // What is left to do for a writer that modifies one entry, and for the readers
  // inside.
  function WriterWork(w: Writer, c: Config): int {
    match w
    case Idle => 0
    case Collecting(k) => 2 * c.tokens - k + 4
    case Writing(left) => left + c.tokens + 2
    case Returning(k) => c.tokens - k + 1
  }

  ghost function ReaderWork(size: nat): Reader -> int {
    (r: Reader) => if r.Inside? then size - r.i + 1 else 0
  }

  ghost function Remaining(s: State, c: Config, w: nat): int
    requires w < |s.writers|
  {
    WriterWork(s.writers[w], c) + Sum(ReaderWork(|s.library|), s.readers)
  }

  lemma RemainingNonNegative(s: State, c: Config, w: nat)
    requires Inv(s, c) && w < |s.writers|
    ensures Remaining(s, c, w) >= 0
  {
    SumNonNegative(ReaderWork(|s.library|), s.readers);
    assert 0 <= TokensOfWriter(c)(s.writers[w]) <= c.tokens;
  }

  predicate ToWrite(w: Writer) {
    w.Collecting? || (w.Writing? && w.left > 0)
  }

  lemma HolderMoveCounts(s: State, c: Config, w: nat, a: Action)
    requires Sane(c) && Inv(s, c) && w < |s.writers| && !s.writers[w].Idle? && Can(s, a, c)
    requires if a.Look? || a.Leave? then true
      else !a.Enter? && !a.Begin? && a.w == w && (a.StartWriting? ==> a.amount == 1)
    ensures w < |After(s, a, c).writers| && Remaining(After(s, a, c), c, w) < Remaining(s, c, w)
    ensures ToWrite(s.writers[w]) ==> (a.Write? && a.w == w) || ToWrite(After(s, a, c).writers[w])
  {
    if a.Look? || a.Leave? {
      SumUpdate(ReaderWork(|s.library|), s.readers, a.r, After(s, a, c).readers[a.r]);
    }
  }

  ghost predicate Writes(actions: seq<Action>, w: nat) {
    exists k :: 0 <= k < |actions| && actions[k].Write? && actions[k].w == w
  }

  // From every reachable state with a busy writer some continuation lets it finish:
  // without another reader or writer coming in, it collects its tokens, writes if
  // it has not yet done so, and gives everything back.
  lemma {:induction false} WriterCanFinish(s: State, c: Config, w: nat)
    returns (states: seq<State>, actions: seq<Action>)
    requires Sane(c) && Inv(s, c) && w < |s.writers| && |s.library| > 0
    ensures IsRun(states, actions, c) && states[0] == s
    ensures w < |states[|actions|].writers| && states[|actions|].writers[w].Idle?
    ensures ToWrite(s.writers[w]) ==> Writes(actions, w)
    ensures forall k :: 0 <= k < |actions| ==> !actions[k].Enter? && !actions[k].Begin?
    decreases if s.writers[w].Idle? then 0 else 1 + Natural(Remaining(s, c, w))
  {
    hide Can, After, Inv, Remaining;
    if s.writers[w].Idle? {
      states, actions := [s], [];
    } else {
      var a := HolderCanMove(s, c, w);
      HolderMoveCounts(s, c, w, a);
      var t := After(s, a, c);
      StepInv(s, a, c);
      StepKeepsEntries(s, a, c);
      RemainingNonNegative(s, c, w);
      RemainingNonNegative(t, c, w);
      states, actions := WriterCanFinish(t, c, w);
      if Writes(actions, w) {
        var k :| 0 <= k < |actions| && actions[k].Write? && actions[k].w == w;
        assert ([a] + actions)[k + 1].Write?;
      } else if ToWrite(s.writers[w]) {
        assert ([a] + actions)[0].Write?;
      }
      states, actions := [s] + states, [a] + actions;
    }
  }

  function Natural(x: int): nat {
    if x < 0 then 0 else x
  }

  // ------------------------------------------------ the library in shared memory

  // What a series of (index, value) draws leaves in the library.
  ghost function Overwritten(entries: seq<int>, draws: seq<(nat, nat)>): seq<int>
    requires forall d :: d in draws ==> d.0 < |entries|
    ensures |Overwritten(entries, draws)| == |entries|
  {
    if draws == [] then entries
    else
      var last := draws[|draws| - 1];
      Overwritten(entries, draws[..|draws| - 1])[last.0 := last.1]
  }

  // Draw i is the last one aimed at entry k.
  ghost predicate LastDraw(draws: seq<(nat, nat)>, i: nat, k: nat) {
    i < |draws| && draws[i].0 == k && forall j :: i < j < |draws| ==> draws[j].0 != k
  }

  // Each entry holds the last value drawn for it, or what it held before.
  lemma {:induction false} OverwrittenEntry(entries: seq<int>, draws: seq<(nat, nat)>, k: nat)
    requires k < |entries| && forall d :: d in draws ==> d.0 < |entries|
    ensures || (Overwritten(entries, draws)[k] == entries[k] && forall d :: d in draws ==> d.0 != k)
            || exists i: nat :: LastDraw(draws, i, k) && Overwritten(entries, draws)[k] == draws[i].1
  {
    if draws != [] {
      var front, last := draws[..|draws| - 1], draws[|draws| - 1];
      assert draws == front + [last];
      OverwrittenEntry(entries, front, k);
      if last.0 == k {
        assert LastDraw(draws, |front|, k);
      } else if i: nat :| LastDraw(front, i, k) && Overwritten(entries, front)[k] == front[i].1 {
        assert LastDraw(draws, i, k);
      }
    }
  }

  // The state after a series of accesses; those whose thread is not ready for them
  // do not happen.
  ghost function Served(s: State, actions: seq<Action>, c: Config): State {
    if actions == [] then s
    else
      var t, a := Served(s, actions[..|actions| - 1], c), actions[|actions| - 1];
      if Can(t, a, c) then After(t, a, c) else t
  }

  // Those of the accesses that do happen.
  ghost function Happened(s: State, actions: seq<Action>, c: Config): seq<Action> {
    if actions == [] then []
    else
      var front, a := actions[..|actions| - 1], actions[|actions| - 1];
      Happened(s, front, c) + if Can(Served(s, front, c), a, c) then [a] else []
  }

  lemma {:induction false} ServedEntry(s: State, actions: seq<Action>, c: Config, k: nat)
    requires k < |s.library|
    ensures |Served(s, actions, c).library| == |s.library|
    ensures EntryExplained(s.library, Happened(s, actions, c), Served(s, actions, c).library, k)
  {
    hide Can, After, EntryExplained;
    if actions == [] {
      Unwritten(s.library, k);
    } else {
      var front, a := actions[..|actions| - 1], actions[|actions| - 1];
      var t := Served(s, front, c);
      ServedEntry(s, front, c, k);
      if Can(t, a, c) {
        WhatIsStored(t, a, c, k);
        ExplainedLater(s.library, Happened(s, front, c), a, t.library, After(t, a, c).library, k);
      } else {
        assert Happened(s, actions, c) == Happened(s, front, c);
      }
    }
  }

  // What the readers should report meanwhile: the number looked for, and how often
  // it occurs in the library as it is when the reader leaves.
  ghost function Answers(s: State, actions: seq<Action>, c: Config): seq<(int, nat)> {
    if actions == [] then []
    else
      var front, a := actions[..|actions| - 1], actions[|actions| - 1];
      var t := Served(s, front, c);
      Answers(s, front, c) +
      if a.Leave? && Can(t, a, c) then [(t.readers[a.r].num, multiset(t.library)[t.readers[a.r].num])] else []
  }

  class ReadingRoom {
    const library: array<int>
    const readers: array<Reader>
    const writers: array<Writer>
    var empty: nat
    var writer: nat

    function View(): State
      reads this, library, readers, writers
    {
      State(library[..], empty, writer, readers[..], writers[..])
    }

    constructor (size: nat, nums: seq<int>, numWriters: nat, c: Config)
      ensures fresh(library) && fresh(readers) && fresh(writers)
      ensures View() == Initial(size, nums, numWriters, c)
    {
      library := new int[size](_ => 0);
      readers := new Reader[|nums|](i requires 0 <= i < |nums| => Outside(nums[i]));
      writers := new Writer[numWriters](_ => Idle);
      empty := c.tokens;
      writer := 1;
    }

    // One access by one thread.
    method Step(a: Action, c: Config)
      requires Can(View(), a, c)
      modifies this, library, readers, writers
      ensures View() == After(old(View()), a, c)
    {
      match a
      case Enter(r) =>
        empty := empty - 1;
        readers[r] := Inside(readers[r].num, 0, 0);
      case Look(r) =>
        var me := readers[r];
        var found := me.found;
        if library[me.i] == me.num {
          found := found + 1;
        }
        readers[r] := Inside(me.num, me.i + 1, found);
      case Leave(r) =>
        empty := empty + 1;
        readers[r] := Outside(readers[r].num);
      case Begin(w) =>
        writer := writer - 1;
        writers[w] := Collecting(0);
      case Collect(w) =>
        empty := empty - 1;
        writers[w] := Collecting(writers[w].tokens + 1);
      case StartWriting(w, amount) =>
        writers[w] := Writing(amount);
      case Write(w, index, value) =>
        library[index] := value;
        writers[w] := Writing(writers[w].left - 1);
      case Return(w) =>
        empty := empty + 1;
        writers[w] := Returning(if writers[w].Writing? then 1 else writers[w].posted + 1);
      case Release(w) =>
        writer := writer + 1;
        writers[w] := Idle;
    }

    // All threads under any schedule.
    method Serve(actions: seq<Action>, c: Config) returns (answers: seq<(int, nat)>)
      requires Sane(c) && Inv(View(), c) && Counted(View())
      modifies this, library, readers, writers
      ensures View() == Served(old(View()), actions, c) && Inv(View(), c)
      ensures answers == Answers(old(View()), actions, c)
      ensures forall k :: 0 <= k < library.Length ==>
        EntryExplained(old(library[..]), Happened(old(View()), actions, c), library[..], k)
    {
      hide Inv, Counted, After, EntryExplained, Happened;
      answers := [];
      ghost var start := View();
      for k := 0 to |actions|
        invariant Inv(View(), c) && Counted(View())
        invariant View() == Served(start, actions[..k], c)
        invariant answers == Answers(start, actions[..k], c)
      {
        var a := actions[k];
        assert actions[..k + 1][..k] == actions[..k];
        if Can(View(), a, c) {
          StepInv(View(), a, c);
          StepCounts(View(), a, c);
          if a.Leave? {
            LeaveReportsCount(View(), a.r, c);
            answers := answers + [(readers[a.r].num, readers[a.r].found)];
          }
          Step(a, c);
        }
      }
      assert actions[..|actions|] == actions;
      forall k | 0 <= k < library.Length
        ensures EntryExplained(old(library[..]), Happened(old(View()), actions, c), library[..], k)
      {
        ServedEntry(start, actions, c, k);
      }
    }

    // reader_read, run without interruption.
    method ReaderRead(num: int) returns (numFound: nat)
      ensures numFound == multiset(library[..])[num]
    {
      numFound := 0;
      for i := 0 to library.Length
        invariant numFound == multiset(library[..i])[num]
      {
        assert library[..i + 1] == library[..i] + [library[i]];
        if library[i] == num {
          numFound := numFound + 1;
        }
      }
      assert library[..library.Length] == library[..];
    }

    // writer_write, run without interruption; the random draws are its input.
    method WriterWrite(draws: seq<(nat, nat)>) returns (modified: nat)
      requires forall d :: d in draws ==> d.0 < library.Length
      modifies library
      ensures library[..] == Overwritten(old(library[..]), draws)
      ensures modified == |draws|
    {
      ghost var before := library[..];
      for i := 0 to |draws|
        invariant library[..] == Overwritten(before, draws[..i])
      {
        assert draws[..i + 1][..i] == draws[..i];
        library[draws[i].0] := draws[i].1;
      }
      assert draws[..|draws|] == draws;
      modified := |draws|;
    }
  }
}

// The threaded record finder (lab8/zad1c): threads claim consecutive chunks of
// one shared file under a mutex and scan their private buffers. A short read
// leaves stale records in the buffer's tail, which are scanned again. Threads
// run with cancellation disabled, so a find stops only the thread that made it.
// Everything here holds whatever the freshly allocated buffers contain; which
// stale records can be reported is the subject of StaleRecords.
module RecordFinder {
  import opened Sums
  import opened Text

  // The bytes of one record: the id, then text up to a NUL or the record's end.
  type Record = seq<char>

  const ID_SIZE := 4

  // The whole records of the file and what is left behind the last of them,
  // num_records_to_read, and the word.
  datatype Config = Config(file: seq<Record>, tail: seq<char>, chunk: nat, word: string)

  // strstr on the text: the word, a C string, begins somewhere before the first NUL.
  predicate Matches(c: Config, r: Record) {
    exists i {:trigger r[i..]} ::
      ID_SIZE <= i <= |r| - |c.word| && r[i..][..|c.word|] == c.word && NUL !in r[ID_SIZE..i]
  }

  // In other words: behind the id come some characters other than NUL, then the word.
  lemma MatchesIff(c: Config, r: Record)
    ensures Matches(c, r) <==>
      exists id, before, after :: |id| == 4 && NUL !in before && r == id + before + c.word + after
  {
    if Matches(c, r) {
      var i :| ID_SIZE <= i <= |r| - |c.word| && r[i..][..|c.word|] == c.word && NUL !in r[ID_SIZE..i];
      Parts(r, i, |c.word|);
    }
    forall id, before, after | |id| == 4 && NUL !in before && r == id + before + c.word + after
      ensures Matches(c, r)
    {
      PartsFound(c, id, before, after);
    }
  }

  lemma Parts(r: Record, i: nat, n: nat)
    requires 4 <= i && i + n <= |r|
    ensures r == r[..4] + r[4..i] + r[i..][..n] + r[i..][n..]
  {
    assert r[i..] == r[i..][..n] + r[i..][n..];
  }

  lemma PartsFound(c: Config, id: seq<char>, before: seq<char>, after: seq<char>)
    requires |id| == 4 && NUL !in before
    ensures Matches(c, id + before + c.word + after)
  {
    var r, i := id + before + c.word + after, 4 + |before|;
    assert r[i..] == c.word + after && r[4..i] == before;
  }

  datatype Pc = Claiming | Scanning(i: nat) | Stopped

  // The latest read put file[base..base + got] at the front of the buffer; what
  // is behind it is stale.
  datatype Thread = Thread(pc: Pc, buf: seq<Record>, base: nat, got: nat, loop: bool)

  datatype Report = Report(thread: nat, slot: nat, record: Record)

  // A read that has happened: who, from which record on, how many records.
  datatype Read = Read(thread: nat, base: nat, got: nat)

  // `rest` is the part of the tail not read yet: all of it or nothing. `scanned`
  // and `claims` only record what happened: the file positions that were
  // examined, and the reads.
  datatype State = State(
    offset: nat,
    rest: seq<char>,
    threads: seq<Thread>,
    reports: seq<Report>,
    scanned: set<nat>,
    claims: seq<Read>)

  predicate Enabled(s: State, t: nat) {
    t < |s.threads| && !s.threads[t].pc.Stopped?
  }

  function Min(a: nat, b: nat): nat {
    if a <= b then a else b
  }

  // What is in the buffer behind the whole records a read has delivered. A short
  // read goes on to deliver the rest of the file over part of a stale record.
  function Stale(buf: seq<Record>, got: nat, rest: seq<char>): seq<Record>
    requires got <= |buf|
  {
    if rest != [] && got < |buf| then [Overlay(buf[got], rest)] + buf[got + 1..] else buf[got..]
  }

  // The guarded read, and the short-read test after it.
  function Claim(c: Config, s: State, t: nat): State
    requires t < |s.threads| && s.offset <= |c.file| && |s.threads[t].buf| == c.chunk
  {
    var me := s.threads[t];
    var got := Min(c.chunk, |c.file| - s.offset);
    var buf := c.file[s.offset..s.offset + got] + Stale(me.buf, got, s.rest);
    var loop := if got < c.chunk then false else me.loop;
    s.(offset := s.offset + got,
       rest := if got < c.chunk then [] else s.rest,
       threads := s.threads[t := Thread(Scanning(0), buf, s.offset, got, loop)],
       claims := s.claims + [Read(t, s.offset, got)])
  }

  // One round of the scanning loop. Position base + i is where the record would
  // be in the file if it is not stale.
  function Scan(c: Config, s: State, t: nat): State
    requires t < |s.threads| && s.threads[t].pc.Scanning? && s.threads[t].pc.i < |s.threads[t].buf|
  {
    var me := s.threads[t];
    var i := me.pc.i;
    var hit := Matches(c, me.buf[i]);
    s.(threads := s.threads[t := me.(pc := Scanning(i + 1), loop := me.loop && !hit)],
       reports := if hit then s.reports + [Report(t, me.base + i, me.buf[i])] else s.reports,
       scanned := if i < me.got then s.scanned + {me.base + i} else s.scanned)
  }

  function Turn(s: State, t: nat): State
    requires t < |s.threads|
  {
    s.(threads := s.threads[t := s.threads[t].(pc := if s.threads[t].loop then Claiming else Stopped)])
  }

  predicate Shape(c: Config, s: State) {
    && s.offset <= |c.file|
    && forall t :: 0 <= t < |s.threads| ==>
         |s.threads[t].buf| == c.chunk && (s.threads[t].pc.Scanning? ==> s.threads[t].pc.i <= c.chunk)
  }

  function After(c: Config, s: State, t: nat): State
    requires Shape(c, s) && Enabled(s, t)
  {
    match s.threads[t].pc
    case Claiming => Claim(c, s, t)
    case Scanning(i) => if i < c.chunk then Scan(c, s, t) else Turn(s, t)
  }

  // Every thread starts with a buffer of its own, holding whatever it holds.
  ghost predicate IsStart(c: Config, s: State) {
    && s.offset == 0 && s.rest == c.tail && s.reports == [] && s.scanned == {} && s.claims == []
    && forall t :: 0 <= t < |s.threads| ==>
         s.threads[t].pc == Claiming && s.threads[t].loop && |s.threads[t].buf| == c.chunk
  }

  // ------------------------------------------------------------- invariants

  // Claimed by t, not yet looked at.
  ghost predicate Pending(s: State, t: nat, p: nat)
    requires t < |s.threads|
  {
    var me := s.threads[t];
    me.pc.Scanning? && me.base + me.pc.i <= p < me.base + me.got
  }

  ghost predicate Reported(s: State, p: nat) {
    exists k :: 0 <= k < |s.reports| && s.reports[k].slot == p
  }

  ghost predicate ReportedBy(s: State, t: nat) {
    exists k :: 0 <= k < |s.reports| && s.reports[k].thread == t
  }

  // Nothing is left to be read.
  predicate AtEnd(c: Config, s: State) {
    s.offset == |c.file| && s.rest == []
  }

  ghost predicate ThreadInv(c: Config, s: State, t: nat)
    requires t < |s.threads|
  {
    var me := s.threads[t];
    && |me.buf| == c.chunk
    && (me.loop || AtEnd(c, s) || ReportedBy(s, t))
    && match me.pc
       case Claiming => me.loop
       case Stopped => !me.loop
       case Scanning(i) =>
         && i <= c.chunk && me.got <= c.chunk && me.base + me.got <= s.offset <= |c.file|
         && (me.got < c.chunk ==> me.base + me.got == |c.file|)
         && me.buf[..me.got] == c.file[me.base..me.base + me.got]
         && (me.loop ==> me.got == c.chunk)
  }

  ghost predicate ThreadsInv(c: Config, s: State) {
    && s.offset <= |c.file|
    && forall t :: 0 <= t < |s.threads| ==> ThreadInv(c, s, t)
  }

  // Every claimed position is either scanned or pending with one thread.
  ghost predicate CoverInv(s: State) {
    && (forall p :: p in s.scanned ==> p < s.offset)
    && (forall t, p :: 0 <= t < |s.threads| && 0 <= p && Pending(s, t, p) ==> p < s.offset && p !in s.scanned)
    && (forall t, u, p :: (0 <= t < |s.threads| && 0 <= u < |s.threads| && 0 <= p
          && Pending(s, t, p) && Pending(s, u, p)) ==> t == u)
    && (forall p :: 0 <= p < s.offset && p !in s.scanned ==> exists t :: 0 <= t < |s.threads| && Pending(s, t, p))
  }

  // The reports that name a position of the file are the scanned matches, each
  // once. Other reports come from stale records.
  ghost predicate ReportsInv(c: Config, s: State) {
    && s.offset <= |c.file|
    && (forall p :: p in s.scanned ==> p < s.offset)
    && (forall k :: 0 <= k < |s.reports| && s.reports[k].slot < |c.file| ==>
          s.reports[k].slot in s.scanned && s.reports[k].record == c.file[s.reports[k].slot]
          && Matches(c, s.reports[k].record))
    && (forall k, l :: 0 <= k < l < |s.reports| && s.reports[k].slot < |c.file| ==>
          s.reports[k].slot != s.reports[l].slot)
    && (forall p :: p in s.scanned && Matches(c, c.file[p]) ==> Reported(s, p))
  }

  // The reads are consecutive slices of the file.
  ghost predicate Consecutive(claims: seq<Read>, offset: nat) {
    if claims == [] then offset == 0
    else
      var last := claims[|claims| - 1];
      last.base + last.got == offset && Consecutive(claims[..|claims| - 1], last.base)
  }

  // A read gets a whole chunk unless the file ends.
  ghost predicate ChunkOrRest(c: Config, claims: seq<Read>) {
    forall j :: 0 <= j < |claims| ==>
      claims[j].got == c.chunk || (claims[j].got < c.chunk && claims[j].base + claims[j].got == |c.file|)
  }

  ghost predicate Inv(c: Config, s: State) {
    && ThreadsInv(c, s) && CoverInv(s) && ReportsInv(c, s) && Consecutive(s.claims, s.offset)
    && ChunkOrRest(c, s.claims)
  }

  lemma InvShape(c: Config, s: State)
    requires Inv(c, s)
    ensures Shape(c, s)
  {
    forall t | 0 <= t < |s.threads|
      ensures |s.threads[t].buf| == c.chunk && (s.threads[t].pc.Scanning? ==> s.threads[t].pc.i <= c.chunk)
    {
      assert ThreadInv(c, s, t);
    }
  }

  lemma InitialInv(c: Config, s: State)
    requires IsStart(c, s)
    ensures Inv(c, s)
  {
  }

  // Threads that do not move: the file position only grows, reports only get more.
  lemma OthersKept(c: Config, s: State, s': State, t: nat)
    requires ThreadsInv(c, s) && t < |s.threads| == |s'.threads| && s.offset <= s'.offset <= |c.file|
    requires AtEnd(c, s) ==> AtEnd(c, s')
    requires s.reports <= s'.reports
    requires forall u :: 0 <= u < |s.threads| && u != t ==> s'.threads[u] == s.threads[u]
    requires ThreadInv(c, s', t)
    ensures ThreadsInv(c, s')
  {
    forall u | 0 <= u < |s.threads| && u != t
      ensures ThreadInv(c, s', u)
    {
      assert ThreadInv(c, s, u);
      if ReportedBy(s, u) {
        var k :| 0 <= k < |s.reports| && s.reports[k].thread == u;
        assert s'.reports[k].thread == u;
      }
    }
  }

  lemma CoverKept(s: State, s': State, t: nat, gone: set<nat>)
    requires CoverInv(s) && t < |s.threads| == |s'.threads| && s.offset <= s'.offset
    requires forall u :: 0 <= u < |s.threads| && u != t ==> s'.threads[u] == s.threads[u]
    requires forall p {:trigger Pending(s', t, p)} :: 0 <= p ==>
      (Pending(s', t, p) <==> (Pending(s, t, p) || s.offset <= p < s'.offset) && p !in gone)
    requires s'.scanned == s.scanned + gone
    requires forall p :: p in gone ==> Pending(s, t, p)
    ensures CoverInv(s')
  {
    assert forall p :: p in gone ==> p < s.offset;
    forall u, p | 0 <= u < |s.threads| && u != t && 0 <= p
      ensures Pending(s', u, p) == Pending(s, u, p)
    {
    }
    forall p | 0 <= p < s'.offset && p !in s'.scanned
      ensures exists u :: 0 <= u < |s'.threads| && Pending(s', u, p)
    {
      if s.offset <= p {
        assert Pending(s', t, p);
      } else {
        var u :| 0 <= u < |s.threads| && Pending(s, u, p);
        assert Pending(s', u, p);
      }
    }
  }

  lemma ClaimThread(c: Config, s: State, t: nat)
    requires Inv(c, s) && Shape(c, s) && t < |s.threads| && s.threads[t].pc.Claiming?
    ensures ThreadInv(c, Claim(c, s, t), t)
  {
    hide Matches, CoverInv, ReportsInv;
    assert ThreadInv(c, s, t);
    if ReportedBy(s, t) {
      assert ReportedBy(Claim(c, s, t), t);
    }
  }

  lemma ClaimReports(c: Config, s: State, t: nat)
    requires Inv(c, s) && Shape(c, s) && t < |s.threads|
    ensures ReportsInv(c, Claim(c, s, t))
  {
    hide Matches, Stale, CoverInv, ThreadInv;
    assert forall p :: Reported(s, p) ==> Reported(Claim(c, s, t), p);
  }

  lemma ClaimClaims(c: Config, s: State, t: nat)
    requires Inv(c, s) && Shape(c, s) && t < |s.threads|
    ensures var s' := Claim(c, s, t);
      Consecutive(s'.claims, s'.offset) && ChunkOrRest(c, s'.claims)
  {
    hide Matches, Stale, CoverInv, ThreadInv, ReportsInv;
    assert Claim(c, s, t).claims[..|s.claims|] == s.claims;
  }

  lemma ClaimInv(c: Config, s: State, t: nat)
    requires Inv(c, s) && Shape(c, s) && t < |s.threads| && s.threads[t].pc.Claiming?
    ensures Inv(c, Claim(c, s, t))
  {
    hide Matches, Stale, CoverInv, ReportsInv, ThreadInv, Consecutive, ChunkOrRest;
    ClaimThread(c, s, t);
    ClaimReports(c, s, t);
    ClaimClaims(c, s, t);
    OthersKept(c, s, Claim(c, s, t), t);
    ClaimCover(c, s, t);
  }

  lemma ClaimCover(c: Config, s: State, t: nat)
    requires Inv(c, s) && Shape(c, s) && t < |s.threads| && s.threads[t].pc.Claiming?
    ensures CoverInv(Claim(c, s, t))
  {
    hide Matches, Stale, ReportsInv;
    assert ThreadInv(c, s, t);
    CoverKept(s, Claim(c, s, t), t, {});
  }

  lemma ScanThread(c: Config, s: State, t: nat)
    requires Inv(c, s) && Shape(c, s) && t < |s.threads|
    requires s.threads[t].pc.Scanning? && s.threads[t].pc.i < c.chunk
    ensures ThreadInv(c, Scan(c, s, t), t)
  {
    var s', me := Scan(c, s, t), s.threads[t];
    assert ThreadInv(c, s, t);
    if Matches(c, me.buf[me.pc.i]) {
      assert s'.reports[|s.reports|].thread == t;
    } else if ReportedBy(s, t) {
      assert ReportedBy(s', t);
    }
  }

  // The record under the scan, when it is not stale, is the file's record at the
  // next pending position.
  lemma ScanFacts(c: Config, s: State, t: nat)
    requires Inv(c, s) && Shape(c, s) && t < |s.threads|
    requires s.threads[t].pc.Scanning? && s.threads[t].pc.i < c.chunk && s.threads[t].pc.i < s.threads[t].got
    ensures var p := s.threads[t].base + s.threads[t].pc.i;
            p < s.offset && p !in s.scanned && c.file[p] == s.threads[t].buf[s.threads[t].pc.i]
  {
    var me := s.threads[t];
    var p := me.base + me.pc.i;
    assert ThreadInv(c, s, t);
    assert Pending(s, t, p);
    assert c.file[p] == c.file[me.base..me.base + me.got][me.pc.i] == me.buf[..me.got][me.pc.i];
  }

  lemma ReportAdded(c: Config, s: State, s': State, r: Report)
    requires ReportsInv(c, s) && s'.offset == s.offset && s'.reports == s.reports + [r]
    requires if r.slot < |c.file|
      then r.slot < s.offset && r.slot !in s.scanned && r.record == c.file[r.slot] && Matches(c, r.record)
           && s'.scanned == s.scanned + {r.slot}
      else s'.scanned == s.scanned
    ensures ReportsInv(c, s')
  {
    hide Matches;
    forall q | q in s'.scanned && Matches(c, c.file[q])
      ensures Reported(s', q)
    {
      if q in s.scanned {
        var k :| 0 <= k < |s.reports| && s.reports[k].slot == q;
        assert s'.reports[k].slot == q;
      } else {
        assert s'.reports[|s.reports|].slot == q;
      }
    }
  }

  lemma NothingReported(c: Config, s: State, s': State, gone: set<nat>)
    requires ReportsInv(c, s) && s'.offset == s.offset && s'.reports == s.reports
    requires s'.scanned == s.scanned + gone && forall p :: p in gone ==> p < s.offset && !Matches(c, c.file[p])
    ensures ReportsInv(c, s')
  {
    hide Matches;
    assert forall q :: Reported(s, q) ==> Reported(s', q);
  }

  lemma ScanReports(c: Config, s: State, t: nat)
    requires Inv(c, s) && Shape(c, s) && t < |s.threads|
    requires s.threads[t].pc.Scanning? && s.threads[t].pc.i < c.chunk
    ensures ReportsInv(c, Scan(c, s, t))
  {
    hide Matches, ReportsInv, CoverInv;
    var s', me := Scan(c, s, t), s.threads[t];
    var i := me.pc.i;
    assert ThreadInv(c, s, t);
    if i < me.got {
      ScanFacts(c, s, t);
    }
    if Matches(c, me.buf[i]) {
      ReportAdded(c, s, s', Report(t, me.base + i, me.buf[i]));
    } else {
      NothingReported(c, s, s', if i < me.got then {me.base + i} else {});
    }
  }

  lemma ScanCover(c: Config, s: State, t: nat)
    requires Inv(c, s) && Shape(c, s) && t < |s.threads|
    requires s.threads[t].pc.Scanning? && s.threads[t].pc.i < c.chunk
    ensures CoverInv(Scan(c, s, t))
  {
    hide Matches, ReportsInv;
    var me := s.threads[t];
    assert ThreadInv(c, s, t);
    CoverKept(s, Scan(c, s, t), t, if me.pc.i < me.got then {me.base + me.pc.i} else {});
  }

  lemma ScanInv(c: Config, s: State, t: nat)
    requires Inv(c, s) && Shape(c, s) && t < |s.threads|
    requires s.threads[t].pc.Scanning? && s.threads[t].pc.i < c.chunk
    ensures Inv(c, Scan(c, s, t))
  {
    hide Matches, ReportsInv, CoverInv, ThreadInv;
    ScanThread(c, s, t);
    ScanReports(c, s, t);
    ScanCover(c, s, t);
    OthersKept(c, s, Scan(c, s, t), t);
  }

  lemma TurnInv(c: Config, s: State, t: nat)
    requires Inv(c, s) && t < |s.threads| && s.threads[t].pc.Scanning? && s.threads[t].pc.i >= c.chunk
    ensures Inv(c, Turn(s, t))
  {
    var s' := Turn(s, t);
    assert ThreadInv(c, s, t);
    if ReportedBy(s, t) {
      assert ReportedBy(s', t);
    }
    OthersKept(c, s, s', t);
    CoverKept(s, s', t, {});
    assert forall p :: Reported(s, p) ==> Reported(s', p);
  }

  lemma StepInv(c: Config, s: State, t: nat)
    requires Inv(c, s) && Shape(c, s) && Enabled(s, t)
    ensures Inv(c, After(c, s, t)) && Shape(c, After(c, s, t))
  {
    hide Inv, Shape, Claim, Scan, Turn;
    match s.threads[t].pc {
      case Claiming => ClaimInv(c, s, t);
      case Scanning(i) =>
        if i < c.chunk {
          ScanInv(c, s, t);
        } else {
          TurnInv(c, s, t);
        }
    }
    InvShape(c, After(c, s, t));
  }

  // ------------------------------------------------------------ termination

  ghost function ScanWork(c: Config): Thread -> int {
    (th: Thread) =>
      match th.pc
      case Stopped => 0
      case Claiming => c.chunk + 2
      case Scanning(i) => c.chunk - i + 1 + if th.loop then c.chunk + 2 else 0
  }

  ghost function Work(c: Config, s: State): int {
    (|c.file| - s.offset) * (c.chunk + 2) + Sum(ScanWork(c), s.threads)
  }

  lemma StepLocalWork(c: Config, s: State, t: nat)
    requires Shape(c, s) && Enabled(s, t)
    ensures var s' := After(c, s, t);
      var used := ScanWork(c)(s.threads[t]) - ScanWork(c)(s'.threads[t]);
      && s'.threads == s.threads[t := s'.threads[t]]
      && s.offset <= s'.offset <= s.offset + c.chunk
      && (used > 0 || (s'.offset == s.offset + c.chunk && used > -(c.chunk + 2)))
  {
  }

  lemma StepUsesWork(c: Config, s: State, t: nat)
    requires c.chunk >= 1 && Shape(c, s) && Enabled(s, t)
    ensures Work(c, After(c, s, t)) < Work(c, s)
  {
    hide After, ScanWork, Shape;
    StepLocalWork(c, s, t);
    var s' := After(c, s, t);
    SumUpdate(ScanWork(c), s.threads, t, s'.threads[t]);
    if s'.offset == s.offset + c.chunk {
      FullChunkPays(|c.file| - s.offset, c.chunk);
    } else {
      ProductMonotone(|c.file| - s'.offset, |c.file| - s.offset, c.chunk + 2);
    }
  }

  lemma FullChunkPays(left: int, chunk: nat)
    requires chunk >= 1
    ensures (left - chunk) * (chunk + 2) <= left * (chunk + 2) - (chunk + 2)
  {
    assert chunk * (chunk + 2) >= chunk + 2;
    assert (left - chunk) * (chunk + 2) == left * (chunk + 2) - chunk * (chunk + 2);
  }

  lemma ProductMonotone(a: int, b: int, k: nat)
    requires a <= b
    ensures a * k <= b * k
  {
  }

  lemma WorkNonNegative(c: Config, s: State)
    requires Shape(c, s)
    ensures Work(c, s) >= 0
  {
    SumNonNegative(ScanWork(c), s.threads);
    ProductMonotone(0, |c.file| - s.offset, c.chunk + 2);
  }

  // With an empty chunk no thread ever stops: a read of nothing is not short.
  ghost predicate Spinning(s: State) {
    forall t :: 0 <= t < |s.threads| ==> s.threads[t].loop && !s.threads[t].pc.Stopped?
  }

  lemma EmptyChunkSpins(c: Config, s: State, t: nat)
    requires c.chunk == 0 && Shape(c, s) && Enabled(s, t) && Spinning(s)
    ensures Spinning(After(c, s, t)) && Shape(c, After(c, s, t)) && Enabled(After(c, s, t), t)
  {
  }

  ghost predicate IsRun(c: Config, states: seq<State>, schedule: seq<nat>) {
    && |states| == |schedule| + 1
    && IsStart(c, states[0])
    && forall k :: 0 <= k < |schedule| ==>
         Shape(c, states[k]) && Enabled(states[k], schedule[k]) && states[k + 1] == After(c, states[k], schedule[k])
  }

  lemma {:induction false} RunKeepsInv(c: Config, states: seq<State>, schedule: seq<nat>, k: nat)
    requires IsRun(c, states, schedule) && k < |states|
    ensures Inv(c, states[k]) && Shape(c, states[k]) && |states[k].threads| == |states[0].threads|
  {
    if k == 0 {
      InitialInv(c, states[0]);
    } else {
      RunKeepsInv(c, states, schedule, k - 1);
      StepInv(c, states[k - 1], schedule[k - 1]);
    }
    InvShape(c, states[k]);
  }

  lemma {:induction false} RunBudget(c: Config, states: seq<State>, schedule: seq<nat>)
    requires c.chunk >= 1 && IsRun(c, states, schedule)
    ensures Work(c, states[|schedule|]) + |schedule| <= Work(c, states[0])
  {
    if schedule != [] {
      var m := |schedule| - 1;
      RunBudget(c, states[..m + 1], schedule[..m]);
      RunKeepsInv(c, states, schedule, m);
      StepUsesWork(c, states[m], schedule[m]);
    }
  }

  // Every run is finite, with a bound known at the start.
  lemma RunsAreBounded(c: Config, states: seq<State>, schedule: seq<nat>)
    requires c.chunk >= 1 && IsRun(c, states, schedule)
    ensures |schedule| <= (|c.file| + |states[0].threads|) * (c.chunk + 2)
  {
    RunBudget(c, states, schedule);
    RunKeepsInv(c, states, schedule, |schedule|);
    WorkNonNegative(c, states[|schedule|]);
    ClaimingWork(c, states[0].threads);
    assert (|c.file| + |states[0].threads|) * (c.chunk + 2)
        == |c.file| * (c.chunk + 2) + |states[0].threads| * (c.chunk + 2);
  }

  lemma {:induction false} ClaimingWork(c: Config, ths: seq<Thread>)
    requires forall t :: 0 <= t < |ths| ==> ths[t].pc.Claiming?
    ensures Sum(ScanWork(c), ths) == |ths| * (c.chunk + 2)
  {
    if ths != [] {
      ClaimingWork(c, ths[..|ths| - 1]);
      assert |ths| * (c.chunk + 2) == (|ths| - 1) * (c.chunk + 2) + (c.chunk + 2);
    }
  }

  ghost predicate AllRunsWithin(c: Config, start: State, bound: nat) {
    forall states, schedule :: IsRun(c, states, schedule) && states[0] == start ==> |schedule| <= bound
  }

  // The program terminates exactly when it reads at least one record at a time.
  lemma TerminatesIffChunkPositive(c: Config, start: State)
    requires IsStart(c, start) && |start.threads| > 0
    ensures (exists bound: nat :: AllRunsWithin(c, start, bound)) <==> c.chunk >= 1
  {
    if c.chunk >= 1 {
      forall states, schedule | IsRun(c, states, schedule) && states[0] == start
        ensures |schedule| <= (|c.file| + |start.threads|) * (c.chunk + 2)
      {
        RunsAreBounded(c, states, schedule);
      }
      assert AllRunsWithin(c, start, (|c.file| + |start.threads|) * (c.chunk + 2));
    } else {
      forall bound: nat
        ensures !AllRunsWithin(c, start, bound)
      {
        var states, schedule := SpinFor(c, start, bound + 1);
      }
    }
  }

  lemma {:induction false} SpinFor(c: Config, start: State, n: nat) returns (states: seq<State>, schedule: seq<nat>)
    requires c.chunk == 0 && IsStart(c, start) && |start.threads| > 0
    ensures IsRun(c, states, schedule) && states[0] == start && |schedule| == n
    ensures Spinning(states[n]) && Shape(c, states[n]) && |states[n].threads| > 0
  {
    hide After;
    if n == 0 {
      states, schedule := [start], [];
    } else {
      states, schedule := SpinFor(c, start, n - 1);
      var s := states[n - 1];
      EmptyChunkSpins(c, s, 0);
      states, schedule := states + [After(c, s, 0)], schedule + [0];
    }
  }

  // ---------------------------------------------------------------- outcomes

  ghost predicate AllStopped(s: State) {
    forall t :: 0 <= t < |s.threads| ==> s.threads[t].pc.Stopped?
  }

  // In every run, whatever was in the buffers: the reports that name a position
  // of the file name a match that is there, and none names a position twice.
  lemma ReportsOfTheFile(c: Config, states: seq<State>, schedule: seq<nat>, k: nat)
    requires IsRun(c, states, schedule) && k < |states|
    ensures forall i :: 0 <= i < |states[k].reports| && states[k].reports[i].slot < |c.file| ==>
      && states[k].reports[i].record == c.file[states[k].reports[i].slot]
      && Matches(c, states[k].reports[i].record)
      && forall j :: 0 <= j < i ==> states[k].reports[j].slot != states[k].reports[i].slot
  {
    RunKeepsInv(c, states, schedule, k);
  }

  // At the end of a run, when all threads have stopped, exactly the claimed part
  // of the file has been scanned and all its matches reported; and either the
  // whole file was claimed or every single thread has made a find.
  lemma StoppedMeansCovered(c: Config, states: seq<State>, schedule: seq<nat>)
    requires IsRun(c, states, schedule) && AllStopped(states[|schedule|])
    ensures var s := states[|schedule|];
      && (forall p: nat :: p in s.scanned <==> p < s.offset)
      && s.offset <= |c.file|
      && (forall p :: 0 <= p < s.offset ==> (Matches(c, c.file[p]) <==> Reported(s, p)))
      && (AtEnd(c, s) || forall t :: 0 <= t < |s.threads| ==> ReportedBy(s, t))
  {
    RunKeepsInv(c, states, schedule, |schedule|);
    StoppedFacts(c, states[|schedule|]);
  }

  lemma StoppedFacts(c: Config, s: State)
    requires Inv(c, s) && AllStopped(s)
    ensures forall p: nat :: p in s.scanned <==> p < s.offset
    ensures forall p :: 0 <= p < s.offset ==> (Matches(c, c.file[p]) <==> Reported(s, p))
    ensures AtEnd(c, s) || forall t :: 0 <= t < |s.threads| ==> ReportedBy(s, t)
  {
    forall p | 0 <= p < s.offset
      ensures p in s.scanned
    {
      assert forall t :: 0 <= t < |s.threads| ==> !Pending(s, t, p);
    }
    forall t | 0 <= t < |s.threads|
      ensures AtEnd(c, s) || ReportedBy(s, t)
    {
      assert ThreadInv(c, s, t);
    }
  }

  // If something matches, something is reported; and if nothing is reported, the
  // whole file was read and every record scanned.
  lemma FindsWhatIsThere(c: Config, states: seq<State>, schedule: seq<nat>)
    requires IsRun(c, states, schedule) && AllStopped(states[|schedule|]) && |states[0].threads| > 0
    ensures (exists p :: 0 <= p < |c.file| && Matches(c, c.file[p])) ==> states[|schedule|].reports != []
    ensures states[|schedule|].reports == [] ==>
      AtEnd(c, states[|schedule|]) && forall p: nat :: p in states[|schedule|].scanned <==> p < |c.file|
  {
    RunKeepsInv(c, states, schedule, |schedule|);
    StoppedFinds(c, states[|schedule|]);
  }

  lemma StoppedFinds(c: Config, s: State)
    requires Inv(c, s) && AllStopped(s) && |s.threads| > 0
    ensures (exists p :: 0 <= p < |c.file| && Matches(c, c.file[p])) ==> s.reports != []
    ensures s.reports == [] ==> AtEnd(c, s) && forall p: nat :: p in s.scanned <==> p < |c.file|
  {
    StoppedFacts(c, s);
    if s.reports == [] {
      assert !ReportedBy(s, 0);
      forall p | 0 <= p < |c.file|
        ensures !Matches(c, c.file[p])
      {
        assert !Reported(s, p);
      }
    }
  }

  // Read j of a run fetched position p.
  predicate Fetched(claims: seq<Read>, j: nat, p: nat)
    requires j < |claims|
  {
    claims[j].base <= p < claims[j].base + claims[j].got
  }

  // In every run the reads are consecutive: each claimed position was fetched by
  // exactly one of them, and nothing else was.
  lemma EachPositionReadOnce(c: Config, states: seq<State>, schedule: seq<nat>, k: nat, p: nat)
    requires IsRun(c, states, schedule) && k < |states|
    ensures p < states[k].offset <==> exists j :: 0 <= j < |states[k].claims| && Fetched(states[k].claims, j, p)
    ensures forall i, j :: 0 <= i < j < |states[k].claims| ==>
      !(Fetched(states[k].claims, i, p) && Fetched(states[k].claims, j, p))
    ensures ChunkOrRest(c, states[k].claims)
  {
    RunKeepsInv(c, states, schedule, k);
    ClaimsBelow(states[k].claims, states[k].offset);
    if p < states[k].offset {
      FetchedOnce(states[k].claims, states[k].offset, p);
    }
  }

  lemma {:induction false} FetchedOnce(claims: seq<Read>, offset: nat, p: nat)
    requires Consecutive(claims, offset) && p < offset
    ensures exists j :: 0 <= j < |claims| && Fetched(claims, j, p)
    ensures forall i, j :: 0 <= i < j < |claims| ==> !(Fetched(claims, i, p) && Fetched(claims, j, p))
  {
    var front, last := claims[..|claims| - 1], claims[|claims| - 1];
    ClaimsBelow(front, last.base);
    if p < last.base {
      FetchedOnce(front, last.base, p);
      var j :| 0 <= j < |front| && Fetched(front, j, p);
      assert Fetched(claims, j, p);
    } else {
      assert Fetched(claims, |front|, p);
    }
    forall i, j | 0 <= i < j < |claims|
      ensures !(Fetched(claims, i, p) && Fetched(claims, j, p))
    {
      assert claims[i] == front[i] && Fetched(claims, i, p) == Fetched(front, i, p);
      if j < |front| {
        assert claims[j] == front[j] && Fetched(claims, j, p) == Fetched(front, j, p);
      }
    }
  }

  lemma {:induction false} ClaimsBelow(claims: seq<Read>, offset: nat)
    requires Consecutive(claims, offset)
    ensures forall j :: 0 <= j < |claims| ==> claims[j].base + claims[j].got <= offset
  {
    if claims != [] {
      var front := claims[..|claims| - 1];
      ClaimsBelow(front, claims[|claims| - 1].base);
      forall j | 0 <= j < |claims|
        ensures claims[j].base + claims[j].got <= offset
      {
        if j < |front| { assert claims[j] == front[j]; }
      }
    }
  }

  // --------------------------------------------------------- the file as bytes

  ghost function Flat(rs: seq<Record>): seq<char> {
    if rs == [] then [] else Flat(rs[..|rs| - 1]) + rs[|rs| - 1]
  }

  ghost predicate Whole(rs: seq<Record>, size: nat) {
    forall k :: 0 <= k < |rs| ==> |rs[k]| == size
  }

  lemma {:induction false} FlatConcat(a: seq<Record>, b: seq<Record>)
    ensures Flat(a + b) == Flat(a) + Flat(b)
  {
    if b == [] {
      assert a + b == a;
    } else {
      FlatConcat(a, b[..|b| - 1]);
      assert (a + b)[..|a + b| - 1] == a + b[..|b| - 1];
    }
  }

  lemma {:induction false} FlatLength(a: seq<Record>, b: seq<Record>, size: nat)
    requires Whole(a, size) && Whole(b, size) && |a| == |b|
    ensures |Flat(a)| == |Flat(b)|
  {
    if a != [] {
      FlatLength(a[..|a| - 1], b[..|b| - 1], size);
    }
  }

  lemma FlatSplit(rs: seq<Record>, k: nat)
    requires k <= |rs|
    ensures Flat(rs) == Flat(rs[..k]) + Flat(rs[k..])
  {
    assert rs == rs[..k] + rs[k..];
    FlatConcat(rs[..k], rs[k..]);
  }

  lemma FlatFirst(rs: seq<Record>)
    requires rs != []
    ensures Flat(rs) == rs[0] + Flat(rs[1..])
  {
    FlatSplit(rs, 1);
    assert rs[..1] == [rs[0]] && [rs[0]][..0] == [];
    assert Flat([rs[0]]) == [] + rs[0];
  }

  // The bytes of the file that have not been read.
  ghost function Unread(c: Config, s: State): seq<char>
    requires s.offset <= |c.file|
  {
    Flat(c.file[s.offset..]) + s.rest
  }

  // What a short read leaves behind the whole records it delivers.
  lemma StaleBytes(buf: seq<Record>, got: nat, rest: seq<char>, size: nat)
    requires got < |buf| && Whole(buf, size) && |rest| < size
    ensures |rest| <= |Flat(buf[got..])|
    ensures Flat(Stale(buf, got, rest)) == rest + Flat(buf[got..])[|rest|..]
  {
    FlatFirst(buf[got..]);
    if rest != [] {
      var over := Overlay(buf[got], rest);
      FlatFirst([over] + buf[got + 1..]);
      assert ([over] + buf[got + 1..])[1..] == buf[got + 1..] == buf[got..][1..];
    }
  }

  lemma OverlayParts(a: seq<char>, b: seq<char>, behind: seq<char>, rest: seq<char>)
    requires |a| == |b| && |rest| <= |behind|
    ensures Overlay(b + behind, a + rest) == a + (rest + behind[|rest|..])
  {
    assert (b + behind)[|a| + |rest|..] == behind[|rest|..];
  }

  // A claim is read(2) on the bytes: as many as the buffer holds or the file has
  // left go to the front of the buffer, the position moves behind them, and the
  // read counts as short exactly if they were fewer than the buffer holds.
  ghost predicate ReadsBytes(c: Config, s: State, s': State, t: nat)
    requires s.offset <= |c.file| && t < |s.threads|
  {
    var buf, left := Flat(s.threads[t].buf), Unread(c, s);
    var count := if |left| <= |buf| then |left| else |buf|;
    && s'.offset <= |c.file| && t < |s'.threads|
    && Flat(s'.threads[t].buf) == Overlay(buf, left[..count])
    && (s'.threads[t].got < c.chunk <==> count < |buf|)
    && Unread(c, s') == left[count..]
  }

  lemma ClaimReadsBytes(c: Config, s: State, t: nat, size: nat)
    requires Shape(c, s) && t < |s.threads| && Whole(c.file, size) && Whole(s.threads[t].buf, size) && |s.rest| < size
    ensures ReadsBytes(c, s, Claim(c, s, t), t)
  {
    hide ReadsBytes, Overlay, Stale, Flat;
    if s.offset + c.chunk <= |c.file| {
      ChunkReadsBytes(c, s, t, size);
    } else {
      RestReadsBytes(c, s, t, size);
    }
  }

  lemma ChunkReadsBytes(c: Config, s: State, t: nat, size: nat)
    requires Shape(c, s) && t < |s.threads| && Whole(c.file, size) && Whole(s.threads[t].buf, size)
    requires s.offset + c.chunk <= |c.file|
    ensures ReadsBytes(c, s, Claim(c, s, t), t)
  {
    hide Flat;
    var me, o, s' := s.threads[t], s.offset, Claim(c, s, t);
    var ahead := c.file[o..o + c.chunk];
    FlatSplit(c.file[o..], c.chunk);
    assert c.file[o..][..c.chunk] == ahead && c.file[o..][c.chunk..] == c.file[o + c.chunk..];
    FlatLength(ahead, me.buf, size);
    assert s'.threads[t].buf == ahead;
    assert Unread(c, s) == Flat(ahead) + Unread(c, s');
    assert Overlay(Flat(me.buf), Flat(ahead)) == Flat(ahead);
  }

  lemma RestReadsBytes(c: Config, s: State, t: nat, size: nat)
    requires Shape(c, s) && t < |s.threads| && Whole(c.file, size) && Whole(s.threads[t].buf, size)
    requires |s.rest| < size && s.offset + c.chunk > |c.file|
    ensures ReadsBytes(c, s, Claim(c, s, t), t)
  {
    hide Overlay, Stale;
    var me, o, s' := s.threads[t], s.offset, Claim(c, s, t);
    var got := |c.file| - o;
    var ahead, behind := c.file[o..], me.buf[got..];
    assert c.file[o..o + got] == ahead;
    FlatSplit(me.buf, got);
    FlatLength(ahead, me.buf[..got], size);
    FlatConcat(ahead, Stale(me.buf, got, s.rest));
    StaleBytes(me.buf, got, s.rest, size);
    FlatFirst(behind);
    OverlayParts(Flat(ahead), Flat(me.buf[..got]), Flat(behind), s.rest);
    var left := Unread(c, s);
    assert left[..|left|] == left && left[|left|..] == [];
    assert c.file[s'.offset..] == [];
  }

  // -------------------------------------------------- the threads' shared state

  lemma RunLonger(c: Config, states: seq<State>, schedule: seq<nat>, t: nat)
    returns (states': seq<State>, schedule': seq<nat>)
    requires IsRun(c, states, schedule)
    requires Shape(c, states[|schedule|]) && Enabled(states[|schedule|], t)
    ensures IsRun(c, states', schedule') && states'[|schedule'|] == After(c, states[|schedule|], t)
  {
    hide After, IsStart;
    states', schedule' := states + [After(c, states[|schedule|], t)], schedule + [t];
  }

  class Search {
    const c: Config
    const threads: array<Thread>
    var offset: nat                  // the position of the shared descriptor, in records
    var rest: seq<char>              // what is left behind the last whole record
    var reports: seq<Report>         // the lines printed
    ghost var scanned: set<nat>
    ghost var claims: seq<Read>

    ghost function View(): State
      reads this, threads
    {
      State(offset, rest, threads[..], reports, scanned, claims)
    }

    // `buffers` is whatever the freshly allocated buffers contain.
    constructor (c: Config, buffers: seq<seq<Record>>)
      requires forall t :: 0 <= t < |buffers| ==> |buffers[t]| == c.chunk
      ensures this.c == c && threads.Length == |buffers| && fresh(threads) && IsStart(c, View())
    {
      this.c := c;
      threads := new Thread[|buffers|](t requires 0 <= t < |buffers| => Thread(Claiming, buffers[t], 0, 0, true));
      offset := 0;
      rest := c.tail;
      reports := [];
      scanned := {};
      claims := [];
    }

    // The next step of thread t: the guarded read, one record, or the loop test.
    method RunThread(t: nat)
      requires Shape(c, View()) && Enabled(View(), t)
      modifies this, threads
      ensures View() == After(c, old(View()), t)
    {
      hide Matches, Stale;
      var me := threads[t];
      if me.pc.Claiming? {
        var readRecords := Min(c.chunk, |c.file| - offset);
        var buf := c.file[offset..offset + readRecords] + Stale(me.buf, readRecords, rest);
        var loop := me.loop;
        if readRecords < c.chunk {
          rest := [];
          loop := false;
        }
        threads[t] := Thread(Scanning(0), buf, offset, readRecords, loop);
        claims := claims + [Read(t, offset, readRecords)];
        offset := offset + readRecords;
      } else if me.pc.i < c.chunk {
        var i := me.pc.i;
        var loop := me.loop;
        if Matches(c, me.buf[i]) {
          reports := reports + [Report(t, me.base + i, me.buf[i])];
          loop := false;
        }
        if i < me.got {
          scanned := scanned + {me.base + i};
        }
        threads[t] := me.(pc := Scanning(i + 1), loop := loop);
      } else {
        threads[t] := me.(pc := if me.loop then Claiming else Stopped);
      }
    }

    // The whole search under an arbitrary scheduler. What has happened, a run of
    // the machine, is returned.
    method Run() returns (ghost states: seq<State>, ghost schedule: seq<nat>)
      requires c.chunk >= 1 && threads.Length > 0 && IsStart(c, View())
      modifies this, threads
      ensures IsRun(c, states, schedule) && states[|schedule|] == View()
      ensures AllStopped(View())
      ensures (exists p :: 0 <= p < |c.file| && Matches(c, c.file[p])) ==> reports != []
      ensures reports == [] ==> AtEnd(c, View()) && forall p: nat :: p in scanned <==> p < |c.file|
    {
      InitialInv(c, View());
      InvShape(c, View());
      WorkNonNegative(c, View());
      states, schedule := [View()], [];
      while exists t :: 0 <= t < threads.Length && !threads[t].pc.Stopped?
        invariant Inv(c, View()) && Shape(c, View())
        invariant IsRun(c, states, schedule) && states[|schedule|] == View()
        invariant Work(c, View()) >= 0
        decreases Work(c, View())
      {
        var t :| 0 <= t < threads.Length && !threads[t].pc.Stopped?;
        StepInv(c, View(), t);
        StepUsesWork(c, View(), t);
        WorkNonNegative(c, After(c, View(), t));
        states, schedule := RunLonger(c, states, schedule, t);
        RunThread(t);
      }
      StoppedFinds(c, View());
    }
  }
}

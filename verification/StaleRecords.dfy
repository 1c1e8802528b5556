// Which stale records the record finder of lab8/zad1c can report. After a short
// read the whole buffer is scanned: behind the whole records that were read come
// the rest of the file laid over one stale record, then stale records. Whether a
// match among them is ever scanned depends on how many threads are left over by
// the chunks that hold a match, as each of those stops the thread that reads it.
module StaleRecords {
  import opened RecordFinder
  import opened Text

  ghost predicate NoMatch(c: Config, rs: seq<Record>) {
    forall k :: 0 <= k < |rs| ==> !Matches(c, rs[k])
  }

  // Reports of whole records of the file.
  ghost predicate GenuineReports(c: Config, reports: seq<Report>) {
    forall i :: 0 <= i < |reports| ==>
      && reports[i].slot < |c.file| && reports[i].record == c.file[reports[i].slot]
      && Matches(c, reports[i].record)
  }

  ghost predicate OnlyGenuineReports(c: Config, start: State) {
    forall s :: Reaches(c, start, s) ==> GenuineReports(c, s.reports)
  }

  // ------------------------------------------------------- the exact condition

  // Where reads of full chunks begin.
  predicate InStep(c: Config, b: nat) {
    c.chunk >= 1 && (b == 0 || (b >= c.chunk && InStep(c, b - c.chunk)))
  }

  predicate FullChunk(c: Config, b: nat) {
    InStep(c, b) && b + c.chunk <= |c.file|
  }

  // Where the full chunks end, and the slot of the buffer that the end of the file
  // is read into.
  function FullEnd(c: Config): (to: nat)
    requires c.chunk >= 1
    ensures to <= |c.file|
  {
    |c.file| - LastSlot(c)
  }

  function LastSlot(c: Config): (g: nat)
    requires c.chunk >= 1
    ensures g < c.chunk && g <= |c.file|
  {
    Remainder(|c.file|, c.chunk)
  }

  function Remainder(n: nat, k: nat): (r: nat)
    requires k >= 1
    ensures r < k && r <= n
  {
    if n < k then n else Remainder(n - k, k)
  }

  // How many of the full chunks before position x hold a match.
  ghost function HotUpTo(c: Config, x: nat): nat
    requires c.chunk >= 1 && x <= |c.file|
  {
    if x < c.chunk then 0
    else HotUpTo(c, x - c.chunk) + if NoMatch(c, c.file[x - c.chunk..x]) then 0 else 1
  }

  // No freshly allocated buffer happens to hold a match.
  ghost predicate CleanBuffers(c: Config, start: State) {
    forall t :: 0 <= t < |start.threads| ==> NoMatch(c, start.threads[t].buf)
  }

  // A thread other than the one in question can do the last full read.
  ghost predicate OtherReadsLast(c: Config, start: State)
    requires c.chunk >= 1
  {
    FullEnd(c) >= c.chunk && HotUpTo(c, FullEnd(c) - c.chunk) + 1 < |start.threads|
  }

  // A thread may read for the first time when the others have read everything.
  ghost predicate FreshAtEnd(c: Config, start: State)
    requires IsStart(c, start) && c.chunk >= 1
  {
    HotUpTo(c, FullEnd(c)) + 1 < |start.threads| ==> CleanBuffers(c, start)
  }

  // It may do the short read first thing.
  ghost predicate FreshShortRead(c: Config, start: State)
    requires IsStart(c, start) && c.chunk >= 1
  {
    FullEnd(c) < c.chunk || OtherReadsLast(c, start) ==>
      forall t :: 0 <= t < |start.threads| ==> NoMatch(c, Stale(start.threads[t].buf, LastSlot(c), c.tail))
  }

  // It may do the short read after the chunk at b, in which it found nothing.
  ghost predicate LaterShortRead(c: Config, start: State, b: nat)
    requires IsStart(c, start) && FullChunk(c, b)
  {
    && NoMatch(c, c.file[b..b + c.chunk])
    && (if b + c.chunk == FullEnd(c) then HotUpTo(c, FullEnd(c)) < |start.threads| else OtherReadsLast(c, start))
    ==> c.tail == [] || !Matches(c, Overlay(c.file[b + LastSlot(c)], c.tail))
  }

  // No match can be left behind what a read delivers.
  ghost predicate Harmless(c: Config, start: State)
    requires IsStart(c, start)
  {
    c.chunk >= 1 ==>
      && FreshAtEnd(c, start) && FreshShortRead(c, start)
      && forall b: nat :: FullChunk(c, b) ==> LaterShortRead(c, start, b)
  }

  // ---------------------------------------------------------------- positions

  lemma {:induction false} NextInStep(c: Config, a: nat, b: nat)
    requires InStep(c, a) && InStep(c, b) && a < b
    ensures a + c.chunk <= b && InStep(c, a + c.chunk)
  {
    if a > 0 {
      NextInStep(c, a - c.chunk, b - c.chunk);
    }
  }

  lemma FullEndInStep(c: Config)
    requires c.chunk >= 1
    ensures InStep(c, 0) && InStep(c, FullEnd(c))
  {
    WithoutRemainder(c, |c.file|);
  }

  lemma {:induction false} WithoutRemainder(c: Config, n: nat)
    requires c.chunk >= 1
    ensures InStep(c, n - Remainder(n, c.chunk))
  {
    if n >= c.chunk {
      WithoutRemainder(c, n - c.chunk);
    }
  }

  // The full chunks end where the last of them does; behind that a read is short.
  lemma ReadIsShort(c: Config, x: nat)
    requires InStep(c, x) && x <= |c.file|
    ensures x <= FullEnd(c)
    ensures x + c.chunk > |c.file| <==> x == FullEnd(c)
    ensures x + c.chunk <= |c.file| ==> x + c.chunk <= FullEnd(c) && InStep(c, x + c.chunk)
  {
    FullEndInStep(c);
    if FullEnd(c) < x {
      NextInStep(c, FullEnd(c), x);
    } else if x < FullEnd(c) {
      NextInStep(c, x, FullEnd(c));
    }
  }

  // ------------------------------------------------------- reachable states

  ghost predicate Reaches(c: Config, start: State, s: State) {
    exists states, schedule :: IsRun(c, states, schedule) && states[0] == start && states[|schedule|] == s
  }

  lemma ReachesStart(c: Config, start: State)
    requires IsStart(c, start)
    ensures Reaches(c, start, start)
  {
    var states, schedule: seq<nat> := [start], [];
    assert IsRun(c, states, schedule) && states[0] == start && states[|schedule|] == start;
  }

  lemma ReachesInv(c: Config, start: State, s: State)
    requires Reaches(c, start, s)
    ensures IsStart(c, start) && Inv(c, s) && Shape(c, s) && |s.threads| == |start.threads|
  {
    var states, schedule :| IsRun(c, states, schedule) && states[0] == start && states[|schedule|] == s;
    RunKeepsInv(c, states, schedule, |schedule|);
  }

  lemma Step(c: Config, start: State, s: State, t: nat) returns (s': State)
    requires Reaches(c, start, s) && Enabled(s, t)
    ensures Shape(c, s) && s' == After(c, s, t) && Reaches(c, start, s')
  {
    hide After, Inv, Enabled, IsStart, Shape;
    ReachesInv(c, start, s);
    s' := After(c, s, t);
    var states, schedule :| IsRun(c, states, schedule) && states[0] == start && states[|schedule|] == s;
    var states', schedule' := states + [s'], schedule + [t];
    assert IsRun(c, states', schedule') && states'[0] == start && states'[|schedule'|] == s';
  }

  // ---------------------------------------------- who has read what, in every run

  // A read after which its thread does not read again: a short one, or one of a
  // chunk with a match in it.
  ghost predicate Stops(c: Config, r: Read) {
    r.got < c.chunk || (r.base + r.got <= |c.file| && !NoMatch(c, c.file[r.base..r.base + r.got]))
  }

  ghost predicate AllFull(c: Config, claims: seq<Read>) {
    forall i :: 0 <= i < |claims| ==> claims[i].got == c.chunk
  }

  ghost predicate ClaimsInv(c: Config, s: State) {
    && (forall i :: 0 <= i < |s.claims| ==>
          s.claims[i].thread < |s.threads| && s.claims[i].got <= c.chunk
          && s.claims[i].base + s.claims[i].got <= s.offset
          && (s.claims[i].got < c.chunk ==> s.claims[i].base + s.claims[i].got == |c.file|))
    && (if AllFull(c, s.claims) then s.rest == c.tail else AtEnd(c, s))
    && (forall i, j :: 0 <= i < j < |s.claims| && s.claims[i].thread == s.claims[j].thread ==> !Stops(c, s.claims[i]))
  }

  // A thread about to read holds its fresh buffer, or the chunk it read last, in
  // which it found nothing.
  ghost predicate Origin(c: Config, start: State, s: State, t: nat)
    requires t < |s.threads| == |start.threads|
  {
    var me := s.threads[t];
    && (me.pc.Claiming? ==>
          && (forall i :: 0 <= i < |s.claims| && s.claims[i].thread == t ==> !Stops(c, s.claims[i]))
          && (|| (me.buf == start.threads[t].buf && forall i :: 0 <= i < |s.claims| ==> s.claims[i].thread != t)
              || (NoMatch(c, me.buf) && LastRead(c, s, t, me.base, me.buf))))
    && (me.pc.Scanning? && c.chunk >= 1 ==>
          && (forall i :: 0 <= i < |s.claims| && s.claims[i].thread == t && Stops(c, s.claims[i]) ==>
                s.claims[i].base == me.base && s.claims[i].got == me.got)
          && (me.loop ==>
                && me.pc.i <= |me.buf| && NoMatch(c, me.buf[..me.pc.i])
                && LastRead(c, s, t, me.base, me.buf)))
  }

  ghost predicate LastRead(c: Config, s: State, t: nat, b: nat, buf: seq<Record>) {
    && FullChunk(c, b) && buf == c.file[b..b + c.chunk]
    && forall i :: 0 <= i < |s.claims| && s.claims[i].thread == t ==> s.claims[i].base <= b
  }

  ghost predicate HistoryInv(c: Config, start: State, s: State) {
    && |s.threads| == |start.threads| && ClaimsInv(c, s)
    && forall t :: 0 <= t < |s.threads| ==> Origin(c, start, s, t)
  }

  lemma HistoryStart(c: Config, start: State)
    requires IsStart(c, start)
    ensures HistoryInv(c, start, start)
  {
  }

  lemma {:induction false} FullReadsInStep(c: Config, claims: seq<Read>, offset: nat)
    requires c.chunk >= 1 && Consecutive(claims, offset) && AllFull(c, claims)
    ensures InStep(c, offset)
  {
    if claims != [] {
      var front, last := claims[..|claims| - 1], claims[|claims| - 1];
      FullReadsInStep(c, front, last.base);
    }
  }

  // What one more read does to the reads that have happened.
  lemma ClaimsAfterRead(c: Config, s: State, s': State, r: Read)
    requires ClaimsInv(c, s) && s'.claims == s.claims + [r] && |s'.threads| == |s.threads|
    requires r.thread < |s.threads| && s.offset <= |c.file| && s'.offset == r.base + r.got && r.base == s.offset
    requires r.got == Min(c.chunk, |c.file| - s.offset)
    requires s'.rest == if r.got < c.chunk then [] else s.rest
    requires forall i :: 0 <= i < |s.claims| && s.claims[i].thread == r.thread ==> !Stops(c, s.claims[i])
    ensures ClaimsInv(c, s')
  {
    hide Stops;
    var n := |s.claims|;
    assert s'.claims[n] == r && forall i :: 0 <= i < n ==> s'.claims[i] == s.claims[i];
    assert AllFull(c, s'.claims) <==> AllFull(c, s.claims) && r.got == c.chunk;
  }

  lemma HistoryClaimClaims(c: Config, start: State, s: State, t: nat)
    requires Inv(c, s) && Shape(c, s) && HistoryInv(c, start, s) && t < |s.threads| && s.threads[t].pc.Claiming?
    ensures ClaimsInv(c, Claim(c, s, t))
  {
    hide Stops, Stale, ClaimsInv, Inv, LastRead;
    assert Origin(c, start, s, t);
    var s' := Claim(c, s, t);
    ClaimsAfterRead(c, s, s', s'.claims[|s.claims|]);
  }

  lemma ChunkClaimed(c: Config, s: State)
    requires c.chunk >= 1 && Inv(c, s) && ClaimsInv(c, s) && s.offset + c.chunk <= |c.file|
    ensures FullChunk(c, s.offset)
  {
    FullReadsInStep(c, s.claims, s.offset);
  }

  // Threads that do not move: only others have read meanwhile.
  lemma OriginKept(c: Config, start: State, s: State, s': State, u: nat, read: seq<Read>)
    requires u < |s.threads| == |start.threads| == |s'.threads| && Origin(c, start, s, u)
    requires s'.threads[u] == s.threads[u] && s'.claims == s.claims + read
    requires forall i :: 0 <= i < |read| ==> read[i].thread != u
    ensures Origin(c, start, s', u)
  {
    hide NoMatch, Stops, FullChunk;
    assert forall i :: 0 <= i < |s.claims| ==> s'.claims[i] == s.claims[i];
    assert forall i :: |s.claims| <= i < |s'.claims| ==> s'.claims[i] == read[i - |s.claims|];
  }

  lemma OriginOfReader(c: Config, start: State, s: State, t: nat)
    requires Inv(c, s) && Shape(c, s) && HistoryInv(c, start, s) && t < |s.threads| && s.threads[t].pc.Claiming?
    ensures Origin(c, start, Claim(c, s, t), t)
  {
    hide NoMatch, FullChunk;
    var s', n := Claim(c, s, t), |s.claims|;
    var me' := s'.threads[t];
    assert ThreadInv(c, s, t) && Origin(c, start, s, t);
    assert s'.claims[n] == Read(t, s.offset, me'.got);
    assert forall i :: 0 <= i < n ==> s'.claims[i] == s.claims[i];
    if c.chunk >= 1 && me'.loop {
      ChunkClaimed(c, s);
      assert me'.buf == c.file[me'.base..me'.base + c.chunk];
      assert NoMatch(c, me'.buf[..0]) by {
        NothingMatches(c);
      }
    }
  }

  lemma NothingMatches(c: Config)
    ensures NoMatch(c, [])
  {
  }

  lemma HistoryClaim(c: Config, start: State, s: State, t: nat)
    requires Inv(c, s) && Shape(c, s) && HistoryInv(c, start, s) && t < |s.threads| && s.threads[t].pc.Claiming?
    ensures HistoryInv(c, start, Claim(c, s, t))
  {
    hide Origin, ClaimsInv, Inv, Stale;
    var s' := Claim(c, s, t);
    HistoryClaimClaims(c, start, s, t);
    OriginOfReader(c, start, s, t);
    forall u | 0 <= u < |s.threads| && u != t
      ensures Origin(c, start, s', u)
    {
      OriginKept(c, start, s, s', u, [Read(t, s.offset, s'.threads[t].got)]);
    }
  }

  lemma HistoryScan(c: Config, start: State, s: State, t: nat)
    requires Inv(c, s) && Shape(c, s) && HistoryInv(c, start, s) && t < |s.threads|
    requires s.threads[t].pc.Scanning? && s.threads[t].pc.i < c.chunk
    ensures HistoryInv(c, start, Scan(c, s, t))
  {
    hide Matches, Stops, FullChunk;
    var s', me := Scan(c, s, t), s.threads[t];
    assert Origin(c, start, s, t);
    assert me.buf[..me.pc.i + 1] == me.buf[..me.pc.i] + [me.buf[me.pc.i]];
    assert Origin(c, start, s', t);
    forall u | 0 <= u < |s.threads| && u != t
      ensures Origin(c, start, s', u)
    {
      OriginKept(c, start, s, s', u, []);
    }
  }

  lemma ColdReadGoesOn(c: Config, start: State, s: State, t: nat)
    requires c.chunk >= 1 && t < |s.threads| == |start.threads| && Origin(c, start, s, t)
    requires s.threads[t].pc.Scanning? && s.threads[t].loop && s.threads[t].got == c.chunk
    requires NoMatch(c, s.threads[t].buf)
    ensures forall i :: 0 <= i < |s.claims| && s.claims[i].thread == t ==> !Stops(c, s.claims[i])
  {
    hide NoMatch, InStep;
  }

  lemma HistoryTurn(c: Config, start: State, s: State, t: nat)
    requires IsStart(c, start) && Inv(c, s) && Shape(c, s) && HistoryInv(c, start, s) && t < |s.threads|
    requires c.chunk >= 1 && s.threads[t].pc.Scanning? && s.threads[t].pc.i >= c.chunk
    ensures HistoryInv(c, start, Turn(s, t))
  {
    hide NoMatch, FullChunk, Stops;
    var s', me := Turn(s, t), s.threads[t];
    assert ThreadInv(c, s, t) && Origin(c, start, s, t);
    if me.loop {
      assert me.buf[..me.pc.i] == me.buf[..me.got] == me.buf;
      ColdReadGoesOn(c, start, s, t);
    }
    assert Origin(c, start, s', t);
    forall u | 0 <= u < |s.threads| && u != t
      ensures Origin(c, start, s', u)
    {
      OriginKept(c, start, s, s', u, []);
    }
  }

  lemma HistoryStep(c: Config, start: State, s: State, t: nat)
    requires c.chunk >= 1 && IsStart(c, start)
    requires Inv(c, s) && Shape(c, s) && HistoryInv(c, start, s) && Enabled(s, t)
    ensures HistoryInv(c, start, After(c, s, t))
  {
    hide Inv, HistoryInv, Shape;
    match s.threads[t].pc
    case Claiming => HistoryClaim(c, start, s, t);
    case Scanning(i) =>
      if i < c.chunk {
        HistoryScan(c, start, s, t);
      } else {
        HistoryTurn(c, start, s, t);
      }
  }

  // ------------------------------------------------------ threads left over

  ghost function StopThreads(c: Config, claims: seq<Read>): set<nat> {
    if claims == [] then {}
    else
      var last := claims[|claims| - 1];
      StopThreads(c, claims[..|claims| - 1]) + if Stops(c, last) then {last.thread} else {}
  }

  ghost predicate StopsLast(c: Config, claims: seq<Read>) {
    forall i, j :: 0 <= i < j < |claims| && claims[i].thread == claims[j].thread ==> !Stops(c, claims[i])
  }

  lemma {:induction false} StopThreadsAre(c: Config, claims: seq<Read>, t: nat)
    ensures t in StopThreads(c, claims) <==>
      exists i :: 0 <= i < |claims| && claims[i].thread == t && Stops(c, claims[i])
  {
    hide Stops;
    if claims != [] {
      var n := |claims| - 1;
      var front := claims[..n];
      StopThreadsAre(c, front, t);
      assert forall i :: 0 <= i < n ==> front[i] == claims[i];
    }
  }

  // As many threads have stopped as chunks with a match were read.
  lemma {:induction false} StopThreadsCount(c: Config, claims: seq<Read>, offset: nat)
    requires c.chunk >= 1 && Consecutive(claims, offset) && AllFull(c, claims) && offset <= |c.file|
    requires StopsLast(c, claims)
    ensures |StopThreads(c, claims)| == HotUpTo(c, offset)
  {
    hide NoMatch;
    if claims != [] {
      var n := |claims| - 1;
      var front, last := claims[..n], claims[n];
      StopThreadsCount(c, front, last.base);
      StopThreadsAre(c, front, last.thread);
      assert Stops(c, last) <==> !NoMatch(c, c.file[offset - c.chunk..offset]);
    }
  }

  lemma {:induction false} BoundedSet(ts: set<nat>, n: nat)
    requires forall t :: t in ts ==> t < n
    ensures |ts| <= n
  {
    if n > 0 {
      BoundedSet(ts - {n - 1}, n - 1);
    } else {
      assert ts == {};
    }
  }

  lemma {:induction false} ReadsBefore(claims: seq<Read>, offset: nat, j: nat)
    requires Consecutive(claims, offset) && j < |claims|
    ensures Consecutive(claims[..j], claims[j].base)
  {
    var n := |claims| - 1;
    if j < n {
      ReadsBefore(claims[..n], claims[n].base, j);
      assert claims[..n][..j] == claims[..j];
    }
  }

  lemma StoppedAndExcluded(c: Config, s: State, claims: seq<Read>, excluded: set<nat>)
    requires forall i :: 0 <= i < |claims| ==> claims[i].thread < |s.threads|
    requires forall u :: u in excluded ==> u < |s.threads| && u !in StopThreads(c, claims)
    ensures |StopThreads(c, claims)| + |excluded| <= |s.threads|
  {
    var stopped := StopThreads(c, claims);
    forall u | u in stopped
      ensures u < |s.threads|
    {
      StopThreadsAre(c, claims, u);
    }
    BoundedSet(stopped + excluded, |s.threads|);
    assert stopped !! excluded;
  }

  // The first j reads were full ones; neither the reader of read j nor thread t,
  // if it has not stopped, is among the threads they have stopped.
  lemma ThreadsLeft(c: Config, s: State, j: nat, t: nat)
    requires c.chunk >= 1 && Inv(c, s) && ClaimsInv(c, s) && t < |s.threads| && j <= |s.claims|
    requires AllFull(c, s.claims[..j])
    requires forall i :: 0 <= i < |s.claims| && s.claims[i].thread == t ==> !Stops(c, s.claims[i])
    ensures var base := if j < |s.claims| then s.claims[j].base else s.offset;
      && InStep(c, base) && base <= |c.file|
      && HotUpTo(c, base) + (if j < |s.claims| && s.claims[j].thread != t then 2 else 1) <= |s.threads|
  {
    hide Stops, NoMatch, InStep, StopThreads, HotUpTo, ThreadInv, CoverInv, ReportsInv;
    var early := s.claims[..j];
    if j < |s.claims| {
      ReadsBefore(s.claims, s.offset, j);
    } else {
      assert early == s.claims;
    }
    var base := if j < |s.claims| then s.claims[j].base else s.offset;
    assert forall i :: 0 <= i < j ==> early[i] == s.claims[i];
    FullReadsInStep(c, early, base);
    StopThreadsCount(c, early, base);
    StopThreadsAre(c, early, t);
    if j < |s.claims| && s.claims[j].thread != t {
      StopThreadsAre(c, early, s.claims[j].thread);
      StoppedAndExcluded(c, s, early, {t, s.claims[j].thread});
    } else {
      StoppedAndExcluded(c, s, early, {t});
    }
  }

  // ------------------------------------------- when all reports are genuine

  // What the next read of thread t leaves in the buffer behind whole records.
  function Remains(c: Config, s: State, t: nat): seq<Record>
    requires Shape(c, s) && t < |s.threads|
  {
    Stale(s.threads[t].buf, Min(c.chunk, |c.file| - s.offset), s.rest)
  }

  ghost predicate HarmlessRead(c: Config, s: State, t: nat) {
    Shape(c, s) && Enabled(s, t) && s.threads[t].pc.Claiming? ==> NoMatch(c, Remains(c, s, t))
  }

  // No stale record was reported, and none that is being scanned will be.
  ghost predicate NoStaleMatch(c: Config, s: State) {
    && (forall k :: 0 <= k < |s.reports| ==> s.reports[k].slot < |c.file|)
    && forall t :: 0 <= t < |s.threads| && s.threads[t].pc.Scanning? ==>
         s.threads[t].got <= |s.threads[t].buf| && NoMatch(c, s.threads[t].buf[s.threads[t].got..])
  }

  lemma NoStaleClaim(c: Config, s: State, t: nat)
    requires Shape(c, s) && NoStaleMatch(c, s) && Enabled(s, t) && s.threads[t].pc.Claiming? && HarmlessRead(c, s, t)
    ensures NoStaleMatch(c, Claim(c, s, t))
  {
    hide Matches, Stale;
    var me := Claim(c, s, t).threads[t];
    assert me.buf[me.got..] == Remains(c, s, t);
  }

  lemma NoStaleScan(c: Config, s: State, t: nat)
    requires Inv(c, s) && Shape(c, s) && NoStaleMatch(c, s) && t < |s.threads|
    requires s.threads[t].pc.Scanning? && s.threads[t].pc.i < c.chunk
    ensures NoStaleMatch(c, Scan(c, s, t))
  {
    hide Matches;
    var me := s.threads[t];
    assert ThreadInv(c, s, t);
    if me.pc.i >= me.got {
      assert me.buf[me.pc.i] == me.buf[me.got..][me.pc.i - me.got];
    }
  }

  lemma NoStaleStep(c: Config, s: State, t: nat)
    requires Inv(c, s) && Shape(c, s) && NoStaleMatch(c, s) && Enabled(s, t) && HarmlessRead(c, s, t)
    ensures NoStaleMatch(c, After(c, s, t))
  {
    hide Matches;
    match s.threads[t].pc
    case Claiming => NoStaleClaim(c, s, t);
    case Scanning(i) =>
      if i < c.chunk {
        NoStaleScan(c, s, t);
      }
  }

  lemma StaleHarmless(c: Config, buf: seq<Record>, got: nat, rest: seq<char>)
    requires got <= |buf| && (got < |buf| ==> NoMatch(c, buf[got + 1..]))
    requires got < |buf| ==> !Matches(c, if rest == [] then buf[got] else Overlay(buf[got], rest))
    ensures NoMatch(c, Stale(buf, got, rest))
  {
    hide Matches;
    if got < |buf| {
      assert buf[got..] == [buf[got]] + buf[got + 1..];
    }
  }

  // A short read by a thread before any other short read.
  lemma FirstShortRead(c: Config, start: State, s: State, t: nat)
    requires c.chunk >= 1 && IsStart(c, start) && Harmless(c, start)
    requires Inv(c, s) && Shape(c, s) && HistoryInv(c, start, s) && t < |s.threads| && s.threads[t].pc.Claiming?
    requires AllFull(c, s.claims) && s.offset + c.chunk > |c.file|
    ensures NoMatch(c, Remains(c, s, t))
  {
    hide Matches, NoMatch, Stops, HotUpTo, InStep, Stale, Inv, LaterShortRead;
    var n, me := |s.claims|, s.threads[t];
    assert Origin(c, start, s, t);
    LastReader(c, s, t);
    if n > 0 && s.claims[n - 1].thread != t {
      assert OtherReadsLast(c, start);
    }
    if me.buf != start.threads[t].buf || exists i :: 0 <= i < n && s.claims[i].thread == t {
      ReadIsShort(c, me.base);
      NotStaleLater(c, start, s, me.base);
      assert me.buf[LastSlot(c)] == c.file[me.base + LastSlot(c)];
      StaleOfClean(c, me.buf, LastSlot(c), c.tail);
    }
  }

  // When only the short read is left to thread t.
  lemma LastReader(c: Config, s: State, t: nat)
    requires c.chunk >= 1 && Inv(c, s) && ClaimsInv(c, s) && t < |s.threads|
    requires AllFull(c, s.claims) && s.offset + c.chunk > |c.file|
    requires forall i :: 0 <= i < |s.claims| && s.claims[i].thread == t ==> !Stops(c, s.claims[i])
    ensures s.offset == FullEnd(c) <= |c.file| && |c.file| - s.offset == LastSlot(c) && s.rest == c.tail
    ensures HotUpTo(c, FullEnd(c)) < |s.threads| && (s.claims == [] ==> FullEnd(c) == 0)
    ensures var n := |s.claims|;
      n > 0 ==>
        && s.claims[n - 1].base + c.chunk == FullEnd(c)
        && (s.claims[n - 1].thread != t ==> HotUpTo(c, FullEnd(c) - c.chunk) + 1 < |s.threads|)
  {
    hide Stops, NoMatch, HotUpTo, InStep;
    var n := |s.claims|;
    assert s.claims[..n] == s.claims;
    ThreadsLeft(c, s, n, t);
    ReadIsShort(c, s.offset);
    if n > 0 {
      assert AllFull(c, s.claims[..n - 1]);
      ThreadsLeft(c, s, n - 1, t);
    }
  }

  lemma NotStaleLater(c: Config, start: State, s: State, b: nat)
    requires IsStart(c, start) && FullChunk(c, b) && LaterShortRead(c, start, b)
    requires NoMatch(c, c.file[b..b + c.chunk])
    requires b + c.chunk == FullEnd(c) ==> HotUpTo(c, FullEnd(c)) < |start.threads|
    requires b + c.chunk != FullEnd(c) ==> OtherReadsLast(c, start)
    ensures c.tail == [] || !Matches(c, Overlay(c.file[b + LastSlot(c)], c.tail))
  {
  }

  lemma StaleOfClean(c: Config, buf: seq<Record>, got: nat, rest: seq<char>)
    requires got < |buf| && NoMatch(c, buf) && (rest == [] || !Matches(c, Overlay(buf[got], rest)))
    ensures NoMatch(c, Stale(buf, got, rest))
  {
    hide Matches;
    StaleHarmless(c, buf, got, rest);
  }

  // A read at the end gets nothing and leaves the buffer as it is.
  lemma RemainsAtEnd(c: Config, s: State, t: nat)
    requires Shape(c, s) && AtEnd(c, s) && t < |s.threads|
    ensures Remains(c, s, t) == s.threads[t].buf
  {
    hide Shape;
    assert Min(c.chunk, |c.file| - s.offset) == 0;
    assert Stale(s.threads[t].buf, 0, []) == s.threads[t].buf[0..] == s.threads[t].buf;
  }

  // If thread t has never read by then, the first short read was another's.
  lemma FreshAfterShort(c: Config, s: State, t: nat)
    requires c.chunk >= 1 && Inv(c, s) && ClaimsInv(c, s) && t < |s.threads| && !AllFull(c, s.claims)
    requires forall i :: 0 <= i < |s.claims| ==> s.claims[i].thread != t
    ensures HotUpTo(c, FullEnd(c)) + 1 < |s.threads|
  {
    hide Inv, Stops, HotUpTo, InStep, AllFull;
    var j := FirstShort(c, s.claims);
    ThreadsLeft(c, s, j, t);
    ReadIsShort(c, s.claims[j].base);
  }

  // A read after another thread's short read.
  lemma ReadAtEnd(c: Config, start: State, s: State, t: nat)
    requires c.chunk >= 1 && IsStart(c, start) && Harmless(c, start)
    requires Inv(c, s) && Shape(c, s) && HistoryInv(c, start, s) && t < |s.threads| && s.threads[t].pc.Claiming?
    requires !AllFull(c, s.claims)
    ensures NoMatch(c, Remains(c, s, t))
  {
    hide Inv, Shape, NoMatch, Stops, HotUpTo, FullChunk, LaterShortRead, FreshShortRead, Remains;
    assert Origin(c, start, s, t);
    RemainsAtEnd(c, s, t);
    if s.threads[t].buf == start.threads[t].buf && forall i :: 0 <= i < |s.claims| ==> s.claims[i].thread != t {
      FreshAfterShort(c, s, t);
    }
  }

  lemma {:induction false} FirstShort(c: Config, claims: seq<Read>) returns (j: nat)
    requires !AllFull(c, claims)
    ensures j < |claims| && claims[j].got != c.chunk && AllFull(c, claims[..j])
  {
    var n := |claims| - 1;
    if AllFull(c, claims[..n]) {
      j := n;
      assert forall i :: 0 <= i < n ==> claims[..n][i] == claims[i];
    } else {
      j := FirstShort(c, claims[..n]);
      assert claims[..n][..j] == claims[..j];
    }
  }

  lemma HarmlessReads(c: Config, start: State, s: State, t: nat)
    requires IsStart(c, start) && Harmless(c, start)
    requires Inv(c, s) && (c.chunk >= 1 ==> HistoryInv(c, start, s))
    ensures HarmlessRead(c, s, t)
  {
    hide Inv, Harmless, HistoryInv, NoMatch;
    if Shape(c, s) && Enabled(s, t) && s.threads[t].pc.Claiming? {
      if s.offset + c.chunk <= |c.file| {
        assert Remains(c, s, t) == [];
        NothingMatches(c);
      } else if AllFull(c, s.claims) {
        FirstShortRead(c, start, s, t);
      } else {
        ReadAtEnd(c, start, s, t);
      }
    }
  }

  lemma {:induction false} RunIsClean(c: Config, states: seq<State>, schedule: seq<nat>, k: nat)
    requires IsRun(c, states, schedule) && k < |states| && Harmless(c, states[0])
    ensures NoStaleMatch(c, states[k]) && (c.chunk >= 1 ==> HistoryInv(c, states[0], states[k]))
  {
    hide NoStaleMatch, HistoryInv, Inv, Shape, Harmless;
    if k == 0 {
      NothingStaleAtStart(c, states[0]);
      HistoryStart(c, states[0]);
    } else {
      RunIsClean(c, states, schedule, k - 1);
      RunKeepsInv(c, states, schedule, k - 1);
      HarmlessReads(c, states[0], states[k - 1], schedule[k - 1]);
      if c.chunk >= 1 {
        HistoryStep(c, states[0], states[k - 1], schedule[k - 1]);
      }
      NoStaleStep(c, states[k - 1], schedule[k - 1]);
    }
  }

  lemma NothingStaleAtStart(c: Config, start: State)
    requires IsStart(c, start)
    ensures NoStaleMatch(c, start)
  {
  }

  // If no match can be left behind, every interleaving reports matching records
  // of the file only, each once.
  lemma ReportsAreGenuineAndUnique(c: Config, states: seq<State>, schedule: seq<nat>, k: nat)
    requires IsRun(c, states, schedule) && k < |states| && Harmless(c, states[0])
    ensures GenuineReports(c, states[k].reports)
    ensures forall i, j :: 0 <= i < j < |states[k].reports| ==> states[k].reports[i].slot != states[k].reports[j].slot
  {
    RunIsClean(c, states, schedule, k);
    ReportsOfTheFile(c, states, schedule, k);
  }

  // ---------------------------------------------------- schedules that happen

  // Thread t scans the first n records of its buffer.
  lemma {:induction false} ScanTo(c: Config, start: State, s: State, t: nat, n: nat) returns (s': State)
    requires Reaches(c, start, s) && t < |s.threads| && s.threads[t].pc == Scanning(0)
    requires n <= c.chunk == |s.threads[t].buf|
    ensures Reaches(c, start, s') && s'.offset == s.offset && s'.rest == s.rest && |s'.threads| == |s.threads|
    ensures var me, me' := s.threads[t], s'.threads[t];
      && me' == me.(pc := Scanning(n), loop := me'.loop)
      && s'.threads == s.threads[t := me']
      && (NoMatch(c, me.buf[..n]) ==> me'.loop == me.loop && s'.reports == s.reports)
      && forall k :: 0 <= k < n && Matches(c, me.buf[k]) ==> Reported(s', me.base + k)
  {
    hide Matches, Reaches;
    if n == 0 {
      s' := s;
      ReachesThreads(s, t);
    } else {
      var prev := ScanTo(c, start, s, t, n - 1);
      s' := Step(c, start, prev, t);
      var me := s.threads[t];
      assert me.buf[..n] == me.buf[..n - 1] + [me.buf[n - 1]];
      forall k | 0 <= k < n && Matches(c, me.buf[k])
        ensures Reported(s', me.base + k)
      {
        if k < n - 1 {
          var r :| 0 <= r < |prev.reports| && prev.reports[r].slot == me.base + k;
          assert s'.reports[r].slot == me.base + k;
        } else {
          assert s'.reports[|prev.reports|].slot == me.base + k;
        }
      }
    }
  }

  lemma ReachesThreads(s: State, t: nat)
    requires t < |s.threads|
    ensures s.threads == s.threads[t := s.threads[t]]
  {
  }

  // Thread t reads a full chunk, finds nothing in it and is ready to read again.
  lemma ReadChunk(c: Config, start: State, s: State, t: nat) returns (s': State)
    requires Reaches(c, start, s) && t < |s.threads| && s.threads[t].pc.Claiming?
    requires c.chunk >= 1 && s.offset + c.chunk <= |c.file|
    requires NoMatch(c, c.file[s.offset..s.offset + c.chunk])
    ensures Reaches(c, start, s')
    ensures s'.offset == s.offset + c.chunk && s'.rest == s.rest && s'.reports == s.reports
    ensures s'.threads
         == s.threads[t := Thread(Claiming, c.file[s.offset..s.offset + c.chunk], s.offset, c.chunk, true)]
  {
    hide Matches, Reaches;
    ReachesInv(c, start, s);
    assert ThreadInv(c, s, t);
    s' := Step(c, start, s, t);
    var chunk := c.file[s.offset..s.offset + c.chunk];
    assert s'.threads[t].buf == chunk && chunk[..c.chunk] == chunk;
    s' := ScanTo(c, start, s', t, c.chunk);
    s' := Step(c, start, s', t);
  }

  // Thread u starts on a full chunk.
  lemma StartChunk(c: Config, start: State, s: State, u: nat) returns (s': State)
    requires Reaches(c, start, s) && u < |s.threads| && s.threads[u].pc.Claiming?
    requires s.offset + c.chunk <= |c.file|
    ensures Reaches(c, start, s') && s'.offset == s.offset + c.chunk && s'.rest == s.rest
    ensures |s'.threads| == |s.threads|
    ensures forall v :: 0 <= v < |s.threads| && v != u ==> s'.threads[v] == s.threads[v]
  {
    hide Reaches, Stale;
    s' := Step(c, start, s, u);
  }

  // From s to s' the full chunks up to position `to` were read, those without a
  // match by thread t and each of the others by one of `others`; `left` are those
  // of them that were not needed.
  ghost predicate Advanced(c: Config, s: State, s': State, t: nat, to: nat, others: set<nat>, left: set<nat>) {
    && s'.offset == to <= |c.file| && s'.rest == s.rest
    && t < |s.threads| == |s'.threads| && s'.threads[t].pc.Claiming?
    && left <= others
    && (forall u :: 0 <= u < |s.threads| && u != t && (u in left || u !in others) ==> s'.threads[u] == s.threads[u])
    && (s.offset < to && c.chunk <= to && NoMatch(c, c.file[to - c.chunk..to]) ==>
          s'.threads[t].buf == c.file[to - c.chunk..to])
  }

  ghost predicate ReadyToRead(s: State, others: set<nat>) {
    forall u :: u in others ==> u < |s.threads| && s.threads[u].pc.Claiming?
  }

  lemma AdvanceOne(c: Config, start: State, s: State, m: State, t: nat, others: set<nat>, left: set<nat>)
    returns (s': State, left': set<nat>)
    requires c.chunk >= 1 && Reaches(c, start, m) && m.offset + c.chunk <= |c.file|
    requires t !in others && ReadyToRead(s, others) && Advanced(c, s, m, t, m.offset, others, left)
    requires NoMatch(c, c.file[m.offset..m.offset + c.chunk]) || left != {}
    ensures Reaches(c, start, s') && Advanced(c, s, s', t, m.offset + c.chunk, others, left')
    ensures |left'| == |left| - if NoMatch(c, c.file[m.offset..m.offset + c.chunk]) then 0 else 1
  {
    hide NoMatch, Reaches;
    if NoMatch(c, c.file[m.offset..m.offset + c.chunk]) {
      s' := ReadChunk(c, start, m, t);
      left' := left;
    } else {
      var u :| u in left;
      s' := StartChunk(c, start, m, u);
      left' := left - {u};
    }
  }

  lemma {:induction false} Advance(c: Config, start: State, s: State, t: nat, others: set<nat>, to: nat)
    returns (s': State, left: set<nat>)
    requires Reaches(c, start, s) && t < |s.threads| && s.threads[t].pc.Claiming?
    requires t !in others && ReadyToRead(s, others)
    requires InStep(c, s.offset) && InStep(c, to) && s.offset <= to <= |c.file|
    requires HotUpTo(c, to) - HotUpTo(c, s.offset) <= |others|
    ensures Reaches(c, start, s') && Advanced(c, s, s', t, to, others, left)
    ensures |left| == |others| - (HotUpTo(c, to) - HotUpTo(c, s.offset))
    decreases (to)
  {
    hide NoMatch, Reaches, InStep, Advanced, ReadyToRead;
    if to == s.offset {
      s' := s;
      left := others;
      StandingStill(c, s, t, others);
    } else {
      var back := StepBack(c, s.offset, to);
      var m, spare := Advance(c, start, s, t, others, back);
      assert m.offset == back by {
        AdvancedTo(c, s, m, t, back, others, spare);
      }
      s', left := AdvanceOne(c, start, s, m, t, others, spare);
    }
  }

  lemma AdvancedTo(c: Config, s: State, s': State, t: nat, to: nat, others: set<nat>, left: set<nat>)
    requires Advanced(c, s, s', t, to, others, left)
    ensures s'.offset == to
  {
  }

  lemma StandingStill(c: Config, s: State, t: nat, others: set<nat>)
    requires t < |s.threads| && s.threads[t].pc.Claiming? && s.offset <= |c.file|
    ensures Advanced(c, s, s, t, s.offset, others, others)
  {
  }

  lemma StepBack(c: Config, a: nat, to: nat) returns (back: nat)
    requires InStep(c, a) && InStep(c, to) && a < to <= |c.file|
    ensures c.chunk >= 1 && a <= back == to - c.chunk && InStep(c, back)
    ensures HotUpTo(c, to) == HotUpTo(c, back) + if NoMatch(c, c.file[back..to]) then 0 else 1
  {
    hide NoMatch;
    NextInStep(c, a, to);
    back := to - c.chunk;
  }

  // A thread that reads with a match left behind what it gets reports it.
  lemma BadRead(c: Config, start: State, s: State, t: nat)
    requires Reaches(c, start, s) && Enabled(s, t) && !HarmlessRead(c, s, t)
    ensures !OnlyGenuineReports(c, start)
  {
    hide Matches, Reaches, Stale;
    var k: nat :| k < |Remains(c, s, t)| && Matches(c, Remains(c, s, t)[k]);
    ReachesInv(c, start, s);
    var got := Min(c.chunk, |c.file| - s.offset);
    var s' := Step(c, start, s, t);
    ReachesInv(c, start, s');
    var me := s'.threads[t];
    assert me.buf[me.got..] == Remains(c, s, t);
    assert me.buf[got + k] == Remains(c, s, t)[k];
    s' := ScanTo(c, start, s', t, got + k + 1);
    assert Reported(s', s.offset + (got + k));
    assert !GenuineReports(c, s'.reports);
  }

  ghost function Below(n: nat): (ts: set<nat>)
    ensures |ts| == n && forall t :: t in ts <==> 0 <= t < n
  {
    if n == 0 then {} else Below(n - 1) + {n - 1}
  }

  // All threads but two, and one other than t.
  lemma AllBut(c: Config, start: State, t: nat) returns (r: nat, others: set<nat>)
    requires IsStart(c, start) && t < |start.threads| && 2 <= |start.threads|
    ensures r < |start.threads| && r != t && r !in others && t !in others
    ensures |others| == |start.threads| - 2 && ReadyToRead(start, others)
  {
    r := if t == 0 then 1 else 0;
    others := Below(|start.threads|) - {t, r};
    assert |others| == |Below(|start.threads|)| - |{t, r}|;
  }

  lemma FreshAtEndReported(c: Config, start: State)
    requires c.chunk >= 1 && IsStart(c, start) && !FreshAtEnd(c, start)
    ensures !OnlyGenuineReports(c, start)
  {
    hide Matches, Reaches, OnlyGenuineReports, InStep, HotUpTo;
    var t: nat :| t < |start.threads| && !NoMatch(c, start.threads[t].buf);
    ReachesStart(c, start);
    FullEndInStep(c);
    NothingHot(c);
    var r, others := AllBut(c, start, t);
    var s, left := Advance(c, start, start, r, others, FullEnd(c));
    var m := Step(c, start, s, r);
    ReachesInv(c, start, m);
    assert Remains(c, m, t) == start.threads[t].buf;
    BadRead(c, start, m, t);
  }

  lemma NothingHot(c: Config)
    requires c.chunk >= 1
    ensures HotUpTo(c, 0) == 0
  {
  }

  // The state before the short read, reached without disturbing thread t.
  lemma ReachShortRead(c: Config, start: State, t: nat) returns (s: State)
    requires c.chunk >= 1 && IsStart(c, start) && t < |start.threads|
    requires FullEnd(c) < c.chunk || OtherReadsLast(c, start)
    ensures Reaches(c, start, s) && s.offset == FullEnd(c) && s.rest == c.tail && |s.threads| == |start.threads|
    ensures s.threads[t] == start.threads[t]
  {
    hide Matches, Reaches, InStep, HotUpTo;
    ReachesStart(c, start);
    FullEndInStep(c);
    NothingHot(c);
    if FullEnd(c) < c.chunk {
      ReadIsShort(c, 0);
      s := start;
    } else {
      var back := StepBack(c, 0, FullEnd(c));
      var r, others := AllBut(c, start, t);
      var left;
      s, left := Advance(c, start, start, r, others, back);
      s := StartChunk(c, start, s, r);
    }
  }

  lemma FreshShortReadReported(c: Config, start: State)
    requires c.chunk >= 1 && IsStart(c, start) && !FreshShortRead(c, start)
    ensures !OnlyGenuineReports(c, start)
  {
    hide Matches, Reaches, OnlyGenuineReports, InStep, HotUpTo, Stale, OtherReadsLast;
    var t: nat :| t < |start.threads| && !NoMatch(c, Stale(start.threads[t].buf, LastSlot(c), c.tail));
    var s := ReachShortRead(c, start, t);
    ReachesInv(c, start, s);
    BadRead(c, start, s, t);
  }

  lemma {:induction false} HotGrows(c: Config, a: nat, b: nat)
    requires InStep(c, a) && InStep(c, b) && a <= b <= |c.file|
    ensures HotUpTo(c, a) <= HotUpTo(c, b)
  {
    hide NoMatch, InStep;
    if a < b {
      var back := StepBack(c, a, b);
      HotGrows(c, a, back);
    }
  }

  // The state before the short read, thread 0 having read the chunk at b last.
  lemma ReachLaterShortRead(c: Config, start: State, b: nat) returns (s: State)
    requires IsStart(c, start) && FullChunk(c, b) && NoMatch(c, c.file[b..b + c.chunk])
    requires if b + c.chunk == FullEnd(c) then HotUpTo(c, FullEnd(c)) < |start.threads| else OtherReadsLast(c, start)
    ensures Reaches(c, start, s) && s.offset == FullEnd(c) && s.rest == c.tail && |s.threads| > 0
    ensures s.threads[0].pc.Claiming? && s.threads[0].buf == c.file[b..b + c.chunk]
  {
    hide Matches, NoMatch, Reaches, InStep, HotUpTo;
    ReachesStart(c, start);
    FullEndInStep(c);
    NothingHot(c);
    ReadIsShort(c, b);
    var left;
    if b + c.chunk == FullEnd(c) {
      var others := Below(|start.threads|) - {0};
      s, left := Advance(c, start, start, 0, others, FullEnd(c));
    } else {
      var back := StepBack(c, b + c.chunk, FullEnd(c));
      var r, others := AllBut(c, start, 0);
      HotGrows(c, b + c.chunk, back);
      s, left := Advance(c, start, start, 0, others, b + c.chunk);
      assert ReadyToRead(s, left);
      var m := s;
      s, left := Advance(c, start, m, r, left, back);
      s := StartChunk(c, start, s, r);
    }
  }

  lemma LaterShortReadReported(c: Config, start: State, b: nat)
    requires IsStart(c, start) && FullChunk(c, b) && !LaterShortRead(c, start, b)
    ensures !OnlyGenuineReports(c, start)
  {
    hide Matches, Reaches, OnlyGenuineReports, InStep, HotUpTo, OtherReadsLast;
    var s := ReachLaterShortRead(c, start, b);
    ReachesInv(c, start, s);
    assert s.threads[0].buf[LastSlot(c)] == c.file[b + LastSlot(c)];
    assert Remains(c, s, 0)[0] == Overlay(c.file[b + LastSlot(c)], c.tail);
    BadRead(c, start, s, 0);
  }

  // The exact condition, for any file, any fresh buffers and any number of threads.
  lemma GenuineIffHarmless(c: Config, start: State)
    requires IsStart(c, start)
    ensures OnlyGenuineReports(c, start) <==> Harmless(c, start)
  {
    hide Reaches, FreshAtEnd, FreshShortRead, LaterShortRead;
    if Harmless(c, start) {
      HarmlessIsGenuine(c, start);
    } else if !FreshAtEnd(c, start) {
      FreshAtEndReported(c, start);
    } else if !FreshShortRead(c, start) {
      FreshShortReadReported(c, start);
    } else {
      var b: nat :| FullChunk(c, b) && !LaterShortRead(c, start, b);
      LaterShortReadReported(c, start, b);
    }
  }

  lemma HarmlessIsGenuine(c: Config, start: State)
    requires IsStart(c, start) && Harmless(c, start)
    ensures OnlyGenuineReports(c, start)
  {
    hide Harmless;
    forall s | Reaches(c, start, s)
      ensures GenuineReports(c, s.reports)
    {
      var states, schedule :| IsRun(c, states, schedule) && states[0] == start && states[|schedule|] == s;
      ReportsAreGenuineAndUnique(c, states, schedule, |schedule|);
    }
  }

  // So for files of whole records: on every such file all reports are genuine,
  // for any number of threads, exactly when no fresh buffer holds a match.
  lemma GenuineIffBuffersClean(c: Config, start: State)
    requires IsStart(c, start) && c.tail == []
    ensures (forall file: seq<Record> :: OnlyGenuineReports(c.(file := file), start)) <==> CleanBuffers(c, start)
  {
    hide OnlyGenuineReports;
    if CleanBuffers(c, start) {
      forall file: seq<Record>
        ensures OnlyGenuineReports(c.(file := file), start)
      {
        var d := c.(file := file);
        assert forall r :: Matches(d, r) == Matches(c, r);
        assert forall rs :: NoMatch(c, rs) ==> NoMatch(d, rs);
        CleanIsHarmless(d, start);
        HarmlessIsGenuine(d, start);
      }
    } else {
      var t: nat :| t < |start.threads| && !NoMatch(c, start.threads[t].buf);
      var k: nat :| k < |start.threads[t].buf| && Matches(c, start.threads[t].buf[k]);
      var d := c.(file := []);
      ReachesStart(d, start);
      ReachesInv(d, start, start);
      assert Remains(d, start, t) == start.threads[t].buf;
      assert Matches(d, Remains(d, start, t)[k]);
      BadRead(d, start, start, t);
    }
  }

  lemma CleanIsHarmless(c: Config, start: State)
    requires IsStart(c, start) && CleanBuffers(c, start) && c.tail == []
    ensures Harmless(c, start)
  {
    hide Matches, HotUpTo, InStep, OtherReadsLast;
    if c.chunk >= 1 {
      forall t | 0 <= t < |start.threads|
        ensures NoMatch(c, Stale(start.threads[t].buf, LastSlot(c), c.tail))
      {
        assert NoMatch(c, start.threads[t].buf);
      }
    }
  }

  // At the end of a run that can leave no match behind, something has been
  // reported exactly when something matches.
  lemma FindsIffPresent(c: Config, states: seq<State>, schedule: seq<nat>)
    requires IsRun(c, states, schedule) && AllStopped(states[|schedule|]) && |states[0].threads| > 0
    requires Harmless(c, states[0])
    ensures states[|schedule|].reports != [] <==> exists p :: 0 <= p < |c.file| && Matches(c, c.file[p])
  {
    hide Harmless;
    var rs := states[|schedule|].reports;
    ReportsAreGenuineAndUnique(c, states, schedule, |schedule|);
    FindsWhatIsThere(c, states, schedule);
    if rs != [] {
      assert rs[0].slot < |c.file| && Matches(c, c.file[rs[0].slot]);
    }
  }

  // A record of 1024 bytes whose text is `text`.
  function RecordWith(text: string): Record
    requires NUL !in text && |text| <= 1019
  {
    "0000" + text + seq(1020 - |text|, _ => NUL)
  }

  // One thread, one record at a time, a file with one record that says xb and then
  // the five bytes 0000a, and the word ab.
  function CutConfig(): Config {
    Config([RecordWith("xb")], "0000a", 1, "ab")
  }

  function CutStart(): State {
    State(0, CutConfig().tail, [Thread(Claiming, [RecordWith("")], 0, 0, true)], [], {}, [])
  }

  lemma CutMatches()
    ensures !Matches(CutConfig(), RecordWith("xb")) && !Matches(CutConfig(), RecordWith(""))
    ensures Matches(CutConfig(), Overlay(RecordWith("xb"), CutConfig().tail))
  {
    NoLetterA("xb");
    NoLetterA("");
    CutOverlay();
    var r := RecordWith("ab");
    assert r[4..][..2] == "ab" && r[4..4] == [];
  }

  lemma NoLetterA(text: string)
    requires NUL !in text && |text| <= 1019 && 'a' !in text
    ensures !Matches(CutConfig(), RecordWith(text))
  {
    var r := RecordWith(text);
    forall i | ID_SIZE <= i <= |r| - 2
      ensures r[i..][..2] != "ab"
    {
      assert r[i..][..2][0] == r[i] != 'a';
    }
  }

  lemma CutOverlay()
    ensures Overlay(RecordWith("xb"), CutConfig().tail) == RecordWith("ab")
  {
  }

  // Clean buffers are not enough when the file ends inside a record: the last byte
  // falls on the x of the record before, and ab is reported.
  lemma CleanBuffersAreNotEnough() returns (c: Config, start: State)
    ensures IsStart(c, start) && CleanBuffers(c, start) && |start.threads| == 1
    ensures NoMatch(c, c.file) && !OnlyGenuineReports(c, start)
  {
    hide Matches, RecordWith, Overlay, OnlyGenuineReports;
    c, start := CutConfig(), CutStart();
    CutMatches();
    assert LastSlot(c) == 0 && FullEnd(c) == 1 && FullChunk(c, 0);
    assert c.file[0..1] == c.file && HotUpTo(c, 1) == HotUpTo(c, 0) == 0;
    assert !LaterShortRead(c, start, 0);
    GenuineIffHarmless(c, start);
  }
}

// Bubble sort of a file of fixed-size records through a file cursor (lab2/zad1),
// with the two interchangeable sets of file operations. Records are ordered by
// their first byte; the result is the stable sort of the file.
module RecordSort {
  import opened Options

  type Byte = b: int | 0 <= b < 256
  type Record = seq<Byte>

  // ------------------------------------------------- a file seen as records

  // Where record k starts.
  function Offset(k: nat, size: nat): nat {
    if k == 0 then 0 else Offset(k - 1, size) + size
  }

  lemma {:induction false} OffsetIsProduct(k: nat, size: nat)
    ensures Offset(k, size) == k * size
  {
    if k > 0 {
      OffsetIsProduct(k - 1, size);
      assert k * size == (k - 1) * size + size;
    }
  }

  lemma {:induction false} OffsetOrder(i: nat, j: nat, size: nat)
    requires i < j
    ensures Offset(i, size) + size <= Offset(j, size)
    ensures Offset(i + 1, size) == Offset(i, size) + size
    decreases j
  {
    if i + 1 < j {
      OffsetOrder(i, j - 1, size);
    }
  }

  ghost predicate HoldsRecords(bytes: seq<Byte>, size: nat, n: nat) {
    size > 0 && |bytes| == Offset(n, size)
  }

  ghost function RecordAt(bytes: seq<Byte>, size: nat, k: nat): Record
    requires Offset(k, size) + size <= |bytes|
  {
    bytes[Offset(k, size)..Offset(k, size) + size]
  }

  ghost function Records(bytes: seq<Byte>, size: nat, n: nat): (rs: seq<Record>)
    requires size > 0 && |bytes| >= Offset(n, size)
    ensures |rs| == n && forall k :: 0 <= k < n ==> |rs[k]| == size
  {
    if n == 0 then [] else Records(bytes, size, n - 1) + [RecordAt(bytes, size, n - 1)]
  }

  lemma {:induction false} RecordsIndex(bytes: seq<Byte>, size: nat, n: nat, k: nat)
    requires size > 0 && |bytes| >= Offset(n, size) && k < n
    ensures Offset(k, size) + size <= Offset(n, size) && Offset(k + 1, size) == Offset(k, size) + size
    ensures Records(bytes, size, n)[k] == RecordAt(bytes, size, k)
  {
    OffsetOrder(k, n, size);
    if k < n - 1 {
      RecordsIndex(bytes, size, n - 1, k);
    }
  }

  lemma {:induction false} RecordsOfPrefix(a: seq<Byte>, size: nat, n: nat, m: nat)
    requires size > 0 && Offset(n, size) <= m <= |a|
    ensures Records(a[..m], size, n) == Records(a, size, n)
  {
    if n > 0 {
      RecordsOfPrefix(a, size, n - 1, m);
      var lo, hi := Offset(n - 1, size), Offset(n, size);
      assert a[..m][lo..hi] == a[lo..hi];
    }
  }

  // Files with the same records have the same bytes.
  lemma {:induction false} RecordsDetermineBytes(a: seq<Byte>, b: seq<Byte>, size: nat, n: nat)
    requires HoldsRecords(a, size, n) && HoldsRecords(b, size, n)
    requires Records(a, size, n) == Records(b, size, n)
    ensures a == b
  {
    if n > 0 {
      var m := Offset(n - 1, size);
      RecordsOfPrefix(a, size, n - 1, m);
      RecordsOfPrefix(b, size, n - 1, m);
      var ra, rb := Records(a, size, n), Records(b, size, n);
      assert ra[..n - 1] == Records(a, size, n - 1) && rb[..n - 1] == Records(b, size, n - 1);
      RecordsDetermineBytes(a[..m], b[..m], size, n - 1);
      assert a == a[..m] + ra[n - 1] && b == b[..m] + rb[n - 1];
    }
  }

  // ------------------------------------------------------------ stable sorting

  ghost predicate Keyed(rs: seq<Record>) {
    forall k :: 0 <= k < |rs| ==> |rs[k]| > 0
  }

  ghost predicate SortedByFirstByte(rs: seq<Record>)
    requires Keyed(rs)
  {
    forall i, j :: 0 <= i < j < |rs| ==> rs[i][0] <= rs[j][0]
  }

  // The records with a given first byte, in file order.
  ghost function WithKey(rs: seq<Record>, key: Byte): (part: seq<Record>)
    requires Keyed(rs)
  {
    if rs == [] then []
    else
      var last := rs[|rs| - 1];
      WithKey(rs[..|rs| - 1], key) + if last[0] == key then [last] else []
  }

  // Sorted, and records with equal first bytes keep their order.
  ghost predicate StableSortOf(before: seq<Record>, after: seq<Record>)
    requires Keyed(before) && Keyed(after)
  {
    && SortedByFirstByte(after)
    && SameGroups(before, after)
  }

  ghost predicate SameGroups(before: seq<Record>, after: seq<Record>)
    requires Keyed(before) && Keyed(after)
  {
    forall key: Byte :: WithKey(after, key) == WithKey(before, key)
  }

  lemma {:induction false} GroupCounts(rs: seq<Record>, r: Record)
    requires Keyed(rs) && |r| > 0
    ensures multiset(WithKey(rs, r[0]))[r] == multiset(rs)[r]
  {
    if rs != [] {
      var front, last := rs[..|rs| - 1], rs[|rs| - 1];
      GroupCounts(front, r);
      assert rs == front + [last];
      var own := if last[0] == r[0] then [last] else [];
      assert WithKey(rs, r[0]) == WithKey(front, r[0]) + own;
      assert multiset(own)[r] == multiset([last])[r];
    }
  }

  lemma SameGroupsPermute(before: seq<Record>, after: seq<Record>)
    requires Keyed(before) && Keyed(after) && SameGroups(before, after)
    ensures multiset(before) == multiset(after)
  {
    forall r: Record
      ensures multiset(before)[r] == multiset(after)[r]
    {
      if |r| > 0 {
        GroupCounts(before, r);
        GroupCounts(after, r);
      } else {
        assert r !in before && r !in after;
      }
    }
  }

  lemma {:induction false} GroupOfLast(rs: seq<Record>, key: Byte)
    requires Keyed(rs)
    ensures WithKey(rs, key) != [] ==> exists k :: 0 <= k < |rs| && rs[k][0] == key
  {
    if rs != [] && rs[|rs| - 1][0] != key {
      GroupOfLast(rs[..|rs| - 1], key);
      if WithKey(rs, key) != [] {
        var k :| 0 <= k < |rs| - 1 && rs[..|rs| - 1][k][0] == key;
        assert rs[k][0] == key;
      }
    }
  }

  // There is only one stable sort.
  lemma {:induction false} StableSortIsUnique(before: seq<Record>, a: seq<Record>, b: seq<Record>)
    requires Keyed(before) && Keyed(a) && Keyed(b)
    requires StableSortOf(before, a) && StableSortOf(before, b)
    ensures a == b
  {
    SortedGroupsDetermine(a, b);
  }

  lemma LastsAgree(a: seq<Record>, b: seq<Record>)
    requires Keyed(a) && Keyed(b) && SortedByFirstByte(a) && SortedByFirstByte(b) && SameGroups(a, b)
    requires a != [] && b != []
    ensures a[|a| - 1] == b[|b| - 1]
  {
    var x, y := a[|a| - 1], b[|b| - 1];
    assert WithKey(a, y[0]) == WithKey(b, y[0]) && WithKey(a, x[0]) == WithKey(b, x[0]);
    GroupOfLast(a, y[0]);
    GroupOfLast(b, x[0]);
    assert x[0] == y[0];
    assert x == WithKey(a, x[0])[|WithKey(a, x[0])| - 1];
    assert y == WithKey(b, x[0])[|WithKey(b, x[0])| - 1];
  }

  lemma FrontsAgree(a: seq<Record>, b: seq<Record>)
    requires Keyed(a) && Keyed(b) && SameGroups(a, b)
    requires a != [] && b != [] && a[|a| - 1] == b[|b| - 1]
    ensures SameGroups(a[..|a| - 1], b[..|b| - 1])
  {
    var a', b', x := a[..|a| - 1], b[..|b| - 1], a[|a| - 1];
    forall key: Byte
      ensures WithKey(b', key) == WithKey(a', key)
    {
      var tail := if x[0] == key then [x] else [];
      assert WithKey(a, key) == WithKey(a', key) + tail;
      assert WithKey(b, key) == WithKey(b', key) + tail;
      SameFront(WithKey(a', key), WithKey(b', key), tail);
    }
  }

  lemma {:induction false} SortedGroupsDetermine(a: seq<Record>, b: seq<Record>)
    requires Keyed(a) && Keyed(b) && SortedByFirstByte(a) && SortedByFirstByte(b) && SameGroups(a, b)
    ensures a == b
  {
    hide WithKey;
    SameGroupsPermute(a, b);
    assert |multiset(a)| == |multiset(b)|;
    if a != [] {
      LastsAgree(a, b);
      FrontsAgree(a, b);
      SortedGroupsDetermine(a[..|a| - 1], b[..|b| - 1]);
      assert a == a[..|a| - 1] + [a[|a| - 1]] && b == b[..|b| - 1] + [b[|b| - 1]];
    }
  }

  lemma SameFront<T>(a: seq<T>, b: seq<T>, tail: seq<T>)
    requires a + tail == b + tail
    ensures a == b
  {
    assert |a| == |b|;
    assert a == (a + tail)[..|a|] && b == (b + tail)[..|b|];
  }

  // Where in rs the m-th record (counting from 0) with a given first byte is.
  ghost function At(rs: seq<Record>, key: Byte, m: nat): nat
    requires Keyed(rs) && m < |WithKey(rs, key)|
  {
    var n := |rs| - 1;
    if rs[n][0] == key && m == |WithKey(rs, key)| - 1 then n else At(rs[..n], key, m)
  }

  lemma {:induction false} AtIsThere(rs: seq<Record>, key: Byte, m: nat)
    requires Keyed(rs) && m < |WithKey(rs, key)|
    ensures At(rs, key, m) < |rs| && rs[At(rs, key, m)] == WithKey(rs, key)[m]
    ensures rs[At(rs, key, m)][0] == key
  {
    var n := |rs| - 1;
    if !(rs[n][0] == key && m == |WithKey(rs, key)| - 1) {
      AtIsThere(rs[..n], key, m);
    }
  }

  lemma {:induction false} AtGrows(rs: seq<Record>, key: Byte, m: nat, l: nat)
    requires Keyed(rs) && m < l < |WithKey(rs, key)|
    ensures At(rs, key, m) < At(rs, key, l)
  {
    var n := |rs| - 1;
    if rs[n][0] == key && l == |WithKey(rs, key)| - 1 {
      AtIsThere(rs[..n], key, m);
    } else {
      AtGrows(rs[..n], key, m, l);
    }
  }

  // How many records before record k have the same first byte.
  ghost function Rank(rs: seq<Record>, k: nat): nat
    requires Keyed(rs) && k < |rs|
  {
    |WithKey(rs[..k], rs[k][0])|
  }

  lemma {:induction false} RankOf(rs: seq<Record>, k: nat)
    requires Keyed(rs) && k < |rs|
    ensures Rank(rs, k) < |WithKey(rs, rs[k][0])| && WithKey(rs, rs[k][0])[Rank(rs, k)] == rs[k]
  {
    var n := |rs| - 1;
    if k == n {
      assert rs[..n] == rs[..k];
    } else {
      RankOf(rs[..n], k);
      assert rs[..n][..k] == rs[..k];
    }
  }

  lemma {:induction false} RankGrows(rs: seq<Record>, i: nat, j: nat)
    requires Keyed(rs) && i < j < |rs| && rs[i][0] == rs[j][0]
    ensures Rank(rs, i) < Rank(rs, j)
  {
    RankOf(rs[..j], i);
    assert rs[..j][..i] == rs[..i];
  }

  // Record i of `after` is record p[i] of `before`, each of them once.
  ghost predicate Permutes(before: seq<Record>, after: seq<Record>, p: seq<nat>) {
    && |p| == |after| == |before|
    && (forall i :: 0 <= i < |p| ==> p[i] < |before| && after[i] == before[p[i]])
    && (forall i, j :: 0 <= i < j < |p| ==> p[i] != p[j])
  }

  // What a stable sort is, in plain words: the first bytes do not decrease, the
  // records are those of before, and of two with equal first bytes the one that
  // was first still is.
  lemma StableSortMeans(before: seq<Record>, after: seq<Record>) returns (p: seq<nat>)
    requires Keyed(before) && Keyed(after) && StableSortOf(before, after)
    ensures Permutes(before, after, p)
    ensures forall i, j :: 0 <= i < j < |after| ==>
      after[i][0] < after[j][0] || (after[i][0] == after[j][0] && p[i] < p[j])
  {
    hide WithKey, At;
    SameGroupsPermute(before, after);
    assert |multiset(before)| == |multiset(after)|;
    forall k | 0 <= k < |after|
      ensures Rank(after, k) < |WithKey(before, after[k][0])|
    {
      RankOf(after, k);
      assert WithKey(after, after[k][0]) == WithKey(before, after[k][0]);
    }
    p := seq(|after|, k requires 0 <= k < |after| && Rank(after, k) < |WithKey(before, after[k][0])| =>
      At(before, after[k][0], Rank(after, k)));
    forall k | 0 <= k < |p|
      ensures p[k] < |before| && after[k] == before[p[k]]
    {
      RankOf(after, k);
      AtIsThere(before, after[k][0], Rank(after, k));
      assert WithKey(after, after[k][0]) == WithKey(before, after[k][0]);
    }
    forall i, j | 0 <= i < j < |p|
      ensures after[i][0] < after[j][0] || (after[i][0] == after[j][0] && p[i] < p[j])
    {
      if after[i][0] == after[j][0] {
        RankGrows(after, i, j);
        AtGrows(before, after[i][0], Rank(after, i), Rank(after, j));
      }
    }
    forall i, j | 0 <= i < j < |p|
      ensures p[i] != p[j]
    {
      assert before[p[i]] == after[i] && before[p[j]] == after[j];
    }
  }

  // Record k consists of the bytes from k * size on.
  lemma RecordBytes(bytes: seq<Byte>, size: nat, n: nat, k: nat, b: nat)
    requires HoldsRecords(bytes, size, n) && k < n && b < size
    ensures k * size + b < |bytes| && Records(bytes, size, n)[k][b] == bytes[k * size + b]
  {
    OffsetIsProduct(k, size);
    RecordsIndex(bytes, size, n, k);
  }

  ghost function Swapped(rs: seq<Record>, i: nat, j: nat): seq<Record>
    requires i < |rs| && j < |rs|
  {
    rs[i := rs[j]][j := rs[i]]
  }

  ghost function IfKey(r: Record, key: Byte): seq<Record>
    requires |r| > 0
  {
    if r[0] == key then [r] else []
  }

  lemma SwappedIs(rs: seq<Record>, i: nat, j: nat)
    requires i < |rs| && j < |rs|
    ensures Swapped(rs, i, j) == rs[i := rs[j]][j := rs[i]]
  {
  }

  lemma WithKeyLastTwo(rs: seq<Record>, key: Byte)
    requires Keyed(rs) && |rs| >= 2
    ensures WithKey(rs, key) == WithKey(rs[..|rs| - 2], key) + IfKey(rs[|rs| - 2], key) + IfKey(rs[|rs| - 1], key)
  {
    var front := rs[..|rs| - 1];
    assert front[..|front| - 1] == rs[..|rs| - 2];
  }

  lemma WithKeyLast(rs: seq<Record>, key: Byte)
    requires Keyed(rs) && rs != []
    ensures WithKey(rs, key) == WithKey(rs[..|rs| - 1], key) + IfKey(rs[|rs| - 1], key)
  {
  }

  // Swapping neighbours with different first bytes disturbs no group.
  lemma {:induction false} NeighbourSwapKeepsGroups(rs: seq<Record>, i: nat, key: Byte)
    requires Keyed(rs) && i + 1 < |rs| && rs[i][0] != rs[i + 1][0]
    ensures Keyed(Swapped(rs, i, i + 1))
    ensures WithKey(Swapped(rs, i, i + 1), key) == WithKey(rs, key)
  {
    hide WithKey;
    var n, t := |rs| - 1, Swapped(rs, i, i + 1);
    if i + 1 == n {
      WithKeyLastTwo(rs, key);
      WithKeyLastTwo(t, key);
      assert t[..n - 1] == rs[..n - 1];
    } else {
      assert t[..n] == Swapped(rs[..n], i, i + 1);
      NeighbourSwapKeepsGroups(rs[..n], i, key);
      WithKeyLast(rs, key);
      WithKeyLast(t, key);
    }
  }

  // ------------------------------------------------------------ file operations

  // What write(2) and fwrite leave when `data` goes to offset `at`.
  ghost function Overwrite(bytes: seq<Byte>, at: nat, data: seq<Byte>): seq<Byte>
    requires at <= |bytes|
  {
    bytes[..at] + data + if at + |data| <= |bytes| then bytes[at + |data|..] else []
  }

  lemma OverwriteLeavesLater(bytes: seq<Byte>, at: nat, data: seq<Byte>, lo: nat, hi: nat)
    requires at + |data| <= lo <= hi <= |bytes|
    ensures |Overwrite(bytes, at, data)| == |bytes|
    ensures Overwrite(bytes, at, data)[lo..hi] == bytes[lo..hi]
  {
  }

  lemma {:induction false} OverwriteRecord(bytes: seq<Byte>, size: nat, n: nat, k: nat, data: Record)
    requires size > 0 && |bytes| >= Offset(n, size) && k < n && |data| == size
    ensures Offset(k, size) + size <= |bytes|
    ensures |Overwrite(bytes, Offset(k, size), data)| == |bytes|
    ensures Records(Overwrite(bytes, Offset(k, size), data), size, n) == Records(bytes, size, n)[k := data]
  {
    OffsetOrder(k, n, size);
    var after := Overwrite(bytes, Offset(k, size), data);
    if k == n - 1 {
      RecordsOfPrefix(bytes, size, n - 1, Offset(k, size));
      RecordsOfPrefix(after, size, n - 1, Offset(k, size));
      assert after[..Offset(k, size)] == bytes[..Offset(k, size)];
      assert RecordAt(after, size, k) == data;
    } else {
      OverwriteRecord(bytes, size, n - 1, k, data);
      OffsetOrder(k, n - 1, size);
      OverwriteLeavesLater(bytes, Offset(k, size), data, Offset(n - 1, size), Offset(n, size));
    }
  }

  datatype Io = Sys | Lib

  class RecordFile {
    const io: Io
    const size: nat            // bytes_per_record
    var bytes: seq<Byte>
    var pos: nat
    var eof: bool              // the stream's end-of-file indicator (LIB only)

    constructor (io: Io, size: nat, bytes: seq<Byte>)
      ensures this.io == io && this.size == size && this.bytes == bytes && pos == 0 && !eof
    {
      this.io := io;
      this.size := size;
      this.bytes := bytes;
      pos := 0;
      eof := false;
    }

    // lseek and fseek to an absolute position; fseek also clears the indicator.
    method Seek(at: nat)
      modifies this`pos, this`eof
      ensures pos == at && !eof
    {
      pos := at;
      eof := false;
    }

    // read: whatever is left, up to `count` bytes.
    method Read(count: nat) returns (data: seq<Byte>)
      modifies this`pos
      ensures pos == if old(pos) >= |bytes| then old(pos)
                     else if old(pos) + count <= |bytes| then old(pos) + count else |bytes|
      ensures data == if old(pos) >= |bytes| then [] else bytes[old(pos)..pos]
    {
      if pos >= |bytes| {
        return [];
      }
      var end := if pos + count <= |bytes| then pos + count else |bytes|;
      data := bytes[pos..end];
      pos := end;
    }

    // fread of one item: complete, or not at all and the indicator set.
    method Fread(count: nat) returns (data: seq<Byte>, items: nat)
      requires count > 0
      modifies this`pos, this`eof
      ensures !old(eof) && old(pos) + count <= |bytes| ==>
        items == 1 && pos == old(pos) + count && data == bytes[old(pos)..pos] && !eof
      ensures old(eof) || old(pos) + count > |bytes| ==> items == 0 && eof
    {
      if eof {
        return [], 0;
      }
      data := Read(count);
      items := if |data| == count then 1 else 0;
      eof := items == 0;
    }

    method Write(data: seq<Byte>)
      requires pos <= |bytes|
      modifies this`bytes, this`pos
      ensures bytes == Overwrite(old(bytes), old(pos), data) && pos == old(pos) + |data|
    {
      bytes := bytes[..pos] + data + (if pos + |data| <= |bytes| then bytes[pos + |data|..] else []);
      pos := pos + |data|;
    }

    // get_next_record_sys_io. At the end of the file it starts over; a partial
    // record ends the program (None). The restart needs a record to find.
    method GetNextRecordSys() returns (record: Option<Record>)
      requires size > 0 && |bytes| > 0
      modifies this`pos, this`eof
      ensures var at := if old(pos) < |bytes| then old(pos) else 0;
              if at + size <= |bytes| then record == Some(bytes[at..at + size]) && pos == at + size
              else record == None
      ensures old(pos) < |bytes| ==> eof == old(eof)
      decreases if pos < |bytes| then 0 else 1
    {
      var buffer := Read(size);
      var bytesRead := |buffer|;
      if bytesRead == 0 {
        Seek(0);
        record := GetNextRecordSys();
      } else if bytesRead != size {
        record := None;
      } else {
        record := Some(buffer);
      }
    }

    // get_next_record_std_io. A short read ends the program; after a complete
    // one the indicator is clear, so the rewind is never taken.
    method GetNextRecordStd() returns (record: Option<Record>)
      requires size > 0
      modifies this`pos, this`eof
      ensures !old(eof) && old(pos) + size <= |bytes| ==>
        record == Some(bytes[old(pos)..old(pos) + size]) && pos == old(pos) + size && !eof
      ensures old(eof) || old(pos) + size > |bytes| ==> record == None
    {
      var buffer, items := Fread(size);
      if items != 1 {
        return None;
      }
      if eof {
        assert false;
      }
      record := Some(buffer);
    }

    method GetNextRecord() returns (record: Option<Record>)
      requires size > 0 && pos + size <= |bytes| && !eof
      modifies this`pos, this`eof
      ensures record == Some(bytes[old(pos)..old(pos) + size]) && pos == old(pos) + size && !eof
    {
      match io
      case Sys => record := GetNextRecordSys();
      case Lib => record := GetNextRecordStd();
    }

    method SetFileStart()
      modifies this`pos, this`eof
      ensures pos == 0 && !eof
    {
      Seek(0);
    }

    // swap_records_sys_io and swap_records_std_io differ only in the calls they
    // use to fetch the two records.
    method SwapRecords(a: nat, b: nat, ghost n: nat)
      requires HoldsRecords(bytes, size, n) && a < n && b < n && !eof
      modifies this`bytes, this`pos, this`eof
      ensures HoldsRecords(bytes, size, n) && pos == old(pos) && !eof
      ensures Records(bytes, size, n)
           == old(Records(bytes, size, n)[a := Records(bytes, size, n)[b]][b := Records(bytes, size, n)[a]])
    {
      var current := pos;
      OffsetIsProduct(a, size);
      OffsetIsProduct(b, size);
      RecordsIndex(bytes, size, n, a);
      RecordsIndex(bytes, size, n, b);
      Seek(a * size);
      var bufferA := Fetch();
      Seek(b * size);
      var tmp := Fetch();
      OverwriteRecord(bytes, size, n, a, tmp);
      Seek(a * size);
      Write(tmp);
      OverwriteRecord(bytes, size, n, b, bufferA);
      Seek(b * size);
      Write(bufferA);
      Seek(current);
    }

    method Fetch() returns (data: Record)
      requires size > 0 && pos + size <= |bytes| && !eof
      modifies this`pos, this`eof
      ensures data == bytes[old(pos)..old(pos) + size] && !eof
    {
      match io
      case Sys => data := Read(size);
      case Lib =>
        var items;
        data, items := Fread(size);
    }

    // perform_bubble_sort: each pass carries the largest first byte of the
    // unsorted part to its end.
    method PerformBubbleSort(n: nat)
      requires HoldsRecords(bytes, size, n)
      modifies this`bytes, this`pos, this`eof
      ensures HoldsRecords(bytes, size, n)
      ensures StableSortOf(old(Records(bytes, size, n)), Records(bytes, size, n))
    {
      ghost var before := Records(bytes, size, n);
      if n <= 1 {
        return;
      }
      var last := n - 1;
      while last >= 1
        invariant 0 <= last < n && HoldsRecords(bytes, size, n)
        invariant SameGroups(before, Records(bytes, size, n))
        invariant TailSorted(Records(bytes, size, n), last)
        decreases last
      {
        BubblePass(before, last, n);
        last := last - 1;
      }
    }

    // One pass: `previous` is record counter-1, and the cursor is just past it.
    method BubblePass(ghost before: seq<Record>, last: nat, ghost n: nat)
      requires HoldsRecords(bytes, size, n) && 1 <= last < n && Keyed(before)
      requires SameGroups(before, Records(bytes, size, n)) && TailSorted(Records(bytes, size, n), last)
      modifies this`bytes, this`pos, this`eof
      ensures HoldsRecords(bytes, size, n)
      ensures SameGroups(before, Records(bytes, size, n)) && TailSorted(Records(bytes, size, n), last - 1)
    {
      hide SameGroups, TailSorted, LargestOfPrefix, Records, StableSortOf, Swapped;
      SetFileStart();
      RecordsIndex(bytes, size, n, 0);
      var next := GetNextRecord();
      var previous := next.value;
      var counter := 1;
      PassStarts(Records(bytes, size, n));
      while counter <= last
        invariant 1 <= counter <= last + 1 && HoldsRecords(bytes, size, n) && !eof
        invariant pos == Offset(counter, size)
        invariant previous == Records(bytes, size, n)[counter - 1]
        invariant SameGroups(before, Records(bytes, size, n))
        invariant TailSorted(Records(bytes, size, n), last)
        invariant LargestOfPrefix(Records(bytes, size, n), counter - 1)
      {
        ghost var rs := Records(bytes, size, n);
        RecordsIndex(bytes, size, n, counter);
        next := GetNextRecord();
        var current := next.value;
        if current[0] < previous[0] {
          SwapRecords(counter - 1, counter, n);
          SwappedIs(rs, counter - 1, counter);
          SwapKeepsAll(before, rs, counter - 1, last);
        } else {
          previous := current;
          LargerIsLargest(rs, counter - 1);
        }
        counter := counter + 1;
      }
      PassEnds(Records(bytes, size, n), last);
    }
  }

  // Everything from position `last` on is in its final place.
  ghost predicate TailSorted(rs: seq<Record>, last: nat)
    requires Keyed(rs)
  {
    forall i, j :: 0 <= i < j < |rs| && last < j ==> rs[i][0] <= rs[j][0]
  }

  ghost predicate LargestOfPrefix(rs: seq<Record>, k: nat)
    requires Keyed(rs)
  {
    forall i :: 0 <= i < k < |rs| ==> rs[i][0] <= rs[k][0]
  }

  lemma PassStarts(rs: seq<Record>)
    requires Keyed(rs)
    ensures LargestOfPrefix(rs, 0)
  {
  }

  lemma LargerIsLargest(rs: seq<Record>, k: nat)
    requires Keyed(rs) && k + 1 < |rs| && LargestOfPrefix(rs, k) && rs[k][0] <= rs[k + 1][0]
    ensures LargestOfPrefix(rs, k + 1)
  {
  }

  lemma PassEnds(rs: seq<Record>, last: nat)
    requires Keyed(rs) && 1 <= last < |rs| && TailSorted(rs, last) && LargestOfPrefix(rs, last)
    ensures TailSorted(rs, last - 1)
  {
  }

  lemma SwapKeepsAll(before: seq<Record>, rs: seq<Record>, k: nat, last: nat)
    requires Keyed(before) && Keyed(rs) && k + 1 <= last < |rs| && rs[k + 1][0] < rs[k][0]
    requires SameGroups(before, rs) && TailSorted(rs, last) && LargestOfPrefix(rs, k)
    ensures Keyed(Swapped(rs, k, k + 1)) && Swapped(rs, k, k + 1)[k + 1] == rs[k]
    ensures SameGroups(before, Swapped(rs, k, k + 1))
    ensures TailSorted(Swapped(rs, k, k + 1), last) && LargestOfPrefix(Swapped(rs, k, k + 1), k + 1)
  {
    forall key: Byte
      ensures WithKey(Swapped(rs, k, k + 1), key) == WithKey(before, key)
    {
      NeighbourSwapKeepsGroups(rs, k, key);
    }
  }

  // The two sets of file operations leave the same file.
  lemma OperationSetsAgree(before: seq<Byte>, sys: seq<Byte>, lib: seq<Byte>, size: nat, n: nat)
    requires HoldsRecords(before, size, n) && HoldsRecords(sys, size, n) && HoldsRecords(lib, size, n)
    requires StableSortOf(Records(before, size, n), Records(sys, size, n))
    requires StableSortOf(Records(before, size, n), Records(lib, size, n))
    ensures sys == lib
  {
    StableSortIsUnique(Records(before, size, n), Records(sys, size, n), Records(lib, size, n));
    RecordsDetermineBytes(sys, lib, size, n);
  }
}
